/**
 * The regular expressions of the rule engine, written as sequences of atoms.
 *
 * Every pattern the analyzer passes to `re.search` is a concatenation of
 * literal characters, one negated character (`[^\.]`), the word boundary `\b`
 * and repetitions `\w+`, `\s*`, `\d+` and so on. `Matches` gives such a
 * sequence the meaning a backtracking regex engine gives it (some way of
 * cutting the text into pieces works); `Greedy` is a matcher that lets every
 * repetition take as much as it can and never backtracks. `GreedyIsRegex`
 * proves the two agree for every pattern in which no repetition can hand a
 * character to what follows it (`Separated`), and each pattern of the rule
 * engine is shown to be of that kind.
 *
 * Character classes follow Python's `re` on `str` patterns restricted to
 * ASCII: `\w` is `[A-Za-z0-9_]`, `\d` is `[0-9]`, `\s` is `Text.IsSpace`.
 */
module Patterns {
  import opened Text

  datatype Class = Word | Space | Digit

  predicate IsWordChar(c: char) {
    'a' <= c <= 'z' || 'A' <= c <= 'Z' || IsDigitChar(c) || c == '_'
  }

  predicate InClass(c: char, k: Class) {
    match k
    case Word => IsWordChar(c)
    case Space => IsSpace(c)
    case Digit => IsDigitChar(c)
  }

  /** No character is in both classes: whitespace shares nothing with `\w` or `\d`. */
  predicate Disjoint(k1: Class, k2: Class) {
    (k1 == Space) != (k2 == Space)
  }

  lemma DisjointClasses(c: char, k1: Class, k2: Class)
    requires Disjoint(k1, k2) && InClass(c, k2)
    ensures !InClass(c, k1)
  {
  }

  datatype Atom =
    | Char(c: char)               // the character itself
    | NotChar(c: char)            // `[^c]`: any one character but `c`
    | Boundary                    // `\b`
    | Rep(k: Class, plus: bool)   // `k+` when `plus`, `k*` otherwise

  type Pattern = seq<Atom>

  /** The atoms of a literal string. */
  function Lit(t: string): (p: Pattern)
    ensures |p| == |t|
  {
    if t == [] then [] else [Char(t[0])] + Lit(t[1..])
  }

  /** Every character of `s[i..j]` is in class `k`. */
  predicate Run(s: string, i: nat, j: nat, k: Class) {
    i <= j <= |s| && forall m :: i <= m < j ==> InClass(s[m], k)
  }

  /** The end of the longest run of class `k` starting at `i`. */
  function Skip(s: string, i: nat, k: Class): (j: nat)
    requires i <= |s|
    ensures Run(s, i, j, k) && (j == |s| || !InClass(s[j], k))
    decreases |s| - i
  {
    if i < |s| && InClass(s[i], k) then Skip(s, i + 1, k) else i
  }

  /** A run that cannot be extended is the one `Skip` finds. */
  lemma {:induction false} SkipUnique(s: string, i: nat, j: nat, k: Class)
    requires Run(s, i, j, k) && (j == |s| || !InClass(s[j], k))
    ensures Skip(s, i, k) == j
    decreases j - i
  {
    if i < j {
      SkipUnique(s, i + 1, j, k);
    }
  }

  /** `\b` at index `i`: exactly one of `s[i - 1]` and `s[i]` is a word character. */
  predicate WordBoundary(s: string, i: nat) {
    (0 < i <= |s| && IsWordChar(s[i - 1])) != (i < |s| && IsWordChar(s[i]))
  }

  /** `p` matches some piece of `s` that starts at `i`, in the backtracking sense. */
  ghost predicate Matches(s: string, p: Pattern, i: nat)
    requires i <= |s|
    decreases |p|
  {
    if p == [] then true
    else match p[0]
      case Char(c) => i < |s| && s[i] == c && Matches(s, p[1..], i + 1)
      case NotChar(c) => i < |s| && s[i] != c && Matches(s, p[1..], i + 1)
      case Boundary => WordBoundary(s, i) && Matches(s, p[1..], i)
      case Rep(k, plus) =>
        exists j: nat :: (if plus then i < j else i <= j) && Run(s, i, j, k) && Matches(s, p[1..], j)
  }

  /** `re.search(p, s)` finds a match: some start index admits one. */
  ghost predicate RegexSearch(s: string, p: Pattern) {
    exists i: nat | i <= |s| :: Matches(s, p, i)
  }

  /** The matcher without backtracking: each repetition takes its longest run. */
  predicate Greedy(s: string, p: Pattern, i: nat)
    requires i <= |s|
    decreases |p|
  {
    if p == [] then true
    else match p[0]
      case Char(c) => i < |s| && s[i] == c && Greedy(s, p[1..], i + 1)
      case NotChar(c) => i < |s| && s[i] != c && Greedy(s, p[1..], i + 1)
      case Boundary => WordBoundary(s, i) && Greedy(s, p[1..], i)
      case Rep(k, plus) => (plus ==> i < Skip(s, i, k)) && Greedy(s, p[1..], Skip(s, i, k))
  }

  /** The search the rule engine runs: some start index admits a greedy match. */
  predicate Search(s: string, p: Pattern) {
    exists i: nat | i <= |s| :: Greedy(s, p, i)
  }

  /** Every match of `p` begins with a character outside class `k`. */
  predicate StartsOutside(p: Pattern, k: Class)
    decreases |p|
  {
    p != [] &&
    match p[0]
      case Char(c) => !InClass(c, k)
      case NotChar(_) => false
      case Boundary => StartsOutside(p[1..], k)
      case Rep(k2, plus) => Disjoint(k, k2) && (plus || StartsOutside(p[1..], k))
  }

  /** No repetition in `p` can give away a character to the atoms after it:
      what follows a repetition is empty or starts outside its class. */
  predicate Separated(p: Pattern)
    decreases |p|
  {
    p == [] ||
    ((p[0].Rep? ==> p[1..] == [] || StartsOutside(p[1..], p[0].k)) && Separated(p[1..]))
  }

  lemma {:induction false} StartsOutsideBlocks(s: string, p: Pattern, k: Class, j: nat)
    requires StartsOutside(p, k) && j <= |s| && Matches(s, p, j)
    ensures j < |s| && !InClass(s[j], k)
    decreases |p|
  {
    match p[0]
    case Char(c) =>
    case NotChar(c) =>
    case Boundary =>
      StartsOutsideBlocks(s, p[1..], k, j);
    case Rep(k2, plus) =>
      var j2: nat :| (if plus then j < j2 else j <= j2) && Run(s, j, j2, k2) && Matches(s, p[1..], j2);
      if j < j2 {
        DisjointClasses(s[j], k, k2);
      } else {
        StartsOutsideBlocks(s, p[1..], k, j);
      }
  }

  /** For separated patterns the greedy matcher is exact. */
  lemma {:induction false} GreedyIsRegex(s: string, p: Pattern, i: nat)
    requires i <= |s| && Separated(p)
    ensures Greedy(s, p, i) <==> Matches(s, p, i)
    decreases |p|
  {
    if p != [] {
      match p[0]
      case Char(c) =>
        if i < |s| { GreedyIsRegex(s, p[1..], i + 1); }
      case NotChar(c) =>
        if i < |s| { GreedyIsRegex(s, p[1..], i + 1); }
      case Boundary =>
        GreedyIsRegex(s, p[1..], i);
      case Rep(k, plus) =>
        var j := Skip(s, i, k);
        GreedyIsRegex(s, p[1..], j);
        if Matches(s, p, i) {
          var j2: nat :| (if plus then i < j2 else i <= j2) && Run(s, i, j2, k) && Matches(s, p[1..], j2);
          if p[1..] != [] {
            StartsOutsideBlocks(s, p[1..], k, j2);
            SkipUnique(s, i, j2, k);
          }
        }
    }
  }

  /** `Search` is `re.search` for every separated pattern. */
  lemma SearchIsRegex(s: string, p: Pattern)
    requires Separated(p)
    ensures Search(s, p) <==> RegexSearch(s, p)
  {
    forall i: nat | i <= |s|
      ensures Greedy(s, p, i) <==> Matches(s, p, i)
    {
      GreedyIsRegex(s, p, i);
    }
  }

  lemma {:induction false} GreedyLit(s: string, t: string, i: nat)
    requires i <= |s|
    ensures Greedy(s, Lit(t), i) <==> OccursAt(s, t, i)
    decreases |t|
  {
    if t != [] {
      if i < |s| {
        GreedyLit(s, t[1..], i + 1);
        if i + |t| <= |s| {
          assert s[i..i + |t|] == [s[i]] + s[i + 1..i + |t|];
          assert t == [t[0]] + t[1..];
        }
      }
    }
  }

  /** A regex made of plain characters finds exactly the substring matches. */
  lemma SearchLit(s: string, t: string)
    ensures Search(s, Lit(t)) <==> Contains(s, t)
  {
    forall i: nat | i <= |s|
      ensures Greedy(s, Lit(t), i) <==> OccursAt(s, t, i)
    {
      GreedyLit(s, t, i);
    }
  }

  /** A greedy match of a pattern holding the atom `Char(c)` needs a `c` in the text. */
  lemma {:induction false} GreedyNeedsChar(s: string, p: Pattern, i: nat, c: char)
    requires i <= |s| && Char(c) in p && Greedy(s, p, i)
    ensures c in s
    decreases |p|
  {
    if p[0] == Char(c) {
      assert s[i] == c;
    } else {
      assert Char(c) in p[1..];
      match p[0]
      case Char(_) => GreedyNeedsChar(s, p[1..], i + 1, c);
      case NotChar(_) => GreedyNeedsChar(s, p[1..], i + 1, c);
      case Boundary => GreedyNeedsChar(s, p[1..], i, c);
      case Rep(k, _) => GreedyNeedsChar(s, p[1..], Skip(s, i, k), c);
    }
  }

  /** A pattern with the atom `Char(c)` finds nothing in a text without `c`. */
  lemma SearchNeedsChar(s: string, p: Pattern, c: char)
    requires Char(c) in p && c !in s
    ensures !Search(s, p)
  {
    if Search(s, p) {
      var i: nat :| i <= |s| && Greedy(s, p, i);
      GreedyNeedsChar(s, p, i, c);
    }
  }

  // The patterns of the rule engine.

  /** `\b(\w+)\s*\*\s*(\w+)\s*=` */
  const RawPointerPattern: Pattern :=
    [Boundary, Rep(Word, true), Rep(Space, false), Char('*'),
     Rep(Space, false), Rep(Word, true), Rep(Space, false), Char('=')]

  /** `\b(\w+)\s+(\w+)\[(\d+)\]` */
  const CArrayPattern: Pattern :=
    [Boundary, Rep(Word, true), Rep(Space, true), Rep(Word, true),
     Char('['), Rep(Digit, true), Char(']')]

  /** `\s*\d*\.\d+`, what follows `==` or `!=` in `(==|!=)\s*\d*\.\d+f?`. The
      trailing `f?` may match the empty string, so it never decides whether
      `re.search` finds a match, and is left out. */
  const FloatLiteralTail: Pattern :=
    [Rep(Space, false), Rep(Digit, false), Char('.'), Rep(Digit, true)]

  /** `[^\.]\d+\.\d+f?`, with the trailing `f?` left out as above. */
  const MagicNumberPattern: Pattern :=
    [NotChar('.'), Rep(Digit, true), Char('.'), Rep(Digit, true)]

  /** `const\s+float` */
  const ConstFloatPattern: Pattern := Lit("const") + [Rep(Space, true)] + Lit("float")

  /** `(\w+)\s+(\w+);` */
  const DeclarationPattern: Pattern :=
    [Rep(Word, true), Rep(Space, true), Rep(Word, true), Char(';')]

  /** `{t}\s+\w+;`, the pattern built for one primitive type name `t`. */
  function TypedDeclarationPattern(t: string): Pattern {
    Lit(t) + [Rep(Space, true), Rep(Word, true), Char(';')]
  }

  lemma {:induction false} SeparatedAfterLit(t: string, q: Pattern)
    requires Separated(q)
    ensures Separated(Lit(t) + q)
    decreases |t|
  {
    if t == [] {
      assert Lit(t) + q == q;
    } else {
      SeparatedAfterLit(t[1..], q);
      assert Lit(t) + q == [Char(t[0])] + (Lit(t[1..]) + q);
    }
  }

  // Each pattern of the rule engine can be run greedily.

  lemma RawPointerSeparated()
    ensures Separated(RawPointerPattern)
  {
  }

  lemma CArraySeparated()
    ensures Separated(CArrayPattern)
  {
  }

  lemma FloatComparisonSeparated()
    ensures Separated(Lit("==") + FloatLiteralTail) && Separated(Lit("!=") + FloatLiteralTail)
  {
    SeparatedAfterLit("==", FloatLiteralTail);
    SeparatedAfterLit("!=", FloatLiteralTail);
  }

  lemma MagicNumberSeparated()
    ensures Separated(MagicNumberPattern)
  {
  }

  lemma ConstFloatSeparated()
    ensures Separated(ConstFloatPattern)
  {
    SeparatedAfterLit("float", []);
    assert Lit("float") + [] == Lit("float");
    assert Lit("float")[0] == Char('f');
    SeparatedAfterLit("const", [Rep(Space, true)] + Lit("float"));
    assert Lit("const") + [Rep(Space, true)] + Lit("float") == Lit("const") + ([Rep(Space, true)] + Lit("float"));
  }

  lemma DeclarationSeparated()
    ensures Separated(DeclarationPattern)
  {
  }

  lemma TypedDeclarationSeparated(t: string)
    ensures Separated(TypedDeclarationPattern(t))
  {
    SeparatedAfterLit(t, [Rep(Space, true), Rep(Word, true), Char(';')]);
  }
}
