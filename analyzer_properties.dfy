/**
 * What `analyze_cpp_code` promises about its result: the contents of each
 * category, where every record comes from, which lines are reported, the
 * order of the records, and what `suggest_improvements` makes of them.
 */
module AnalyzerProperties {
  import opened Text
  import opened Patterns
  import opened CodeAnalyzer

  // The contents of each category.

  /** After line `i` went through `rules`, category `c` has grown by what the
      rules of `c` find on the line, in the order they are tested. */
  lemma {:induction false} LineIssues(a: Analysis, rules: seq<Rule>, lines: seq<string>, i: nat, c: Category)
    requires i < |lines|
    ensures Issues(Line(a, rules, lines, i), c) == Issues(a, c) + RulesAt(Only(rules, c), lines, i)
    decreases |rules|
  {
    if rules == [] {
      assert Issues(a, c) + [] == Issues(a, c);
    } else {
      var r := rules[0];
      var b := Extend(a, CategoryOf(r), FindingsAt(r, lines, i));
      LineIssues(b, rules[1..], lines, i, c);
      ExtendIssues(a, CategoryOf(r), FindingsAt(r, lines, i), c);
      if CategoryOf(r) == c {
        assert Only(rules, c)[0] == r;
        assert Only(rules, c)[1..] == Only(rules[1..], c);
        AppendAssoc(Issues(a, c), FindingsAt(r, lines, i), RulesAt(Only(rules[1..], c), lines, i));
      }
    }
  }

  /** Extending the list under one key leaves every other list as it was. */
  lemma ExtendIssues(a: Analysis, c: Category, fs: seq<Finding>, d: Category)
    ensures Issues(Extend(a, c, fs), d) == if d == c then Issues(a, c) + fs else Issues(a, d)
  {
  }

  /** A loop over the first `n` lines adds to category `c` what the scan of its rules for `c` finds. */
  lemma {:induction false} PassIssues(a: Analysis, rules: seq<Rule>, lines: seq<string>, n: nat, c: Category)
    requires n <= |lines|
    ensures Issues(Pass(a, rules, lines, n), c) == Issues(a, c) + Scan(Only(rules, c), lines, n)
  {
    if n == 0 {
      assert Issues(a, c) + [] == Issues(a, c);
    } else {
      PassIssues(a, rules, lines, n - 1, c);
      PassStep(a, rules, lines, n - 1, c);
    }
  }

  lemma PassStep(a: Analysis, rules: seq<Rule>, lines: seq<string>, i: nat, c: Category)
    requires i < |lines|
    requires Issues(Pass(a, rules, lines, i), c) == Issues(a, c) + Scan(Only(rules, c), lines, i)
    ensures Issues(Pass(a, rules, lines, i + 1), c) == Issues(a, c) + Scan(Only(rules, c), lines, i + 1)
  {
    var p := Pass(a, rules, lines, i);
    var o := Only(rules, c);
    LineIssues(p, rules, lines, i, c);
    Chain(Issues(a, c), Scan(o, lines, i), RulesAt(o, lines, i), Issues(p, c), Issues(Line(p, rules, lines, i), c));
  }

  lemma Chain(a: seq<Finding>, s: seq<Finding>, r: seq<Finding>, p: seq<Finding>, l: seq<Finding>)
    requires p == a + s && l == p + r
    ensures l == a + (s + r)
  {
  }

  /** A scan without rules finds nothing. */
  lemma {:induction false} ScanNothing(lines: seq<string>, n: nat)
    requires n <= |lines|
    ensures Scan([], lines, n) == []
  {
    if n > 0 {
      ScanNothing(lines, n - 1);
    }
  }

  lemma {:induction false} OnlyNone(rules: seq<Rule>, c: Category)
    requires forall k :: 0 <= k < |rules| ==> CategoryOf(rules[k]) != c
    ensures Only(rules, c) == []
    decreases |rules|
  {
    if rules != [] {
      OnlyNone(rules[1..], c);
    }
  }

  lemma {:induction false} OnlyAll(rules: seq<Rule>, c: Category)
    requires forall k :: 0 <= k < |rules| ==> CategoryOf(rules[k]) == c
    ensures Only(rules, c) == rules
    decreases |rules|
  {
    if rules != [] {
      OnlyAll(rules[1..], c);
      assert rules == [rules[0]] + rules[1..];
    }
  }

  /** A loop none of whose tests reports into `c` leaves the list under `c` as it was. */
  lemma PassKeeps(a: Analysis, rules: seq<Rule>, lines: seq<string>, n: nat, c: Category)
    requires n <= |lines|
    requires forall k :: 0 <= k < |rules| ==> CategoryOf(rules[k]) != c
    ensures Issues(Pass(a, rules, lines, n), c) == Issues(a, c)
  {
    PassIssues(a, rules, lines, n, c);
    OnlyNone(rules, c);
    ScanNothing(lines, n);
    assert Issues(a, c) + [] == Issues(a, c);
  }

  /** A loop all of whose tests report into `c` appends its whole scan to the list under `c`. */
  lemma PassAdds(a: Analysis, rules: seq<Rule>, lines: seq<string>, n: nat, c: Category)
    requires n <= |lines|
    requires forall k :: 0 <= k < |rules| ==> CategoryOf(rules[k]) == c
    ensures Issues(Pass(a, rules, lines, n), c) == Issues(a, c) + Scan(rules, lines, n)
  {
    PassIssues(a, rules, lines, n, c);
    OnlyAll(rules, c);
  }

  lemma OnlyOne(r: Rule, c: Category)
    ensures Only([r], c) == if CategoryOf(r) == c then [r] else []
  {
    assert [r][1..] == [];
  }

  /** Of a loop testing `r1` and then `r2`, only `r` reports into `c`. */
  lemma PassAddsOne(a: Analysis, r1: Rule, r2: Rule, r: Rule, lines: seq<string>, n: nat, c: Category)
    requires n <= |lines| && (r == r1 || r == r2)
    requires CategoryOf(r) == c && CategoryOf(if r == r1 then r2 else r1) != c
    ensures Issues(Pass(a, [r1, r2], lines, n), c) == Issues(a, c) + Scan([r], lines, n)
  {
    PassIssues(a, [r1, r2], lines, n, c);
    assert [r1, r2][1..] == [r2];
    OnlyOne(r2, c);
    if r == r1 {
      assert [r1] + [] == [r1];
    }
  }

  /** The lists under every key decide the dictionary. */
  lemma SameIssues(a: Analysis, b: Analysis)
    requires forall c :: Issues(a, c) == Issues(b, c)
    ensures a == b
  {
    assert Issues(a, PerformanceIssues) == Issues(b, PerformanceIssues);
    assert Issues(a, MemoryManagement) == Issues(b, MemoryManagement);
    assert Issues(a, CodeStyle) == Issues(b, CodeStyle);
    assert Issues(a, ModernCpp) == Issues(b, ModernCpp);
    assert Issues(a, GameSpecific) == Issues(b, GameSpecific);
    assert Issues(a, PotentialBugs) == Issues(b, PotentialBugs);
  }

  /** A loop with one test extends the list of that test's category by its scan. */
  lemma OneTestPass(a: Analysis, r: Rule, lines: seq<string>, n: nat)
    requires n <= |lines|
    ensures Pass(a, [r], lines, n) == Extend(a, CategoryOf(r), Scan([r], lines, n))
  {
    forall c
      ensures Issues(Pass(a, [r], lines, n), c) == Issues(Extend(a, CategoryOf(r), Scan([r], lines, n)), c)
    {
      ExtendIssues(a, CategoryOf(r), Scan([r], lines, n), c);
      if c == CategoryOf(r) {
        PassAdds(a, [r], lines, n, c);
      } else {
        PassKeeps(a, [r], lines, n, c);
      }
    }
    SameIssues(Pass(a, [r], lines, n), Extend(a, CategoryOf(r), Scan([r], lines, n)));
  }

  /** A loop with two tests of one category extends that list by their line-by-line scan. */
  lemma SharedTestPass(a: Analysis, r1: Rule, r2: Rule, lines: seq<string>, n: nat)
    requires n <= |lines| && CategoryOf(r1) == CategoryOf(r2)
    ensures Pass(a, [r1, r2], lines, n) == Extend(a, CategoryOf(r1), Scan([r1, r2], lines, n))
  {
    forall c
      ensures Issues(Pass(a, [r1, r2], lines, n), c) == Issues(Extend(a, CategoryOf(r1), Scan([r1, r2], lines, n)), c)
    {
      ExtendIssues(a, CategoryOf(r1), Scan([r1, r2], lines, n), c);
      if c == CategoryOf(r1) {
        PassAdds(a, [r1, r2], lines, n, c);
      } else {
        PassKeeps(a, [r1, r2], lines, n, c);
      }
    }
    SameIssues(Pass(a, [r1, r2], lines, n), Extend(a, CategoryOf(r1), Scan([r1, r2], lines, n)));
  }

  /** A loop with two tests of different categories extends each test's list by that test's scan. */
  lemma SplitTestPass(a: Analysis, r1: Rule, r2: Rule, lines: seq<string>, n: nat)
    requires n <= |lines| && CategoryOf(r1) != CategoryOf(r2)
    ensures Pass(a, [r1, r2], lines, n) ==
      Extend(Extend(a, CategoryOf(r1), Scan([r1], lines, n)), CategoryOf(r2), Scan([r2], lines, n))
  {
    var b := Extend(a, CategoryOf(r1), Scan([r1], lines, n));
    var d := Extend(b, CategoryOf(r2), Scan([r2], lines, n));
    forall c
      ensures Issues(Pass(a, [r1, r2], lines, n), c) == Issues(d, c)
    {
      ExtendIssues(a, CategoryOf(r1), Scan([r1], lines, n), c);
      ExtendIssues(b, CategoryOf(r2), Scan([r2], lines, n), c);
      if c == CategoryOf(r1) {
        PassAddsOne(a, r1, r2, r1, lines, n, c);
      } else if c == CategoryOf(r2) {
        PassAddsOne(a, r1, r2, r2, lines, n, c);
      } else {
        PassKeeps(a, [r1, r2], lines, n, c);
      }
    }
    SameIssues(Pass(a, [r1, r2], lines, n), d);
  }

  /** The category each rule reports into. */
  lemma RuleCategories()
    ensures CategoryOf(RawPointer) == MemoryManagement
    ensures CategoryOf(CStyleArray) == ModernCpp && CategoryOf(IndexLoop) == ModernCpp
    ensures CategoryOf(SqrtInLoop) == PerformanceIssues && CategoryOf(StringInHotPath) == PerformanceIssues
    ensures CategoryOf(FloatComparison) == GameSpecific && CategoryOf(MagicNumber) == CodeStyle
    ensures CategoryOf(UninitializedPrimitive) == PotentialBugs && CategoryOf(NullDereference) == PotentialBugs
  {
  }

  /** `Extend` under each key, as an update of that key's field. */
  lemma ExtendFields(a: Analysis, fs: seq<Finding>)
    ensures Extend(a, PerformanceIssues, fs) == a.(performanceIssues := a.performanceIssues + fs)
    ensures Extend(a, MemoryManagement, fs) == a.(memoryManagement := a.memoryManagement + fs)
    ensures Extend(a, CodeStyle, fs) == a.(codeStyle := a.codeStyle + fs)
    ensures Extend(a, ModernCpp, fs) == a.(modernCpp := a.modernCpp + fs)
    ensures Extend(a, GameSpecific, fs) == a.(gameSpecific := a.gameSpecific + fs)
    ensures Extend(a, PotentialBugs, fs) == a.(potentialBugs := a.potentialBugs + fs)
  {
  }

  /** The raw-pointer loop adds its findings to memory_management only. */
  lemma RawPointerLoop(a: Analysis, lines: seq<string>)
    ensures Pass(a, [RawPointer], lines, |lines|) ==
      a.(memoryManagement := a.memoryManagement + Scan([RawPointer], lines, |lines|))
  {
    RuleCategories();
    ExtendFields(a, Scan([RawPointer], lines, |lines|));
    OneTestPass(a, RawPointer, lines, |lines|);
  }

  /** The C-style array loop adds its findings to modern_cpp only. */
  lemma CStyleArrayLoop(a: Analysis, lines: seq<string>)
    ensures Pass(a, [CStyleArray], lines, |lines|) ==
      a.(modernCpp := a.modernCpp + Scan([CStyleArray], lines, |lines|))
  {
    RuleCategories();
    ExtendFields(a, Scan([CStyleArray], lines, |lines|));
    OneTestPass(a, CStyleArray, lines, |lines|);
  }

  /** The index-loop loop adds its findings to modern_cpp only. */
  lemma IndexLoopLoop(a: Analysis, lines: seq<string>)
    ensures Pass(a, [IndexLoop], lines, |lines|) ==
      a.(modernCpp := a.modernCpp + Scan([IndexLoop], lines, |lines|))
  {
    RuleCategories();
    ExtendFields(a, Scan([IndexLoop], lines, |lines|));
    OneTestPass(a, IndexLoop, lines, |lines|);
  }

  /** The performance loop adds the findings of both its tests, line by line, to performance_issues only. */
  lemma PerformanceLoop(a: Analysis, lines: seq<string>)
    ensures Pass(a, [SqrtInLoop, StringInHotPath], lines, |lines|) ==
      a.(performanceIssues := a.performanceIssues + Scan([SqrtInLoop, StringInHotPath], lines, |lines|))
  {
    RuleCategories();
    ExtendFields(a, Scan([SqrtInLoop, StringInHotPath], lines, |lines|));
    SharedTestPass(a, SqrtInLoop, StringInHotPath, lines, |lines|);
  }

  /** The game loop adds float comparisons to game_specific and magic numbers to code_style. */
  lemma GameLoop(a: Analysis, lines: seq<string>)
    ensures Pass(a, [FloatComparison, MagicNumber], lines, |lines|) ==
      a.(gameSpecific := a.gameSpecific + Scan([FloatComparison], lines, |lines|),
         codeStyle := a.codeStyle + Scan([MagicNumber], lines, |lines|))
  {
    RuleCategories();
    ExtendFields(a, Scan([FloatComparison], lines, |lines|));
    ExtendFields(Extend(a, GameSpecific, Scan([FloatComparison], lines, |lines|)), Scan([MagicNumber], lines, |lines|));
    SplitTestPass(a, FloatComparison, MagicNumber, lines, |lines|);
  }

  /** The potential-bug loop adds the findings of both its tests, line by line, to potential_bugs only. */
  lemma BugsLoop(a: Analysis, lines: seq<string>)
    ensures Pass(a, [UninitializedPrimitive, NullDereference], lines, |lines|) ==
      a.(potentialBugs := a.potentialBugs + Scan([UninitializedPrimitive, NullDereference], lines, |lines|))
  {
    RuleCategories();
    ExtendFields(a, Scan([UninitializedPrimitive, NullDereference], lines, |lines|));
    SharedTestPass(a, UninitializedPrimitive, NullDereference, lines, |lines|);
  }

  /** The result of `analyze_cpp_code`, key by key: performance_issues holds
      the sqrt and string findings line by line, memory_management the raw
      pointers, code_style the magic numbers, modern_cpp every C-style array
      finding followed by every index-loop finding, game_specific the float
      comparisons, and potential_bugs the uninitialized-variable and null
      findings line by line. */
  lemma AnalysisContents(code: string)
    ensures var lines := Split(code, '\n');
      var n := |lines|;
      AnalysisOf(code) == Analysis(
        Scan([SqrtInLoop, StringInHotPath], lines, n),
        Scan([RawPointer], lines, n),
        Scan([MagicNumber], lines, n),
        Scan([CStyleArray], lines, n) + Scan([IndexLoop], lines, n),
        Scan([FloatComparison], lines, n),
        Scan([UninitializedPrimitive, NullDereference], lines, n))
  {
    var lines := Split(code, '\n');
    var n := |lines|;
    var memory := Pass(EmptyAnalysis, [RawPointer], lines, n);
    var arrays := Pass(memory, [CStyleArray], lines, n);
    var loops := Pass(arrays, [IndexLoop], lines, n);
    var performance := Pass(loops, [SqrtInLoop, StringInHotPath], lines, n);
    var game := Pass(performance, [FloatComparison, MagicNumber], lines, n);
    RawPointerLoop(EmptyAnalysis, lines);
    CStyleArrayLoop(memory, lines);
    IndexLoopLoop(arrays, lines);
    PerformanceLoop(loops, lines);
    GameLoop(performance, lines);
    BugsLoop(game, lines);
    var e: seq<Finding> := [];
    assert e + Scan([RawPointer], lines, n) == Scan([RawPointer], lines, n);
    assert e + Scan([CStyleArray], lines, n) == Scan([CStyleArray], lines, n);
    assert e + Scan([SqrtInLoop, StringInHotPath], lines, n) == Scan([SqrtInLoop, StringInHotPath], lines, n);
    assert e + Scan([FloatComparison], lines, n) == Scan([FloatComparison], lines, n);
    assert e + Scan([MagicNumber], lines, n) == Scan([MagicNumber], lines, n);
    assert e + Scan([UninitializedPrimitive, NullDereference], lines, n)
      == Scan([UninitializedPrimitive, NullDereference], lines, n);
  }

  // Where every record comes from.

  /** Line `i` passes the test of rule `r` and, for the uninitialized-variable
      rule, matches the declaration pattern of at least one primitive type. */
  predicate Reports(r: Rule, lines: seq<string>, i: nat)
    requires i < |lines|
  {
    Fires(r, lines, i) && (r == UninitializedPrimitive ==> TypesDeclared(lines[i], |PrimitiveTypes|) != [])
  }

  /** The primitive types among the first `k` whose declaration pattern `line` matches, in order. */
  function TypesDeclared(line: string, k: nat): seq<string>
    requires k <= |PrimitiveTypes|
  {
    if k == 0 then []
    else TypesDeclared(line, k - 1) + (if DeclaresType(line, PrimitiveTypes[k - 1]) then [PrimitiveTypes[k - 1]] else [])
  }

  /** The per-type loop appends the record of the line once per declared type. */
  lemma {:induction false} TypeHitsCount(lines: seq<string>, i: nat, k: nat)
    requires i < |lines| && k <= |PrimitiveTypes|
    ensures |TypeHits(lines, i, k)| == |TypesDeclared(lines[i], k)|
  {
    if k > 0 {
      TypeHitsCount(lines, i, k - 1);
    }
  }

  /** Every record of the per-type loop is the record of the line. */
  lemma {:induction false} TypeHitsRecord(lines: seq<string>, i: nat, k: nat)
    requires i < |lines| && k <= |PrimitiveTypes|
    ensures forall f :: f in TypeHits(lines, i, k) ==> f == FindingAt(UninitializedPrimitive, lines, i)
  {
    if k > 0 {
      TypeHitsRecord(lines, i, k - 1);
    }
  }

  /** Every type `TypesDeclared` lists is a primitive type whose declaration pattern the line matches. */
  lemma {:induction false} TypesDeclaredSound(line: string, k: nat)
    requires k <= |PrimitiveTypes|
    ensures forall t :: t in TypesDeclared(line, k) ==> t in PrimitiveTypes && DeclaresType(line, t)
  {
    if k > 0 {
      TypesDeclaredSound(line, k - 1);
    }
  }

  /** Every primitive type among the first `k` whose declaration pattern the line matches is listed. */
  lemma {:induction false} TypesDeclaredComplete(line: string, k: nat, j: nat)
    requires j < k <= |PrimitiveTypes| && DeclaresType(line, PrimitiveTypes[j])
    ensures PrimitiveTypes[j] in TypesDeclared(line, k)
  {
    if j < k - 1 {
      TypesDeclaredComplete(line, k - 1, j);
    }
  }

  /** What one rule gives for one line: the line's record, once (or, for the
      uninitialized-variable rule, once per declared type) when the rule
      reports the line, and nothing otherwise. */
  lemma FindingsAtShape(r: Rule, lines: seq<string>, i: nat)
    requires i < |lines|
    ensures forall f :: f in FindingsAt(r, lines, i) ==> f == FindingAt(r, lines, i)
    ensures FindingsAt(r, lines, i) != [] <==> Reports(r, lines, i)
    ensures Reports(r, lines, i) ==> FindingAt(r, lines, i) in FindingsAt(r, lines, i)
    ensures |FindingsAt(r, lines, i)| ==
      if !Fires(r, lines, i) then 0
      else if r == UninitializedPrimitive then |TypesDeclared(lines[i], |PrimitiveTypes|)|
      else 1
  {
    TypeHitsCount(lines, i, |PrimitiveTypes|);
    TypeHitsRecord(lines, i, |PrimitiveTypes|);
    var s := FindingsAt(r, lines, i);
    if s != [] {
      assert s[0] in s;
    }
  }

  /** The records several rules give for one line are records of that line
      from rules that report it. */
  lemma {:induction false} RulesAtSound(rules: seq<Rule>, lines: seq<string>, i: nat)
    requires i < |lines|
    ensures forall f :: f in RulesAt(rules, lines, i) ==>
      f.rule in rules && f == FindingAt(f.rule, lines, i) && Reports(f.rule, lines, i)
    decreases |rules|
  {
    if rules != [] {
      FindingsAtShape(rules[0], lines, i);
      RulesAtSound(rules[1..], lines, i);
    }
  }

  /** Every rule that reports a line contributes its record for that line. */
  lemma {:induction false} RulesAtComplete(rules: seq<Rule>, lines: seq<string>, i: nat, r: Rule)
    requires i < |lines| && r in rules && Reports(r, lines, i)
    ensures FindingAt(r, lines, i) in RulesAt(rules, lines, i)
    decreases |rules|
  {
    if r == rules[0] {
      FindingsAtShape(r, lines, i);
    } else {
      RulesAtComplete(rules[1..], lines, i, r);
    }
  }

  lemma {:induction false} ConcatHas(per: nat -> seq<Finding>, n: nat, i: nat, f: Finding)
    requires i < n && f in per(i)
    ensures f in Concat(per, n)
  {
    if i < n - 1 {
      ConcatHas(per, n - 1, i, f);
    }
  }

  lemma {:induction false} ConcatWhere(per: nat -> seq<Finding>, n: nat, f: Finding) returns (i: nat)
    requires f in Concat(per, n)
    ensures i < n && f in per(i)
  {
    if f in per(n - 1) {
      i := n - 1;
    } else {
      i := ConcatWhere(per, n - 1, f);
    }
  }

  /** Every record of a scan over the first `n` lines is the record of a line
      among them that its rule reports. */
  lemma ScanSound(rules: seq<Rule>, lines: seq<string>, n: nat, f: Finding) returns (i: nat)
    requires n <= |lines| && f in Scan(rules, lines, n)
    ensures i < n && f.rule in rules && f == FindingAt(f.rule, lines, i) && Reports(f.rule, lines, i)
  {
    i := ConcatWhere(LineRecords(rules, lines), n, f);
    RulesAtSound(rules, lines, i);
  }

  /** Every line among the first `n` that a rule of the scan reports is recorded. */
  lemma ScanComplete(rules: seq<Rule>, lines: seq<string>, n: nat, r: Rule, i: nat)
    requires i < n <= |lines| && r in rules && Reports(r, lines, i)
    ensures FindingAt(r, lines, i) in Scan(rules, lines, n)
  {
    RulesAtComplete(rules, lines, i, r);
    ConcatHas(LineRecords(rules, lines), n, i, FindingAt(r, lines, i));
  }
}
