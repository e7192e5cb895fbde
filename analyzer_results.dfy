/**
 * What the dictionary `analyze_cpp_code` returns holds, stated for any input:
 * which records each key holds and where each comes from, exactly which
 * lines are reported, in what order, and what each detector tests, read
 * as the regular expression the source writes.
 */
module AnalyzerResults {
  import opened Text
  import opened Patterns
  import opened CodeAnalyzer
  import opened AnalyzerProperties

  // Where each record comes from, and which lines are reported.

  /** Every record under a key is the record of one of the lines of `code`,
      numbered from 1, holding the stripped line and no replacement, written
      by a rule of that key that reports the line. */
  lemma Placement(code: string, c: Category, f: Finding) returns (i: nat)
    requires f in Issues(AnalysisOf(code), c)
    ensures var lines := Split(code, '\n');
      && i < |lines|
      && f.line == i + 1 && f.code == Strip(lines[i]) && f.replacement == None
      && CategoryOf(f.rule) == c && Reports(f.rule, lines, i)
  {
    var lines := Split(code, '\n');
    var rules := ScanOf(code, c, f);
    i := ScanSound(rules, lines, |lines|, f);
  }

  /** The scan under key `c` that holds `f`, and the rules of that scan, all of key `c`. */
  lemma ScanOf(code: string, c: Category, f: Finding) returns (rules: seq<Rule>)
    requires f in Issues(AnalysisOf(code), c)
    ensures var lines := Split(code, '\n');
      && f in Scan(rules, lines, |lines|)
      && forall r :: r in rules ==> CategoryOf(r) == c
  {
    var lines := Split(code, '\n');
    var n := |lines|;
    AnalysisContents(code);
    RuleCategories();
    match c
    case PerformanceIssues => rules := [SqrtInLoop, StringInHotPath];
    case MemoryManagement => rules := [RawPointer];
    case CodeStyle => rules := [MagicNumber];
    case ModernCpp =>
      rules := if f in Scan([CStyleArray], lines, n) then [CStyleArray] else [IndexLoop];
    case GameSpecific => rules := [FloatComparison];
    case PotentialBugs => rules := [UninitializedPrimitive, NullDereference];
  }

  /** The code of a record never holds a line break, since it is a piece of a split on line breaks. */
  lemma RecordCodeOneLine(code: string, c: Category, f: Finding)
    requires f in Issues(AnalysisOf(code), c)
    ensures '\n' !in f.code
  {
    var lines := Split(code, '\n');
    var i := Placement(code, c, f);
    StripKeepsOut(lines[i], '\n');
  }

  /** Line `i` of `code` has the record of rule `r` under the key of `r`
      exactly when `r` reports the line. */
  lemma Detected(code: string, r: Rule, i: nat)
    requires i < |Split(code, '\n')|
    ensures var lines := Split(code, '\n');
      FindingAt(r, lines, i) in Issues(AnalysisOf(code), CategoryOf(r)) <==> Reports(r, lines, i)
  {
    var lines := Split(code, '\n');
    var n := |lines|;
    if FindingAt(r, lines, i) in Issues(AnalysisOf(code), CategoryOf(r)) {
      var j := Placement(code, CategoryOf(r), FindingAt(r, lines, i));
    } else if Reports(r, lines, i) {
      var rules := RuleScan(code, r);
      ScanComplete(rules, lines, n, r, i);
      assert false;
    }
  }

  /** The tests of the loop that runs rule `r`, whose scan lands under the key of `r`. */
  lemma RuleScan(code: string, r: Rule) returns (rules: seq<Rule>)
    ensures var lines := Split(code, '\n');
      && r in rules
      && forall f :: f in Scan(rules, lines, |lines|) ==> f in Issues(AnalysisOf(code), CategoryOf(r))
  {
    AnalysisContents(code);
    RuleCategories();
    match r
    case RawPointer => rules := [RawPointer];
    case CStyleArray => rules := [CStyleArray];
    case IndexLoop => rules := [IndexLoop];
    case SqrtInLoop => rules := [SqrtInLoop, StringInHotPath];
    case StringInHotPath => rules := [SqrtInLoop, StringInHotPath];
    case FloatComparison => rules := [FloatComparison];
    case MagicNumber => rules := [MagicNumber];
    case UninitializedPrimitive => rules := [UninitializedPrimitive, NullDereference];
    case NullDereference => rules := [UninitializedPrimitive, NullDereference];
  }

  /** No record the analyzer writes carries a replacement, so the code
      changes `suggest_improvements` derives from its result are always empty. */
  lemma NoCodeChanges(code: string)
    ensures CodeChanges(Items(AnalysisOf(code))) == []
  {
    var items := Items(AnalysisOf(code));
    forall j, f | 0 <= j < |items| && f in items[j].issues
      ensures f.replacement == None
    {
      NoReplacement(code, CategoryOrder[j], f);
    }
    NoChangesOf(items, |items|);
    assert items[..|items|] == items;
  }

  lemma NoReplacement(code: string, c: Category, f: Finding)
    requires f in Issues(AnalysisOf(code), c)
    ensures f.replacement == None
  {
    var i := Placement(code, c, f);
  }

  lemma {:induction false} NoChangesOf(items: seq<Entry>, k: nat)
    requires k <= |items|
    requires forall j, f :: 0 <= j < |items| && f in items[j].issues ==> f.replacement == None
    ensures CodeChanges(items[..k]) == []
  {
    if k > 0 {
      NoChangesOf(items, k - 1);
      assert items[..k][..k - 1] == items[..k - 1];
      NoChangeOfIssues(items[k - 1].issues);
    }
  }

  lemma {:induction false} NoChangeOfIssues(issues: seq<Finding>)
    requires forall f :: f in issues ==> f.replacement == None
    ensures ChangesOf(issues) == []
  {
    if issues != [] {
      assert issues[|issues| - 1] in issues;
      NoChangeOfIssues(issues[..|issues| - 1]);
    }
  }

  // The order of the records.

  /** The records are in non-decreasing line order. */
  predicate Ascending(s: seq<Finding>) {
    forall p, q :: 0 <= p < q < |s| ==> s[p].line <= s[q].line
  }

  /** On each line, no record of rule `second` comes before a record of
      another rule: the tests of a loop report a line in the order they run. */
  predicate TestOrder(s: seq<Finding>, second: Rule) {
    forall p, q :: 0 <= p < q < |s| && s[p].line == s[q].line && s[p].rule == second ==> s[q].rule == second
  }

  /** Blocks numbered by line, concatenated in line order, are in line order. */
  lemma {:induction false} ConcatAscending(per: nat -> seq<Finding>, n: nat)
    requires forall i: nat, f :: i < n && f in per(i) ==> f.line == i + 1
    ensures Ascending(Concat(per, n))
    ensures forall f :: f in Concat(per, n) ==> f.line <= n
  {
    if n > 0 {
      ConcatAscending(per, n - 1);
      var a := Concat(per, n - 1);
      var b := per(n - 1);
      var s := a + b;
      forall p, q | 0 <= p < q < |s|
        ensures s[p].line <= s[q].line
      {
        if q < |a| {
          assert s[p] == a[p] && s[q] == a[q];
        } else if p < |a| {
          assert s[p] == a[p] && a[p] in a;
          assert s[q] == b[q - |a|] && b[q - |a|] in b;
        } else {
          assert s[p] == b[p - |a|] && b[p - |a|] in b;
          assert s[q] == b[q - |a|] && b[q - |a|] in b;
        }
      }
    }
  }

  /** Blocks numbered by line that each keep the test order keep it once concatenated. */
  lemma {:induction false} ConcatTestOrder(per: nat -> seq<Finding>, n: nat, second: Rule)
    requires forall i: nat, f :: i < n && f in per(i) ==> f.line == i + 1
    requires forall i: nat :: i < n ==> TestOrder(per(i), second)
    ensures TestOrder(Concat(per, n), second)
  {
    if n > 0 {
      ConcatTestOrder(per, n - 1, second);
      ConcatAscending(per, n - 1);
      var a := Concat(per, n - 1);
      var b := per(n - 1);
      var s := a + b;
      forall p, q | 0 <= p < q < |s| && s[p].line == s[q].line && s[p].rule == second
        ensures s[q].rule == second
      {
        if q < |a| {
          assert s[p] == a[p] && s[q] == a[q];
        } else if p < |a| {
          assert false;
        } else {
          assert s[p] == b[p - |a|] && s[q] == b[q - |a|];
        }
      }
    }
  }

  /** Every record rule `r` gives for line `i` is of rule `r` and line `i + 1`. */
  lemma FindingsAtLine(r: Rule, lines: seq<string>, i: nat)
    requires i < |lines|
    ensures forall f :: f in FindingsAt(r, lines, i) ==> f.rule == r && f.line == i + 1
  {
    FindingsAtShape(r, lines, i);
  }

  /** Every record several rules give for line `i` is of line `i + 1`. */
  lemma RulesAtLine(rules: seq<Rule>, lines: seq<string>, i: nat)
    requires i < |lines|
    ensures forall f :: f in RulesAt(rules, lines, i) ==> f.line == i + 1
  {
    RulesAtSound(rules, lines, i);
  }

  lemma LineRecordsAt(rules: seq<Rule>, lines: seq<string>, i: nat)
    requires i < |lines|
    ensures LineRecords(rules, lines)(i) == RulesAt(rules, lines, i)
  {
  }

  /** A scan lists its records in line order. */
  lemma ScanAscending(rules: seq<Rule>, lines: seq<string>, n: nat)
    requires n <= |lines|
    ensures Ascending(Scan(rules, lines, n))
  {
    var per := LineRecords(rules, lines);
    forall i: nat, f | i < n && f in per(i)
      ensures f.line == i + 1
    {
      LineRecordsAt(rules, lines, i);
      RulesAtLine(rules, lines, i);
    }
    ConcatAscending(per, n);
  }

  /** Two tests on one line: the records of the first, then those of the second. */
  lemma RulesAtTwo(r1: Rule, r2: Rule, lines: seq<string>, i: nat)
    requires i < |lines|
    ensures RulesAt([r1, r2], lines, i) == FindingsAt(r1, lines, i) + FindingsAt(r2, lines, i)
  {
    assert [r1, r2][1..] == [r2];
    assert [r2][1..] == [];
    assert RulesAt([], lines, i) == [];
    AppendNil(FindingsAt(r2, lines, i));
  }

  lemma AppendNil<T>(s: seq<T>)
    ensures s + [] == s
  {
  }

  /** The records of one rule followed by those of a second rule keep the test order. */
  lemma BlockOrder(a: seq<Finding>, b: seq<Finding>, second: Rule)
    requires forall f :: f in a ==> f.rule != second
    requires forall f :: f in b ==> f.rule == second
    ensures TestOrder(a + b, second)
  {
    var s := a + b;
    forall p, q | 0 <= p < q < |s| && s[p].line == s[q].line && s[p].rule == second
      ensures s[q].rule == second
    {
      if p < |a| {
        assert false;
      } else {
        assert s[q] == b[q - |a|] && b[q - |a|] in b;
      }
    }
  }

  lemma TwoTestsOrder(r1: Rule, r2: Rule, lines: seq<string>, i: nat)
    requires i < |lines| && r1 != r2
    ensures TestOrder(RulesAt([r1, r2], lines, i), r2)
  {
    RulesAtTwo(r1, r2, lines, i);
    FindingsAtLine(r1, lines, i);
    FindingsAtLine(r2, lines, i);
    BlockOrder(FindingsAt(r1, lines, i), FindingsAt(r2, lines, i), r2);
  }

  /** A scan with two tests lists, on each line, the first test's records before the second's. */
  lemma ScanTestOrder(r1: Rule, r2: Rule, lines: seq<string>, n: nat)
    requires n <= |lines| && r1 != r2
    ensures TestOrder(Scan([r1, r2], lines, n), r2)
  {
    var per := LineRecords([r1, r2], lines);
    forall i: nat, f | i < n && f in per(i)
      ensures f.line == i + 1
    {
      LineRecordsAt([r1, r2], lines, i);
      RulesAtLine([r1, r2], lines, i);
    }
    forall i: nat | i < n
      ensures TestOrder(per(i), r2)
    {
      LineRecordsAt([r1, r2], lines, i);
      TwoTestsOrder(r1, r2, lines, i);
    }
    ConcatTestOrder(per, n, r2);
  }

  /** Every key but modern_cpp lists its records in line order. */
  lemma CategoryAscending(code: string, c: Category)
    requires c != ModernCpp
    ensures Ascending(Issues(AnalysisOf(code), c))
  {
    var lines := Split(code, '\n');
    var n := |lines|;
    AnalysisContents(code);
    match c
    case PerformanceIssues => ScanAscending([SqrtInLoop, StringInHotPath], lines, n);
    case MemoryManagement => ScanAscending([RawPointer], lines, n);
    case CodeStyle => ScanAscending([MagicNumber], lines, n);
    case GameSpecific => ScanAscending([FloatComparison], lines, n);
    case PotentialBugs => ScanAscending([UninitializedPrimitive, NullDereference], lines, n);
  }

  lemma TwoTestCategory(a: Analysis, c: Category, r1: Rule, r2: Rule, lines: seq<string>)
    requires r1 != r2 && Issues(a, c) == Scan([r1, r2], lines, |lines|)
    ensures TestOrder(Issues(a, c), r2)
  {
    ScanTestOrder(r1, r2, lines, |lines|);
  }

  /** On each line, performance_issues lists the sqrt record before the string record. */
  lemma PerformanceTestOrder(code: string)
    ensures TestOrder(Issues(AnalysisOf(code), PerformanceIssues), StringInHotPath)
  {
    AnalysisContents(code);
    TwoTestCategory(AnalysisOf(code), PerformanceIssues, SqrtInLoop, StringInHotPath, Split(code, '\n'));
  }

  /** On each line, potential_bugs lists the uninitialized-variable records
      before the null-dereference record. */
  lemma BugsTestOrder(code: string)
    ensures TestOrder(Issues(AnalysisOf(code), PotentialBugs), NullDereference)
  {
    AnalysisContents(code);
    TwoTestCategory(AnalysisOf(code), PotentialBugs, UninitializedPrimitive, NullDereference, Split(code, '\n'));
  }

  /** modern_cpp is the C-style array records in line order, then the
      index-loop records in line order. */
  lemma ModernCppHalves(code: string) returns (k: nat)
    ensures var m := Issues(AnalysisOf(code), ModernCpp);
      && k <= |m| && Ascending(m[..k]) && Ascending(m[k..])
      && (forall p :: 0 <= p < k ==> m[p].rule == CStyleArray)
      && (forall p :: k <= p < |m| ==> m[p].rule == IndexLoop)
  {
    var lines := Split(code, '\n');
    var n := |lines|;
    AnalysisContents(code);
    var arrays := Scan([CStyleArray], lines, n);
    var loops := Scan([IndexLoop], lines, n);
    ScanAscending([CStyleArray], lines, n);
    ScanAscending([IndexLoop], lines, n);
    OneRuleScan(CStyleArray, lines, n);
    OneRuleScan(IndexLoop, lines, n);
    k := |arrays|;
    HalvesOf(arrays, loops);
  }

  lemma HalvesOf(a: seq<Finding>, b: seq<Finding>)
    ensures (a + b)[..|a|] == a && (a + b)[|a|..] == b
  {
  }

  /** Every record of a one-rule scan is of that rule, by index. */
  lemma OneRuleScan(r: Rule, lines: seq<string>, n: nat)
    requires n <= |lines|
    ensures forall p :: 0 <= p < |Scan([r], lines, n)| ==> Scan([r], lines, n)[p].rule == r
  {
    var s := Scan([r], lines, n);
    forall p | 0 <= p < |s|
      ensures s[p].rule == r
    {
      assert s[p] in s;
      var i := ScanSound([r], lines, n, s[p]);
    }
  }

  /** modern_cpp is not in line order as soon as an index-loop line comes
      before a C-style array line. */
  lemma ModernCppUnordered(code: string, i: nat, j: nat)
    requires var lines := Split(code, '\n');
      i < j < |lines| && Reports(IndexLoop, lines, i) && Reports(CStyleArray, lines, j)
    ensures !Ascending(Issues(AnalysisOf(code), ModernCpp))
  {
    var lines := Split(code, '\n');
    var m := Issues(AnalysisOf(code), ModernCpp);
    var k := ModernCppHalves(code);
    RuleCategories();
    Detected(code, IndexLoop, i);
    Detected(code, CStyleArray, j);
    var p :| 0 <= p < |m| && m[p] == FindingAt(CStyleArray, lines, j);
    var q :| 0 <= q < |m| && m[q] == FindingAt(IndexLoop, lines, i);
    assert p < k <= q;
    assert m[p].line > m[q].line;
  }

  // What each detector tests, read as the regular expression the source writes.

  /** `token in lines[max(0, i - k):i]` holds exactly when one of the lines
      before line `i`, and at most `k` before it, is `token` itself. */
  lemma WindowMeaning(lines: seq<string>, i: nat, k: nat, token: string)
    requires i <= |lines|
    ensures InWindow(lines, i, k, token) <==> exists j :: i - k <= j < i && 0 <= j && lines[j] == token
  {
    var lo := if i >= k then i - k else 0;
    var w := lines[lo..i];
    if token in w {
      var m :| 0 <= m < |w| && w[m] == token;
      assert lines[lo + m] == token;
    }
    if exists j :: i - k <= j < i && 0 <= j && lines[j] == token {
      var j :| i - k <= j < i && 0 <= j && lines[j] == token;
      assert w[j - lo] == token;
    }
  }

  /** The raw-pointer test: `\b\w+\s*\*\s*\w+\s*=` is found and none of
      `std::`, `shared_ptr`, `unique_ptr` occurs. */
  lemma RawPointerMeaning(line: string)
    ensures RawPointerLine(line) <==>
      RegexSearch(line, RawPointerPattern)
      && !Contains(line, "std::") && !Contains(line, "shared_ptr") && !Contains(line, "unique_ptr")
  {
    RawPointerSeparated();
    SearchIsRegex(line, RawPointerPattern);
  }

  /** The C-style array test: `\b\w+\s+\w+\[\d+\]` is found and `char` does not occur. */
  lemma CStyleArrayMeaning(line: string)
    ensures CStyleArrayLine(line) <==> RegexSearch(line, CArrayPattern) && !Contains(line, "char")
  {
    CArraySeparated();
    SearchIsRegex(line, CArrayPattern);
  }

  /** The float-comparison test: `==` or `!=`, then optional whitespace, optional
      digits, a dot and at least one digit. */
  lemma FloatComparisonMeaning(line: string)
    ensures FloatComparisonLine(line) <==>
      RegexSearch(line, Lit("==") + FloatLiteralTail) || RegexSearch(line, Lit("!=") + FloatLiteralTail)
  {
    FloatComparisonSeparated();
    SearchIsRegex(line, Lit("==") + FloatLiteralTail);
    SearchIsRegex(line, Lit("!=") + FloatLiteralTail);
  }

  /** The magic-number test: a decimal number not preceded by a dot is found,
      `const\s+float` is not, and `#define` does not occur. */
  lemma MagicNumberMeaning(line: string)
    ensures MagicNumberLine(line) <==>
      RegexSearch(line, MagicNumberPattern) && !RegexSearch(line, ConstFloatPattern) && !Contains(line, "#define")
  {
    MagicNumberSeparated();
    ConstFloatSeparated();
    SearchIsRegex(line, MagicNumberPattern);
    SearchIsRegex(line, ConstFloatPattern);
    SearchLit(line, "#define");
  }

  /** The outer test of the uninitialized-variable rule: `\w+\s+\w+;` is
      found, and none of `=`, `class`, `struct`, `enum` occurs. */
  lemma DeclarationMeaning(line: string)
    ensures DeclarationCandidate(line) <==>
      RegexSearch(line, DeclarationPattern)
      && !Contains(line, "=") && !Contains(line, "class") && !Contains(line, "struct") && !Contains(line, "enum")
  {
    DeclarationSeparated();
    SearchIsRegex(line, DeclarationPattern);
    SearchLit(line, "=");
    SearchLit(line, "class");
    SearchLit(line, "struct");
    SearchLit(line, "enum");
  }

  /** The per-type test: `t\s+\w+;` is found. */
  lemma DeclaresTypeMeaning(line: string, t: string)
    ensures DeclaresType(line, t) <==> RegexSearch(line, TypedDeclarationPattern(t))
  {
    TypedDeclarationSeparated(t);
    SearchIsRegex(line, TypedDeclarationPattern(t));
  }

  /** Line `i` is under memory_management exactly when it matches the
      raw-pointer expression and mentions none of the smart-pointer names. */
  lemma RawPointerReported(code: string, i: nat)
    requires i < |Split(code, '\n')|
    ensures var line := Split(code, '\n')[i];
      FindingAt(RawPointer, Split(code, '\n'), i) in Issues(AnalysisOf(code), MemoryManagement) <==>
        RegexSearch(line, RawPointerPattern)
        && !Contains(line, "std::") && !Contains(line, "shared_ptr") && !Contains(line, "unique_ptr")
  {
    Detected(code, RawPointer, i);
    RawPointerMeaning(Split(code, '\n')[i]);
  }

  /** A line without a `*` never gets a raw-pointer record: the expression
      needs the `*` it spells out. */
  lemma RawPointerNeedsStar(code: string, i: nat)
    requires i < |Split(code, '\n')| && '*' !in Split(code, '\n')[i]
    ensures FindingAt(RawPointer, Split(code, '\n'), i) !in Issues(AnalysisOf(code), MemoryManagement)
  {
    Detected(code, RawPointer, i);
    assert Char('*') in RawPointerPattern by { assert RawPointerPattern[3] == Char('*'); }
    SearchNeedsChar(Split(code, '\n')[i], RawPointerPattern, '*');
  }

  // Which rules look only at their own line.

  /** The rules whose test reads line `i` alone; the other three also read
      a window of the lines before it. */
  predicate LineLocal(r: Rule) {
    r != SqrtInLoop && r != StringInHotPath && r != NullDereference
  }

  /** A line-local rule decides line `i` of `lines` as it decides an equal
      line `j` of any other text, whatever surrounds either: it fires on both
      or on neither, gives as many records for both, and each record is the
      stripped line numbered `i + 1`. */
  lemma LineLocalFindings(r: Rule, lines: seq<string>, i: nat, other: seq<string>, j: nat)
    requires LineLocal(r) && i < |lines| && j < |other| && lines[i] == other[j]
    ensures Fires(r, lines, i) == Fires(r, other, j)
    ensures |FindingsAt(r, lines, i)| == |FindingsAt(r, other, j)|
    ensures forall f :: f in FindingsAt(r, lines, i) ==> f == Finding(i + 1, Strip(other[j]), r, None)
  {
    FindingsAtShape(r, lines, i);
    FindingsAtShape(r, other, j);
  }

  /** Line `i` has an index-loop record under modern_cpp exactly when it
      contains `for`, `; i < ` and `.size()`. */
  lemma IndexLoopReported(code: string, i: nat)
    requires i < |Split(code, '\n')|
    ensures var line := Split(code, '\n')[i];
      FindingAt(IndexLoop, Split(code, '\n'), i) in Issues(AnalysisOf(code), ModernCpp) <==>
        Contains(line, "for") && Contains(line, "; i < ") && Contains(line, ".size()")
  {
    Detected(code, IndexLoop, i);
  }

  /** A line with `=`, `class`, `struct` or `enum` in it has no
      uninitialized-variable record, whatever it declares. */
  lemma UninitializedSuppressed(code: string, i: nat)
    requires i < |Split(code, '\n')|
    requires var line := Split(code, '\n')[i];
      Contains(line, "=") || Contains(line, "class") || Contains(line, "struct") || Contains(line, "enum")
    ensures FindingAt(UninitializedPrimitive, Split(code, '\n'), i) !in Issues(AnalysisOf(code), PotentialBugs)
  {
    Detected(code, UninitializedPrimitive, i);
    DeclarationMeaning(Split(code, '\n')[i]);
  }

  // What `suggest_improvements` writes.

  /** The number of issues over all entries. */
  function IssueCount(items: seq<Entry>): nat
  {
    if items == [] then 0 else IssueCount(items[..|items| - 1]) + |items[|items| - 1].issues|
  }

  /** The number of entries with at least one issue. */
  function NonEmptyCount(items: seq<Entry>): nat
  {
    if items == [] then 0 else NonEmptyCount(items[..|items| - 1]) + (if items[|items| - 1].issues == [] then 0 else 1)
  }

  lemma {:induction false} IssuesExplanationLength(issues: seq<Finding>)
    ensures |IssuesExplanation(issues)| == 3 * |issues|
  {
    if issues != [] {
      IssuesExplanationLength(issues[..|issues| - 1]);
    }
  }

  /** `suggest_improvements` writes one heading per category with issues and
      three lines per issue. */
  lemma {:induction false} ExplanationsLength(items: seq<Entry>)
    ensures |Explanations(items)| == NonEmptyCount(items) + 3 * IssueCount(items)
  {
    if items != [] {
      ExplanationsLength(items[..|items| - 1]);
      IssuesExplanationLength(items[|items| - 1].issues);
    }
  }

  /** The explanations are empty exactly when no category has an issue. */
  lemma {:induction false} ExplanationsEmpty(items: seq<Entry>)
    ensures Explanations(items) == [] <==> forall j :: 0 <= j < |items| ==> items[j].issues == []
  {
    ExplanationsLength(items);
    NonEmptyCountZero(items);
    IssueCountZero(items);
  }

  lemma {:induction false} NonEmptyCountZero(items: seq<Entry>)
    ensures NonEmptyCount(items) == 0 <==> forall j :: 0 <= j < |items| ==> items[j].issues == []
  {
    if items != [] {
      var front := items[..|items| - 1];
      NonEmptyCountZero(front);
      assert forall j :: 0 <= j < |front| ==> front[j] == items[j];
    }
  }

  lemma {:induction false} IssueCountZero(items: seq<Entry>)
    ensures NonEmptyCount(items) == 0 ==> IssueCount(items) == 0
  {
    if items != [] {
      IssueCountZero(items[..|items| - 1]);
    }
  }
}
