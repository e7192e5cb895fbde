/**
 * The rule engine of `code_analyzer.py`.
 *
 * `AnalyzeCppCode` splits C++ text into lines and runs nine line detectors in
 * six loops, each appending records to one of six category lists of a
 * dictionary whose keys are fixed when it is created. The dictionary is a
 * record with one field per key; `Items` lists them in insertion order. The
 * method is proved equal to `AnalysisOf`, the same six loops as functions; the
 * properties of that result are lemmas in module AnalyzerProperties.
 *
 * `SuggestImprovements` turns an analysis into markdown explanation lines and a
 * list of code changes, again proved equal to functions of the analysis.
 */
module CodeAnalyzer {
  import opened Text
  import opened Patterns

  /** The six keys of the analysis dictionary: `performance_issues`,
      `memory_management`, `code_style`, `modern_cpp`, `game_specific`,
      `potential_bugs`. */
  datatype Category = PerformanceIssues | MemoryManagement | CodeStyle | ModernCpp | GameSpecific | PotentialBugs

  /** The order in which the dictionary literal creates the keys. */
  const CategoryOrder: seq<Category> :=
    [PerformanceIssues, MemoryManagement, CodeStyle, ModernCpp, GameSpecific, PotentialBugs]

  /** Where a key stands in `CategoryOrder`: every key is there. */
  function CategoryIndex(c: Category): (j: nat)
    ensures j < |CategoryOrder| && CategoryOrder[j] == c
  {
    match c
    case PerformanceIssues => 0
    case MemoryManagement => 1
    case CodeStyle => 2
    case ModernCpp => 3
    case GameSpecific => 4
    case PotentialBugs => 5
  }

  /** `key.replace('_', ' ').title()` for each of the six keys. */
  function Heading(c: Category): string {
    match c
    case PerformanceIssues => "Performance Issues"
    case MemoryManagement => "Memory Management"
    case CodeStyle => "Code Style"
    case ModernCpp => "Modern Cpp"
    case GameSpecific => "Game Specific"
    case PotentialBugs => "Potential Bugs"
  }

  /** One issue record: `{line, code, issue, suggestion}` and, in records that
      carry one, a `replacement`; the analyzer never sets one. */
  datatype Finding = Finding(line: nat, code: string, rule: Rule, replacement: Option<string>)

  /** One item of the analysis dictionary, as `analysis.items()` yields it. */
  datatype Entry = Entry(category: Category, issues: seq<Finding>)

  /** The analysis dictionary: one list of issue records per key. */
  datatype Analysis = Analysis(
    performanceIssues: seq<Finding>, memoryManagement: seq<Finding>, codeStyle: seq<Finding>,
    modernCpp: seq<Finding>, gameSpecific: seq<Finding>, potentialBugs: seq<Finding>)

  /** `analysis[c]`. */
  function Issues(a: Analysis, c: Category): seq<Finding> {
    match c
    case PerformanceIssues => a.performanceIssues
    case MemoryManagement => a.memoryManagement
    case CodeStyle => a.codeStyle
    case ModernCpp => a.modernCpp
    case GameSpecific => a.gameSpecific
    case PotentialBugs => a.potentialBugs
  }

  /** The dictionary a fresh analysis starts from: every key present, every list empty. */
  const EmptyAnalysis := Analysis([], [], [], [], [], [])

  /** `analysis[c] += fs`: the list under `c` grows by `fs` at its end and
      every other list stays as it was. */
  function Extend(a: Analysis, c: Category, fs: seq<Finding>): Analysis
  {
    match c
    case PerformanceIssues => a.(performanceIssues := a.performanceIssues + fs)
    case MemoryManagement => a.(memoryManagement := a.memoryManagement + fs)
    case CodeStyle => a.(codeStyle := a.codeStyle + fs)
    case ModernCpp => a.(modernCpp := a.modernCpp + fs)
    case GameSpecific => a.(gameSpecific := a.gameSpecific + fs)
    case PotentialBugs => a.(potentialBugs := a.potentialBugs + fs)
  }

  /** `analysis.items()`: the keys in the order the dictionary literal created them. */
  function Items(a: Analysis): (items: seq<Entry>)
    ensures |items| == |CategoryOrder|
    ensures forall j :: 0 <= j < |items| ==> items[j] == Entry(CategoryOrder[j], Issues(a, CategoryOrder[j]))
  {
    seq(|CategoryOrder|, j requires 0 <= j < |CategoryOrder| => Entry(CategoryOrder[j], Issues(a, CategoryOrder[j])))
  }

  // The detectors.

  datatype Rule =
    | RawPointer | CStyleArray | IndexLoop | SqrtInLoop | StringInHotPath
    | FloatComparison | MagicNumber | UninitializedPrimitive | NullDereference

  function CategoryOf(r: Rule): Category {
    match r
    case RawPointer => MemoryManagement
    case CStyleArray => ModernCpp
    case IndexLoop => ModernCpp
    case SqrtInLoop => PerformanceIssues
    case StringInHotPath => PerformanceIssues
    case FloatComparison => GameSpecific
    case MagicNumber => CodeStyle
    case UninitializedPrimitive => PotentialBugs
    case NullDereference => PotentialBugs
  }

  function IssueOf(r: Rule): string {
    match r
    case RawPointer => "Raw pointer usage"
    case CStyleArray => "C-style array usage"
    case IndexLoop => "Index-based loop over container"
    case SqrtInLoop => "Expensive sqrt operation in loop"
    case StringInHotPath => "String operations in performance-critical code"
    case FloatComparison => "Direct floating-point comparison"
    case MagicNumber => "Magic number usage"
    case UninitializedPrimitive => "Uninitialized primitive variable"
    case NullDereference => "Potential null pointer dereference"
  }

  function SuggestionOf(r: Rule): string {
    match r
    case RawPointer =>
      "Consider using smart pointers (std::unique_ptr or std::shared_ptr) for automatic memory management"
    case CStyleArray =>
      "Consider using std::array for fixed-size arrays or std::vector for dynamic arrays"
    case IndexLoop =>
      "Consider using range-based for loop: for (auto& element : container)"
    case SqrtInLoop =>
      "For magnitude comparisons, consider using squared magnitude (x*x + y*y) instead of sqrt(x*x + y*y)"
    case StringInHotPath =>
      "String operations can be expensive. Consider moving string manipulations outside of update/render loops"
    case FloatComparison =>
      "Use epsilon-based comparison for floating-point values to avoid precision issues"
    case MagicNumber =>
      "Define named constants for magic numbers to improve code readability and maintainability"
    case UninitializedPrimitive =>
      "Initialize variables at declaration to avoid undefined behavior"
    case NullDereference =>
      "Add null check before dereferencing pointers"
  }

  /** `token in lines[max(0, i - k):i]`: one of the (at most `k`) lines just
      before line `i` is exactly `token`. Line `i` itself is not looked at. */
  predicate InWindow(lines: seq<string>, i: nat, k: nat, token: string)
    requires i <= |lines|
  {
    token in lines[(if i >= k then i - k else 0)..i]
  }

  predicate RawPointerLine(line: string) {
    Search(line, RawPointerPattern)
    && !Contains(line, "std::") && !Contains(line, "shared_ptr") && !Contains(line, "unique_ptr")
  }

  predicate CStyleArrayLine(line: string) {
    Search(line, CArrayPattern) && !Contains(line, "char")
  }

  predicate IndexLoopLine(line: string) {
    Contains(line, "for") && Contains(line, "; i < ") && Contains(line, ".size()")
  }

  predicate SqrtInLoopAt(lines: seq<string>, i: nat)
    requires i < |lines|
  {
    Contains(lines[i], "sqrt") && (InWindow(lines, i, 5, "for") || InWindow(lines, i, 5, "while"))
  }

  /** Python reads `a or b and c` as `a or (b and c)`. */
  predicate StringInHotPathAt(lines: seq<string>, i: nat)
    requires i < |lines|
  {
    (Contains(lines[i], "std::string") || (Contains(lines[i], "+=") && Contains(lines[i], "\"")))
    && (InWindow(lines, i, 10, "update") || InWindow(lines, i, 10, "render"))
  }

  /** `re.search(r'(==|!=)\s*\d*\.\d+f?', line)`: a match starts with one of
      the two operators, so the search is the disjunction of two searches. */
  predicate FloatComparisonLine(line: string) {
    Search(line, Lit("==") + FloatLiteralTail) || Search(line, Lit("!=") + FloatLiteralTail)
  }

  predicate MagicNumberLine(line: string) {
    Search(line, MagicNumberPattern) && !Search(line, ConstFloatPattern) && !Search(line, Lit("#define"))
  }

  /** The outer test of the uninitialized-variable rule; `class|struct|enum`
      is the disjunction of three literal searches. */
  predicate DeclarationCandidate(line: string) {
    Search(line, DeclarationPattern) && !Search(line, Lit("="))
    && !(Search(line, Lit("class")) || Search(line, Lit("struct")) || Search(line, Lit("enum")))
  }

  const PrimitiveTypes: seq<string> := ["int", "float", "double", "bool", "char"]

  predicate DeclaresType(line: string, t: string) {
    Search(line, TypedDeclarationPattern(t))
  }

  predicate NullDereferenceAt(lines: seq<string>, i: nat)
    requires i < |lines|
  {
    Contains(lines[i], "->")
    && !InWindow(lines, i, 3, "if") && !InWindow(lines, i, 3, "nullptr") && !InWindow(lines, i, 3, "NULL")
  }

  /** The condition under which rule `r` reports line `i` (for the
      uninitialized-variable rule, the outer test before the per-type tests). */
  predicate Fires(r: Rule, lines: seq<string>, i: nat)
    requires i < |lines|
  {
    match r
    case RawPointer => RawPointerLine(lines[i])
    case CStyleArray => CStyleArrayLine(lines[i])
    case IndexLoop => IndexLoopLine(lines[i])
    case SqrtInLoop => SqrtInLoopAt(lines, i)
    case StringInHotPath => StringInHotPathAt(lines, i)
    case FloatComparison => FloatComparisonLine(lines[i])
    case MagicNumber => MagicNumberLine(lines[i])
    case UninitializedPrimitive => DeclarationCandidate(lines[i])
    case NullDereference => NullDereferenceAt(lines, i)
  }

  /** The record rule `r` appends for line `i` (0-based). */
  function FindingAt(r: Rule, lines: seq<string>, i: nat): Finding
    requires i < |lines|
  {
    Finding(i + 1, Strip(lines[i]), r, None)
  }

  /** The uninitialized-variable findings for line `i` from the first `n` primitive types. */
  function TypeHits(lines: seq<string>, i: nat, n: nat): seq<Finding>
    requires i < |lines| && n <= |PrimitiveTypes|
  {
    if n == 0 then []
    else TypeHits(lines, i, n - 1)
         + (if DeclaresType(lines[i], PrimitiveTypes[n - 1]) then [FindingAt(UninitializedPrimitive, lines, i)] else [])
  }

  /** What rule `r` appends for line `i`. */
  function FindingsAt(r: Rule, lines: seq<string>, i: nat): seq<Finding>
    requires i < |lines|
  {
    if !Fires(r, lines, i) then []
    else if r == UninitializedPrimitive then TypeHits(lines, i, |PrimitiveTypes|)
    else [FindingAt(r, lines, i)]
  }

  /** What one pass appends for line `i`, its rules in order. */
  function RulesAt(rules: seq<Rule>, lines: seq<string>, i: nat): seq<Finding>
    requires i < |lines|
  {
    if rules == [] then [] else FindingsAt(rules[0], lines, i) + RulesAt(rules[1..], lines, i)
  }

  /** What one pass over the first `n` lines appends. */
  function Scan(rules: seq<Rule>, lines: seq<string>, n: nat): seq<Finding>
    requires n <= |lines|
  {
    Concat(LineRecords(rules, lines), n)
  }

  /** What the rules give for each line, as a function of the line's index. */
  function LineRecords(rules: seq<Rule>, lines: seq<string>): nat -> seq<Finding>
  {
    (i: nat) => if i < |lines| then RulesAt(rules, lines, i) else []
  }

  /** The concatenation of `per(0)`, ..., `per(n - 1)`. */
  function Concat(per: nat -> seq<Finding>, n: nat): seq<Finding>
  {
    if n == 0 then [] else Concat(per, n - 1) + per(n - 1)
  }

  /** The rules of a loop that report into category `c`, in the order the loop tests them. */
  function Only(rules: seq<Rule>, c: Category): seq<Rule>
  {
    if rules == [] then []
    else if CategoryOf(rules[0]) == c then [rules[0]] + Only(rules[1..], c)
    else Only(rules[1..], c)
  }

  /** The dictionary after line `i` went through the tests `rules`, in order. */
  function Line(a: Analysis, rules: seq<Rule>, lines: seq<string>, i: nat): Analysis
    requires i < |lines|
    decreases |rules|
  {
    if rules == [] then a
    else Line(Extend(a, CategoryOf(rules[0]), FindingsAt(rules[0], lines, i)), rules[1..], lines, i)
  }

  /** The dictionary after one loop of `analyze_cpp_code` over the first `n`
      lines, each line going through the tests `rules`. */
  function Pass(a: Analysis, rules: seq<Rule>, lines: seq<string>, n: nat): Analysis
    requires n <= |lines|
  {
    if n == 0 then a else Line(Pass(a, rules, lines, n - 1), rules, lines, n - 1)
  }

  /** What `analyze_cpp_code` returns for `code`: its six loops in source
      order, each with its tests in source order, starting from the empty dictionary. */
  function AnalysisOf(code: string): Analysis
  {
    var lines := Split(code, '\n');
    var n := |lines|;
    var memory := Pass(EmptyAnalysis, [RawPointer], lines, n);
    var arrays := Pass(memory, [CStyleArray], lines, n);
    var loops := Pass(arrays, [IndexLoop], lines, n);
    var performance := Pass(loops, [SqrtInLoop, StringInHotPath], lines, n);
    var game := Pass(performance, [FloatComparison, MagicNumber], lines, n);
    Pass(game, [UninitializedPrimitive, NullDereference], lines, n)
  }

  lemma ExtendNothing(a: Analysis, c: Category)
    ensures Extend(a, c, []) == a
  {
    assert forall s: seq<Finding> :: s + [] == s;
  }

  lemma ExtendTwice(a: Analysis, c: Category, x: seq<Finding>, y: seq<Finding>)
    ensures Extend(Extend(a, c, x), c, y) == Extend(a, c, x + y)
  {
    assert forall s: seq<Finding> :: s + x + y == s + (x + y);
  }

  /** Testing one more primitive type extends the type hits of the line. */
  lemma TypeStep(a: Analysis, c: Category, lines: seq<string>, i: nat, t: nat)
    requires i < |lines| && t < |PrimitiveTypes|
    ensures DeclaresType(lines[i], PrimitiveTypes[t]) ==>
      Extend(Extend(a, c, TypeHits(lines, i, t)), c, [FindingAt(UninitializedPrimitive, lines, i)])
        == Extend(a, c, TypeHits(lines, i, t + 1))
    ensures !DeclaresType(lines[i], PrimitiveTypes[t]) ==> TypeHits(lines, i, t + 1) == TypeHits(lines, i, t)
  {
    ExtendTwice(a, c, TypeHits(lines, i, t), [FindingAt(UninitializedPrimitive, lines, i)]);
    assert TypeHits(lines, i, t) + [] == TypeHits(lines, i, t);
  }

  /** The per-type loop of the uninitialized-variable rule on line `i`: one
      record under `c` for each primitive type whose declaration pattern the line matches. */
  method TypeLoop(lines: seq<string>, i: nat, c: Category, analysis: Analysis) returns (result: Analysis)
    requires i < |lines|
    ensures result == Extend(analysis, c, TypeHits(lines, i, |PrimitiveTypes|))
  {
    ExtendNothing(analysis, c);
    result := analysis;
    for t := 0 to |PrimitiveTypes|
      invariant result == Extend(analysis, c, TypeHits(lines, i, t))
    {
      TypeStep(analysis, c, lines, i, t);
      if DeclaresType(lines[i], PrimitiveTypes[t]) {
        result := Extend(result, c, [FindingAt(UninitializedPrimitive, lines, i)]);
      }
    }
  }

  /** One test of a loop of `analyze_cpp_code` on line `i`: when the line
      passes the test of `r`, its record is appended under the category of `r`
      (for the uninitialized-variable rule, once per primitive type whose
      declaration pattern the line matches). */
  method Check(r: Rule, lines: seq<string>, i: nat, analysis: Analysis) returns (result: Analysis)
    requires i < |lines|
    ensures result == Extend(analysis, CategoryOf(r), FindingsAt(r, lines, i))
  {
    if !Fires(r, lines, i) {
      ExtendNothing(analysis, CategoryOf(r));
      result := analysis;
    } else if r == UninitializedPrimitive {
      result := TypeLoop(lines, i, CategoryOf(r), analysis);
    } else {
      result := Extend(analysis, CategoryOf(r), [FindingAt(r, lines, i)]);
    }
  }

  lemma LineOne(a: Analysis, r: Rule, lines: seq<string>, i: nat)
    requires i < |lines|
    ensures Line(a, [r], lines, i) == Extend(a, CategoryOf(r), FindingsAt(r, lines, i))
  {
    assert [r][1..] == [];
  }

  lemma LineTwo(a: Analysis, r1: Rule, r2: Rule, lines: seq<string>, i: nat)
    requires i < |lines|
    ensures Line(a, [r1, r2], lines, i)
      == Extend(Extend(a, CategoryOf(r1), FindingsAt(r1, lines, i)), CategoryOf(r2), FindingsAt(r2, lines, i))
  {
    assert [r1, r2][1..] == [r2];
    LineOne(Extend(a, CategoryOf(r1), FindingsAt(r1, lines, i)), r2, lines, i);
  }

  /** A loop of `analyze_cpp_code` with one test per line. */
  method OneTestLoop(lines: seq<string>, analysis: Analysis, r: Rule) returns (result: Analysis)
    ensures result == Pass(analysis, [r], lines, |lines|)
  {
    result := analysis;
    for i := 0 to |lines|
      invariant result == Pass(analysis, [r], lines, i)
    {
      LineOne(result, r, lines, i);
      result := Check(r, lines, i, result);
    }
  }

  /** A loop of `analyze_cpp_code` with two tests per line, `r1` before `r2`. */
  method TwoTestLoop(lines: seq<string>, analysis: Analysis, r1: Rule, r2: Rule) returns (result: Analysis)
    ensures result == Pass(analysis, [r1, r2], lines, |lines|)
  {
    result := analysis;
    for i := 0 to |lines|
      invariant result == Pass(analysis, [r1, r2], lines, i)
    {
      LineTwo(result, r1, r2, lines, i);
      result := Check(r1, lines, i, result);
      result := Check(r2, lines, i, result);
    }
  }

  /** `analyze_cpp_code`: the dictionary with six empty lists, then six loops
      over the lines, each appending to the categories of its tests. */
  method AnalyzeCppCode(code: string) returns (analysis: Analysis)
    ensures analysis == AnalysisOf(code)
  {
    analysis := EmptyAnalysis;
    var lines := Split(code, '\n');
    analysis := OneTestLoop(lines, analysis, RawPointer);
    analysis := OneTestLoop(lines, analysis, CStyleArray);
    analysis := OneTestLoop(lines, analysis, IndexLoop);
    analysis := TwoTestLoop(lines, analysis, SqrtInLoop, StringInHotPath);
    analysis := TwoTestLoop(lines, analysis, FloatComparison, MagicNumber);
    analysis := TwoTestLoop(lines, analysis, UninitializedPrimitive, NullDereference);
  }

  // suggest_improvements

  datatype CodeChange = CodeChange(line: nat, original: string, replacement: string)

  /** The dictionary `{code_changes, explanations}`. */
  datatype Suggestions = Suggestions(codeChanges: seq<CodeChange>, explanations: seq<string>)

  /** The three explanation lines written for one issue. */
  function IssueExplanation(f: Finding): seq<string> {
    ["- Line " + NatToString(f.line) + ": " + IssueOf(f.rule),
     "  - Current: `" + f.code + "`",
     "  - Suggestion: " + SuggestionOf(f.rule)]
  }

  function IssuesExplanation(issues: seq<Finding>): seq<string>
  {
    if issues == [] then [] else IssuesExplanation(issues[..|issues| - 1]) + IssueExplanation(issues[|issues| - 1])
  }

  /** A category without issues is skipped; otherwise a heading and its issues. */
  function EntryExplanation(e: Entry): seq<string> {
    if e.issues == [] then [] else ["## " + Heading(e.category)] + IssuesExplanation(e.issues)
  }

  function Explanations(items: seq<Entry>): seq<string>
  {
    if items == [] then [] else Explanations(items[..|items| - 1]) + EntryExplanation(items[|items| - 1])
  }

  /** The code change of an issue that carries a replacement. */
  function ChangesOf(issues: seq<Finding>): seq<CodeChange>
  {
    if issues == [] then []
    else
      var f := issues[|issues| - 1];
      ChangesOf(issues[..|issues| - 1])
        + (if f.replacement.Some? then [CodeChange(f.line, f.code, f.replacement.value)] else [])
  }

  function CodeChanges(items: seq<Entry>): seq<CodeChange>
  {
    if items == [] then [] else CodeChanges(items[..|items| - 1]) + ChangesOf(items[|items| - 1].issues)
  }

  lemma ItemsStep(items: seq<Entry>, j: nat)
    requires j < |items|
    ensures CodeChanges(items[..j + 1]) == CodeChanges(items[..j]) + ChangesOf(items[j].issues[..|items[j].issues|])
    ensures items[j].issues == [] ==> CodeChanges(items[..j + 1]) == CodeChanges(items[..j])
    ensures items[j].issues == [] ==> Explanations(items[..j + 1]) == Explanations(items[..j])
    ensures items[j].issues != [] ==>
      Explanations(items[..j + 1]) ==
      Explanations(items[..j]) + ["## " + Heading(items[j].category)] + IssuesExplanation(items[j].issues[..|items[j].issues|])
  {
    assert items[..j + 1][..j] == items[..j];
    var e := items[j];
    assert e.issues[..|e.issues|] == e.issues;
    if e.issues != [] {
      AppendAssoc(Explanations(items[..j]), ["## " + Heading(e.category)], IssuesExplanation(e.issues));
    }
  }

  lemma AppendAssoc<T>(a: seq<T>, b: seq<T>, c: seq<T>)
    ensures a + (b + c) == (a + b) + c
  {
  }

  lemma FirstIssues(explained: seq<string>, changed: seq<CodeChange>, issues: seq<Finding>)
    ensures explained + IssuesExplanation(issues[..0]) == explained
    ensures changed + ChangesOf(issues[..0]) == changed
  {
    assert issues[..0] == [];
  }

  lemma AllItems(items: seq<Entry>)
    ensures CodeChanges(items[..|items|]) == CodeChanges(items)
    ensures Explanations(items[..|items|]) == Explanations(items)
  {
    assert items[..|items|] == items;
  }

  lemma IssuesStep(issues: seq<Finding>, n: nat)
    requires n < |issues|
    ensures IssuesExplanation(issues[..n + 1]) == IssuesExplanation(issues[..n]) + IssueExplanation(issues[n])
    ensures ChangesOf(issues[..n + 1]) == ChangesOf(issues[..n])
      + (if issues[n].replacement.Some? then [CodeChange(issues[n].line, issues[n].code, issues[n].replacement.value)] else [])
  {
    assert issues[..n + 1][..n] == issues[..n];
  }

  /** The three lines written for issue `n` extend the explanation of the issues before it. */
  lemma IssueLinesStep(headed: seq<string>, issues: seq<Finding>, n: nat, previous: seq<string>)
    requires n < |issues|
    requires previous == headed + IssuesExplanation(issues[..n])
    ensures previous + ["- Line " + NatToString(issues[n].line) + ": " + IssueOf(issues[n].rule)]
                     + ["  - Current: `" + issues[n].code + "`"]
                     + ["  - Suggestion: " + SuggestionOf(issues[n].rule)]
            == headed + IssuesExplanation(issues[..n + 1])
  {
    IssuesStep(issues, n);
    var e := IssueExplanation(issues[n]);
    calc {
      headed + IssuesExplanation(issues[..n + 1]);
      headed + (IssuesExplanation(issues[..n]) + e);
      previous + e;
      previous + [e[0]] + [e[1]] + [e[2]];
    }
  }

  /** The change recorded for issue `n`, if any, extends the changes of the issues before it. */
  lemma IssueChangeStep(changed: seq<CodeChange>, issues: seq<Finding>, n: nat, previous: seq<CodeChange>)
    requires n < |issues|
    requires previous == changed + ChangesOf(issues[..n])
    ensures issues[n].replacement.Some? ==>
      previous + [CodeChange(issues[n].line, issues[n].code, issues[n].replacement.value)] == changed + ChangesOf(issues[..n + 1])
    ensures issues[n].replacement.None? ==> previous == changed + ChangesOf(issues[..n + 1])
  {
    IssuesStep(issues, n);
    var c := if issues[n].replacement.Some? then [CodeChange(issues[n].line, issues[n].code, issues[n].replacement.value)] else [];
    assert changed + ChangesOf(issues[..n + 1]) == changed + (ChangesOf(issues[..n]) + c);
    assert changed + (ChangesOf(issues[..n]) + c) == previous + c;
  }

  /** `suggest_improvements`: the source passes the code along but never reads it. */
  method SuggestImprovements(analysis: Analysis, code: string) returns (suggestions: Suggestions)
    ensures suggestions == Suggestions(CodeChanges(Items(analysis)), Explanations(Items(analysis)))
  {
    var items := Items(analysis);
    var codeChanges: seq<CodeChange> := [];
    var explanations: seq<string> := [];
    for j := 0 to |items|
      invariant codeChanges == CodeChanges(items[..j])
      invariant explanations == Explanations(items[..j])
    {
      ItemsStep(items, j);
      var category := items[j].category;
      var issues := items[j].issues;
      if issues != [] {
        explanations := explanations + ["## " + Heading(category)];
        ghost var headed := explanations;
        ghost var changed := codeChanges;
        FirstIssues(headed, changed, issues);
        for n := 0 to |issues|
          invariant explanations == headed + IssuesExplanation(issues[..n])
          invariant codeChanges == changed + ChangesOf(issues[..n])
        {
          IssueLinesStep(headed, issues, n, explanations);
          IssueChangeStep(changed, issues, n, codeChanges);
          var issue := issues[n];
          explanations := explanations + ["- Line " + NatToString(issue.line) + ": " + IssueOf(issue.rule)];
          explanations := explanations + ["  - Current: `" + issue.code + "`"];
          explanations := explanations + ["  - Suggestion: " + SuggestionOf(issue.rule)];
          if issue.replacement.Some? {
            codeChanges := codeChanges + [CodeChange(issue.line, issue.code, issue.replacement.value)];
          }
        }
      }
    }
    AllItems(items);
    suggestions := Suggestions(codeChanges, explanations);
  }
}
