# game-code: the C++ analyzer and the suggestion pipeline in Dafny

This project models the string logic of the game-code assistant. The
assistant reviews C++ game code and asks a language model to improve it.

- `code_analyzer.py`, `analyze_cpp_code`: the text is split into lines. Nine
  line detectors (regular expressions, substring tests and look-back
  windows) run in six loops. Each found problem becomes a record
  `{line, code, issue, suggestion}` in one of six category lists.
- `code_analyzer.py`, `suggest_improvements`: turns an analysis into
  markdown explanation lines and a list of code changes.
- `code_suggester.py`, `format_analysis_for_prompt`: renders the analysis as
  the text that goes into the model's system message.
- `code_suggester.py`, `extract_code_and_explanation`: splits a model
  response into the first C++ code block and the remaining explanation.
- `code_suggester.py`, `generate_code_suggestions`: ties these together. It
  turns every failure into the result `(code, "Error generating
  suggestions: ...", "")`.

The Dafny files are:

- `text.dfy` (module `Text`): the Python string operations the code relies
  on: `in`, `find`, `split`, `join`, `strip` and `str(n)`.
- `patterns.dfy` (module `Patterns`): the regular expressions.
  - Each pattern is a sequence of atoms.
  - `Matches` is the backtracking meaning of an atom sequence; `Greedy` is
    a matcher that does not backtrack.
  - `GreedyIsRegex` proves the two agree on every pattern the analyzer uses.
- `analyzer.dfy` (module `CodeAnalyzer`): the imperative loops of both
  analyzer functions, each proved equal to a specification function.
- `analyzer_properties.dfy` and `analyzer_results.dfy`: what the analysis
  contains.
  - Which record is reported for which line, and with what fields.
  - The order of the records within each category.
  - The meaning of each detector.
  - That no code changes are ever produced.
- `analyzer_examples.dfy`: the look-back window on concrete lines.
- `suggester.dfy` (module `CodeSuggester`): the prompt formatter (a loop), the
  response extractor and the error-absorbing composition.
  - The completion call is a parameter `complete`, and so is the diff.
  - The environment lookup of the key is a parameter `apiKey`.

The analysis dictionary becomes a record with one field per key. This is
possible because the six keys are fixed when the dictionary is created.
`Items` yields the keys in the order the literal creates them.

A record remembers the rule that produced it. Its issue and suggestion texts
are functions of that rule (`IssueOf`, `SuggestionOf`).

The windows in `lines[max(0, i-k):i]` test list membership: some earlier line
must be exactly the token. The model tests membership in the same way.

`'std::string' in line or '+=' in line and '"' in line` is read as Python
reads it: `a or (b and c)`.

Some consequences of the code as written:

- `modern_cpp` is not in line order. It holds all C-style-array records,
  then all index-loop records (`ModernCppHalves`, `ModernCppUnordered`).
- Each finding is rendered as three prompt lines (`PromptIssuesLength`).
- The sqrt, string and null-dereference rules also read up to 5, 10 and 3
  lines before the current one. Adding or removing a line above can change
  what they report for a line (`WindowRulesLookBack`). The other six rules
  depend on the line alone (`LineLocalFindings`).
- A missing key is not reported separately: it becomes the same error
  triple as a failed call, with the code returned unchanged and an empty
  diff (`MissingKeyResult`).

## Model

| member | source | states |
|---|---|---|
| Text.IndexOf | code_suggester.py:107-108 | `s.find(t, from)`: an occurrence at or after `from` with none before it, or none at all |
| Text.FirstIndex | code_analyzer.py:24 | the first index of `c` in `s`, or the length when there is none |
| Text.Split | code_analyzer.py:24 | `str.split` on one character: at least one piece and no piece contains the separator |
| Text.JoinSplit | code_analyzer.py:24 | joining the pieces of a split with the separator gives the text back |
| Text.SplitJoin | code_suggester.py:94 | splitting a join of separator-free pieces gives the pieces back |
| Text.Join | code_suggester.py:94 | definition of `sep.join(parts)`; `JoinSplit` and `SplitJoin` connect it with `Split` |
| Text.LeadingSpaceSpec | code_analyzer.py:32 | the leading whitespace count covers exactly the whitespace prefix |
| Text.TrailingSpaceSpec | code_analyzer.py:32 | the trailing whitespace count covers exactly the whitespace suffix |
| Text.StripSpec | code_analyzer.py:32 | `strip()` is an infix with only whitespace around it, not starting or ending with whitespace, and empty exactly when the text is all whitespace |
| Text.Strip | code_analyzer.py:32 | definition of `str.strip()` as dropping the leading and trailing whitespace counts; `StripSpec` states what the result is |
| Text.StripKeepsOut | code_analyzer.py:32 | stripping brings in no character that was not there |
| Text.DigitChar | code_suggester.py:88 | a digit below ten becomes its decimal character |
| Text.DecimalRoundTrip | code_suggester.py:88 | `str(n)` is a non-empty string of digits whose decimal value is `n` |
| Text.NatToString | code_suggester.py:88 | definition of `str(n)` by repeated division by ten; `DecimalRoundTrip` states that it reads back as `n` |
| Patterns.Lit | code_analyzer.py:90 | a literal pattern has one atom per character |
| Patterns.Skip | code_analyzer.py:27 | the longest run of a character class from an index, as a greedy repetition takes it |
| Patterns.SkipUnique | code_analyzer.py:27 | a run that cannot be extended is the one `Skip` finds |
| Patterns.DisjointClasses | code_analyzer.py:27 | whitespace shares no character with `\w` or `\d` |
| Patterns.StartsOutsideBlocks | code_analyzer.py:27 | a pattern that starts outside a class can only match where the text leaves the class |
| Patterns.GreedyIsRegex | code_analyzer.py:29 | for separated patterns the non-backtracking matcher accepts exactly what the backtracking regex semantics accepts |
| Patterns.SearchIsRegex | code_analyzer.py:29 | for separated patterns the greedy search is `re.search` |
| Patterns.GreedyLit | code_analyzer.py:90 | a literal pattern matches at `i` exactly where the literal occurs at `i` |
| Patterns.SearchLit | code_analyzer.py:90 | `re.search` of a plain literal is the substring test |
| Patterns.GreedyNeedsChar | code_analyzer.py:29 | a match of a pattern holding a literal character needs that character in the text |
| Patterns.SearchNeedsChar | code_analyzer.py:29 | a pattern holding a literal character finds nothing in a text without it |
| Patterns.SeparatedAfterLit | code_analyzer.py:105 | a literal prefix keeps a pattern separated |
| Patterns.RawPointerSeparated | code_analyzer.py:27 | the raw-pointer pattern can be run greedily |
| Patterns.CArraySeparated | code_analyzer.py:38 | the C-array pattern can be run greedily |
| Patterns.FloatComparisonSeparated | code_analyzer.py:81 | both branches of the float-comparison pattern can be run greedily |
| Patterns.MagicNumberSeparated | code_analyzer.py:90 | the magic-number pattern can be run greedily |
| Patterns.ConstFloatSeparated | code_analyzer.py:90 | `const\s+float` can be run greedily |
| Patterns.DeclarationSeparated | code_analyzer.py:101 | the declaration pattern can be run greedily |
| Patterns.TypedDeclarationSeparated | code_analyzer.py:105 | the per-type declaration pattern can be run greedily for every type name |
| CodeAnalyzer.CategoryIndex | code_analyzer.py:14-21 | every key has a place in the creation order of the dictionary |
| CodeAnalyzer.Heading | code_analyzer.py:163 | the title-cased name of each of the six keys (also code_suggester.py line 84) |
| CodeAnalyzer.IssueOf | code_analyzer.py:33-118 | the `issue` text each of the nine detectors writes |
| CodeAnalyzer.SuggestionOf | code_analyzer.py:34-119 | the `suggestion` text each of the nine detectors writes |
| CodeAnalyzer.CategoryOf | code_analyzer.py:30-115 | the key each of the nine detectors appends to; `RuleScan` and `Detected` state that each record lands under its rule's key |
| CodeAnalyzer.InWindow | code_analyzer.py:61 | definition of `token in lines[max(0, i-k):i]`; `WindowMeaning` states its meaning |
| CodeAnalyzer.RawPointerLine | code_analyzer.py:29 | the raw-pointer test; `RawPointerMeaning` reads it as `re.search` |
| CodeAnalyzer.CStyleArrayLine | code_analyzer.py:40 | the C-array test; `CStyleArrayMeaning` reads it as `re.search` |
| CodeAnalyzer.IndexLoopLine | code_analyzer.py:50 | the index-loop test, three substring tests; `IndexLoopReported` |
| CodeAnalyzer.SqrtInLoopAt | code_analyzer.py:61 | the sqrt test: `sqrt` in the line and a `for` or `while` line among the five before; `WindowRulesLookBack` |
| CodeAnalyzer.StringInHotPathAt | code_analyzer.py:70 | the string test, read as `a or (b and c)`, with an `update` or `render` line among the ten before |
| CodeAnalyzer.FloatComparisonLine | code_analyzer.py:81 | the float-comparison test; `FloatComparisonMeaning` reads it as `re.search` |
| CodeAnalyzer.MagicNumberLine | code_analyzer.py:90 | the magic-number test; `MagicNumberMeaning` reads it as `re.search` |
| CodeAnalyzer.DeclarationCandidate | code_analyzer.py:101 | the outer test of the uninitialized-variable rule; `DeclarationMeaning` and `UninitializedSuppressed` |
| CodeAnalyzer.DeclaresType | code_analyzer.py:105 | the per-type test; `DeclaresTypeMeaning` reads it as `re.search` |
| CodeAnalyzer.NullDereferenceAt | code_analyzer.py:114 | the null-dereference test: `->` in the line and none of `if`, `nullptr`, `NULL` among the three lines before |
| CodeAnalyzer.Fires | code_analyzer.py:28-115 | the test of each of the nine detectors; `LineLocalFindings` and `WindowRulesLookBack` say which read other lines |
| CodeAnalyzer.FindingAt | code_analyzer.py:30-35 | the record `{line: i + 1, code: line.strip()}` a rule appends; `FindingsAtLine` and `Placement` |
| CodeAnalyzer.FindingsAt | code_analyzer.py:28-120 | what one detector appends for one line; `FindingsAtShape` states its shape |
| CodeAnalyzer.AnalysisOf | code_analyzer.py:14-122 | the dictionary `analyze_cpp_code` returns, six folds over the lines in source order; `AnalyzeCppCode` computes it and `AnalysisContents`, `Placement` and `Detected` state what it holds |
| CodeAnalyzer.Items | code_analyzer.py:14-21 | `analysis.items()` has the six keys in creation order, each with its list, also when the list is empty |
| CodeAnalyzer.ExtendNothing | code_analyzer.py:28-35 | appending nothing leaves the dictionary as it was |
| CodeAnalyzer.ExtendTwice | code_analyzer.py:104-111 | two appends to one key are one append of both |
| CodeAnalyzer.TypeStep | code_analyzer.py:104-111 | testing one more primitive type appends a record exactly when the line declares that type |
| CodeAnalyzer.TypeLoop | code_analyzer.py:103-111 | the per-type loop appends one record per primitive type the line declares, in type order, under one key |
| CodeAnalyzer.Check | code_analyzer.py:28-35 | one detector on one line appends its records under its category and changes nothing else |
| CodeAnalyzer.LineOne | code_analyzer.py:49-56 | one line through a loop with one test |
| CodeAnalyzer.LineTwo | code_analyzer.py:59-77 | one line through a loop with two tests, the first before the second |
| CodeAnalyzer.OneTestLoop | code_analyzer.py:49-56 | a one-test loop over all lines is the fold `Pass` of its test |
| CodeAnalyzer.TwoTestLoop | code_analyzer.py:59-77 | a two-test loop over all lines is the fold `Pass` of its two tests in order |
| CodeAnalyzer.AnalyzeCppCode | code_analyzer.py:4-122 | `analyze_cpp_code` returns `AnalysisOf(code)`: six loops in source order from six empty lists |
| CodeAnalyzer.ItemsStep | code_analyzer.py:161-164 | a category without issues adds no lines and no changes; one with issues adds its heading and issue lines |
| CodeAnalyzer.IssuesStep | code_analyzer.py:166-181 | one more issue adds its three lines and, if it has a replacement, its change |
| CodeAnalyzer.IssueLinesStep | code_analyzer.py:171-173 | the three lines the loop appends for an issue are its explanation |
| CodeAnalyzer.IssueChangeStep | code_analyzer.py:176-181 | the loop appends a change exactly for an issue with a replacement |
| CodeAnalyzer.SuggestImprovements | code_analyzer.py:144-183 | `suggest_improvements` returns the changes and explanation lines of the analysis items in dictionary order |
| CodeAnalyzer.Explanations | code_analyzer.py:161-173 | the `explanations` list as a function of the items; `ExplanationsLength` and `ExplanationsEmpty` state its size |
| CodeAnalyzer.CodeChanges | code_analyzer.py:175-181 | the `code_changes` list as a function of the items; `NoCodeChanges` states it is empty on any analysis |
| AnalyzerProperties.LineIssues | code_analyzer.py:59-77 | one line through a loop adds to a key exactly the records of that key's tests, in test order |
| AnalyzerProperties.ExtendIssues | code_analyzer.py:30 | an append to one key changes that key's list only |
| AnalyzerProperties.PassIssues | code_analyzer.py:59-77 | a whole loop adds to each key the line-by-line records of the tests reporting into it |
| AnalyzerProperties.PassStep | code_analyzer.py:59 | one more line extends that invariant |
| AnalyzerProperties.OnlyNone | code_analyzer.py:59-77 | no test of a loop reports into a key the loop does not name |
| AnalyzerProperties.OnlyAll | code_analyzer.py:59-77 | all tests of a loop report into a key that they all name |
| AnalyzerProperties.PassKeeps | code_analyzer.py:79-96 | a loop leaves every other key's list unchanged |
| AnalyzerProperties.PassAdds | code_analyzer.py:99-120 | a loop whose tests share a key adds their records to it |
| AnalyzerProperties.OnlyOne | code_analyzer.py:79-96 | a single test reports into its own key only |
| AnalyzerProperties.PassAddsOne | code_analyzer.py:79-96 | in a loop with tests for two different keys, each key gets the records of its own test |
| AnalyzerProperties.SameIssues | code_analyzer.py:14-21 | two dictionaries with the same lists under all six keys are equal |
| AnalyzerProperties.OneTestPass | code_analyzer.py:28-35 | a one-test loop appends its records to its key |
| AnalyzerProperties.SharedTestPass | code_analyzer.py:99-120 | a loop with two tests for the same key appends their records, per line, to that key |
| AnalyzerProperties.SplitTestPass | code_analyzer.py:79-96 | a loop with tests for two keys appends to each key separately |
| AnalyzerProperties.RawPointerLoop | code_analyzer.py:27-35 | the raw-pointer loop adds to memory_management only |
| AnalyzerProperties.CStyleArrayLoop | code_analyzer.py:37-46 | the C-array loop adds to modern_cpp only |
| AnalyzerProperties.IndexLoopLoop | code_analyzer.py:48-56 | the index-loop loop adds to modern_cpp only |
| AnalyzerProperties.PerformanceLoop | code_analyzer.py:58-77 | the sqrt and string loop adds to performance_issues only |
| AnalyzerProperties.GameLoop | code_analyzer.py:78-96 | the game loop adds float comparisons to game_specific and magic numbers to code_style |
| AnalyzerProperties.BugsLoop | code_analyzer.py:98-120 | the bug loop adds to potential_bugs only |
| AnalyzerProperties.AnalysisContents | code_analyzer.py:14-122 | the content of each of the six keys, as line-by-line scans of its detectors; modern_cpp is the array scan followed by the index-loop scan |
| AnalyzerProperties.TypeHitsCount | code_analyzer.py:104-111 | a line yields one uninitialized record per primitive type it declares |
| AnalyzerProperties.TypeHitsRecord | code_analyzer.py:106-111 | each of those records is the line's record |
| AnalyzerProperties.TypesDeclaredSound | code_analyzer.py:103-105 | the types counted are primitive types whose pattern the line matches |
| AnalyzerProperties.TypesDeclaredComplete | code_analyzer.py:103-105 | every primitive type whose pattern the line matches is counted |
| AnalyzerProperties.FindingsAtShape | code_analyzer.py:28-120 | a detector yields records for a line exactly when it reports it, all equal to the line's record, one each (one per declared type for the uninitialized rule) |
| AnalyzerProperties.RulesAtSound | code_analyzer.py:59-77 | every record a line gets in a loop comes from one of its tests that reports the line |
| AnalyzerProperties.RulesAtComplete | code_analyzer.py:59-77 | every test of a loop that reports a line puts that line's record in |
| AnalyzerProperties.ConcatHas | code_analyzer.py:28 | a record of some line is in the concatenation over all lines |
| AnalyzerProperties.ConcatWhere | code_analyzer.py:28 | a record of the concatenation comes from some line |
| AnalyzerProperties.ScanSound | code_analyzer.py:28-32 | every record of a scan is the record of a line, from a test that reports that line |
| AnalyzerProperties.ScanComplete | code_analyzer.py:28-32 | every reported line has its record in the scan |
| AnalyzerResults.Placement | code_analyzer.py:28-32 | every record has a line number in `[1, #lines]`, the stripped text of that line, no replacement, a rule of its category, and that rule reports that line |
| AnalyzerResults.ScanOf | code_analyzer.py:14-122 | every record of a category comes from a scan whose rules all report into that category |
| AnalyzerResults.RecordCodeOneLine | code_analyzer.py:24-32 | the `code` of a record holds no line break |
| AnalyzerResults.Detected | code_analyzer.py:28-120 | the record for line `i` and rule `r` is in `r`'s category exactly when `r` reports line `i` |
| AnalyzerResults.RuleScan | code_analyzer.py:14-122 | the scan of a rule's loop lies within the rule's category |
| AnalyzerResults.NoCodeChanges | code_analyzer.py:176-181 | `suggest_improvements` on any analysis of code produces no code changes |
| AnalyzerResults.NoReplacement | code_analyzer.py:30-35 | no record of an analysis carries a replacement |
| AnalyzerResults.NoChangesOf | code_analyzer.py:176-181 | categories without replacements give no changes |
| AnalyzerResults.NoChangeOfIssues | code_analyzer.py:176-181 | issues without replacements give no changes |
| AnalyzerResults.ConcatAscending | code_analyzer.py:28 | blocks numbered by line, concatenated in line order, are in ascending line order and within the line count |
| AnalyzerResults.ConcatTestOrder | code_analyzer.py:59 | the within-line test order survives the concatenation over lines |
| AnalyzerResults.FindingsAtLine | code_analyzer.py:31 | a detector's records for line `i` carry its rule and the number `i + 1` |
| AnalyzerResults.RulesAtLine | code_analyzer.py:31 | a loop's records for line `i` carry the number `i + 1` |
| AnalyzerResults.ScanAscending | code_analyzer.py:28 | a single loop's records are in ascending line order |
| AnalyzerResults.RulesAtTwo | code_analyzer.py:59-77 | a line's records in a two-test loop are the first test's, then the second's |
| AnalyzerResults.BlockOrder | code_analyzer.py:59-77 | the first test's records, then the second's, keep the test order |
| AnalyzerResults.TwoTestsOrder | code_analyzer.py:59-77 | on one line, the second test's records never come before the first's |
| AnalyzerResults.ScanTestOrder | code_analyzer.py:59-77 | over a whole two-test loop, on each line, the first test's records come first |
| AnalyzerResults.CategoryAscending | code_analyzer.py:28-120 | every category except modern_cpp is in ascending line order |
| AnalyzerResults.TwoTestCategory | code_analyzer.py:59-77 | a category filled by one two-test loop keeps the test order |
| AnalyzerResults.PerformanceTestOrder | code_analyzer.py:59-77 | in performance_issues, on each line, the sqrt record comes before the string record |
| AnalyzerResults.BugsTestOrder | code_analyzer.py:99-120 | in potential_bugs, on each line, uninitialized records come before the null-dereference record |
| AnalyzerResults.ModernCppHalves | code_analyzer.py:38-56 | modern_cpp is all C-style-array records in ascending order, then all index-loop records in ascending order |
| AnalyzerResults.OneRuleScan | code_analyzer.py:38-46 | a one-test loop only yields records of its rule |
| AnalyzerResults.ModernCppUnordered | code_analyzer.py:38-56 | an index loop above a C-style array leaves modern_cpp out of line order |
| AnalyzerResults.WindowMeaning | code_analyzer.py:61 | a window test holds exactly when one of the `k` lines before line `i` (never before line 0, never line `i`) is exactly the token |
| AnalyzerResults.RawPointerMeaning | code_analyzer.py:29 | the raw-pointer test is `re.search` of its pattern and the absence of `std::`, `shared_ptr` and `unique_ptr` |
| AnalyzerResults.CStyleArrayMeaning | code_analyzer.py:40 | the C-array test is `re.search` of its pattern and no `char` |
| AnalyzerResults.FloatComparisonMeaning | code_analyzer.py:81 | the float-comparison test is `re.search` of `==` or `!=` then a decimal literal |
| AnalyzerResults.MagicNumberMeaning | code_analyzer.py:90 | the magic-number test is `re.search` of its pattern without `const\s+float` or `#define` |
| AnalyzerResults.DeclarationMeaning | code_analyzer.py:101 | the declaration test is `re.search` of `(\w+)\s+(\w+);` without `=`, `class`, `struct` or `enum` |
| AnalyzerResults.DeclaresTypeMeaning | code_analyzer.py:105 | the per-type test is `re.search` of `{type}\s+\w+;` |
| AnalyzerResults.RawPointerReported | code_analyzer.py:27-35 | a line is in memory_management exactly when it matches the raw-pointer pattern and contains none of the three smart-pointer words |
| AnalyzerResults.RawPointerNeedsStar | code_analyzer.py:27-29 | a line without `*` never gets a raw-pointer record |
| AnalyzerResults.LineLocalFindings | code_analyzer.py:28-115 | the six rules other than sqrt, string and null dereference decide a line by its text alone: an equal line in any other text fires the same way and gives as many records, each the stripped line |
| AnalyzerExamples.WindowRulesLookBack | code_analyzer.py:61-120 | the sqrt, string and null-dereference rules decide the same line differently once a `for`, `update` or `if` line is put before it |
| AnalyzerResults.IndexLoopReported | code_analyzer.py:49-56 | a line gets an index-loop record exactly when it contains `for`, `; i < ` and `.size()` |
| AnalyzerResults.UninitializedSuppressed | code_analyzer.py:101 | a line with `=`, `class`, `struct` or `enum` gets no uninitialized record |
| AnalyzerResults.IssuesExplanationLength | code_analyzer.py:166-173 | three explanation lines per issue |
| AnalyzerResults.ExplanationsLength | code_analyzer.py:161-173 | one heading per category with issues plus three lines per issue |
| AnalyzerResults.ExplanationsEmpty | code_analyzer.py:161-164 | there are no explanation lines exactly when no category has an issue |
| AnalyzerResults.NonEmptyCountZero | code_analyzer.py:162 | no category counts as non-empty exactly when all are empty |
| AnalyzerResults.IssueCountZero | code_analyzer.py:162 | with no non-empty category there are no issues |
| AnalyzerExamples.WindowExample | code_analyzer.py:61 | a `for (...) {` header does not open the sqrt window; a line that is exactly `for` does |
| CodeSuggester.PromptEntryStep | code_suggester.py:82-92 | a category without issues adds no prompt lines; one with issues adds its heading, its issue lines and an empty line |
| CodeSuggester.PromptLines | code_suggester.py:80-92 | the `result` list of `format_analysis_for_prompt` as a function of the items; `PromptLinesLength`, `PromptEmpty` and `PromptSplit` state its shape |
| CodeSuggester.PromptIssueStep | code_suggester.py:87-90 | the three lines appended for an issue are its prompt lines |
| CodeSuggester.FormatAnalysisForPrompt | code_suggester.py:70-94 | the result is the prompt lines of every category with issues, in dictionary order, joined with line breaks |
| CodeSuggester.PromptIssuesLength | code_suggester.py:87-90 | three prompt lines per issue |
| CodeSuggester.PromptLinesLength | code_suggester.py:82-92 | two lines per category with issues plus three per issue |
| CodeSuggester.PromptEmpty | code_suggester.py:80-94 | the formatted text is `""` exactly when no category has an issue |
| CodeSuggester.PromptSplit | code_suggester.py:94 | a formatted text with issues and break-free lines splits back into its lines: two per category with issues, three per issue |
| CodeSuggester.PromptIssueNoBreak | code_suggester.py:88-90 | given the premise `FixedTextsOneLine` (no fixed heading, issue name or suggestion holds a line break), an issue whose code is one line gives three one-line prompt lines |
| CodeSuggester.PromptIssuesNoBreak | code_suggester.py:87-90 | given the premise `FixedTextsOneLine`, the same for all issues of a category |
| CodeSuggester.PromptLinesNoBreak | code_suggester.py:82-92 | given the premise `FixedTextsOneLine`, when every record's code is one line, every prompt line is |
| CodeSuggester.AnalysisPromptSplit | code_suggester.py:70-94 | given the premise `FixedTextsOneLine`, the formatted analysis of code with issues has exactly two lines per category with issues plus three per issue |
| CodeSuggester.FindBlock | code_suggester.py:107-108 | a match of `o(.*?)f` spans `o`, the enclosed text and `f`, inside the text |
| CodeSuggester.FindBlockSpec | code_suggester.py:107-108 | `re.search` finds a match exactly when some `o` is followed by an `f`; the match is the leftmost and ends at the nearest `f` |
| CodeSuggester.ExtractWithoutBlock | code_suggester.py:114-117 | without a match the result is `("", response_text)`, not stripped |
| CodeSuggester.ExtractedCode | code_suggester.py:110-113 | with a match the code is the stripped enclosed text, and the explanation is the stripped text before the match followed by the rest with its own blocks removed |
| CodeSuggester.BlockHasNoClose | code_suggester.py:107-111 | the enclosed text of the match contains no `f`, because the match is non-greedy |
| CodeSuggester.ExtractedCodeHasNoClose | code_suggester.py:107-111 | the improved code never contains `f` |
| CodeSuggester.StripKeepsAbsent | code_suggester.py:111 | stripping a text without `t` gives a text without `t` |
| CodeSuggester.RemoveBlocksChange | code_suggester.py:113 | removal leaves a text without a match unchanged; otherwise it takes away at least the `o` and `f` of the first match |
| CodeSuggester.RemoveBlocks | code_suggester.py:113 | `re.sub(pattern, "", text, flags=re.DOTALL)`: each match, left to right without overlap, removed; `RemoveBlocksChange` and `RemoveBlocksShorter` state what removal does |
| CodeSuggester.ExtractWith | code_suggester.py:106-119 | `extract_code_and_explanation` for the pattern `o(.*?)f`; `ExtractWithoutBlock`, `ExtractedCode` and `ExtractedCodeHasNoClose` state its result |
| CodeSuggester.ExtractCodeAndExplanation | code_suggester.py:96-119 | `extract_code_and_explanation` with the fence `"```cpp\n"` … `"```"`; `ExtractCodeAndExplanationSpec` |
| CodeSuggester.RemoveBlocksShorter | code_suggester.py:113 | removal never lengthens the text |
| CodeSuggester.ExtractCodeAndExplanationSpec | code_suggester.py:96-119 | with the prompt's own fence: no block gives `("", text)`, and the improved code never holds a closing fence |
| CodeSuggester.RequestCarries | code_suggester.py:33-54 | the system message holds the rendered analysis between its fixed texts; the user message holds the code and then the prompt; model, temperature and token limit are fixed |
| CodeSuggester.RequestFor | code_suggester.py:33-54 | the request the source sends; `RequestCarries` states what it carries |
| CodeSuggester.KeyMissing | code_suggester.py:25-27 | Python's `not api_key` on `os.environ.get`: unset or empty |
| CodeSuggester.ErrorResult | code_suggester.py:67-68 | the `except` branch: the code back, the error text, no diff |
| CodeSuggester.SuggestWith | code_suggester.py:24-68 | the body of `generate_code_suggestions` after the analysis is rendered; `SuggestWithOutcome` and `MissingKeyResult` state its three outcomes |
| CodeSuggester.GenerateCodeSuggestions | code_suggester.py:6-68 | `generate_code_suggestions`; `GenerateCodeSuggestionsOutcome` states its outcomes |
| CodeSuggester.MissingKeyResult | code_suggester.py:24-27 | without a key (unset or empty) the result is the key error, whatever the completion call and the diff would do |
| CodeSuggester.SuggestWithOutcome | code_suggester.py:24-68 | missing key and failed call give `(code, "Error generating suggestions: " + msg, "")`; a response gives its extraction and the diff of the code against the improved code |
| CodeSuggester.GenerateCodeSuggestionsOutcome | code_suggester.py:6-68 | the same for `generate_code_suggestions`, whose request carries the formatted analysis of the code; a response without a block gives `("", response, diff(code, ""))`; the improved code never holds a fence |
| CodeSuggester.AnalysisTextEmpty | code_suggester.py:80-94 | the analysis text in the system message is empty exactly when no category has an issue |

## Left out

- The Streamlit front end in `app.py` (layout, session state, history, loading of the example files) is not part of this model.
- The Groq client is not modelled. The call the source makes through it is the parameter `complete`: it receives the key and the `Request`, and answers `Success(content)` or `Failure(message)`.
- `Failure(message)` covers every exception, including a response whose content is `None`. The regex call in `extract_code_and_explanation` would raise on such a response, and the `except` clause absorbs the error.
- `os.environ.get("GROQ_API_KEY")` is the parameter `apiKey`.
- `generate_diff` is wrapped by the source around `difflib.HtmlDiff`, which is not part of this model. It is the opaque total function `diff`, so an exception raised inside it is not modelled.
- `highlight_changes` is also built on `difflib`, and is not modelled at all.
- Python's Unicode rules for `\w`, `\s`, `\d` and `str.strip()` are not modelled (the model uses the ASCII ranges).
- `str.title()` on the six fixed keys is a lookup table (`Heading`), not a general title-casing function.
- The trailing `f?` of the two float patterns is dropped. It can match the empty string, so it never decides whether `re.search` finds a match.
- AnalysisPromptSplit: takes as a premise, `FixedTextsOneLine`, that the headings, issue names and suggestions hold no line break. Each of these texts is a fixed string literal. Checking every character of the long literals is beyond what the verifier can do within its resource budget.
- PromptIssueNoBreak: takes the same premise `FixedTextsOneLine`, for the same reason.
- PromptIssuesNoBreak: takes the same premise `FixedTextsOneLine`, for the same reason.
- PromptLinesNoBreak: takes the same premise `FixedTextsOneLine`, for the same reason.
- PromptSplit: also takes break-free lines as a premise, for the same reason, and asks for at least one issue. An empty analysis renders as `""`, and `"".split('\n')` is `[""]`, one line rather than zero.
- Concrete example inputs are not stated as lemmas about string literals. Examples are the line `int* ptr = new int(5);`, the line `if (x == 0.5f)`, and a response with a prefix, one cpp block and a suffix. The verifier cannot evaluate the regexes on long literals cheaply. The general iff lemmas (`RawPointerReported`, `Detected`, `ExtractedCode`) cover these cases.
- ExtractedCode: the pattern is taken as parameters `o` and `f`, so it is stated for every pattern of the form `o(.*?)f` with a non-empty `o` or `f`. `ExtractCodeAndExplanationSpec` instantiates the no-block case and the no-fence case with the prompt's own `"```cpp\n"` and `"```"`.
- The texts of the system message are constants; no property of their wording is proved.
- The temperature is kept as the constant `0.2` in the request; real-number and token-limit behaviour of the service is not modelled.
