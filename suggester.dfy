/**
 * `code_suggester.py`: the text the analysis is rendered to before it goes
 * into the prompt (`FormatAnalysisForPrompt`), the split of a model response
 * into improved code and explanation (`ExtractCodeAndExplanation`), and the
 * way `generate_code_suggestions` absorbs every failure of the completion
 * call into its result. The completion call and the diff are parameters.
 */
module CodeSuggester {
  import opened Text
  import opened CodeAnalyzer
  import opened AnalyzerResults

  // format_analysis_for_prompt

  /** The three prompt lines written for one issue. */
  function PromptIssue(f: Finding): seq<string> {
    ["- Line " + NatToString(f.line) + ": " + IssueOf(f.rule),
     "  Code: " + f.code,
     "  Suggestion: " + SuggestionOf(f.rule)]
  }

  function PromptIssues(issues: seq<Finding>): seq<string>
  {
    if issues == [] then [] else PromptIssues(issues[..|issues| - 1]) + PromptIssue(issues[|issues| - 1])
  }

  /** A category without issues is skipped; otherwise its heading, its
      issues and an empty line. */
  function PromptEntry(e: Entry): seq<string> {
    if e.issues == [] then [] else ["## " + Heading(e.category)] + PromptIssues(e.issues) + [""]
  }

  /** The list `result` that `format_analysis_for_prompt` builds. */
  function PromptLines(items: seq<Entry>): seq<string>
  {
    if items == [] then [] else PromptLines(items[..|items| - 1]) + PromptEntry(items[|items| - 1])
  }

  lemma PromptEntryStep(items: seq<Entry>, j: nat)
    requires j < |items|
    ensures items[j].issues == [] ==> PromptLines(items[..j + 1]) == PromptLines(items[..j])
    ensures items[j].issues != [] ==>
      PromptLines(items[..j + 1]) ==
      PromptLines(items[..j]) + ["## " + Heading(items[j].category)] + PromptIssues(items[j].issues[..|items[j].issues|]) + [""]
  {
    assert items[..j + 1][..j] == items[..j];
    var e := items[j];
    assert e.issues[..|e.issues|] == e.issues;
    if e.issues != [] {
      var p := PromptLines(items[..j]);
      var h := ["## " + Heading(e.category)];
      var body := PromptIssues(e.issues);
      assert p + (h + body + [""]) == p + h + body + [""];
    }
  }

  lemma PromptIssueStep(headed: seq<string>, issues: seq<Finding>, n: nat, previous: seq<string>)
    requires n < |issues|
    requires previous == headed + PromptIssues(issues[..n])
    ensures previous + ["- Line " + NatToString(issues[n].line) + ": " + IssueOf(issues[n].rule)]
                     + ["  Code: " + issues[n].code]
                     + ["  Suggestion: " + SuggestionOf(issues[n].rule)]
            == headed + PromptIssues(issues[..n + 1])
  {
    assert issues[..n + 1][..n] == issues[..n];
    var e := PromptIssue(issues[n]);
    assert headed + PromptIssues(issues[..n + 1]) == headed + (PromptIssues(issues[..n]) + e);
    assert previous + e == previous + [e[0]] + [e[1]] + [e[2]];
  }

  lemma PromptFirst(headed: seq<string>, issues: seq<Finding>)
    ensures headed + PromptIssues(issues[..0]) == headed
  {
    assert issues[..0] == [];
  }

  /** `format_analysis_for_prompt`: the prompt lines of every category with
      issues, in dictionary order, joined with line breaks. */
  method FormatAnalysisForPrompt(analysis: Analysis) returns (text: string)
    ensures text == Join(PromptLines(Items(analysis)), "\n")
  {
    var items := Items(analysis);
    var result: seq<string> := [];
    for j := 0 to |items|
      invariant result == PromptLines(items[..j])
    {
      PromptEntryStep(items, j);
      var category := items[j].category;
      var issues := items[j].issues;
      if issues != [] {
        result := result + ["## " + Heading(category)];
        ghost var headed := result;
        PromptFirst(headed, issues);
        for n := 0 to |issues|
          invariant result == headed + PromptIssues(issues[..n])
        {
          PromptIssueStep(headed, issues, n, result);
          var issue := issues[n];
          result := result + ["- Line " + NatToString(issue.line) + ": " + IssueOf(issue.rule)];
          result := result + ["  Code: " + issue.code];
          result := result + ["  Suggestion: " + SuggestionOf(issue.rule)];
        }
        result := result + [""];
      }
    }
    assert items[..|items|] == items;
    text := Join(result, "\n");
  }

  lemma {:induction false} PromptIssuesLength(issues: seq<Finding>)
    ensures |PromptIssues(issues)| == 3 * |issues|
  {
    if issues != [] {
      PromptIssuesLength(issues[..|issues| - 1]);
    }
  }

  /** The prompt has two lines (heading and closing empty line) per category
      with issues and three per issue. */
  lemma {:induction false} PromptLinesLength(items: seq<Entry>)
    ensures |PromptLines(items)| == 2 * NonEmptyCount(items) + 3 * IssueCount(items)
  {
    if items != [] {
      PromptLinesLength(items[..|items| - 1]);
      PromptIssuesLength(items[|items| - 1].issues);
    }
  }

  /** The formatted analysis is `""` exactly when no category has an issue. */
  lemma PromptEmpty(items: seq<Entry>)
    ensures Join(PromptLines(items), "\n") == "" <==> forall j :: 0 <= j < |items| ==> items[j].issues == []
  {
    PromptLinesLength(items);
    NonEmptyCountZero(items);
    IssueCountZero(items);
    var lines := PromptLines(items);
    if |lines| >= 2 {
      JoinLong(lines, "\n");
    }
  }

  lemma JoinLong(parts: seq<string>, sep: string)
    requires |parts| >= 2 && sep != ""
    ensures Join(parts, sep) != ""
  {
    assert |Join(parts, sep)| >= |sep|;
  }

  /** A formatted analysis with at least one issue, none of whose lines
      holds a line break, splits back into its prompt lines: two per
      category with issues and three per issue. */
  lemma PromptSplit(items: seq<Entry>)
    requires NonEmptyCount(items) > 0
    requires forall k :: 0 <= k < |PromptLines(items)| ==> '\n' !in PromptLines(items)[k]
    ensures Split(Join(PromptLines(items), "\n"), '\n') == PromptLines(items)
    ensures |Split(Join(PromptLines(items), "\n"), '\n')| == 2 * NonEmptyCount(items) + 3 * IssueCount(items)
  {
    PromptLinesLength(items);
    SplitJoin(PromptLines(items), '\n');
  }

  /** None of the fixed texts (headings, issue names, suggestions) holds a
      line break. */
  predicate FixedTextsOneLine() {
    && (forall r: Rule :: '\n' !in IssueOf(r) && '\n' !in SuggestionOf(r))
    && (forall c: Category :: '\n' !in Heading(c))
  }

  lemma PromptIssueNoBreak(f: Finding)
    requires FixedTextsOneLine() && '\n' !in f.code
    ensures forall k :: 0 <= k < |PromptIssue(f)| ==> '\n' !in PromptIssue(f)[k]
  {
    DecimalRoundTrip(f.line);
    var digits := NatToString(f.line);
    assert '\n' !in digits by {
      forall k | 0 <= k < |digits| ensures digits[k] != '\n' { assert IsDigitChar(digits[k]); }
    }
    assert '\n' !in "- Line " && '\n' !in ": " && '\n' !in "  Code: " && '\n' !in "  Suggestion: ";
  }

  lemma {:induction false} PromptIssuesNoBreak(issues: seq<Finding>)
    requires FixedTextsOneLine()
    requires forall f :: f in issues ==> '\n' !in f.code
    ensures forall k :: 0 <= k < |PromptIssues(issues)| ==> '\n' !in PromptIssues(issues)[k]
  {
    if issues != [] {
      var init := issues[..|issues| - 1];
      assert forall f :: f in init ==> f in issues;
      PromptIssuesNoBreak(init);
      PromptIssueNoBreak(issues[|issues| - 1]);
    }
  }

  /** When every record's code is one line, so is every prompt line. */
  lemma {:induction false} PromptLinesNoBreak(items: seq<Entry>)
    requires FixedTextsOneLine()
    requires forall j, f :: 0 <= j < |items| && f in items[j].issues ==> '\n' !in f.code
    ensures forall k :: 0 <= k < |PromptLines(items)| ==> '\n' !in PromptLines(items)[k]
  {
    if items != [] {
      var init := items[..|items| - 1];
      var e := items[|items| - 1];
      assert forall j :: 0 <= j < |init| ==> init[j] == items[j];
      PromptLinesNoBreak(init);
      PromptIssuesNoBreak(e.issues);
      assert '\n' !in "## ";
      assert '\n' !in "## " + Heading(e.category);
    }
  }

  /** The prompt text of an analysis of `code` with at least one issue
      splits back into its lines: two per category with issues and three per
      issue (the code of a record is one line of `code`). */
  lemma AnalysisPromptSplit(code: string)
    requires FixedTextsOneLine()
    requires NonEmptyCount(Items(AnalysisOf(code))) > 0
    ensures var items := Items(AnalysisOf(code));
      && Split(Join(PromptLines(items), "\n"), '\n') == PromptLines(items)
      && |Split(Join(PromptLines(items), "\n"), '\n')| == 2 * NonEmptyCount(items) + 3 * IssueCount(items)
  {
    var a := AnalysisOf(code);
    var items := Items(a);
    forall j, f | 0 <= j < |items| && f in items[j].issues
      ensures '\n' !in f.code
    {
      RecordCodeOneLine(code, CategoryOrder[j], f);
    }
    PromptLinesNoBreak(items);
    PromptSplit(items);
  }

  // extract_code_and_explanation

  /** The opening of a code block, "```cpp" and a line break. */
  const Opening: string := "```cpp\n"

  /** The closing fence. */
  const Fence: string := "```"

  /** The pattern `o(.*?)f` matches `s` from `k` to `c + |f|`: `o` at `k` and
      `f` at `c`, after it. */
  predicate BlockAt(s: string, o: string, f: string, k: nat, c: nat) {
    k + |o| <= c && OccursAt(s, o, k) && OccursAt(s, f, c)
  }

  /** `re.search` finds a match of `o(.*?)f` in `s`. */
  predicate BlockExists(s: string, o: string, f: string) {
    exists k: nat, c: nat | k <= |s| && c <= |s| :: BlockAt(s, o, f, k, c)
  }

  /** The match `re.search` finds for `o(.*?)f` under `re.DOTALL`: the first
      `o` after which an `f` occurs, and the nearest `f` after it (`.*?` is
      non-greedy and crosses line breaks). */
  function FindBlock(s: string, o: string, f: string): (r: Option<(nat, nat)>)
    ensures r.Some? ==> r.value.0 + |o| <= r.value.1 && r.value.1 + |f| <= |s|
  {
    match IndexOf(s, o, 0)
    case None => None
    case Some(k) =>
      match IndexOf(s, f, k + |o|)
      case None => None
      case Some(c) => Some((k, c))
  }

  /** `FindBlock` finds a match exactly when there is one; the match is the
      leftmost, and it ends at the nearest `f`. */
  lemma FindBlockSpec(s: string, o: string, f: string)
    ensures var r := FindBlock(s, o, f);
      && (r.None? <==> !BlockExists(s, o, f))
      && (r.Some? ==> BlockAt(s, o, f, r.value.0, r.value.1))
      && (r.Some? ==> forall k: nat, c: nat :: BlockAt(s, o, f, k, c) ==> r.value.0 <= k)
      && (r.Some? ==> forall m :: r.value.0 + |o| <= m < r.value.1 ==> !OccursAt(s, f, m))
  {
    var r := FindBlock(s, o, f);
    if r.Some? {
      assert BlockAt(s, o, f, r.value.0, r.value.1);
    }
  }

  /** `re.sub` of `o(.*?)f` by `""` under `re.DOTALL`: every match, found
      left to right without overlap, removed. */
  function RemoveBlocks(s: string, o: string, f: string): string
    requires |o| + |f| > 0
    decreases |s|
  {
    var r := FindBlock(s, o, f);
    if r.None? then s else s[..r.value.0] + RemoveBlocks(s[r.value.1 + |f|..], o, f)
  }

  /** `extract_code_and_explanation` for the pattern `o(.*?)f`. */
  function ExtractWith(text: string, o: string, f: string): (string, string)
    requires |o| + |f| > 0
  {
    match FindBlock(text, o, f)
    case None => ("", text)
    case Some((k, c)) => (Strip(text[k + |o|..c]), Strip(RemoveBlocks(text, o, f)))
  }

  /** `extract_code_and_explanation`: `(improved_code, explanation)`. */
  function ExtractCodeAndExplanation(text: string): (string, string)
  {
    ExtractWith(text, Opening, Fence)
  }

  /** Without a match the explanation is the response itself, not even
      stripped, and the improved code is empty. */
  lemma ExtractWithoutBlock(text: string, o: string, f: string)
    requires |o| + |f| > 0 && !BlockExists(text, o, f)
    ensures ExtractWith(text, o, f) == ("", text)
  {
    FindBlockSpec(text, o, f);
  }

  /** On the match `FindBlock` finds (the leftmost, ending at the nearest
      `f`, as `FindBlockSpec` states) the improved code is the stripped text
      between `o` and `f`, and the explanation is the stripped rest: the text
      before the match followed by the text after it with its own matches
      removed. */
  lemma ExtractedCode(text: string, o: string, f: string)
    requires |o| + |f| > 0 && BlockExists(text, o, f)
    ensures var r := FindBlock(text, o, f);
      && r.Some?
      && ExtractWith(text, o, f).0 == Strip(text[r.value.0 + |o|..r.value.1])
      && ExtractWith(text, o, f).1
         == Strip(text[..r.value.0] + RemoveBlocks(text[r.value.1 + |f|..], o, f))
  {
    FindBlockSpec(text, o, f);
    RemoveBlocksStep(text, o, f);
  }

  /** One step of `re.sub`: the first match and everything before it go first. */
  lemma RemoveBlocksStep(s: string, o: string, f: string)
    requires |o| + |f| > 0 && FindBlock(s, o, f).Some?
    ensures var r := FindBlock(s, o, f);
      RemoveBlocks(s, o, f) == s[..r.value.0] + RemoveBlocks(s[r.value.1 + |f|..], o, f)
  {
  }

  /** An occurrence in a slice is an occurrence in the whole text, shifted by the slice's start. */
  lemma OccursInSlice(s: string, a: nat, b: nat, t: string, p: nat)
    requires a <= b <= |s| && OccursAt(s[a..b], t, p)
    ensures OccursAt(s, t, a + p)
  {
    var block := s[a..b];
    assert p + |t| <= |block|;
    forall j | 0 <= j < |t|
      ensures s[a + p + j] == t[j]
    {
      assert block[p..p + |t|][j] == t[j];
      assert block[p + j] == s[a + p + j];
    }
    assert s[a + p..a + p + |t|] == t;
  }

  /** The text a match encloses holds no nonempty `f` of its own. */
  lemma BlockHasNoClose(s: string, o: string, f: string)
    requires BlockExists(s, o, f) && f != ""
    ensures var r := FindBlock(s, o, f);
      !Contains(s[r.value.0 + |o|..r.value.1], f)
  {
    FindBlockSpec(s, o, f);
    var r := FindBlock(s, o, f);
    var k := r.value.0;
    var c := r.value.1;
    var block := s[k + |o|..c];
    forall p: nat | p <= |block|
      ensures !OccursAt(block, f, p)
    {
      if OccursAt(block, f, p) {
        OccursInSlice(s, k + |o|, c, f, p);
        assert false;
      }
    }
  }

  /** The improved code never contains `f`: the match stops at the first one. */
  lemma ExtractedCodeHasNoClose(text: string, o: string, f: string)
    requires |o| + |f| > 0 && f != ""
    ensures !Contains(ExtractWith(text, o, f).0, f)
  {
    FindBlockSpec(text, o, f);
    var r := FindBlock(text, o, f);
    if r.Some? {
      BlockHasNoClose(text, o, f);
      StripKeepsAbsent(text[r.value.0 + |o|..r.value.1], f);
    } else {
      NothingInEmpty(f);
    }
  }

  lemma NothingInEmpty(t: string)
    requires t != ""
    ensures !Contains("", t)
  {
  }

  /** A text that `t` does not occur in, stripped, does not contain `t` either. */
  lemma StripKeepsAbsent(s: string, t: string)
    requires !Contains(s, t)
    ensures !Contains(Strip(s), t)
  {
    StripSpec(s);
    var r := Strip(s);
    var a: nat :| SpaceMargins(s, r, a);
    forall p: nat | p <= |r|
      ensures !OccursAt(r, t, p)
    {
      if OccursAt(r, t, p) {
        assert r == s[a..a + |r|];
        OccursInSlice(s, a, a + |r|, t, p);
        assert false;
      }
    }
  }

  /** Removing the blocks changes the text exactly when it has one, and then
      takes away at least the `o` and the `f` of the first. */
  lemma {:induction false} RemoveBlocksChange(s: string, o: string, f: string)
    requires |o| + |f| > 0
    ensures !BlockExists(s, o, f) ==> RemoveBlocks(s, o, f) == s
    ensures BlockExists(s, o, f) ==> |RemoveBlocks(s, o, f)| + |o| + |f| <= |s|
  {
    FindBlockSpec(s, o, f);
    var r := FindBlock(s, o, f);
    if r.Some? {
      RemoveBlocksShorter(s[r.value.1 + |f|..], o, f);
    }
  }

  lemma {:induction false} RemoveBlocksShorter(s: string, o: string, f: string)
    requires |o| + |f| > 0
    ensures |RemoveBlocks(s, o, f)| <= |s|
    decreases |s|
  {
    var r := FindBlock(s, o, f);
    if r.Some? {
      RemoveBlocksShorter(s[r.value.1 + |f|..], o, f);
    }
  }

  /** What `extract_code_and_explanation` guarantees of the prompt's own
      pattern: no block gives `("", text)`, and the improved code never
      holds a closing fence. */
  lemma ExtractCodeAndExplanationSpec(text: string)
    ensures !BlockExists(text, Opening, Fence) ==> ExtractCodeAndExplanation(text) == ("", text)
    ensures !Contains(ExtractCodeAndExplanation(text).0, Fence)
  {
    var o, f := Opening, Fence;
    assert |f| == 3;
    if !BlockExists(text, o, f) {
      ExtractWithoutBlock(text, o, f);
    }
    ExtractedCodeHasNoClose(text, o, f);
  }

  // generate_code_suggestions

  /** One chat-completion request: the model, the system and user messages,
      the temperature and the token limit. */
  datatype Request = Request(model: string, system: string, user: string, temperature: real, maxTokens: nat)

  /** What the completion call gives back: the content of the first choice,
      or the text of the exception it raised. */
  datatype Completion = Success(content: string) | Failure(message: string)

  /** The triple `(improved_code, explanation, diff)`. */
  datatype Suggestion = Suggestion(improvedCode: string, explanation: string, diff: string)

  const Model: string := "llama3-70b-8192"

  const SystemIntro: string :=
    "You are a C++ expert specializing in game development. \n"
    + "Your task is to improve the provided code based on the user's request and the static analysis results.\n"
    + "Focus on performance, readability, and best practices for game development.\n\n"
    + "Here's the static analysis of the code:\n"

  const SystemOutro: string :=
    "\n\nProvide your response in the following format:\n"
    + "1. The complete improved code in a ```cpp code block\n"
    + "2. A detailed explanation of all changes made, organized by category (performance, memory management, etc.)\n"
    + "3. Highlight the most important improvements first\n\n"
    + "Make sure your improvements address both the user's specific request and the issues identified in the analysis.\n"
    + "For game development, prioritize performance optimizations and memory management improvements."

  const UserIntro: string := "Here is my C++ game development code:\n\n```cpp\n"

  const UserMiddle: string := "\n```\n\nI want to improve it by: "

  const MissingKey: string := "GROQ_API_KEY environment variable is not set"

  const ErrorPrefix: string := "Error generating suggestions: "

  /** The request built from the code, the user's prompt and the rendered analysis. */
  function RequestFor(code: string, prompt: string, analysisText: string): Request {
    Request(Model, SystemIntro + analysisText + SystemOutro,
            UserIntro + code + UserMiddle + prompt, 0.2, 4000)
  }

  /** The result of the `except` branch: the code back unchanged, the error
      text and no diff. */
  function ErrorResult(code: string, message: string): Suggestion {
    Suggestion(code, ErrorPrefix + message, "")
  }

  /** Python's `not api_key` for `os.environ.get`: unset or empty. */
  predicate KeyMissing(apiKey: Option<string>) {
    apiKey.None? || apiKey.value == ""
  }

  /** The body of `generate_code_suggestions` once the analysis is rendered:
      `complete` is the Groq call under a key and `diff` is `generate_diff`. */
  function SuggestWith(code: string, prompt: string, analysisText: string, apiKey: Option<string>,
                       complete: (string, Request) -> Completion,
                       diff: (string, string) -> string): Suggestion
  {
    if KeyMissing(apiKey) then ErrorResult(code, MissingKey)
    else
      match complete(apiKey.value, RequestFor(code, prompt, analysisText))
      case Failure(message) => ErrorResult(code, message)
      case Success(content) =>
        var (improved, explanation) := ExtractCodeAndExplanation(content);
        Suggestion(improved, explanation, diff(code, improved))
  }

  /** `generate_code_suggestions`: the analysis of the code, rendered, goes
      into the request. */
  function GenerateCodeSuggestions(code: string, prompt: string, apiKey: Option<string>,
                                   complete: (string, Request) -> Completion,
                                   diff: (string, string) -> string): Suggestion
  {
    SuggestWith(code, prompt, Join(PromptLines(Items(AnalysisOf(code))), "\n"), apiKey, complete, diff)
  }

  lemma Infix(a: string, b: string, c: string)
    ensures OccursAt(a + b + c, b, |a|)
  {
    assert (a + b + c)[|a|..|a| + |b|] == b;
  }

  /** The request carries the rendered analysis inside the system message
      and the code and the prompt inside the user message, after the fixed
      texts; its model, temperature and token limit are fixed. */
  lemma RequestCarries(code: string, prompt: string, analysisText: string)
    ensures var q := RequestFor(code, prompt, analysisText);
      && OccursAt(q.system, analysisText, |SystemIntro|)
      && |q.system| == |SystemIntro| + |analysisText| + |SystemOutro|
      && OccursAt(q.user, code, |UserIntro|)
      && OccursAt(q.user, prompt, |UserIntro| + |code| + |UserMiddle|)
      && |q.user| == |UserIntro| + |code| + |UserMiddle| + |prompt|
      && q.model == Model && q.temperature == 0.2 && q.maxTokens == 4000
  {
    Infix(SystemIntro, analysisText, SystemOutro);
    Infix(UserIntro + code + UserMiddle, prompt, "");
    assert UserIntro + code + UserMiddle + prompt + "" == UserIntro + code + UserMiddle + prompt;
    Infix(UserIntro, code, UserMiddle + prompt);
    assert UserIntro + code + (UserMiddle + prompt) == UserIntro + code + UserMiddle + prompt;
  }

  /** Without a key nothing is called: the result is the key error, whatever
      the completion call and the diff would do. */
  lemma MissingKeyResult(code: string, prompt: string, analysisText: string, apiKey: Option<string>,
                         complete: (string, Request) -> Completion, complete': (string, Request) -> Completion,
                         diff: (string, string) -> string, diff': (string, string) -> string)
    requires KeyMissing(apiKey)
    ensures SuggestWith(code, prompt, analysisText, apiKey, complete, diff) == ErrorResult(code, MissingKey)
    ensures SuggestWith(code, prompt, analysisText, apiKey, complete, diff)
         == SuggestWith(code, prompt, analysisText, apiKey, complete', diff')
  {
  }

  /** The three outcomes: without a key, and when the call fails, the code
      comes back unchanged with the error text and no diff; on a response
      the result is its extraction and the diff of the code against the
      improved code. */
  lemma SuggestWithOutcome(code: string, prompt: string, analysisText: string, apiKey: Option<string>,
                           complete: (string, Request) -> Completion,
                           diff: (string, string) -> string)
    ensures var r := SuggestWith(code, prompt, analysisText, apiKey, complete, diff);
      && (KeyMissing(apiKey) ==> r == Suggestion(code, ErrorPrefix + MissingKey, ""))
      && (!KeyMissing(apiKey) ==>
            var answer := complete(apiKey.value, RequestFor(code, prompt, analysisText));
            && (answer.Failure? ==> r == Suggestion(code, ErrorPrefix + answer.message, ""))
            && (answer.Success? ==>
                  && (r.improvedCode, r.explanation) == ExtractCodeAndExplanation(answer.content)
                  && r.diff == diff(code, r.improvedCode)))
  {
  }

  /** `generate_code_suggestions` asks with the analysis of the code, as
      `format_analysis_for_prompt` renders it, and with the key it was
      given; a response without a code block leaves the improved code empty
      and the explanation the whole response. */
  lemma GenerateCodeSuggestionsOutcome(code: string, prompt: string, apiKey: Option<string>,
                                       complete: (string, Request) -> Completion,
                                       diff: (string, string) -> string)
    ensures var r := GenerateCodeSuggestions(code, prompt, apiKey, complete, diff);
      var q := RequestFor(code, prompt, Join(PromptLines(Items(AnalysisOf(code))), "\n"));
      && (KeyMissing(apiKey) ==> r == Suggestion(code, ErrorPrefix + MissingKey, ""))
      && (!KeyMissing(apiKey) ==>
            var answer := complete(apiKey.value, q);
            && (answer.Failure? ==> r == Suggestion(code, ErrorPrefix + answer.message, ""))
            && (answer.Success? && !BlockExists(answer.content, Opening, Fence) ==>
                  r == Suggestion("", answer.content, diff(code, "")))
            && (answer.Success? ==> !Contains(r.improvedCode, Fence)))
  {
    var text := Join(PromptLines(Items(AnalysisOf(code))), "\n");
    SuggestWithOutcome(code, prompt, text, apiKey, complete, diff);
    if !KeyMissing(apiKey) {
      var answer := complete(apiKey.value, RequestFor(code, prompt, text));
      if answer.Success? {
        ExtractCodeAndExplanationSpec(answer.content);
      }
    }
  }

  /** The rendered analysis, the text between the fixed parts of the system
      message, is empty exactly when no category has an issue. */
  lemma AnalysisTextEmpty(a: Analysis)
    ensures Join(PromptLines(Items(a)), "\n") == "" <==> forall c: Category :: Issues(a, c) == []
  {
    var items := Items(a);
    PromptEmpty(items);
    if forall j :: 0 <= j < |items| ==> items[j].issues == [] {
      forall c: Category
        ensures Issues(a, c) == []
      {
        assert items[CategoryIndex(c)].issues == Issues(a, c);
      }
    }
  }
}
