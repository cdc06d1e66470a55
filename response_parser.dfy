/**
 * `BugExorcistAgent._parse_ai_response` of core/agent.py: a line scanner that
 * toggles a code-block flag on every line holding a triple backtick, collects
 * the lines inside code blocks as the fixed code, and captures the few lines
 * after a "root cause", "explanation"/"changes" or "wrong with"/"previous
 * attempt" heading.
 *
 * `ParseAiResponse` is the scanner as written (a loop over the lines);
 * `Parse` is the same scan as a fold, and `ParseCharacterized` describes its
 * result without the fold: the code lines are the non-fence lines preceded by
 * an odd number of fences, and each captured section is the capture of the last
 * line that opens that section.
 */
module ResponseParser {
  import opened Text

  /** The confidence levels the agent reports: 0.0, 0.5 and 0.8. */
  datatype Confidence = Zero | Low | High

  datatype Parsed = Parsed(
    rootCause: string,
    fixedCode: string,
    explanation: string,
    confidence: Confidence,
    retryAnalysis: string)

  const DefaultRootCause: string := "Analysis completed"
  const DefaultExplanation: string := "Code has been fixed"

  /** The scanner's test for a code fence. */
  predicate IsFence(line: string)
  {
    Contains(Lower(line), "```python") || Contains(line, "```")
  }

  /** Only a backtick lower-cases to a backtick (stated apart so that the fence
      proof below does not depend on the solver's seed). */
  lemma LowerBacktick(c: char)
    requires LowerChar(c) == '`'
    ensures c == '`'
  {
  }

  /** The "```python" test adds nothing: a line is a fence exactly when it holds "```". */
  lemma FenceIsTripleBacktick(line: string)
    ensures IsFence(line) <==> Contains(line, "```")
  {
    if Contains(Lower(line), "```python") {
      var i :| 0 <= i <= |line| - 9 && OccursAt(Lower(line), "```python", i);
      var low := Lower(line);
      assert low[i..i + 9] == "```python";
      assert low[i] == '`' && low[i + 1] == '`' && low[i + 2] == '`';
      LowerBacktick(line[i]);
      LowerBacktick(line[i + 1]);
      LowerBacktick(line[i + 2]);
      assert line[i..i + 3] == "```";
      assert OccursAt(line, "```", i);
    }
  }

  /** The variables of the scanning loop. */
  datatype ScanState = ScanState(
    inCode: bool,
    code: string,
    rootCause: string,
    explanation: string,
    retryAnalysis: string)

  const Start: ScanState := ScanState(false, "", "", "", "")

  function RootCauseCapture(lines: seq<string>, i: nat): string
    requires i < |lines|
  {
    Strip(JoinLines(Window(lines, i + 1, 3)))
  }

  function ExplanationCapture(lines: seq<string>, i: nat): string
    requires i < |lines|
  {
    Strip(JoinLines(Window(lines, i + 1, 4)))
  }

  function RetryCapture(lines: seq<string>, i: nat): string
    requires i < |lines|
  {
    Strip(JoinLines(Window(lines, i, 4)))
  }

  predicate OpensRootCause(lines: seq<string>, i: nat)
    requires i < |lines|
  {
    Contains(Lower(lines[i]), "root cause") && i + 1 < |lines|
  }

  predicate OpensExplanation(line: string)
  {
    Contains(Lower(line), "explanation") || Contains(Lower(line), "changes")
  }

  predicate OpensRetryNote(line: string)
  {
    Contains(Lower(line), "wrong with") || Contains(Lower(line), "previous attempt")
  }

  /** One iteration of the scanning loop, on line `i`. */
  function ScanLine(st: ScanState, lines: seq<string>, i: nat): ScanState
    requires i < |lines|
  {
    var line := lines[i];
    if IsFence(line) then st.(inCode := !st.inCode)
    else if st.inCode then st.(code := st.code + line + "\n")
    else if OpensRootCause(lines, i) then st.(rootCause := RootCauseCapture(lines, i))
    else if OpensExplanation(line) then st.(explanation := ExplanationCapture(lines, i))
    else if OpensRetryNote(line) then st.(retryAnalysis := RetryCapture(lines, i))
    else st
  }

  /** The loop's state after the first `k` lines. */
  function ScanPrefix(lines: seq<string>, k: nat): ScanState
    requires k <= |lines|
  {
    if k == 0 then Start else ScanLine(ScanPrefix(lines, k - 1), lines, k - 1)
  }

  /** `_parse_ai_response(ai_response, original_code)`. */
  function Parse(response: string, original: string): Parsed
  {
    var lines := SplitLines(response);
    var st := ScanPrefix(lines, |lines|);
    var chosen := if Strip(st.code) == "" then original else st.code;
    Parsed(
      if st.rootCause == "" then DefaultRootCause else st.rootCause,
      Strip(chosen),
      if st.explanation == "" then DefaultExplanation else st.explanation,
      if Strip(chosen) != "" && st.rootCause != "" then High else Low,
      st.retryAnalysis)
  }

  // ---- a description of the scan without the loop ----

  /** The number of fence lines among the first `k` lines. */
  function FenceCount(lines: seq<string>, k: nat): nat
    requires k <= |lines|
  {
    if k == 0 then 0 else FenceCount(lines, k - 1) + (if IsFence(lines[k - 1]) then 1 else 0)
  }

  /** Line `j` lies inside a code block: it is no fence and an odd number of fences precede it. */
  predicate IsCodeLine(lines: seq<string>, j: nat)
    requires j < |lines|
  {
    !IsFence(lines[j]) && FenceCount(lines, j) % 2 == 1
  }

  /** The code lines among the first `k`, each followed by a newline. */
  function CodeText(lines: seq<string>, k: nat): string
    requires k <= |lines|
  {
    if k == 0 then ""
    else CodeText(lines, k - 1) + (if IsCodeLine(lines, k - 1) then lines[k - 1] + "\n" else "")
  }

  datatype Section = RootCause | Explanation | RetryNote

  /** The section that prose line `j` opens, if any (first test wins). */
  function SectionOf(lines: seq<string>, j: nat): Option<Section>
    requires j < |lines|
  {
    if IsFence(lines[j]) || FenceCount(lines, j) % 2 == 1 then None
    else if OpensRootCause(lines, j) then Some(RootCause)
    else if OpensExplanation(lines[j]) then Some(Explanation)
    else if OpensRetryNote(lines[j]) then Some(RetryNote)
    else None
  }

  /** The last of the first `k` lines that opens section `s`. */
  function LastOpening(lines: seq<string>, k: nat, s: Section): (r: Option<nat>)
    requires k <= |lines|
    ensures r.Some? ==> r.value < k && SectionOf(lines, r.value) == Some(s)
    ensures r.Some? ==> forall j :: r.value < j < k ==> SectionOf(lines, j) != Some(s)
    ensures r.None? ==> forall j :: 0 <= j < k ==> SectionOf(lines, j) != Some(s)
  {
    if k == 0 then None
    else if SectionOf(lines, k - 1) == Some(s) then Some(k - 1)
    else LastOpening(lines, k - 1, s)
  }

  function Capture(lines: seq<string>, j: nat, s: Section): string
    requires j < |lines|
  {
    match s
    case RootCause => RootCauseCapture(lines, j)
    case Explanation => ExplanationCapture(lines, j)
    case RetryNote => RetryCapture(lines, j)
  }

  /** The text captured for section `s` after `k` lines: that of its last opening line, or "". */
  function SectionText(lines: seq<string>, k: nat, s: Section): string
    requires k <= |lines|
  {
    match LastOpening(lines, k, s)
    case None => ""
    case Some(j) => Capture(lines, j, s)
  }

  /** The code flag and the collected code follow the fence count, prefix by prefix. */
  lemma {:induction false} ScanTracksCode(lines: seq<string>, k: nat)
    requires k <= |lines|
    ensures ScanPrefix(lines, k).inCode == (FenceCount(lines, k) % 2 == 1)
    ensures ScanPrefix(lines, k).code == CodeText(lines, k)
  {
    if k > 0 {
      ScanTracksCode(lines, k - 1);
      var st := ScanPrefix(lines, k - 1);
      assert ScanPrefix(lines, k) == ScanLine(st, lines, k - 1);
      if IsFence(lines[k - 1]) {
        assert ScanPrefix(lines, k) == st.(inCode := !st.inCode);
      } else if st.inCode {
        assert IsCodeLine(lines, k - 1);
      } else {
        assert !IsCodeLine(lines, k - 1);
        assert ScanPrefix(lines, k).code == st.code;
      }
    }
  }

  /** The loop variable that holds section `s`. */
  function FieldOf(st: ScanState, s: Section): string
  {
    match s
    case RootCause => st.rootCause
    case Explanation => st.explanation
    case RetryNote => st.retryAnalysis
  }

  /** One iteration changes section `s` exactly when line `i` opens it. */
  lemma ScanLineField(st: ScanState, lines: seq<string>, i: nat, s: Section)
    requires i < |lines|
    requires st.inCode == (FenceCount(lines, i) % 2 == 1)
    ensures FieldOf(ScanLine(st, lines, i), s)
            == if SectionOf(lines, i) == Some(s) then Capture(lines, i, s) else FieldOf(st, s)
  {
  }

  /** Each captured section is the capture of its last opening line, prefix by prefix. */
  lemma {:induction false} ScanTracksSection(lines: seq<string>, k: nat, s: Section)
    requires k <= |lines|
    ensures FieldOf(ScanPrefix(lines, k), s) == SectionText(lines, k, s)
  {
    if k > 0 {
      ScanTracksSection(lines, k - 1, s);
      ScanTracksCode(lines, k - 1);
      ScanLineField(ScanPrefix(lines, k - 1), lines, k - 1, s);
    }
  }

  /** What the parser returns, in terms of the description. */
  lemma ParseCharacterized(response: string, original: string)
    ensures var lines := SplitLines(response);
      var code := CodeText(lines, |lines|);
      var cause := SectionText(lines, |lines|, RootCause);
      var explanation := SectionText(lines, |lines|, Explanation);
      var r := Parse(response, original);
      && r.fixedCode == Strip(if Strip(code) == "" then original else code)
      && (r.confidence == High <==> r.fixedCode != "" && cause != "")
      && (r.confidence == Low <==> !(r.fixedCode != "" && cause != ""))
      && r.rootCause == (if cause == "" then DefaultRootCause else cause)
      && r.explanation == (if explanation == "" then DefaultExplanation else explanation)
      && r.retryAnalysis == SectionText(lines, |lines|, RetryNote)
  {
    var lines := SplitLines(response);
    ScanTracksCode(lines, |lines|);
    ScanTracksSection(lines, |lines|, RootCause);
    ScanTracksSection(lines, |lines|, Explanation);
    ScanTracksSection(lines, |lines|, RetryNote);
  }

  lemma {:induction false} NoFenceNoCode(lines: seq<string>, k: nat)
    requires k <= |lines|
    requires forall j :: 0 <= j < k ==> !IsFence(lines[j])
    ensures FenceCount(lines, k) == 0 && CodeText(lines, k) == ""
  {
    if k > 0 {
      NoFenceNoCode(lines, k - 1);
    }
  }

  /** A response without a code block falls back to the original code, and when it
      names a root cause it is still rated 0.8, although nothing was parsed. */
  lemma FallbackKeepsHighConfidence(response: string, original: string)
    requires forall j :: 0 <= j < |SplitLines(response)| ==> !Contains(SplitLines(response)[j], "```")
    requires Strip(original) != ""
    requires SectionText(SplitLines(response), |SplitLines(response)|, RootCause) != ""
    ensures Parse(response, original).fixedCode == Strip(original)
    ensures Parse(response, original).confidence == High
  {
    var lines := SplitLines(response);
    forall j | 0 <= j < |lines| ensures !IsFence(lines[j]) {
      FenceIsTripleBacktick(lines[j]);
    }
    NoFenceNoCode(lines, |lines|);
    ParseCharacterized(response, original);
  }

  /** `_parse_ai_response`, scanning the lines with a loop as the source does. */
  method ParseAiResponse(aiResponse: string, originalCode: string) returns (r: Parsed)
    ensures r == Parse(aiResponse, originalCode)
    ensures var lines := SplitLines(aiResponse);
      var code := CodeText(lines, |lines|);
      && r.fixedCode == Strip(if Strip(code) == "" then originalCode else code)
      && (r.confidence == High <==> r.fixedCode != "" && SectionText(lines, |lines|, RootCause) != "")
  {
    var lines := SplitLines(aiResponse);
    var rootCause, fixedCode, explanation, retryAnalysis := "", "", "", "";
    var inCodeBlock := false;
    for i := 0 to |lines|
      invariant ScanState(inCodeBlock, fixedCode, rootCause, explanation, retryAnalysis)
                == ScanPrefix(lines, i)
    {
      var line := lines[i];
      if Contains(Lower(line), "```python") || Contains(line, "```") {
        inCodeBlock := !inCodeBlock;
        continue;
      }
      if inCodeBlock {
        fixedCode := fixedCode + line + "\n";
      } else if Contains(Lower(line), "root cause") && i + 1 < |lines| {
        rootCause := Strip(JoinLines(Window(lines, i + 1, 3)));
      } else if Contains(Lower(line), "explanation") || Contains(Lower(line), "changes") {
        explanation := Strip(JoinLines(Window(lines, i + 1, 4)));
      } else if Contains(Lower(line), "wrong with") || Contains(Lower(line), "previous attempt") {
        retryAnalysis := Strip(JoinLines(Window(lines, i, 4)));
      }
    }
    if Strip(fixedCode) == "" {
      fixedCode := originalCode;
    }
    var confidence := if Strip(fixedCode) != "" && rootCause != "" then High else Low;
    r := Parsed(
      if rootCause == "" then DefaultRootCause else rootCause,
      Strip(fixedCode),
      if explanation == "" then DefaultExplanation else explanation,
      confidence,
      retryAnalysis);
    ParseCharacterized(aiResponse, originalCode);
  }
}
