/**
 * The fix-verify-retry loop of core/agent.py: `analyze_and_fix_with_retry`
 * asks for a fix (`analyze_error`), runs it in the sandbox and classifies the
 * output (`verify_fix`), appends one attempt record per round, and stops at the
 * first verified fix, at the last allowed attempt, or when generation fails.
 *
 * The language model and the sandbox are oracles passed in as functions: the
 * model's answer to attempt n depends on the attempts recorded before it, and
 * the sandbox's answer on the attempt number and the code.  The fallback handler
 * (core.fallback, not part of this model) is represented by the arguments it is
 * called with (`Guidance`) and by whether it is enabled; the response it builds
 * for an unreachable model is taken to carry the status "api_connection_failed"
 * that the loop tests for.
 */
module RetryController {
  import opened Text
  import opened ResponseParser
  import Sandbox

  const MaxRetryAttempts: int := 3

  /** `max_attempts or MAX_RETRY_ATTEMPTS`: None and 0 take the default, any
      other value (even a negative one) is kept. */
  function EffectiveMaxAttempts(requested: Option<int>): (m: int)
    ensures requested == None || requested == Some(0) ==> m == MaxRetryAttempts
    ensures requested.Some? && requested.value != 0 ==> m == requested.value
    ensures m != 0
  {
    match requested
    case None => MaxRetryAttempts
    case Some(k) => if k == 0 then MaxRetryAttempts else k
  }

  // ---- verify_fix ----

  /** What `Sandbox().run_code(fixed_code)` did: returned a string, or raised. */
  datatype SandboxCall = Ran(output: string) | SandboxRaised(error: string)

  datatype Verification = Verification(
    verified: bool,
    testOutput: string,
    exitCode: int,
    newError: Option<string>)

  /** `verify_fix`: a run is verified exactly when its output mentions neither
      "Error" nor "Traceback"; the exit code and the new error follow the verdict. */
  function VerifyFix(call: SandboxCall): (v: Verification)
    ensures call.Ran? ==>
      (v.verified <==> !Contains(call.output, "Error") && !Contains(call.output, "Traceback"))
    ensures call.Ran? ==> v.testOutput == call.output
    ensures call.SandboxRaised? ==>
      !v.verified && v.testOutput == "Verification error: " + call.error
    ensures v.exitCode == (if v.verified then 0 else 1)
    ensures v.verified <==> v.newError.None?
    ensures !v.verified ==> v.newError == Some(if call.Ran? then call.output else call.error)
  {
    match call
    case Ran(result) =>
      var verified := !(Contains(result, "Error") || Contains(result, "Traceback"));
      Verification(verified, result, if verified then 0 else 1, if !verified then Some(result) else None)
    case SandboxRaised(e) =>
      Verification(false, "Verification error: " + e, 1, Some(e))
  }

  /** Whatever `run_code` returns on a path other than a clean exit is rejected;
      a run that is accepted was a clean exit whose logs hold no error marker. */
  lemma SandboxVerdict(s: Sandbox.Script)
    ensures !Sandbox.CleanExit(s) ==> !VerifyFix(Ran(Sandbox.RunResult(s))).verified
    ensures VerifyFix(Ran(Sandbox.RunResult(s))).verified ==>
      Sandbox.CleanExit(s) && !Contains(s.logs.text, "Error") && !Contains(s.logs.text, "Traceback")
  {
    Sandbox.FailureResultsMentionError(s);
  }

  // ---- analyze_error ----

  datatype FixResult =
    | Analysed(
        rootCause: string,
        fixedCode: string,
        explanation: string,
        confidence: Confidence,
        originalError: string,
        attemptNumber: nat,
        retryAnalysis: string)
    | AnalysisFailed(
        error: string,
        rootCause: string,
        fixedCode: string,
        explanation: string,
        confidence: Confidence,
        attemptNumber: nat)

  datatype Verdict = Passed | Failed

  datatype AttemptRecord = AttemptRecord(
    attemptNumber: nat,
    fixResult: FixResult,
    verification: Verification,
    fixedCode: string,
    verificationResult: Verdict,
    newError: Option<string>)

  /** The arguments the fallback handler is called with. */
  datatype Guidance =
    | ApiFailureGuidance(errorMessage: string, bugId: string, apiError: string)
    | ExhaustionGuidance(
        errorMessage: string,
        codeSnippet: string,
        bugId: string,
        totalAttempts: nat,
        attempts: seq<AttemptRecord>)

  /** What the language model call did. */
  datatype LlmReply = Answered(text: string) | CallFailed(error: string)

  /** What attempt n came to before its record: a model reply, or an exception
      raised elsewhere in the iteration. */
  datatype Step = Generate(reply: LlmReply) | Crashed(error: string)

  /** What `analyze_error` hands back to the loop. */
  datatype Analysis = Fix(fix: FixResult) | ApiConnectionFailed(guidance: Guidance)

  datatype Config = Config(
    bugId: string,
    errorMessage: string,
    codeSnippet: string,
    maxAttempts: Option<int>,
    fallbackEnabled: bool,
    fallbackReportError: Option<string>)  // `generate_fallback_response` raised

  /** `len(previous_attempts) + 1 if previous_attempts else 1`. */
  function AttemptNumber(previous: Option<seq<AttemptRecord>>): (n: nat)
    ensures n >= 1
    ensures n == 1 + (if previous.Some? then |previous.value| else 0)
  {
    if previous.Some? && |previous.value| > 0 then |previous.value| + 1 else 1
  }

  /** `analyze_error(error_message, code_snippet, previous_attempts=previous)`:
      a reply is parsed; a failed call becomes the handler's guidance when the
      fallback is enabled and a zero-confidence result keeping the original code
      otherwise. */
  function Analyze(c: Config, previous: seq<AttemptRecord>, reply: LlmReply): (a: Analysis)
    ensures a.Fix? ==> a.fix.attemptNumber == |previous| + 1
    ensures a.ApiConnectionFailed? <==> reply.CallFailed? && c.fallbackEnabled
    ensures a.ApiConnectionFailed? ==>
      a.guidance == ApiFailureGuidance(c.errorMessage, c.bugId, reply.error)
    ensures reply.CallFailed? && !c.fallbackEnabled ==>
      a.fix.fixedCode == c.codeSnippet && a.fix.confidence == Zero && a.fix.AnalysisFailed?
    ensures reply.Answered? ==> (
      var p := Parse(reply.text, c.codeSnippet);
      && a.fix.Analysed?
      && a.fix.fixedCode == p.fixedCode && a.fix.rootCause == p.rootCause
      && a.fix.explanation == p.explanation && a.fix.confidence == p.confidence
      && a.fix.retryAnalysis == p.retryAnalysis && a.fix.originalError == c.errorMessage)
  {
    var n := AttemptNumber(Some(previous));
    match reply
    case Answered(text) =>
      var p := Parse(text, c.codeSnippet);
      Fix(Analysed(p.rootCause, p.fixedCode, p.explanation, p.confidence, c.errorMessage, n, p.retryAnalysis))
    case CallFailed(e) =>
      if c.fallbackEnabled then ApiConnectionFailed(ApiFailureGuidance(c.errorMessage, c.bugId, e))
      else Fix(AnalysisFailed(
        "Failed to analyze error: " + e, "Analysis failed", c.codeSnippet,
        "Error during GPT-4o analysis: " + e, Zero, n))
  }

  // ---- analyze_and_fix_with_retry ----

  datatype Message =
    | FixedOnAttempt(attempt: nat)
    | ApiConnectionFailedMessage
    | ExhaustedWithGuidance(maxAttempts: int)
    | ExhaustedNeedsReview(maxAttempts: int)
    | UnexpectedError(error: string)
    | LoopEndedUnexpectedly

  /** The returned dictionary; `None` in an optional field means the key is absent
      (or, for `final_fix`, holds None). */
  datatype RetryReport = RetryReport(
    success: bool,
    finalFix: Option<FixResult>,
    finalVerification: Option<Verification>,
    fallbackResponse: Option<Guidance>,
    allAttempts: seq<AttemptRecord>,
    totalAttempts: int,
    message: Message,
    lastError: Option<string>)

  datatype Outcome = Returned(report: RetryReport) | Raised(error: string)

  type Generator = seq<AttemptRecord> -> Step
  type Runner = (nat, string) -> SandboxCall

  function MakeRecord(n: nat, fix: FixResult, v: Verification): AttemptRecord
  {
    AttemptRecord(n, fix, v, fix.fixedCode, if v.verified then Passed else Failed, v.newError)
  }

  /** The record attempt `|history| + 1` appends, if it gets that far. */
  function NewRecord(c: Config, gen: Generator, run: Runner, history: seq<AttemptRecord>): Option<AttemptRecord>
  {
    var n := |history| + 1;
    match gen(history)
    case Crashed(_) => None
    case Generate(reply) =>
      match Analyze(c, history, reply)
      case ApiConnectionFailed(_) => None
      case Fix(fix) => Some(MakeRecord(n, fix, VerifyFix(run(n, fix.fixedCode))))
  }

  /** The `except Exception` branch of the loop. */
  function CrashOutcome(c: Config, n: nat, history: seq<AttemptRecord>, e: string): Outcome
  {
    if c.fallbackEnabled then
      Returned(RetryReport(false, None, None, Some(ApiFailureGuidance(c.errorMessage, c.bugId, e)),
                           history, n, UnexpectedError(e), None))
    else Raised(e)
  }

  /** The return after the loop, reached only when the loop runs zero times. */
  function LoopEnd(history: seq<AttemptRecord>): Outcome
  {
    Returned(RetryReport(false, None, None, None, history, |history|, LoopEndedUnexpectedly, None))
  }

  datatype StepResult = Next(record: AttemptRecord) | Done(outcome: Outcome)

  /** One pass of the loop body, for attempt `|history| + 1`. */
  function Iteration(c: Config, gen: Generator, run: Runner, history: seq<AttemptRecord>): StepResult
  {
    var n := |history| + 1;
    var max := EffectiveMaxAttempts(c.maxAttempts);
    match gen(history)
    case Crashed(e) => Done(CrashOutcome(c, n, history, e))
    case Generate(reply) =>
      match Analyze(c, history, reply)
      case ApiConnectionFailed(g) =>
        Done(Returned(RetryReport(false, None, None, Some(g), history, n, ApiConnectionFailedMessage, None)))
      case Fix(fix) =>
        var v := VerifyFix(run(n, fix.fixedCode));
        var all := history + [MakeRecord(n, fix, v)];
        if v.verified then
          Done(Returned(RetryReport(true, Some(fix), Some(v), None, all, n, FixedOnAttempt(n), None)))
        else if n == max then
          if c.fallbackEnabled then
            match c.fallbackReportError
            case Some(e) => Done(CrashOutcome(c, n, all, e))
            case None =>
              Done(Returned(RetryReport(false, None, None,
                Some(ExhaustionGuidance(c.errorMessage, c.codeSnippet, c.bugId, n, all)),
                all, n, ExhaustedWithGuidance(max), None)))
          else
            Done(Returned(RetryReport(false, None, None, None, all, n, ExhaustedNeedsReview(max), v.newError)))
        else Next(MakeRecord(n, fix, v))
  }

  /** The loop from attempt `|history| + 1` on. */
  function RunFrom(c: Config, gen: Generator, run: Runner, history: seq<AttemptRecord>): Outcome
    decreases EffectiveMaxAttempts(c.maxAttempts) - |history|
  {
    if |history| + 1 > EffectiveMaxAttempts(c.maxAttempts) then LoopEnd(history)
    else match Iteration(c, gen, run, history)
      case Next(record) => RunFrom(c, gen, run, history + [record])
      case Done(o) => o
  }

  /** The result of `analyze_and_fix_with_retry`. */
  function Retry(c: Config, gen: Generator, run: Runner): Outcome
  {
    RunFrom(c, gen, run, [])
  }

  /** `analyze_and_fix_with_retry`, with its `for` loop over the attempt numbers. */
  method AnalyzeAndFixWithRetry(c: Config, generate: Generator, sandbox: Runner) returns (out: Outcome)
    ensures out == Retry(c, generate, sandbox)
  {
    var maxAttempts := EffectiveMaxAttempts(c.maxAttempts);
    var allAttempts: seq<AttemptRecord> := [];
    var attemptNum := 1;
    while attemptNum <= maxAttempts
      invariant attemptNum == |allAttempts| + 1
      invariant RunFrom(c, generate, sandbox, allAttempts) == Retry(c, generate, sandbox)
      decreases maxAttempts - attemptNum
    {
      var step := generate(allAttempts);
      if step.Crashed? {
        out := CrashOutcome(c, attemptNum, allAttempts, step.error);
        return;
      }
      var fixResult := Analyze(c, allAttempts, step.reply);
      if fixResult.ApiConnectionFailed? {
        out := Returned(RetryReport(false, None, None, Some(fixResult.guidance), allAttempts,
                                    attemptNum, ApiConnectionFailedMessage, None));
        return;
      }
      var fix := fixResult.fix;
      var verification := VerifyFix(sandbox(attemptNum, fix.fixedCode));
      var attemptRecord := AttemptRecord(attemptNum, fix, verification, fix.fixedCode,
        if verification.verified then Passed else Failed, verification.newError);
      allAttempts := allAttempts + [attemptRecord];
      if verification.verified {
        out := Returned(RetryReport(true, Some(fix), Some(verification), None, allAttempts,
                                    attemptNum, FixedOnAttempt(attemptNum), None));
        return;
      }
      if attemptNum == maxAttempts {
        if c.fallbackEnabled {
          if c.fallbackReportError.Some? {
            out := CrashOutcome(c, attemptNum, allAttempts, c.fallbackReportError.value);
            return;
          }
          var fallbackResponse := ExhaustionGuidance(c.errorMessage, c.codeSnippet, c.bugId,
                                                     attemptNum, allAttempts);
          out := Returned(RetryReport(false, None, None, Some(fallbackResponse), allAttempts,
                                      attemptNum, ExhaustedWithGuidance(maxAttempts), None));
          return;
        } else {
          out := Returned(RetryReport(false, None, None, None, allAttempts, attemptNum,
                                      ExhaustedNeedsReview(maxAttempts), verification.newError));
          return;
        }
      }
      attemptNum := attemptNum + 1;
    }
    out := Returned(RetryReport(false, None, None, None, allAttempts, |allAttempts|,
                                LoopEndedUnexpectedly, None));
  }

  // ---- what the loop guarantees ----

  /** Every record in `h` is the one its attempt built from the records before it,
      and each of them failed (the loop only continues after a failure). */
  ghost predicate FailedHistory(c: Config, gen: Generator, run: Runner, h: seq<AttemptRecord>)
  {
    forall i :: 0 <= i < |h| ==>
      NewRecord(c, gen, run, h[..i]) == Some(h[i]) && h[i].verificationResult == Failed
  }

  /** The history at which the loop stops: it either runs out of attempt numbers
      or its last pass ends in a return. */
  function StopHistory(c: Config, gen: Generator, run: Runner, h: seq<AttemptRecord>): seq<AttemptRecord>
    decreases EffectiveMaxAttempts(c.maxAttempts) - |h|
  {
    if |h| + 1 > EffectiveMaxAttempts(c.maxAttempts) then h
    else match Iteration(c, gen, run, h)
      case Next(record) => StopHistory(c, gen, run, h + [record])
      case Done(_) => h
  }

  /** The loop's result, read off the history at which it stops. */
  function Halt(c: Config, gen: Generator, run: Runner, h: seq<AttemptRecord>): Outcome
  {
    if |h| + 1 > EffectiveMaxAttempts(c.maxAttempts) then LoopEnd(h)
    else match Iteration(c, gen, run, h)
      case Next(_) => LoopEnd(h)
      case Done(o) => o
  }

  lemma NextExtendsFailedHistory(c: Config, gen: Generator, run: Runner, h: seq<AttemptRecord>)
    requires FailedHistory(c, gen, run, h)
    requires |h| + 1 <= EffectiveMaxAttempts(c.maxAttempts)
    requires Iteration(c, gen, run, h).Next?
    ensures FailedHistory(c, gen, run, h + [Iteration(c, gen, run, h).record])
    ensures |h| + 1 < EffectiveMaxAttempts(c.maxAttempts)
  {
    var h' := h + [Iteration(c, gen, run, h).record];
    forall i | 0 <= i < |h'|
      ensures NewRecord(c, gen, run, h'[..i]) == Some(h'[i]) && h'[i].verificationResult == Failed
    {
      if i < |h| {
        assert h'[..i] == h[..i];
      } else {
        assert h'[..i] == h;
      }
    }
  }

  /** Running the loop from a failed history ends at a failed history that extends it. */
  lemma {:induction false} RunFromHalts(c: Config, gen: Generator, run: Runner, h: seq<AttemptRecord>)
    requires FailedHistory(c, gen, run, h)
    ensures var stop := StopHistory(c, gen, run, h);
      && RunFrom(c, gen, run, h) == Halt(c, gen, run, stop)
      && FailedHistory(c, gen, run, stop)
      && h <= stop
      && (|stop| + 1 <= EffectiveMaxAttempts(c.maxAttempts) ==> Iteration(c, gen, run, stop).Done?)
      && (|h| < EffectiveMaxAttempts(c.maxAttempts) ==> |stop| < EffectiveMaxAttempts(c.maxAttempts))
      && (|stop| + 1 > EffectiveMaxAttempts(c.maxAttempts) ==> stop == h)
    decreases EffectiveMaxAttempts(c.maxAttempts) - |h|
  {
    if |h| + 1 <= EffectiveMaxAttempts(c.maxAttempts) {
      var it := Iteration(c, gen, run, h);
      if it.Next? {
        NextExtendsFailedHistory(c, gen, run, h);
        RunFromHalts(c, gen, run, h + [it.record]);
      }
    }
  }

  /** The loop's result, with the history it stopped at. */
  lemma RetryHalts(c: Config, gen: Generator, run: Runner)
    ensures var stop := StopHistory(c, gen, run, []);
      && Retry(c, gen, run) == Halt(c, gen, run, stop)
      && FailedHistory(c, gen, run, stop)
      && (EffectiveMaxAttempts(c.maxAttempts) >= 1 ==>
            |stop| < EffectiveMaxAttempts(c.maxAttempts) && Iteration(c, gen, run, stop).Done?)
      && (EffectiveMaxAttempts(c.maxAttempts) < 1 ==> stop == [])
  {
    assert FailedHistory(c, gen, run, []);
    RunFromHalts(c, gen, run, []);
  }

  /** At most `max_attempts` records (none when the limit is negative); record i
      carries attempt number i + 1 and is what attempt i + 1 built from the
      records before it, so the history is only ever appended to. */
  lemma RetryRecordsAttemptsInOrder(c: Config, gen: Generator, run: Runner)
    ensures Retry(c, gen, run).Returned? ==>
      var recs := Retry(c, gen, run).report.allAttempts;
      var max := EffectiveMaxAttempts(c.maxAttempts);
      && |recs| <= (if max > 0 then max else 0)
      && (forall i :: 0 <= i < |recs| ==> recs[i].attemptNumber == i + 1)
      && (forall i :: 0 <= i < |recs| ==> NewRecord(c, gen, run, recs[..i]) == Some(recs[i]))
  {
    RetryHalts(c, gen, run);
    var stop := StopHistory(c, gen, run, []);
    var o := Retry(c, gen, run);
    if o.Returned? {
      var recs := o.report.allAttempts;
      assert recs == stop || recs == stop + [NewRecord(c, gen, run, stop).value];
      forall i | 0 <= i < |recs|
        ensures NewRecord(c, gen, run, recs[..i]) == Some(recs[i]) && recs[i].attemptNumber == i + 1
      {
        if i < |stop| {
          assert recs[..i] == stop[..i];
        } else {
          assert recs[..i] == stop;
        }
      }
    }
  }

  /** The loop stops at the first verified fix: every record but the last failed,
      success holds exactly when the last record passed, and a success reports that
      record's fix and verification, with the record count as `total_attempts`. */
  lemma RetryStopsAtFirstSuccess(c: Config, gen: Generator, run: Runner)
    ensures Retry(c, gen, run).Returned? ==>
      var r := Retry(c, gen, run).report;
      var recs := r.allAttempts;
      && (forall i :: 0 <= i < |recs| - 1 ==> recs[i].verificationResult == Failed)
      && (r.success <==> |recs| > 0 && recs[|recs| - 1].verificationResult == Passed)
      && (r.success ==>
            && r.totalAttempts == |recs|
            && r.finalFix == Some(recs[|recs| - 1].fixResult)
            && r.finalVerification == Some(recs[|recs| - 1].verification)
            && r.fallbackResponse == None
            && r.message == FixedOnAttempt(|recs|))
  {
    RetryHalts(c, gen, run);
    var stop := StopHistory(c, gen, run, []);
    var o := Retry(c, gen, run);
    if o.Returned? {
      var recs := o.report.allAttempts;
      assert recs == stop || recs == stop + [NewRecord(c, gen, run, stop).value];
      forall i | 0 <= i < |recs| - 1 ensures recs[i].verificationResult == Failed {
        assert recs[i] == stop[i];
      }
    }
  }

  /** When the last allowed attempt fails: with the fallback enabled the result
      carries the exhaustion guidance, or, when building that report raises, the
      handler's guidance for the exception, with the attempt still recorded; with it
      disabled it carries no guidance and its last error is the last record's new
      error. Either way there is no success and every allowed attempt was recorded. */
  lemma RetryExhaustion(c: Config, gen: Generator, run: Runner)
    ensures Retry(c, gen, run).Returned? ==>
      var r := Retry(c, gen, run).report;
      var recs := r.allAttempts;
      var max := EffectiveMaxAttempts(c.maxAttempts);
      (|recs| == max && recs[max - 1].verificationResult == Failed) ==>
        && !r.success && r.totalAttempts == max && r.finalFix == None
        && (c.fallbackEnabled ==> r.fallbackResponse.Some? && r.lastError == None)
        && (c.fallbackEnabled && c.fallbackReportError.None? ==>
              r.fallbackResponse == Some(ExhaustionGuidance(c.errorMessage, c.codeSnippet, c.bugId, max, recs))
              && r.message == ExhaustedWithGuidance(max))
        && (c.fallbackEnabled && c.fallbackReportError.Some? ==>
              r.fallbackResponse == Some(ApiFailureGuidance(c.errorMessage, c.bugId, c.fallbackReportError.value))
              && r.message == UnexpectedError(c.fallbackReportError.value))
        && (!c.fallbackEnabled ==>
              r.fallbackResponse == None && r.lastError == recs[max - 1].newError
              && r.lastError.Some? && r.message == ExhaustedNeedsReview(max))
  {
    RetryHalts(c, gen, run);
  }

  /** A generation that fails (a failed model call under an enabled fallback, or an
      unexpected exception before the record is appended) ends the loop at once
      without a record for that attempt: the result names one attempt more than it
      records, reports no success and carries guidance. With the fallback disabled
      an unexpected exception propagates instead. */
  lemma RetryAbortsWithoutRecord(c: Config, gen: Generator, run: Runner)
    ensures Retry(c, gen, run).Raised? ==> !c.fallbackEnabled
    ensures Retry(c, gen, run).Returned? ==>
      var r := Retry(c, gen, run).report;
      var recs := r.allAttempts;
      && (r.totalAttempts == |recs| || r.totalAttempts == |recs| + 1)
      && (r.totalAttempts == |recs| + 1 ==>
            && !r.success && r.fallbackResponse.Some? && c.fallbackEnabled
            && NewRecord(c, gen, run, recs) == None
            && (gen(recs).Crashed? || gen(recs).reply.CallFailed?))
      && (r.message == ApiConnectionFailedMessage ==>
            && r.totalAttempts == |recs| + 1 && NewRecord(c, gen, run, recs) == None
            && gen(recs).Generate? && gen(recs).reply.CallFailed?
            && r.fallbackResponse == Some(ApiFailureGuidance(c.errorMessage, c.bugId, gen(recs).reply.error)))
    ensures var stop := StopHistory(c, gen, run, []);
      EffectiveMaxAttempts(c.maxAttempts) >= 1 && gen(stop).Generate? && gen(stop).reply.CallFailed?
      && c.fallbackEnabled ==>
        Retry(c, gen, run) == Returned(RetryReport(false, None, None,
          Some(ApiFailureGuidance(c.errorMessage, c.bugId, gen(stop).reply.error)),
          stop, |stop| + 1, ApiConnectionFailedMessage, None))
    ensures var stop := StopHistory(c, gen, run, []);
      EffectiveMaxAttempts(c.maxAttempts) >= 1 && gen(stop).Crashed? ==>
        && (!c.fallbackEnabled ==> Retry(c, gen, run) == Raised(gen(stop).error))
        && (c.fallbackEnabled ==> Retry(c, gen, run) == Returned(RetryReport(false, None, None,
              Some(ApiFailureGuidance(c.errorMessage, c.bugId, gen(stop).error)),
              stop, |stop| + 1, UnexpectedError(gen(stop).error), None)))
  {
    RetryHalts(c, gen, run);
  }

  /** The statement after the loop is reached exactly when the limit is negative. */
  lemma RetryLoopEnd(c: Config, gen: Generator, run: Runner)
    ensures Retry(c, gen, run).Returned? && Retry(c, gen, run).report.message == LoopEndedUnexpectedly
            <==> EffectiveMaxAttempts(c.maxAttempts) < 1
    ensures EffectiveMaxAttempts(c.maxAttempts) < 1 ==>
            Retry(c, gen, run) == LoopEnd([])
  {
    RetryHalts(c, gen, run);
  }

  /** A fix that fails once and then passes is accepted on the second attempt,
      as long as at least two attempts are allowed. */
  lemma FailThenPass(c: Config, gen: Generator, run: Runner, first: AttemptRecord, second: AttemptRecord)
    requires EffectiveMaxAttempts(c.maxAttempts) >= 2
    requires NewRecord(c, gen, run, []) == Some(first) && first.verificationResult == Failed
    requires NewRecord(c, gen, run, [first]) == Some(second) && second.verificationResult == Passed
    ensures Retry(c, gen, run).Returned?
    ensures var r := Retry(c, gen, run).report;
      r.success && r.totalAttempts == 2 && r.allAttempts == [first, second]
      && r.finalFix == Some(second.fixResult)
  {
    assert Iteration(c, gen, run, []) == Next(first);
    assert [] + [first] == [first];
    assert Retry(c, gen, run) == RunFrom(c, gen, run, [first]);
    var o := Iteration(c, gen, run, [first]);
    assert o.Done? && o.outcome.Returned?;
    assert o.outcome.report.allAttempts == [first] + [second];
  }

  /** With one attempt allowed and the fallback disabled, a failed first attempt
      ends the loop with that attempt's new error as the last error. */
  lemma SingleAttemptNoFallback(c: Config, gen: Generator, run: Runner, first: AttemptRecord)
    requires c.maxAttempts == Some(1) && !c.fallbackEnabled
    requires NewRecord(c, gen, run, []) == Some(first) && first.verificationResult == Failed
    ensures Retry(c, gen, run).Returned?
    ensures var r := Retry(c, gen, run).report;
      !r.success && r.allAttempts == [first] && r.totalAttempts == 1
      && r.fallbackResponse == None && r.lastError == first.newError
  {
  }
}
