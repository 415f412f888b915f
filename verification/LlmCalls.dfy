/** What a step of a chat run does, read off the world it meets: how often the LLM is called and
    with what result, what is streamed, and what each tool call comes to.  Nothing here is
    stated through the functions that compute a run. */
module LlmCalls {
  import opened Common
  import opened Text
  import opened Transcript
  import opened ChatProtocol
  import opened ChatEngine
  import Breaker
  import Memory

  // ----- which errors are retried -----

  /** The message contains one of the listed strings. */
  predicate Listed(message: string) {
    exists i :: 0 <= i < |RETRYABLE| && Contains(message, RETRYABLE[i])
  }

  lemma {:induction false} ListedAre(message: string)
    ensures Listed(message) <==>
      || Contains(message, "429") || Contains(message, "rate limit") || Contains(message, "Too Many Requests")
      || Contains(message, "访问量过大")
      || Contains(message, "500") || Contains(message, "502") || Contains(message, "503")
      || Contains(message, "Internal Server Error") || Contains(message, "Bad Gateway")
      || Contains(message, "Service Unavailable")
      || Contains(message, "timeout") || Contains(message, "deadline exceeded") || Contains(message, "context deadline")
      || Contains(message, "connection refused") || Contains(message, "connection reset")
      || Contains(message, "EOF") || Contains(message, "no such host")
  {
    hide Contains;
    assert |RETRYABLE| == 17;
    assert RETRYABLE[0] == "429" && RETRYABLE[1] == "rate limit" && RETRYABLE[2] == "Too Many Requests";
    assert RETRYABLE[3] == "访问量过大" && RETRYABLE[4] == "500" && RETRYABLE[5] == "502" && RETRYABLE[6] == "503";
    assert RETRYABLE[7] == "Internal Server Error" && RETRYABLE[8] == "Bad Gateway";
    assert RETRYABLE[9] == "Service Unavailable" && RETRYABLE[10] == "timeout";
    assert RETRYABLE[11] == "deadline exceeded" && RETRYABLE[12] == "context deadline";
    assert RETRYABLE[13] == "connection refused" && RETRYABLE[14] == "connection reset";
    assert RETRYABLE[15] == "EOF" && RETRYABLE[16] == "no such host";
  }

  // ----- one call of the LLM -----

  /** The call is over after its `k`-th attempt: it replied, or failed for good, or was the
      last one, or the request was cancelled. */
  predicate EndsAt(w: World, step: nat, k: nat) {
    var a := w.attempt(step, k);
    a.outcome.Reply? || !Listed(a.outcome.message) || k == 5 || a.cancelled
  }

  /** The call of the step is over after its `k`-th attempt and not before. */
  predicate EndsFirstAt(w: World, step: nat, k: nat) {
    1 <= k <= 5 && EndsAt(w, step, k) && forall j: nat | 1 <= j < k :: !EndsAt(w, step, j)
  }

  /** What an attempt that is the last one means for the call. */
  predicate Means(a: Attempt, k: nat, result: Result) {
    match a.outcome
    case Reply(r) => result == Ok(r)
    case Errored(message) =>
      && result.Failed?
      && (!Listed(message) ==> result.message == message)
      && (Listed(message) && k == 5 ==> result.message == "after 5 attempts: " + message)
      && (Listed(message) && k < 5 ==> result.message == "context canceled")
  }

  function Joined(deltas: seq<string>): string {
    if deltas == [] then "" else deltas[0] + Joined(deltas[1..])
  }

  /** The text of the deltas sent to the browser. */
  function Streamed(acts: seq<Action>): string {
    if acts == [] then ""
    else if acts[0].Emit? && acts[0].event.ThinkingDelta? then acts[0].event.delta + Streamed(acts[1..])
    else Streamed(acts[1..])
  }

  /** The text the LLM produced in the attempts from `n` to `k`. */
  function Produced(w: World, step: nat, n: nat, k: nat): string
    decreases k - n
  {
    if n > k then "" else Joined(w.attempt(step, n).deltas) + Produced(w, step, n + 1, k)
  }

  function LlmCalls(acts: seq<Action>): nat { Count((a: Action) => a.LlmCall?, acts) }

  lemma {:induction false} LlmCallsConcat(xs: seq<Action>, ys: seq<Action>)
    ensures LlmCalls(xs + ys) == LlmCalls(xs) + LlmCalls(ys)
    ensures Streamed(xs + ys) == Streamed(xs) + Streamed(ys)
    decreases xs
  {
    if xs == [] {
      assert xs + ys == ys;
    } else {
      assert (xs + ys)[0] == xs[0] && (xs + ys)[1..] == xs[1..] + ys;
      LlmCallsConcat(xs[1..], ys);
    }
  }

  lemma {:induction false} DeltasStream(deltas: seq<string>, step: nat)
    ensures Streamed(Deltas(deltas, step)) == Joined(deltas) && LlmCalls(Deltas(deltas, step)) == 0
  {
    if deltas != [] {
      DeltasStream(deltas[1..], step);
      if deltas[0] != "" {
        assert Deltas(deltas, step)[1..] == Deltas(deltas[1..], step);
      }
    }
  }

  lemma {:induction false} HeadIs(deltas: seq<string>, step: nat)
    ensures var head := [LlmCall] + Deltas(deltas, step); LlmCalls(head) == 1 && Streamed(head) == Joined(deltas)
  {
    DeltasStream(deltas, step);
    LlmCallsConcat([LlmCall], Deltas(deltas, step));
    assert [LlmCall][1..] == [];
  }

  lemma {:induction false} AttemptsFrom(w: World, step: nat, n: nat) returns (k: nat)
    requires 1 <= n <= 5
    ensures n <= k <= 5 && EndsAt(w, step, k) && forall j :: n <= j < k ==> !EndsAt(w, step, j)
    ensures var (acts, result) := Attempts(w, step, n);
      LlmCalls(acts) == k - n + 1 && Streamed(acts) == Produced(w, step, n, k) && Means(w.attempt(step, k), k, result)
    decreases 5 - n
  {
    HeadIs(w.attempt(step, n).deltas, step);
    k := n;
    if EndsAt(w, step, n) {
      assert Produced(w, step, n, n) == Joined(w.attempt(step, n).deltas) + "";
    } else {
      k := AttemptsFrom(w, step, n + 1);
      LlmCallsConcat([LlmCall] + Deltas(w.attempt(step, n).deltas, step), Attempts(w, step, n + 1).0);
    }
  }

  /** The LLM is called up to and including the first attempt that ends the call; that attempt
      is the result, and all that was produced is streamed. */
  lemma {:induction false} CallIsRetriedExactlyUntil(w: World, step: nat) returns (k: nat)
    ensures EndsFirstAt(w, step, k)
    ensures var (acts, result) := Attempts(w, step, 1);
      LlmCalls(acts) == k && Streamed(acts) == Produced(w, step, 1, k) && Means(w.attempt(step, k), k, result)
  {
    k := AttemptsFrom(w, step, 1);
  }

  /** One retryable error, and then a reply: the reply is the result. */
  lemma {:induction false} RetryRecovers(w: World, step: nat, message: string, r: Response)
    requires w.attempt(step, 1).outcome == Errored(message) && Listed(message) && !w.attempt(step, 1).cancelled
    requires w.attempt(step, 2).outcome == Reply(r)
    ensures LlmCalls(Attempts(w, step, 1).0) == 2 && Attempts(w, step, 1).1 == Ok(r)
  {
    hide Listed;
    var k := CallIsRetriedExactlyUntil(w, step);
    assert EndsAt(w, step, 2) && !EndsAt(w, step, 1);
  }

  /** Any other error ends the call at once. */
  lemma {:induction false} OtherErrorsAreFinal(w: World, step: nat, message: string)
    requires w.attempt(step, 1).outcome == Errored(message) && !Listed(message)
    ensures LlmCalls(Attempts(w, step, 1).0) == 1 && Attempts(w, step, 1).1 == Failed(message)
  {
    hide Listed;
    var k := CallIsRetriedExactlyUntil(w, step);
    assert EndsAt(w, step, 1);
  }

  // ----- one tool call -----

  /** What call `i` of the step came to. */
  predicate CameTo(w: World, tc: ToolCall, step: nat, i: nat, success: bool, output: string, error: string) {
    if !w.parses(tc.arguments) then
      !success && output == "" && error == "Failed to parse arguments: " + w.parseError(tc.arguments)
    else if !w.known(tc.name) then
      !success && output == "" && error == "Unknown tool: " + tc.name
    else match w.execute(step, i)
      case Raised(message) => !success && output == "" && error == message
      case Ran(ok, said, failure) =>
        && success == ok
        && (ok ==> error == "" && CutAt(said, 8000, "\n... (truncated)", output))
        && (!ok ==> output == said && error == failure)
  }

  /** Three actions for a tool call: the event, the event with the result, and the message. */
  ghost predicate Reports(w: World, tc: ToolCall, step: nat, i: nat, called: Action, returned: Action, told: Action) {
    && called == Emit(ToolCalled(tc.name, tc.arguments, step))
    && returned.Emit? && returned.event.ToolReturned? && returned.event.name == tc.name && returned.event.step == step
    && told.Append? && told.m.Tool? && told.m.callId == tc.id
    && exists output: string ::
         var error := returned.event.error;
         && CameTo(w, tc, step, i, returned.event.success, output, error)
         && CutAt(output, 2000, "...", returned.event.output)
         && told.m.content == if error == "" then output else "Error: " + error + "\n" + output
  }

  lemma {:induction false} OneCallReports(w: World, tc: ToolCall, step: nat, i: nat)
    ensures var acts := OneCall(w, tc, step, i); Reports(w, tc, step, i, acts[0], acts[1], acts[2])
  {
    var o := Observe(w, tc, step, i);
    assert CameTo(w, tc, step, i, o.success, o.output, o.error);
    assert CutAt(o.output, 2000, "...", Truncate(o.output, 2000));
  }

  /** The calls of a response, each with its three actions, in order. */
  ghost predicate ReportsAll(w: World, calls: seq<ToolCall>, step: nat, i: nat, acts: seq<Action>)
    requires i <= |calls|
  {
    && |acts| == 3 * (|calls| - i)
    && forall k :: i <= k < |calls| ==>
         Reports(w, calls[k], step, k, acts[3 * (k - i)], acts[3 * (k - i) + 1], acts[3 * (k - i) + 2])
  }

  lemma {:induction false} CallsReport(w: World, calls: seq<ToolCall>, step: nat, i: nat)
    requires i <= |calls|
    ensures ReportsAll(w, calls, step, i, CallsFrom(w, calls, step, i))
    decreases |calls| - i
  {
    hide Reports;
    if i < |calls| {
      OneCallReports(w, calls[i], step, i);
      CallsReport(w, calls, step, i + 1);
      var one, rest := OneCall(w, calls[i], step, i), CallsFrom(w, calls, step, i + 1);
      assert |one| == 3;
      forall k | i <= k < |calls|
        ensures Reports(w, calls[k], step, k, (one + rest)[3 * (k - i)], (one + rest)[3 * (k - i) + 1],
                        (one + rest)[3 * (k - i) + 2])
      {
        if k > i {
          assert (one + rest)[3 * (k - i)] == rest[3 * (k - i - 1)];
          assert (one + rest)[3 * (k - i) + 1] == rest[3 * (k - i - 1) + 1];
          assert (one + rest)[3 * (k - i) + 2] == rest[3 * (k - i - 1) + 2];
        }
      }
    }
  }

  // ----- one step -----

  /** The breaker turns the step away. */
  predicate TurnsAway(c: Breaker.Config, b: Breaker.State, now: int) {
    || (b.status.Open? && now - b.lastFailureTime <= c.resetTimeout)
    || (b.status.HalfOpen? && b.successCount >= c.halfOpenMax)
  }

  predicate EndsInText(p: Progress, r: Response, step: nat, turn: seq<Action>) {
    && |turn| == 3 && turn[0].Append? && turn[0].m == Assistant(r.content, [])
    && turn[1] == Emit(Answer(r.content, p.prompt + r.promptTokens, p.completion + r.completionTokens,
                              p.prompt + r.promptTokens + (p.completion + r.completionTokens), step))
    && turn[2] == Emit(Done)
  }

  ghost predicate EndsInCalls(w: World, r: Response, step: nat, turn: seq<Action>) {
    var n := if r.content == "" then 0 else 1;
    && |turn| > n && (n == 1 ==> turn[0] == Emit(Thinking(r.content, step)))
    && turn[n].Append? && turn[n].m == Assistant(r.content, r.toolCalls)
    && ReportsAll(w, r.toolCalls, step, 0, turn[n + 1..])
  }

  lemma {:induction false} ResponseIsRead(w: World, p: Progress, r: Response)
    requires p.step >= 1
    ensures var (turn, next) := Respond(w, Spent(p, r), r);
      if r.toolCalls == [] then next == Stop(None) && EndsInText(p, r, p.step, turn)
      else next == Continue(Progress(p.step, p.prompt + r.promptTokens, p.completion + r.completionTokens))
           && EndsInCalls(w, r, p.step, turn)
  {
    if r.toolCalls != [] {
      var turn := ToolTurn(w, r, p.step);
      var n := if r.content == "" then 0 else 1;
      CallsReport(w, r.toolCalls, p.step, 0);
      assert turn[n + 1..] == CallsFrom(w, r.toolCalls, p.step, 0);
    }
  }

  /** The breaker let the call through, which made `k` attempts; `rest` is what follows. */
  ghost predicate Called(w: World, step: nat, k: nat, trace: seq<Action>, rest: seq<Action>) {
    exists acts ::
      trace == [BreakerAllowed] + acts + rest && LlmCalls(acts) == k && Streamed(acts) == Produced(w, step, 1, k)
  }

  predicate Fails(w: World, step: nat, k: nat, s: StepResult, rest: seq<Action>) {
    && s.next.Stop? && s.next.err.Some? && Means(w.attempt(step, k), k, Failed(s.next.err.value))
    && rest == [BreakerFailed, Emit(Error("LLM call failed (after 5 retries): " + s.next.err.value))]
    && s.breaker.lastFailureTime == w.failedAt(step)
  }

  ghost predicate Replies(w: World, p: Progress, r: Response, s: StepResult, rest: seq<Action>) {
    && |rest| >= 2 && rest[0] == BreakerSucceeded && rest[1] == Received(r)
    && if r.toolCalls == [] then s.next == Stop(None) && EndsInText(p, r, p.step + 1, rest[2..])
       else s.next == Continue(Progress(p.step + 1, p.prompt + r.promptTokens, p.completion + r.completionTokens))
            && EndsInCalls(w, r, p.step + 1, rest[2..])
  }

  /** A step that is turned away by the breaker, */
  lemma {:induction false} RefusedStepIsRead(w: World, c: Breaker.Config, p: Progress, b: Breaker.State)
    ensures TurnsAway(c, b, w.askedAt(p.step + 1)) ==>
      var s := StepOnce(w, c, p, b);
      && s.trace == [BreakerRefused,
                     Emit(Error("Circuit breaker is open: too many failures, please wait a moment."))]
      && s.next == Stop(Some("circuit breaker open"))
  {}

  /** and one that is not: failed, if the attempt that ended the call was an error; the final
      answer, if it replied without tool calls; or the calls, each with what it came to. */
  lemma {:induction false} StepIsRead(w: World, c: Breaker.Config, p: Progress, b: Breaker.State)
      returns (k: nat, rest: seq<Action>)
    requires !TurnsAway(c, b, w.askedAt(p.step + 1))
    ensures var s, step := StepOnce(w, c, p, b), p.step + 1;
      && EndsFirstAt(w, step, k) && Called(w, step, k, s.trace, rest)
      && match w.attempt(step, k).outcome
         case Errored(_) => Fails(w, step, k, s, rest)
         case Reply(r) => Replies(w, p, r, s, rest)
  {
    hide Attempts, Respond, EndsInCalls, Produced, Streamed, LlmCalls, Listed;
    var step := p.step + 1;
    k := CallIsRetriedExactlyUntil(w, step);
    var (acts, result) := Attempts(w, step, 1);
    var s := StepOnce(w, c, p, b);
    match result
    case Failed(message) =>
      rest := [BreakerFailed, Emit(Error(CALL_FAILED + message))];
    case Ok(r) =>
      ResponseIsRead(w, p.(step := step), r);
      var turn := Respond(w, Spent(p.(step := step), r), r).0;
      rest := [BreakerSucceeded, Received(r)] + turn;
      assert rest[2..] == turn;
      assert s.trace == [BreakerAllowed] + acts + rest;
  }

  // ----- the whole run -----

  function Traces(steps: seq<StepResult>): seq<Action> {
    if steps == [] then [] else steps[0].trace + Traces(steps[1..])
  }

  /** Consecutive steps: each goes on with the progress and the breaker that the one before it
      left, and all but the last do go on. */
  predicate Chained(w: World, c: Breaker.Config, ps: seq<Progress>, bs: seq<Breaker.State>, steps: seq<StepResult>) {
    && |ps| == |bs| == |steps|
    && (forall i :: 0 <= i < |steps| ==> steps[i] == StepOnce(w, c, ps[i], bs[i]))
    && (forall i, j :: 0 <= i && j == i + 1 < |steps| ==>
          steps[i].next == Continue(ps[j]) && steps[i].breaker == bs[j])
  }

  const GIVING_UP := "I've reached the maximum number of analysis steps. Based on my investigation so far, " +
    "I need more specific information to continue. Please provide additional context or narrow the scope."

  /** What is said when the steps are used up. */
  predicate GivesUp(p: Progress, final: seq<Action>) {
    && |final| == 3 && final[0].Append? && final[0].m == Assistant(GIVING_UP, [])
    && final[1] == Emit(Answer(GIVING_UP, p.prompt, p.completion, p.prompt + p.completion, p.step))
    && final[2] == Emit(Done)
  }

  /** How the run ends: as its last step does if that stops, and otherwise, after as many steps
      as a run may take, by giving up. */
  predicate Ends(maxSteps: nat, p: Progress, b: Breaker.State, steps: seq<StepResult>, err: Option<string>,
                 after: Breaker.State, final: seq<Action>) {
    if steps != [] && steps[|steps| - 1].next.Stop? then
      final == [] && err == steps[|steps| - 1].next.err && after == steps[|steps| - 1].breaker
    else
      && |steps| == maxSteps - p.step && err == None
      && after == (if steps == [] then b else steps[|steps| - 1].breaker)
      && GivesUp(if steps == [] then p else steps[|steps| - 1].next.p, final)
  }

  lemma {:induction false} ChainGrows(w: World, c: Breaker.Config, p: Progress, b: Breaker.State,
      ps: seq<Progress>, bs: seq<Breaker.State>, steps: seq<StepResult>)
    requires Chained(w, c, ps, bs, steps)
    requires var s := StepOnce(w, c, p, b);
      steps != [] ==> s.next == Continue(ps[0]) && s.breaker == bs[0]
    ensures Chained(w, c, [p] + ps, [b] + bs, [StepOnce(w, c, p, b)] + steps)
  {
    hide StepOnce;
    var ps', bs', steps' := [p] + ps, [b] + bs, [StepOnce(w, c, p, b)] + steps;
    forall i | 0 <= i < |steps'|
      ensures steps'[i] == StepOnce(w, c, ps'[i], bs'[i])
      ensures i > 0 ==> ps'[i] == ps[i - 1] && bs'[i] == bs[i - 1] && steps'[i] == steps[i - 1]
    {}
  }

  lemma {:induction false} FinalGivesUp(p: Progress, at: int)
    ensures GivesUp(p, Final(MAX_STEPS_ANSWER, p, at))
  {}

  lemma {:induction false} EndsLater(maxSteps: nat, p: Progress, b: Breaker.State, s: StepResult,
      steps: seq<StepResult>, err: Option<string>, after: Breaker.State, final: seq<Action>)
    requires p.step < maxSteps && s.next.Continue? && s.next.p.step == p.step + 1
    requires Ends(maxSteps, s.next.p, s.breaker, steps, err, after, final)
    ensures Ends(maxSteps, p, b, [s] + steps, err, after, final)
  {
    hide GivesUp;
    assert steps != [] ==> ([s] + steps)[|steps|] == steps[|steps| - 1];
  }

  lemma {:induction false} NothingChained(w: World, c: Breaker.Config)
    ensures Chained(w, c, [], [], [])
  {}

  lemma {:induction false} TracesCons(s: StepResult, steps: seq<StepResult>, final: seq<Action>)
    ensures Traces([s] + steps) + final == s.trace + (Traces(steps) + final)
  {
    assert ([s] + steps)[1..] == steps;
  }

  lemma {:induction false} StepsAreRead(w: World, maxSteps: nat, c: Breaker.Config, p: Progress, b: Breaker.State)
      returns (ps: seq<Progress>, bs: seq<Breaker.State>, steps: seq<StepResult>, final: seq<Action>)
    requires p.step <= maxSteps
    ensures var r := StepsFrom(w, maxSteps, c, p, b);
      && Chained(w, c, ps, bs, steps) && |steps| <= maxSteps - p.step && (steps != [] ==> ps[0] == p && bs[0] == b)
      && r.trace == Traces(steps) + final && Ends(maxSteps, p, b, steps, r.err, r.breaker, final)
    decreases maxSteps - p.step
  {
    hide StepOnce, GivesUp, Chained;
    ps, bs, steps, final := [], [], [], [];
    if p.step == maxSteps {
      assert Chained(w, c, [], [], []) by { NothingChained(w, c); }
      final := StepsFrom(w, maxSteps, c, p, b).trace;
      FinalGivesUp(p, w.appendedAt(p.step, 0));
    } else {
      var s := StepOnce(w, c, p, b);
      NothingChained(w, c);
      if s.next.Continue? {
        ps, bs, steps, final := StepsAreRead(w, maxSteps, c, s.next.p, s.breaker);
        var rest := StepsFrom(w, maxSteps, c, s.next.p, s.breaker);
        EndsLater(maxSteps, p, b, s, steps, rest.err, rest.breaker, final);
      }
      ChainGrows(w, c, p, b, ps, bs, steps);
      TracesCons(s, steps, final);
      ps, bs, steps := [p] + ps, [b] + bs, [s] + steps;
    }
  }

  /** What precedes the steps: the user's message, and an event if the conversation with that
      message in it is compressed. */
  predicate Begins(c: Memory.Contents, o: Opening, prelude: seq<Action>) {
    var compresses := c.tokens + |o.message| / 4 > 20000 && |c.messages| >= 9 && o.summary.Some?;
    && |prelude| == (if compresses then 2 else 1)
    && prelude[0].Append? && prelude[0].m == User(o.message)
    && (compresses ==> prelude[1] == Emit(MemoryEvent))
  }

  /** A whole run: the opening, at most `maxSteps` steps that follow on each other, each of them
      as StepIsRead and RefusedStepIsRead say, and the end.  The conversation afterwards is the
      opening's with all that the steps append. */
  lemma {:induction false} RunIsRead(w: World, maxSteps: nat, c: Breaker.Config, v: Memory.Contents, o: Opening,
      b: Breaker.State) returns (ps: seq<Progress>, bs: seq<Breaker.State>, steps: seq<StepResult>,
                                 prelude: seq<Action>, final: seq<Action>)
    ensures var r := ChatRun(w, maxSteps, c, v, o, b);
      && Begins(v, o, prelude)
      && if o.providerGone then
           && r.trace == prelude + [Emit(Error("Provider became unavailable during chat"))]
           && r.err.Some? && r.breaker == b
         else
           && r.trace == prelude + (Traces(steps) + final)
           && Chained(w, c, ps, bs, steps) && |steps| <= maxSteps
           && (steps != [] ==> ps[0] == Progress(0, 0, 0) && bs[0] == b)
           && Ends(maxSteps, Progress(0, 0, 0), b, steps, r.err, r.breaker, final)
    ensures var v' := AfterRun(w, maxSteps, c, v, o, b);
      v'.messages == Memory.Compressed(Memory.Contents(v.messages + [User(o.message)], v.tokens + |o.message| / 4,
                                                       v.memory, o.at), o.summary, o.compressedAt).messages
                     + if o.providerGone then [] else Appended(Traces(steps) + final)
  {
    hide StepsFrom, Chained, Memory.Compressed, Traces, Ends, Appended;
    ps, bs, steps, final := StepsAreRead(w, maxSteps, c, Progress(0, 0, 0), b);
    prelude := Prelude(v, o);
    ExtendedMessages(Opened(v, o), Traces(steps) + final);
  }
}
