/** Two turns, in which nothing fails, after which a conversation that started empty is no
    longer well formed: compression drops the calls of a step and keeps some of its results. */
module CompressionCuts {
  import opened Common
  import opened Transcript
  import opened ChatProtocol
  import opened ChatEngine
  import opened ChatRuns
  import Breaker
  import Memory

  const CLOSED := Breaker.State(Breaker.Closed, 0, 0, 0)
  const DEFAULTS := Breaker.Config(5, 60 * SECOND, 1)
  const MAX_STEPS := 15

  function Calls(): seq<ToolCall> { seq(11, _ => ToolCall("c", "get", "{}")) }

  function Results(n: nat, output: string): seq<Message> { seq(n, _ => Tool("c", output)) }

  /** The first response of a turn makes eleven calls, which all succeed; the second answers. */
  function Talkative(output: string): World {
    World((step, n) => Attempt([], Reply(Response("", if step == 1 then Calls() else [], 0, 0)), false),
          _ => true, _ => "", _ => true, (step, i) => Ran(true, output, ""), _ => 0, _ => 0, (step, i) => 0)
  }

  lemma {:induction false} SilentAppendsNothing(trace: seq<Action>)
    requires forall a :: a in trace ==> !a.Append?
    ensures Appended(trace) == []
  {
    if trace != [] {
      assert !trace[0].Append?;
      SilentAppendsNothing(trace[1..]);
    }
  }

  /** Of these actions only `a` adds a message. */
  lemma {:induction false} OnlyAppend(before: seq<Action>, a: Action, after: seq<Action>)
    requires a.Append? && forall x :: x in before || x in after ==> !x.Append?
    ensures Appended(before + [a] + after) == [a.m]
  {
    SilentAppendsNothing(before);
    SilentAppendsNothing(after);
    AppendedConcat(before + [a], after);
    AppendedConcat(before, [a]);
    assert [a][1..] == [];
  }

  lemma {:induction false} CallsAppend(output: string, i: nat)
    requires i <= 11 && |output| <= 8000
    ensures Appended(CallsFrom(Talkative(output), Calls(), 1, i)) == Results(11 - i, output)
    decreases 11 - i
  {
    if i < 11 {
      var w := Talkative(output);
      var one := OneCall(w, Calls()[i], 1, i);
      CallsAppend(output, i + 1);
      AppendedConcat(one, CallsFrom(w, Calls(), 1, i + 1));
      assert one == [one[0], one[1]] + [one[2]] + [];
      OnlyAppend([one[0], one[1]], one[2], []);
    }
  }

  lemma {:induction false} OneAttempt(output: string, step: nat)
    ensures Attempts(Talkative(output), step, 1)
         == ([LlmCall], Ok(Response("", if step == 1 then Calls() else [], 0, 0)))
  {
    assert [LlmCall] + [] == [LlmCall];
  }

  /** A step whose first attempt succeeds, with the breaker closed. */
  lemma {:induction false} GoodStep(w: World, p: Progress, r: Response)
    requires Attempts(w, p.step + 1, 1) == ([LlmCall], Ok(r))
    ensures var (turn, next) := Respond(w, Spent(p.(step := p.step + 1), r), r);
      var head := [BreakerAllowed, LlmCall, BreakerSucceeded, Received(r)];
      StepOnce(w, DEFAULTS, p, CLOSED) == StepResult(head + turn, next, CLOSED)
  {
    hide Attempts, Respond;
    assert [BreakerAllowed] + [LlmCall] + [BreakerSucceeded, Received(r)]
        == [BreakerAllowed, LlmCall, BreakerSucceeded, Received(r)];
  }

  lemma {:induction false} GoodStepAppends(before: seq<Action>, a: Action, after: seq<Action>, r: Response,
      rest: seq<Action>)
    requires before == [BreakerAllowed, LlmCall, BreakerSucceeded, Received(r)] && a.Append?
    requires forall x :: x in after ==> !x.Append?
    ensures Appended(before + ([a] + after + rest)) == [a.m] + Appended(rest)
  {
    OnlyAppend(before, a, after);
    AppendedConcat(before + [a] + after, rest);
    assert before + ([a] + after + rest) == before + [a] + after + rest;
  }

  /** The first step makes the calls, */
  lemma {:induction false} CallingStep(output: string)
    requires |output| <= 8000
    ensures var s := StepOnce(Talkative(output), DEFAULTS, Progress(0, 0, 0), CLOSED);
      && s.next == Continue(Progress(1, 0, 0)) && s.breaker == CLOSED
      && Appended(s.trace) == [Assistant("", Calls())] + Results(11, output)
  {
    hide StepOnce, Attempts, CallsFrom;
    var w, r := Talkative(output), Response("", Calls(), 0, 0);
    var before, asked := [BreakerAllowed, LlmCall, BreakerSucceeded, Received(r)], Append(Assistant("", Calls()), 0);
    OneAttempt(output, 1);
    GoodStep(w, Progress(0, 0, 0), r);
    CallsAppend(output, 0);
    assert ToolTurn(w, r, 1) == [asked] + [] + CallsFrom(w, Calls(), 1, 0);
    GoodStepAppends(before, asked, [], r, CallsFrom(w, Calls(), 1, 0));
  }

  function FinalActions(content: string, at: int, answer: Event): seq<Action> {
    [Append(Assistant(content, []), at)] + [Emit(answer), Emit(Done)] + []
  }

  lemma {:induction false} AnswerEndsTheTurn(w: World, p: Progress, content: string)
    ensures Respond(w, p, Response(content, [], 0, 0)).1 == Stop(None)
    ensures exists at, answer :: Respond(w, p, Response(content, [], 0, 0)).0 == FinalActions(content, at, answer)
  {
    var at := w.appendedAt(p.step, 0);
    var final := Final(content, p, at);
    assert final == FinalActions(content, at, final[1].event);
  }

  /** and the second answers. */
  lemma {:induction false} AnsweringStep(output: string)
    ensures var s := StepOnce(Talkative(output), DEFAULTS, Progress(1, 0, 0), CLOSED);
      s.next == Stop(None) && s.breaker == CLOSED && Appended(s.trace) == [Assistant("", [])]
  {
    hide StepOnce, Attempts, Respond, Appended;
    var w, r := Talkative(output), Response("", [], 0, 0);
    OneAttempt(output, 2);
    GoodStep(w, Progress(1, 0, 0), r);
    AnswerEndsTheTurn(w, Progress(2, 0, 0), "");
    var at, answer :| Respond(w, Progress(2, 0, 0), r).0 == FinalActions("", at, answer);
    var before := [BreakerAllowed, LlmCall, BreakerSucceeded, Received(r)];
    GoodStepAppends(before, Append(Assistant("", []), at), [Emit(answer), Emit(Done)], r, []);
    assert Appended([]) == [] by { SilentAppendsNothing([]); }
  }

  lemma {:induction false} TurnAppends(output: string)
    requires |output| <= 8000
    ensures var r := StepsFrom(Talkative(output), MAX_STEPS, DEFAULTS, Progress(0, 0, 0), CLOSED);
      && r.breaker == CLOSED && r.err == None
      && Appended(r.trace) == [Assistant("", Calls())] + Results(11, output) + [Assistant("", [])]
  {
    var w := Talkative(output);
    CallingStep(output);
    AnsweringStep(output);
    var s1 := StepOnce(w, DEFAULTS, Progress(0, 0, 0), CLOSED);
    var s2 := StepOnce(w, DEFAULTS, Progress(1, 0, 0), CLOSED);
    assert StepsFrom(w, MAX_STEPS, DEFAULTS, Progress(1, 0, 0), CLOSED) == RunResult(s2.trace, None, CLOSED);
    AppendedConcat(s1.trace, s2.trace);
  }

  lemma {:induction false} ExtendedTokens(v: Memory.Contents, trace: seq<Action>)
    ensures Extended(v, trace).tokens == v.tokens + Memory.EstimateAll(Appended(trace))
    decreases trace
  {
    if trace != [] {
      ExtendedTokens(if trace[0].Append? then Memory.Appended(v, trace[0].m, trace[0].at) else v, trace[1..]);
    }
  }

  lemma {:induction false} EstimateResults(n: nat, output: string)
    ensures Memory.EstimateAll(Results(n, output)) == n * (|output| / 4)
  {
    if n > 0 {
      assert Results(n, output)[1..] == Results(n - 1, output);
      EstimateResults(n - 1, output);
    }
  }

  function Fresh(prompt: string): Memory.Contents { Memory.Contents([System(prompt)], 0, [], 0) }

  function Answered(prompt: string, question: string, output: string): seq<Message> {
    [System(prompt), User(question), Assistant("", Calls())] + Results(11, output) + [Assistant("", [])]
  }

  /** The conversation after the first turn. */
  lemma {:induction false} AfterFirstTurn(prompt: string, output: string, o: Opening)
    requires |output| == 8000 && !o.providerGone
    ensures var v := AfterRun(Talkative(output), MAX_STEPS, DEFAULTS, Fresh(prompt), o, CLOSED);
      v.messages == Answered(prompt, o.message, output) && v.tokens >= 22000
  {
    var start := Fresh(prompt);
    var asked := Memory.Appended(start, User(o.message), o.at);
    assert Opened(start, o) == asked;
    var trace := StepsFrom(Talkative(output), MAX_STEPS, DEFAULTS, Progress(0, 0, 0), CLOSED).trace;
    TurnAppends(output);
    ExtendedMessages(asked, trace);
    ExtendedTokens(asked, trace);
    EstimateResults(11, output);
    Memory.EstimateConcat([Assistant("", Calls())] + Results(11, output), [Assistant("", [])]);
    Memory.EstimateConcat([Assistant("", Calls())], Results(11, output));
  }

  /** The follow-up compresses, and what is kept begins with a result. */
  lemma {:induction false} FollowUpCuts(v: Memory.Contents, prompt: string, question: string, output: string,
      o: Opening)
    requires v.messages == Answered(prompt, question, output)
    requires v.tokens >= 22000 && o.summary.Some?
    ensures CutsABlock(v, o)
  {
    var asked := Memory.Appended(v, User(o.message), o.at);
    assert |asked.messages| == 16 && asked.messages[8] == Tool("c", output);
  }

  /** A question answered with eleven long tool results, and a follow-up: the second turn's
      compression keeps some of the results and drops the calls. */
  lemma {:induction false} CompressionCanCutABlock(prompt: string, output: string, first: string, second: string,
      summary: string, at: int)
    requires |output| == 8000
    ensures var o1, o2 := Opening(first, at, None, at, false), Opening(second, at, Some(summary), at, false);
      var turns := [Turn(Talkative(output), o1), Turn(Talkative(output), o2)];
      && WellFormed(Fresh(prompt).messages)
      && !WellFormedThroughout(MAX_STEPS, DEFAULTS, Fresh(prompt), CLOSED, turns)
  {
    hide WellFormedThroughout, CutsABlock, AfterRun, ChatRun, Talkative;
    var v, w := Fresh(prompt), Talkative(output);
    var t1 := Turn(w, Opening(first, at, None, at, false));
    var t2 := Turn(w, Opening(second, at, Some(summary), at, false));
    assert [System(prompt)][1..] == [];
    var v1 := AfterRun(w, MAX_STEPS, DEFAULTS, v, t1.o, CLOSED);
    var b1 := ChatRun(w, MAX_STEPS, DEFAULTS, v, t1.o, CLOSED).breaker;
    AfterFirstTurn(prompt, output, t1.o);
    FollowUpCuts(v1, prompt, first, output, t2.o);
    assert [t1, t2][1..] == [t2];
    assert !NeverCuts(MAX_STEPS, DEFAULTS, v1, b1, [t2]);
    ConversationStaysWellFormedExactlyWhen(MAX_STEPS, DEFAULTS, v, CLOSED, [t1, t2]);
  }
}
