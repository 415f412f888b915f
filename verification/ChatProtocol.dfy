/** What one chat run may do, as an automaton over its observable actions: the events sent to
    the browser, the messages added to the conversation, the calls to the circuit breaker and
    the calls to the LLM.  ChatRuns proves that every run follows it. */
module ChatProtocol {
  import opened Common
  import opened Transcript

  datatype Event =
    | MemoryEvent
    | ThinkingDelta(delta: string, step: nat)
    | Thinking(content: string, step: nat)
    | ToolCalled(name: string, arguments: string, step: nat)
    | ToolReturned(name: string, success: bool, output: string, error: string, step: nat)
    | Answer(content: string, promptTokens: int, completionTokens: int, totalTokens: int, steps: nat)
    | Error(message: string)
    | Done

  datatype Action =
    | Emit(event: Event)
    | Append(m: Message, at: int)
    | BreakerAllowed | BreakerRefused | BreakerSucceeded | BreakerFailed
    | LlmCall
    | Received(r: Response)

  /** How far a run has got, and the tokens of the responses received so far. */
  datatype Progress = Progress(step: nat, prompt: int, completion: int)

  datatype Phase =
    | Start
    | Asked(compressed: bool)
    | Ready(p: Progress)                             // between steps
    | Calling(p: Progress, attempts: nat)            // the breaker let step p.step through
    | Succeeded(p: Progress)
    | Replied(p: Progress, r: Response, thought: bool)
    | Owing(p: Progress, calls: seq<ToolCall>)       // results still owed, the first not started
    | Running(p: Progress, calls: seq<ToolCall>)
    | Returned(p: Progress, calls: seq<ToolCall>)
    | Answering(p: Progress, content: string)
    | Closing
    | Failing
    | Ended(ok: bool)

  const MAX_ATTEMPTS := 5

  function NextReady(maxSteps: nat, p: Progress, a: Action): Option<Phase> {
    if p.step < maxSteps then
      if a.BreakerAllowed? then Some(Calling(p.(step := p.step + 1), 0))
      else if a.BreakerRefused? then Some(Failing)
      else None
    else if a.Append? && a.m.Assistant? && a.m.toolCalls == [] then Some(Answering(p, a.m.content))
    else None
  }

  function Next(maxSteps: nat, phase: Phase, a: Action): Option<Phase> {
    match phase
    case Start =>
      if a.Append? && a.m.User? then Some(Asked(false))
      else if a.Emit? && a.event.Error? then Some(Ended(false))
      else None
    case Asked(compressed) =>
      if a == Emit(MemoryEvent) && !compressed then Some(Asked(true))
      else if a.Emit? && a.event.Error? then Some(Ended(false))
      else NextReady(maxSteps, Progress(0, 0, 0), a)
    case Ready(p) => NextReady(maxSteps, p, a)
    case Calling(p, attempts) =>
      if a.LlmCall? && attempts < MAX_ATTEMPTS then Some(Calling(p, attempts + 1))
      else if attempts == 0 then None
      else if a.Emit? && a.event.ThinkingDelta? && a.event.step == p.step && a.event.delta != "" then Some(phase)
      else if a.BreakerSucceeded? then Some(Succeeded(p))
      else if a.BreakerFailed? then Some(Failing)
      else None
    case Succeeded(p) =>
      if a.Received? then
        Some(Replied(Progress(p.step, p.prompt + a.r.promptTokens, p.completion + a.r.completionTokens), a.r, false))
      else None
    case Replied(p, r, thought) =>
      if r.toolCalls == [] then
        if a.Append? && a.m == Assistant(r.content, []) then Some(Answering(p, r.content)) else None
      else if r.content != "" && !thought then
        if a == Emit(Thinking(r.content, p.step)) then Some(Replied(p, r, true)) else None
      else if a.Append? && a.m == Assistant(r.content, r.toolCalls) then Some(Owing(p, r.toolCalls))
      else None
    case Owing(p, calls) =>
      if calls != [] && a == Emit(ToolCalled(calls[0].name, calls[0].arguments, p.step)) then Some(Running(p, calls))
      else None
    case Running(p, calls) =>
      if calls != [] && a.Emit? && a.event.ToolReturned? && a.event.name == calls[0].name && a.event.step == p.step
      then Some(Returned(p, calls))
      else None
    case Returned(p, calls) =>
      if calls != [] && a.Append? && a.m.Tool? && a.m.callId == calls[0].id then
        Some(if |calls| == 1 then Ready(p) else Owing(p, calls[1..]))
      else None
    case Answering(p, content) =>
      if a == Emit(Answer(content, p.prompt, p.completion, p.prompt + p.completion, p.step)) then Some(Closing) else None
    case Closing => if a == Emit(Done) then Some(Ended(true)) else None
    case Failing => if a.Emit? && a.event.Error? then Some(Ended(false)) else None
    case Ended(_) => None
  }

  function Replay(maxSteps: nat, phase: Phase, trace: seq<Action>): Option<Phase>
    decreases trace
  {
    if trace == [] then Some(phase)
    else match Next(maxSteps, phase, trace[0])
      case None => None
      case Some(phase') => Replay(maxSteps, phase', trace[1..])
  }

  /** The trace is a complete run that returned nil (`ok`) or an error. */
  predicate Accepts(maxSteps: nat, trace: seq<Action>, ok: bool) {
    Replay(maxSteps, Start, trace) == Some(Ended(ok))
  }

  lemma {:induction false} ReplayConcat(maxSteps: nat, phase: Phase, xs: seq<Action>, ys: seq<Action>)
    ensures Replay(maxSteps, phase, xs + ys) ==
      match Replay(maxSteps, phase, xs) case None => None case Some(phase') => Replay(maxSteps, phase', ys)
    decreases xs
  {
    if xs == [] {
      assert xs + ys == ys;
    } else {
      assert (xs + ys)[0] == xs[0] && (xs + ys)[1..] == xs[1..] + ys;
      match Next(maxSteps, phase, xs[0])
      case None =>
      case Some(phase') => ReplayConcat(maxSteps, phase', xs[1..], ys);
    }
  }

  // ----- what the grammar guarantees -----

  predicate IsError(a: Action) { a.Emit? && a.event.Error? }
  predicate IsFinal(a: Action) { a.Emit? && (a.event.Answer? || a.event.Done?) }

  /** A run that returns nil ends with its one Answer and Done, and emits no Error. */
  lemma {:induction false} NilEndsInAnswerDone(maxSteps: nat, phase: Phase, trace: seq<Action>)
    requires Replay(maxSteps, phase, trace) == Some(Ended(true)) && !phase.Ended? && !phase.Closing?
    ensures |trace| >= 2
    ensures trace[|trace| - 2].Emit? && trace[|trace| - 2].event.Answer? && trace[|trace| - 1] == Emit(Done)
    ensures forall i :: 0 <= i < |trace| ==> !IsError(trace[i])
    ensures forall i :: 0 <= i < |trace| - 2 ==> !IsFinal(trace[i])
    decreases trace
  {
    var phase' := Next(maxSteps, phase, trace[0]).value;
    var rest := trace[1..];
    if phase'.Closing? {
      assert Replay(maxSteps, Closing, rest) == Some(Ended(true));
      var phase'' := Next(maxSteps, phase', rest[0]).value;
      assert Replay(maxSteps, phase'', rest[1..]) == Some(Ended(true));
      assert rest[1..] == [];
      assert |trace| == 2 && rest[0] == trace[1];
    } else if !phase'.Ended? {
      NilEndsInAnswerDone(maxSteps, phase', rest);
      assert forall i :: 1 <= i < |trace| ==> trace[i] == rest[i - 1];
    }
  }

  /** A run that returns an error ends with its one Error and emits no Answer or Done. */
  lemma {:induction false} ErrorEndsInError(maxSteps: nat, phase: Phase, trace: seq<Action>)
    requires Replay(maxSteps, phase, trace) == Some(Ended(false)) && !phase.Ended?
    ensures |trace| >= 1 && IsError(trace[|trace| - 1])
    ensures forall i :: 0 <= i < |trace| - 1 ==> !IsError(trace[i])
    ensures forall i :: 0 <= i < |trace| ==> !IsFinal(trace[i])
    decreases trace
  {
    var phase' := Next(maxSteps, phase, trace[0]).value;
    var rest := trace[1..];
    if phase'.Ended? {
      assert rest == [];
    } else {
      ErrorEndsInError(maxSteps, phase', rest);
      assert forall i :: 1 <= i < |trace| ==> trace[i] == rest[i - 1];
    }
  }

  predicate Calls(a: Action) { a.Emit? && a.event.ToolCalled? }
  predicate Returns(a: Action) { a.Emit? && a.event.ToolReturned? }

  predicate SameTool(call: Action, result: Action)
    requires Calls(call)
  {
    Returns(result) && result.event.name == call.event.name && result.event.step == call.event.step
  }

  /** Every ToolCall is followed at once by its ToolResult, of the same name and step, and
      there are no other ToolResults. */
  lemma {:induction false} CallsAreAnsweredAtOnce(maxSteps: nat, phase: Phase, trace: seq<Action>, ok: bool)
    requires Replay(maxSteps, phase, trace) == Some(Ended(ok))
    ensures forall i :: 0 <= i < |trace| && Calls(trace[i]) ==> i + 1 < |trace| && SameTool(trace[i], trace[i + 1])
    ensures forall i :: 0 <= i < |trace| && Returns(trace[i]) ==>
      (i == 0 && phase.Running?) || (i > 0 && Calls(trace[i - 1]) && SameTool(trace[i - 1], trace[i]))
    decreases trace
  {
    if trace != [] {
      var phase' := Next(maxSteps, phase, trace[0]).value;
      var rest := trace[1..];
      CallsAreAnsweredAtOnce(maxSteps, phase', rest, ok);
      assert forall i :: 1 <= i < |trace| ==> trace[i] == rest[i - 1];
      if phase'.Running? {
        assert rest != [] && Next(maxSteps, phase', rest[0]).Some?;
        assert Returns(rest[0]) && rest[0] == trace[1];
      }
      forall i | 0 <= i < |trace| && Calls(trace[i])
        ensures i + 1 < |trace| && SameTool(trace[i], trace[i + 1])
      {
        if i > 0 { assert Calls(rest[i - 1]) && SameTool(rest[i - 1], rest[i]); }
      }
      forall i | 0 <= i < |trace| && Returns(trace[i])
        ensures (i == 0 && phase.Running?) || (i > 0 && Calls(trace[i - 1]) && SameTool(trace[i - 1], trace[i]))
      {
        if i > 1 { assert Returns(rest[i - 1]) && Calls(rest[i - 2]); }
        if i == 1 { assert Returns(rest[0]); }
      }
    }
  }

  // ----- the breaker -----

  predicate OnBreaker(a: Action) {
    a.BreakerAllowed? || a.BreakerRefused? || a.BreakerSucceeded? || a.BreakerFailed?
  }

  function BreakerCalls(trace: seq<Action>): seq<Action> {
    if trace == [] then []
    else if OnBreaker(trace[0]) then [trace[0]] + BreakerCalls(trace[1..])
    else BreakerCalls(trace[1..])
  }

  /** Each passed Allow is followed by exactly one report, and a refusal or a reported
      failure is the last word. */
  predicate Alternates(calls: seq<Action>) {
    || calls == []
    || calls == [BreakerRefused]
    || calls == [BreakerAllowed, BreakerFailed]
    || (|calls| >= 2 && calls[0] == BreakerAllowed && calls[1] == BreakerSucceeded && Alternates(calls[2..]))
  }

  predicate Finishing(phase: Phase) {
    phase.Failing? || phase.Ended? || phase.Closing? || phase.Answering?
  }

  /** One action, as far as the breaker is concerned. */
  lemma {:induction false} BreakerPhases(maxSteps: nat, phase: Phase, a: Action)
    requires Next(maxSteps, phase, a).Some?
    ensures var phase' := Next(maxSteps, phase, a).value;
      if a.BreakerAllowed? then !phase.Calling? && !Finishing(phase) && phase'.Calling?
      else if a.BreakerRefused? then !phase.Calling? && !Finishing(phase) && Finishing(phase')
      else if a.BreakerSucceeded? then phase.Calling? && !Finishing(phase) && !phase'.Calling?
      else if a.BreakerFailed? then phase.Calling? && !Finishing(phase) && Finishing(phase')
      else (phase.Calling? <==> phase'.Calling?) && (Finishing(phase) ==> Finishing(phase'))
  {}

  lemma {:induction false} BreakerAlternates(maxSteps: nat, phase: Phase, trace: seq<Action>, ok: bool)
    requires Replay(maxSteps, phase, trace) == Some(Ended(ok))
    ensures Finishing(phase) ==> BreakerCalls(trace) == []
    ensures Alternates((if phase.Calling? then [BreakerAllowed] else []) + BreakerCalls(trace))
    decreases trace
  {
    hide Next;
    if trace != [] {
      var phase' := Next(maxSteps, phase, trace[0]).value;
      BreakerPhases(maxSteps, phase, trace[0]);
      BreakerAlternates(maxSteps, phase', trace[1..], ok);
      var rest := BreakerCalls(trace[1..]);
      assert [] + rest == rest;
      assert [] + BreakerCalls(trace) == BreakerCalls(trace);
      if phase.Calling? && trace[0].BreakerSucceeded? {
        var calls := [BreakerAllowed] + BreakerCalls(trace);
        assert calls[2..] == rest;
      }
      if phase.Calling? && trace[0].BreakerFailed? {
        assert [BreakerAllowed] + BreakerCalls(trace) == [BreakerAllowed, BreakerFailed];
      }
      if trace[0].BreakerAllowed? {
        assert BreakerCalls(trace) == [BreakerAllowed] + rest;
      }
    }
  }

  function Count(p: Action -> bool, trace: seq<Action>): nat {
    if trace == [] then 0 else (if p(trace[0]) then 1 else 0) + Count(p, trace[1..])
  }

  function StepOf(phase: Phase): nat {
    match phase
    case Start => 0 case Asked(_) => 0 case Closing => 0 case Failing => 0 case Ended(_) => 0
    case _ => phase.p.step
  }

  /** At most maxSteps calls pass the breaker, and each makes at most five attempts. */
  lemma {:induction false} CallsAreBounded(maxSteps: nat, phase: Phase, trace: seq<Action>, ok: bool)
    requires Replay(maxSteps, phase, trace) == Some(Ended(ok))
    requires phase.Calling? ==> phase.attempts <= MAX_ATTEMPTS
    ensures Finishing(phase) ==> Count((a: Action) => a.BreakerAllowed?, trace) == 0
    ensures StepOf(phase) <= maxSteps ==> StepOf(phase) + Count((a: Action) => a.BreakerAllowed?, trace) <= maxSteps
    ensures Count((a: Action) => a.LlmCall?, trace)
      <= MAX_ATTEMPTS * Count((a: Action) => a.BreakerAllowed?, trace)
         + (if phase.Calling? then MAX_ATTEMPTS - phase.attempts else 0)
    decreases trace
  {
    if trace != [] {
      CallsAreBounded(maxSteps, Next(maxSteps, phase, trace[0]).value, trace[1..], ok);
    }
  }

  // ----- the conversation -----

  function Appended(trace: seq<Action>): seq<Message> {
    if trace == [] then []
    else if trace[0].Append? then [trace[0].m] + Appended(trace[1..])
    else Appended(trace[1..])
  }

  lemma {:induction false} AppendedConcat(xs: seq<Action>, ys: seq<Action>)
    ensures Appended(xs + ys) == Appended(xs) + Appended(ys)
    decreases xs
  {
    if xs == [] {
      assert xs + ys == ys;
    } else {
      assert (xs + ys)[0] == xs[0] && (xs + ys)[1..] == xs[1..] + ys;
      AppendedConcat(xs[1..], ys);
    }
  }

  function OwedIn(phase: Phase): seq<string> {
    match phase
    case Owing(_, calls) => Ids(calls)
    case Running(_, calls) => Ids(calls)
    case Returned(_, calls) => Ids(calls)
    case _ => []
  }

  /** The messages a run adds take the results owed before to the results owed after. */
  lemma {:induction false} AppendedScans(maxSteps: nat, phase: Phase, trace: seq<Action>, phase': Phase)
    requires Replay(maxSteps, phase, trace) == Some(phase')
    ensures Scan(OwedIn(phase), Appended(trace)) == Some(OwedIn(phase'))
    decreases trace
  {
    if trace != [] {
      var mid := Next(maxSteps, phase, trace[0]).value;
      AppendedScans(maxSteps, mid, trace[1..], phase');
      if trace[0].Append? {
        assert Appended(trace)[1..] == Appended(trace[1..]);
        assert OwedIn(phase) != [] ==> OwedIn(mid) == OwedIn(phase)[1..];
      }
    }
  }

  /** A complete run, nil or error, adds a well-formed list of messages; and what it has added
      is well formed whenever it calls the LLM. */
  lemma {:induction false} RunAppendsWellFormed(maxSteps: nat, trace: seq<Action>, ok: bool)
    requires Accepts(maxSteps, trace, ok)
    ensures WellFormed(Appended(trace))
    ensures forall i :: 0 <= i < |trace| && trace[i].LlmCall? ==> WellFormed(Appended(trace[..i]))
  {
    AppendedScans(maxSteps, Start, trace, Ended(ok));
    forall i | 0 <= i < |trace| && trace[i].LlmCall?
      ensures WellFormed(Appended(trace[..i]))
    {
      assert trace == trace[..i] + trace[i..];
      ReplayConcat(maxSteps, Start, trace[..i], trace[i..]);
      var phase := Replay(maxSteps, Start, trace[..i]).value;
      assert Next(maxSteps, phase, trace[i..][0]).Some?;
      AppendedScans(maxSteps, Start, trace[..i], phase);
    }
  }
}
