/** Every chat run follows the protocol, whatever the LLM, the tools and the clock do; and
    what that means over any sequence of runs on one conversation. */
module ChatRuns {
  import opened Common
  import opened Transcript
  import opened ChatProtocol
  import opened ChatEngine
  import Breaker
  import Memory

  // ----- every run is accepted -----

  lemma {:induction false} DeltasReplay(maxSteps: nat, p: Progress, attempts: nat, deltas: seq<string>)
    requires attempts >= 1
    ensures Replay(maxSteps, Calling(p, attempts), Deltas(deltas, p.step)) == Some(Calling(p, attempts))
  {
    if deltas != [] {
      DeltasReplay(maxSteps, p, attempts, deltas[1..]);
      if deltas[0] != "" {
        assert Deltas(deltas, p.step)[1..] == Deltas(deltas[1..], p.step);
      }
    }
  }

  lemma {:induction false} AttemptsReplay(w: World, maxSteps: nat, p: Progress, n: nat) returns (last: nat)
    requires 1 <= n <= MAX_ATTEMPTS
    ensures n <= last <= MAX_ATTEMPTS
    ensures Replay(maxSteps, Calling(p, n - 1), Attempts(w, p.step, n).0) == Some(Calling(p, last))
    decreases MAX_ATTEMPTS - n
  {
    var deltas := Deltas(w.attempt(p.step, n).deltas, p.step);
    var head := [LlmCall] + deltas;
    assert head[1..] == deltas;
    DeltasReplay(maxSteps, p, n, w.attempt(p.step, n).deltas);
    last := n;
    if Attempts(w, p.step, n).0 != head {
      last := AttemptsReplay(w, maxSteps, p, n + 1);
      ReplayConcat(maxSteps, Calling(p, n - 1), head, Attempts(w, p.step, n + 1).0);
    }
  }

  lemma {:induction false} OneCallReplay(w: World, maxSteps: nat, p: Progress, calls: seq<ToolCall>, i: nat)
    requires calls != []
    ensures Replay(maxSteps, Owing(p, calls), OneCall(w, calls[0], p.step, i))
         == Some(if |calls| == 1 then Ready(p) else Owing(p, calls[1..]))
  {
    var acts := OneCall(w, calls[0], p.step, i);
    assert acts[1..] == [acts[1], acts[2]] && acts[1..][1..] == [acts[2]] && [acts[2]][1..] == [];
    var after := if |calls| == 1 then Ready(p) else Owing(p, calls[1..]);
    assert Replay(maxSteps, Returned(p, calls), [acts[2]]) == Some(after);
    assert Replay(maxSteps, Running(p, calls), acts[1..]) == Some(after);
  }

  lemma {:induction false} CallsReplay(w: World, maxSteps: nat, p: Progress, calls: seq<ToolCall>, i: nat)
    requires i < |calls|
    ensures Replay(maxSteps, Owing(p, calls[i..]), CallsFrom(w, calls, p.step, i)) == Some(Ready(p))
    decreases |calls| - i
  {
    OneCallReplay(w, maxSteps, p, calls[i..], i);
    assert calls[i..][0] == calls[i] && calls[i..][1..] == calls[i + 1..];
    ReplayConcat(maxSteps, Owing(p, calls[i..]), OneCall(w, calls[i], p.step, i), CallsFrom(w, calls, p.step, i + 1));
    if i + 1 < |calls| {
      CallsReplay(w, maxSteps, p, calls, i + 1);
    }
  }

  lemma {:induction false} FinalReplay(maxSteps: nat, phase: Phase, content: string, p: Progress, at: int)
    requires Next(maxSteps, phase, Append(Assistant(content, []), at)) == Some(Answering(p, content))
    ensures Replay(maxSteps, phase, Final(content, p, at)) == Some(Ended(true))
  {
    var acts := Final(content, p, at);
    assert acts[1..] == [acts[1], acts[2]] && acts[1..][1..] == [acts[2]] && [acts[2]][1..] == [];
    assert Replay(maxSteps, Closing, [acts[2]]) == Some(Ended(true));
    assert Replay(maxSteps, Answering(p, content), acts[1..]) == Some(Ended(true));
  }

  function PhaseAfter(next: Onward): Phase {
    match next
    case Stop(err) => Ended(err.None?)
    case Continue(p) => Ready(p)
  }

  lemma {:induction false} RespondReplay(w: World, maxSteps: nat, p: Progress, r: Response)
    ensures Replay(maxSteps, Replied(p, r, false), Respond(w, p, r).0) == Some(PhaseAfter(Respond(w, p, r).1))
  {
    var at := w.appendedAt(p.step, 0);
    if r.toolCalls == [] {
      FinalReplay(maxSteps, Replied(p, r, false), r.content, p, at);
    } else {
      var thinking := if r.content != "" then [Emit(Thinking(r.content, p.step))] else [];
      var asked := [Append(Assistant(r.content, r.toolCalls), at)];
      var calls := CallsFrom(w, r.toolCalls, p.step, 0);
      var thought := Replied(p, r, r.content != "");
      assert Replay(maxSteps, Replied(p, r, false), thinking) == Some(thought) by {
        if r.content != "" { assert thinking[1..] == []; }
      }
      assert Replay(maxSteps, thought, asked) == Some(Owing(p, r.toolCalls)) by {
        assert asked[1..] == [];
      }
      assert r.toolCalls[0..] == r.toolCalls;
      CallsReplay(w, maxSteps, p, r.toolCalls, 0);
      ReplayConcat(maxSteps, Replied(p, r, false), thinking, asked);
      ReplayConcat(maxSteps, Replied(p, r, false), thinking + asked, calls);
    }
  }

  lemma {:induction false} OneReplay(maxSteps: nat, phase: Phase, a: Action)
    ensures Replay(maxSteps, phase, [a]) == Next(maxSteps, phase, a)
  {
    assert [a][1..] == [];
  }

  lemma {:induction false} PairReplay(maxSteps: nat, phase: Phase, a: Action, b: Action)
    ensures Replay(maxSteps, phase, [a, b]) ==
      match Next(maxSteps, phase, a) case None => None case Some(mid) => Next(maxSteps, mid, b)
  {
    assert [a, b] == [a] + [b];
    ReplayConcat(maxSteps, phase, [a], [b]);
    OneReplay(maxSteps, phase, a);
    if Next(maxSteps, phase, a).Some? {
      OneReplay(maxSteps, Next(maxSteps, phase, a).value, b);
    }
  }

  /** From the breaker's Allow to the report, and one action more. */
  lemma {:induction false} CallReplay(w: World, maxSteps: nat, p: Progress, report: Action, last: Action)
    requires p.step < maxSteps && (report.BreakerFailed? || report.BreakerSucceeded?)
    ensures var q := p.(step := p.step + 1);
      Replay(maxSteps, Ready(p), [BreakerAllowed] + Attempts(w, q.step, 1).0 + [report, last])
      == Next(maxSteps, if report.BreakerFailed? then Failing else Succeeded(q), last)
  {
    var q := p.(step := p.step + 1);
    var acts := Attempts(w, q.step, 1).0;
    var attempts := AttemptsReplay(w, maxSteps, q, 1);
    OneReplay(maxSteps, Ready(p), BreakerAllowed);
    ReplayConcat(maxSteps, Ready(p), [BreakerAllowed], acts);
    PairReplay(maxSteps, Calling(q, attempts), report, last);
    ReplayConcat(maxSteps, Ready(p), [BreakerAllowed] + acts, [report, last]);
  }

  lemma {:induction false} StepReplay(w: World, maxSteps: nat, c: Breaker.Config, p: Progress, b: Breaker.State)
    requires p.step < maxSteps
    ensures var s := StepOnce(w, c, p, b);
      Replay(maxSteps, Ready(p), s.trace) == Some(PhaseAfter(s.next))
  {
    var q := p.(step := p.step + 1);
    if !Breaker.AllowStep(c, b, w.askedAt(q.step)).1 {
      PairReplay(maxSteps, Ready(p), BreakerRefused, Emit(Error(BREAKER_IS_OPEN)));
    } else {
      var (acts, result) := Attempts(w, q.step, 1);
      match result
      case Failed(message) =>
        CallReplay(w, maxSteps, p, BreakerFailed, Emit(Error(CALL_FAILED + message)));
      case Ok(r) =>
        AnsweredReplay(w, maxSteps, p, r);
    }
  }

  lemma {:induction false} AnsweredReplay(w: World, maxSteps: nat, p: Progress, r: Response)
    requires p.step < maxSteps
    ensures var q := p.(step := p.step + 1);
      var turn := Respond(w, Spent(q, r), r);
      Replay(maxSteps, Ready(p), [BreakerAllowed] + Attempts(w, q.step, 1).0 + [BreakerSucceeded, Received(r)] + turn.0)
      == Some(PhaseAfter(turn.1))
  {
    var q := p.(step := p.step + 1);
    CallReplay(w, maxSteps, p, BreakerSucceeded, Received(r));
    RespondReplay(w, maxSteps, Spent(q, r), r);
    ReplayConcat(maxSteps, Ready(p), [BreakerAllowed] + Attempts(w, q.step, 1).0 + [BreakerSucceeded, Received(r)],
                 Respond(w, Spent(q, r), r).0);
  }

  lemma {:induction false} StepsReplay(w: World, maxSteps: nat, c: Breaker.Config, p: Progress, b: Breaker.State)
    requires p.step <= maxSteps
    ensures var r := StepsFrom(w, maxSteps, c, p, b);
      Replay(maxSteps, Ready(p), r.trace) == Some(Ended(r.err.None?)) && r.trace != [] && !r.trace[0].Emit?
    decreases maxSteps - p.step
  {
    if p.step == maxSteps {
      FinalReplay(maxSteps, Ready(p), MAX_STEPS_ANSWER, p, w.appendedAt(p.step, 0));
    } else {
      var s := StepOnce(w, c, p, b);
      StepReplay(w, maxSteps, c, p, b);
      assert s.trace[0].BreakerAllowed? || s.trace[0].BreakerRefused?;
      if s.next.Continue? {
        StepsReplay(w, maxSteps, c, s.next.p, s.breaker);
        ReplayConcat(maxSteps, Ready(p), s.trace, StepsFrom(w, maxSteps, c, s.next.p, s.breaker).trace);
      }
    }
  }

  /** Every run, for every LLM, tools, clock and breaker state, is one the protocol accepts,
      as a success exactly when it returns nil. */
  lemma {:induction false} RunFollowsProtocol(w: World, maxSteps: nat, c: Breaker.Config, v: Memory.Contents,
      o: Opening, b: Breaker.State)
    ensures var r := ChatRun(w, maxSteps, c, v, o, b); Accepts(maxSteps, r.trace, r.err.None?)
  {
    var asked, memory := Append(User(o.message), o.at), Emit(MemoryEvent);
    var prelude := Prelude(v, o);
    var compressed := |prelude| == 2;
    assert prelude == if compressed then [asked, memory] else [asked];
    assert Replay(maxSteps, Start, prelude) == Some(Asked(compressed)) by {
      assert [asked][1..] == [];
      PairReplay(maxSteps, Start, asked, memory);
    }
    if o.providerGone {
      var gone := [Emit(Error("Provider became unavailable during chat"))];
      assert gone[1..] == [];
      ReplayConcat(maxSteps, Start, prelude, gone);
    } else {
      var rest := StepsFrom(w, maxSteps, c, Progress(0, 0, 0), b).trace;
      StepsReplay(w, maxSteps, c, Progress(0, 0, 0), b);
      assert Next(maxSteps, Asked(compressed), rest[0]) == Next(maxSteps, Ready(Progress(0, 0, 0)), rest[0]);
      ReplayConcat(maxSteps, Start, prelude, rest);
    }
  }

  /** Answer then Done at the very end and nowhere else, and no Error. */
  predicate EndsInAnswer(t: seq<Action>) {
    && |t| >= 2 && t[|t| - 2].Emit? && t[|t| - 2].event.Answer? && t[|t| - 1] == Emit(Done)
    && (forall i :: 0 <= i < |t| ==> !IsError(t[i]))
    && (forall i :: 0 <= i < |t| - 2 ==> !IsFinal(t[i]))
  }

  /** One Error, at the very end, and no Answer or Done. */
  predicate EndsInError(t: seq<Action>) {
    && |t| >= 1 && IsError(t[|t| - 1])
    && (forall i :: 0 <= i < |t| - 1 ==> !IsError(t[i]))
    && (forall i :: 0 <= i < |t| ==> !IsFinal(t[i]))
  }

  /** The grammar of a run, spelt out: a nil return ends in Answer then Done with no Error, an
      error return ends in its only Error with no Answer or Done; every ToolCall is followed
      at once by its ToolResult; each passed Allow of the breaker gets exactly one report; at
      most maxSteps calls pass and each makes at most five attempts. */
  lemma {:induction false} RunGrammar(w: World, maxSteps: nat, c: Breaker.Config, v: Memory.Contents,
      o: Opening, b: Breaker.State)
    ensures var r := ChatRun(w, maxSteps, c, v, o, b); var t := r.trace; var n := |t|;
      && n >= 1
      && (if r.err.None? then EndsInAnswer(t) else EndsInError(t))
      && (forall i :: 0 <= i < n && Calls(t[i]) ==> i + 1 < n && SameTool(t[i], t[i + 1]))
      && (forall i :: 0 <= i < n && Returns(t[i]) ==> i > 0 && Calls(t[i - 1]) && SameTool(t[i - 1], t[i]))
      && Alternates(BreakerCalls(t))
      && Count((a: Action) => a.BreakerAllowed?, t) <= maxSteps
      && Count((a: Action) => a.LlmCall?, t) <= MAX_ATTEMPTS * Count((a: Action) => a.BreakerAllowed?, t)
  {
    var r := ChatRun(w, maxSteps, c, v, o, b);
    RunFollowsProtocol(w, maxSteps, c, v, o, b);
    if r.err.None? {
      NilEndsInAnswerDone(maxSteps, Start, r.trace);
    } else {
      ErrorEndsInError(maxSteps, Start, r.trace);
    }
    CallsAreAnsweredAtOnce(maxSteps, Start, r.trace, r.err.None?);
    BreakerAlternates(maxSteps, Start, r.trace, r.err.None?);
    assert [] + BreakerCalls(r.trace) == BreakerCalls(r.trace);
    CallsAreBounded(maxSteps, Start, r.trace, r.err.None?);
  }

  // ----- sequences of runs on one conversation -----

  datatype Turn = Turn(w: World, o: Opening)

  predicate Starts(v: Memory.Contents) { v.messages != [] && v.messages[0].System? }

  /** The turn compresses the conversation in the middle of a block of tool results. */
  predicate CutsABlock(v: Memory.Contents, o: Opening) {
    o.summary.Some? && Memory.CutsABlock(Memory.Appended(v, User(o.message), o.at))
  }

  /** The messages a turn adds after its user message. */
  lemma {:induction false} RestIsWellFormed(w: World, maxSteps: nat, c: Breaker.Config, b: Breaker.State)
    ensures WellFormed(Appended(StepsFrom(w, maxSteps, c, Progress(0, 0, 0), b).trace))
  {
    StepsReplay(w, maxSteps, c, Progress(0, 0, 0), b);
    var r := StepsFrom(w, maxSteps, c, Progress(0, 0, 0), b);
    AppendedScans(maxSteps, Ready(Progress(0, 0, 0)), r.trace, Ended(r.err.None?));
  }

  lemma {:induction false} OpenedWellFormedExactlyWhen(v: Memory.Contents, o: Opening)
    requires WellFormed(v.messages) && Starts(v)
    ensures Starts(Opened(v, o))
    ensures WellFormed(Opened(v, o).messages) <==> !CutsABlock(v, o)
  {
    var asked := Memory.Appended(v, User(o.message), o.at);
    assert [User(o.message)][1..] == [];
    assert WellFormed([User(o.message)]);
    WellFormedConcat(v.messages, [User(o.message)]);
    if Memory.NeedsCompression(asked) && o.summary.Some? {
      Memory.CompressionExactlyWhen(asked, o.summary.value, o.compressedAt);
    }
  }

  /** A turn, even one that fails half way, leaves a well-formed conversation well formed if
      and only if its compression, if any, does not cut a block. */
  lemma {:induction false} TurnKeepsWellFormedExactlyWhen(maxSteps: nat, c: Breaker.Config, v: Memory.Contents,
      t: Turn, b: Breaker.State)
    requires WellFormed(v.messages) && Starts(v)
    ensures var v' := AfterRun(t.w, maxSteps, c, v, t.o, b);
      Starts(v') && (WellFormed(v'.messages) <==> !CutsABlock(v, t.o))
  {
    OpenedWellFormedExactlyWhen(v, t.o);
    if !t.o.providerGone {
      var start := Opened(v, t.o);
      var rest := StepsFrom(t.w, maxSteps, c, Progress(0, 0, 0), b).trace;
      RestIsWellFormed(t.w, maxSteps, c, b);
      ExtendedMessages(start, rest);
      SuffixKeepsWellFormed(start.messages, Appended(rest));
    }
  }

  lemma {:induction false} SuffixKeepsWellFormed(xs: seq<Message>, ys: seq<Message>)
    requires WellFormed(ys)
    ensures WellFormed(xs + ys) <==> WellFormed(xs)
  {
    ScanConcat([], xs, ys);
    if Scan([], xs).Some? && Scan([], xs).value != [] {
      OwedIsNotForgotten(Scan([], xs).value, ys);
    }
  }

  /** Results still owed cannot be paid by a list that owes nothing before it. */
  lemma {:induction false} OwedIsNotForgotten(owed: seq<string>, ys: seq<Message>)
    requires owed != [] && WellFormed(ys)
    ensures Scan(owed, ys) != Some([])
  {
    if ys != [] {
      assert !ys[0].Tool?;
    }
  }

  /** No turn of the sequence compresses in the middle of a block. */
  predicate NeverCuts(maxSteps: nat, c: Breaker.Config, v: Memory.Contents, b: Breaker.State, turns: seq<Turn>)
    decreases turns
  {
    turns == [] ||
    var t := turns[0];
    && !CutsABlock(v, t.o)
    && NeverCuts(maxSteps, c, AfterRun(t.w, maxSteps, c, v, t.o, b),
                 ChatRun(t.w, maxSteps, c, v, t.o, b).breaker, turns[1..])
  }

  /** The conversation is well formed now and after every turn. */
  predicate WellFormedThroughout(maxSteps: nat, c: Breaker.Config, v: Memory.Contents, b: Breaker.State,
      turns: seq<Turn>)
    decreases turns
  {
    && WellFormed(v.messages)
    && (turns == [] ||
        var t := turns[0];
        WellFormedThroughout(maxSteps, c, AfterRun(t.w, maxSteps, c, v, t.o, b),
                             ChatRun(t.w, maxSteps, c, v, t.o, b).breaker, turns[1..]))
  }

  /** Over any sequence of turns, including ones that fail, a well-formed conversation stays
      well formed if and only if no compression cuts a block. */
  lemma {:induction false} ConversationStaysWellFormedExactlyWhen(maxSteps: nat, c: Breaker.Config,
      v: Memory.Contents, b: Breaker.State, turns: seq<Turn>)
    requires WellFormed(v.messages) && Starts(v)
    ensures WellFormedThroughout(maxSteps, c, v, b, turns) <==> NeverCuts(maxSteps, c, v, b, turns)
    decreases turns
  {
    if turns != [] {
      var t := turns[0];
      var v', b' := AfterRun(t.w, maxSteps, c, v, t.o, b), ChatRun(t.w, maxSteps, c, v, t.o, b).breaker;
      TurnKeepsWellFormedExactlyWhen(maxSteps, c, v, t, b);
      if WellFormed(v'.messages) {
        ConversationStaysWellFormedExactlyWhen(maxSteps, c, v', b', turns[1..]);
      }
    }
  }

  /** Everything ever added to the conversation, whether or not compression dropped it. */
  function Log(maxSteps: nat, c: Breaker.Config, v: Memory.Contents, b: Breaker.State, turns: seq<Turn>): seq<Message>
    decreases turns
  {
    if turns == [] then []
    else
      var t := turns[0];
      Appended(ChatRun(t.w, maxSteps, c, v, t.o, b).trace)
      + Log(maxSteps, c, AfterRun(t.w, maxSteps, c, v, t.o, b), ChatRun(t.w, maxSteps, c, v, t.o, b).breaker, turns[1..])
  }

  /** Over any sequence of runs, including ones that fail, the messages added to the
      conversation are well formed: every assistant message with n tool calls is followed by
      exactly its n results, in order, before anything else. */
  lemma {:induction false} LogIsWellFormed(maxSteps: nat, c: Breaker.Config, v: Memory.Contents,
      b: Breaker.State, turns: seq<Turn>)
    ensures WellFormed(Log(maxSteps, c, v, b, turns)) && ByPosition(Log(maxSteps, c, v, b, turns))
    decreases turns
  {
    if turns != [] {
      var t := turns[0];
      var r := ChatRun(t.w, maxSteps, c, v, t.o, b);
      RunFollowsProtocol(t.w, maxSteps, c, v, t.o, b);
      RunAppendsWellFormed(maxSteps, r.trace, r.err.None?);
      var v' := AfterRun(t.w, maxSteps, c, v, t.o, b);
      LogIsWellFormed(maxSteps, c, v', r.breaker, turns[1..]);
      WellFormedConcat(Appended(r.trace), Log(maxSteps, c, v', r.breaker, turns[1..]));
    }
    WellFormedByPosition(Log(maxSteps, c, v, b, turns));
  }

  // ----- the breaker over runs -----

  function Reported(trace: seq<Action>): seq<bool> {
    if trace == [] then []
    else if trace[0].BreakerSucceeded? then [true] + Reported(trace[1..])
    else if trace[0].BreakerFailed? then [false] + Reported(trace[1..])
    else Reported(trace[1..])
  }

  lemma {:induction false} ReportedConcat(xs: seq<Action>, ys: seq<Action>)
    ensures Reported(xs + ys) == Reported(xs) + Reported(ys)
    decreases xs
  {
    if xs == [] {
      assert xs + ys == ys;
    } else {
      assert (xs + ys)[0] == xs[0] && (xs + ys)[1..] == xs[1..] + ys;
      ReportedConcat(xs[1..], ys);
    }
  }

  predicate Unreported(a: Action) { !a.BreakerSucceeded? && !a.BreakerFailed? }

  lemma {:induction false} NothingReported(trace: seq<Action>)
    requires forall a :: a in trace ==> Unreported(a)
    ensures Reported(trace) == []
  {
    if trace != [] {
      assert Unreported(trace[0]);
      NothingReported(trace[1..]);
    }
  }

  lemma {:induction false} AttemptsUnreported(w: World, step: nat, n: nat)
    requires 1 <= n <= MAX_ATTEMPTS
    ensures forall a :: a in Attempts(w, step, n).0 ==> Unreported(a)
    decreases MAX_ATTEMPTS - n
  {
    DeltasAreSilent(w.attempt(step, n).deltas, step);
    if n < MAX_ATTEMPTS {
      AttemptsUnreported(w, step, n + 1);
    }
  }

  lemma {:induction false} CallsUnreported(w: World, calls: seq<ToolCall>, step: nat, i: nat)
    requires i <= |calls|
    ensures forall a :: a in CallsFrom(w, calls, step, i) ==> Unreported(a)
    decreases |calls| - i
  {
    if i < |calls| {
      CallsUnreported(w, calls, step, i + 1);
    }
  }

  lemma {:induction false} StepTracks(w: World, c: Breaker.Config, p: Progress, b: Breaker.State, before: seq<bool>)
    requires Breaker.Sane(c) && Breaker.Tracks(c, b, before)
    ensures var s := StepOnce(w, c, p, b); Breaker.Tracks(c, s.breaker, before + Reported(s.trace))
  {
    var step := p.step + 1;
    var result := Attempts(w, step, 1).1;
    StepReports(w, c, p, b);
    Breaker.RoundTracks(c, b, before, Breaker.Round(w.askedAt(step), result.Ok?, w.failedAt(step)));
    assert before + [] == before;
  }

  predicate Silent(trace: seq<Action>) {
    forall a :: a in trace ==> Unreported(a)
  }

  lemma {:induction false} ReportedOnce(acts: seq<Action>, report: Action, last: Action, turn: seq<Action>)
    requires Silent(acts) && Silent([last]) && Silent(turn)
    requires report.BreakerFailed? || report.BreakerSucceeded?
    ensures Reported([BreakerAllowed] + acts + [report, last] + turn) == [report.BreakerSucceeded?]
  {
    var head := [BreakerAllowed] + acts;
    NothingReported(head);
    NothingReported(turn);
    assert [report, last][1..] == [last];
    NothingReported([last]);
    assert Reported([report, last]) == [report.BreakerSucceeded?];
    ReportedConcat(head, [report, last]);
    ReportedConcat(head + [report, last], turn);
  }

  lemma {:induction false} RespondUnreported(w: World, p: Progress, r: Response)
    ensures Silent(Respond(w, p, r).0)
  {
    CallsUnreported(w, r.toolCalls, p.step, 0);
  }

  /** A step reports whether its call succeeded, if the breaker let it through. */
  lemma {:induction false} StepReports(w: World, c: Breaker.Config, p: Progress, b: Breaker.State)
    ensures Reported(StepOnce(w, c, p, b).trace)
         == if Breaker.AllowStep(c, b, w.askedAt(p.step + 1)).1 then [Attempts(w, p.step + 1, 1).1.Ok?] else []
  {
    hide Reported, Attempts, Respond;
    var step := p.step + 1;
    var s := StepOnce(w, c, p, b);
    var acts, result := Attempts(w, step, 1).0, Attempts(w, step, 1).1;
    AttemptsUnreported(w, step, 1);
    if !Breaker.AllowStep(c, b, w.askedAt(step)).1 {
      NothingReported(s.trace);
    } else {
      match result
      case Failed(message) =>
        var last := Emit(Error(CALL_FAILED + message));
        ReportedOnce(acts, BreakerFailed, last, []);
        assert s.trace == [BreakerAllowed] + acts + [BreakerFailed, last] + [];
      case Ok(r) =>
        RespondUnreported(w, Spent(p.(step := step), r), r);
        ReportedOnce(acts, BreakerSucceeded, Received(r), Respond(w, Spent(p.(step := step), r), r).0);
    }
  }

  lemma {:induction false} PrefixedTracks(c: Breaker.Config, before: seq<bool>, trace: seq<Action>, rest: RunResult)
    requires Breaker.Tracks(c, rest.breaker, before + Reported(trace) + Reported(rest.trace))
    ensures Breaker.Tracks(c, Prefixed(trace, rest).breaker, before + Reported(Prefixed(trace, rest).trace))
  {
    ReportedConcat(trace, rest.trace);
    assert before + Reported(trace) + Reported(rest.trace) == before + (Reported(trace) + Reported(rest.trace));
  }

  lemma {:induction false} StepsTrack(w: World, maxSteps: nat, c: Breaker.Config, p: Progress,
      b: Breaker.State, before: seq<bool>)
    requires Breaker.Sane(c) && Breaker.Tracks(c, b, before)
    ensures var r := StepsFrom(w, maxSteps, c, p, b); Breaker.Tracks(c, r.breaker, before + Reported(r.trace))
    decreases maxSteps - p.step
  {
    if p.step >= maxSteps {
      NothingReported(StepsFrom(w, maxSteps, c, p, b).trace);
      assert before + [] == before;
    } else {
      var s := StepOnce(w, c, p, b);
      StepTracks(w, c, p, b, before);
      if s.next.Continue? {
        var rest := StepsFrom(w, maxSteps, c, s.next.p, s.breaker);
        StepsTrack(w, maxSteps, c, s.next.p, s.breaker, before + Reported(s.trace));
        PrefixedTracks(c, before, s.trace, rest);
      }
    }
  }

  /** After every run the breaker is closed or open, and it is open exactly when the last
      `failureThreshold` reports of all runs so far were failures. */
  lemma {:induction false} RunsDetermineTheBreaker(w: World, maxSteps: nat, c: Breaker.Config,
      v: Memory.Contents, o: Opening, b: Breaker.State, before: seq<bool>)
    requires Breaker.Sane(c) && Breaker.Tracks(c, b, before)
    ensures var r := ChatRun(w, maxSteps, c, v, o, b); Breaker.Tracks(c, r.breaker, before + Reported(r.trace))
  {
    var prelude := Prelude(v, o);
    NothingReported(prelude);
    if o.providerGone {
      NothingReported(ChatRun(w, maxSteps, c, v, o, b).trace);
      assert before + [] == before;
    } else {
      var rest := StepsFrom(w, maxSteps, c, Progress(0, 0, 0), b).trace;
      StepsTrack(w, maxSteps, c, Progress(0, 0, 0), b, before);
      ReportedConcat(prelude, rest);
    }
  }

  /** A run on some conversation, which need not be the one of the run before. */
  datatype EngineRun = EngineRun(w: World, v: Memory.Contents, o: Opening)

  function BreakerAfter(maxSteps: nat, c: Breaker.Config, b: Breaker.State, runs: seq<EngineRun>): Breaker.State
    decreases runs
  {
    if runs == [] then b
    else BreakerAfter(maxSteps, c, ChatRun(runs[0].w, maxSteps, c, runs[0].v, runs[0].o, b).breaker, runs[1..])
  }

  /** What all runs report to the breaker they share, in order. */
  function AllReported(maxSteps: nat, c: Breaker.Config, b: Breaker.State, runs: seq<EngineRun>): seq<bool>
    decreases runs
  {
    if runs == [] then []
    else
      var r := ChatRun(runs[0].w, maxSteps, c, runs[0].v, runs[0].o, b);
      Reported(r.trace) + AllReported(maxSteps, c, r.breaker, runs[1..])
  }

  /** Over any sequence of runs that do not overlap, on any conversations, the breaker is never
      left half-open, and is open exactly when the last `failureThreshold` reports were failures. */
  lemma {:induction false} RunSequencesDetermineTheBreaker(maxSteps: nat, c: Breaker.Config, b: Breaker.State,
      before: seq<bool>, runs: seq<EngineRun>)
    requires Breaker.Sane(c) && Breaker.Tracks(c, b, before)
    ensures Breaker.Tracks(c, BreakerAfter(maxSteps, c, b, runs), before + AllReported(maxSteps, c, b, runs))
    decreases runs
  {
    if runs == [] {
      assert before + [] == before;
    } else {
      var r := ChatRun(runs[0].w, maxSteps, c, runs[0].v, runs[0].o, b);
      RunsDetermineTheBreaker(runs[0].w, maxSteps, c, runs[0].v, runs[0].o, b, before);
      RunSequencesDetermineTheBreaker(maxSteps, c, r.breaker, before + Reported(r.trace), runs[1..]);
      var rest := AllReported(maxSteps, c, r.breaker, runs[1..]);
      assert before + Reported(r.trace) + rest == before + (Reported(r.trace) + rest);
    }
  }
}
