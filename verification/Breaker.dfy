/** The circuit breaker in front of the LLM provider. */
module Breaker {
  datatype Status = Closed | Open | HalfOpen

  datatype Config = Config(failureThreshold: int, resetTimeout: int, halfOpenMax: int)

  datatype State = State(status: Status, failureCount: int, lastFailureTime: int, successCount: int)

  function AllowStep(c: Config, s: State, now: int): (State, bool) {
    match s.status
    case Closed => (s, true)
    case Open =>
      if now - s.lastFailureTime > c.resetTimeout then (s.(status := HalfOpen, successCount := 0), true)
      else (s, false)
    case HalfOpen => (s, s.successCount < c.halfOpenMax)
  }

  function SuccessStep(c: Config, s: State): State {
    match s.status
    case HalfOpen =>
      var s' := s.(successCount := s.successCount + 1);
      if s'.successCount >= c.halfOpenMax then s'.(status := Closed, failureCount := 0) else s'
    case Closed => s.(failureCount := 0)
    case Open => s
  }

  function FailureStep(c: Config, s: State, now: int): State {
    var s' := s.(failureCount := s.failureCount + 1, lastFailureTime := now);
    if s.status.HalfOpen? then s'.(status := Open)
    else if s.status.Closed? && s'.failureCount >= c.failureThreshold then s'.(status := Open)
    else s'
  }

  class CircuitBreaker {
    var state: State
    const config: Config

    constructor (threshold: int, resetTimeout: int)
      ensures config == Config(threshold, resetTimeout, 1)
      ensures state == State(Closed, 0, 0, 0)
    {
      config := Config(threshold, resetTimeout, 1);
      state := State(Closed, 0, 0, 0);
    }

    method Allow(now: int) returns (ok: bool)
      modifies this`state
      ensures (state, ok) == AllowStep(config, old(state), now)
    {
      match state.status
      case Closed => return true;
      case Open =>
        if now - state.lastFailureTime > config.resetTimeout {
          state := state.(status := HalfOpen, successCount := 0);
          return true;
        }
        return false;
      case HalfOpen => return state.successCount < config.halfOpenMax;
    }

    method RecordSuccess()
      modifies this`state
      ensures state == SuccessStep(config, old(state))
    {
      if state.status == HalfOpen {
        state := state.(successCount := state.successCount + 1);
        if state.successCount >= config.halfOpenMax {
          state := state.(status := Closed, failureCount := 0);
        }
      } else if state.status == Closed {
        state := state.(failureCount := 0);
      }
    }

    method RecordFailure(now: int)
      modifies this`state
      ensures state == FailureStep(config, old(state), now)
    {
      state := state.(failureCount := state.failureCount + 1, lastFailureTime := now);
      if state.status == HalfOpen {
        state := state.(status := Open);
      } else if state.status == Closed && state.failureCount >= config.failureThreshold {
        state := state.(status := Open);
      }
    }
  }

  // ----- rounds that do not overlap -----

  /** What a caller does: ask, and if let through, report how the call went. */
  datatype Round = Round(askedAt: int, success: bool, failedAt: int)

  function RoundStep(c: Config, s: State, r: Round): State {
    var (s', ok) := AllowStep(c, s, r.askedAt);
    if !ok then s' else if r.success then SuccessStep(c, s') else FailureStep(c, s', r.failedAt)
  }

  function TrailingFailures(outcomes: seq<bool>): nat {
    if outcomes == [] || outcomes[|outcomes| - 1] then 0
    else 1 + TrailingFailures(outcomes[..|outcomes| - 1])
  }

  /** The breaker's state between rounds is a function of the outcomes reported so far:
      it is open exactly when the last `failureThreshold` of them are all failures. */
  predicate Tracks(c: Config, s: State, outcomes: seq<bool>) {
    && s.failureCount == TrailingFailures(outcomes)
    && s.status == (if TrailingFailures(outcomes) >= c.failureThreshold then Open else Closed)
  }

  predicate Sane(c: Config) { c.failureThreshold >= 1 && c.halfOpenMax == 1 }

  lemma {:induction false} RoundTracks(c: Config, s: State, outcomes: seq<bool>, r: Round)
    requires Sane(c) && Tracks(c, s, outcomes)
    ensures AllowStep(c, s, r.askedAt).1 <==>
      TrailingFailures(outcomes) < c.failureThreshold || r.askedAt - s.lastFailureTime > c.resetTimeout
    ensures Tracks(c, RoundStep(c, s, r),
                   if AllowStep(c, s, r.askedAt).1 then outcomes + [r.success] else outcomes)
    ensures RoundStep(c, s, r).lastFailureTime
         == if AllowStep(c, s, r.askedAt).1 && !r.success then r.failedAt else s.lastFailureTime
  {
    assert (outcomes + [r.success])[..|outcomes|] == outcomes;
  }

  /** A failure that opens the breaker, whether it is the last of `failureThreshold` in a row or
      that of a trial, turns everyone away until the reset timeout has passed since then. */
  lemma {:induction false} OpenedBreakerRefusesExactlyUntil(c: Config, s: State, failedAt: int, now: int)
    requires s.status.HalfOpen? || (s.status.Closed? && s.failureCount + 1 >= c.failureThreshold)
    ensures var s' := FailureStep(c, s, failedAt);
      s'.status.Open? && (AllowStep(c, s', now).1 <==> now > failedAt + c.resetTimeout)
      && SuccessStep(c, s') == s'
  {}

  function Outcomes(c: Config, s: State, rounds: seq<Round>): seq<bool>
    decreases rounds
  {
    if rounds == [] then []
    else
      var rest := Outcomes(c, RoundStep(c, s, rounds[0]), rounds[1..]);
      if AllowStep(c, s, rounds[0].askedAt).1 then [rounds[0].success] + rest else rest
  }

  function After(c: Config, s: State, rounds: seq<Round>): State
    decreases rounds
  {
    if rounds == [] then s else After(c, RoundStep(c, s, rounds[0]), rounds[1..])
  }

  /** In every run of rounds that do not overlap, the breaker is closed or open between
      rounds, never half-open, and its state is the function of the outcomes above. */
  lemma {:induction false} RoundsTrack(c: Config, s: State, before: seq<bool>, rounds: seq<Round>)
    requires Sane(c) && Tracks(c, s, before)
    ensures Tracks(c, After(c, s, rounds), before + Outcomes(c, s, rounds))
    decreases rounds
  {
    if rounds == [] {
      assert before + [] == before;
    } else {
      var r := rounds[0];
      RoundTracks(c, s, before, r);
      var before' := if AllowStep(c, s, r.askedAt).1 then before + [r.success] else before;
      RoundsTrack(c, RoundStep(c, s, r), before', rounds[1..]);
      assert before' + Outcomes(c, RoundStep(c, s, r), rounds[1..]) == before + Outcomes(c, s, rounds);
    }
  }

  // ----- callers that overlap -----

  /** Calls on the breaker in the order it takes its lock; the reports may come from any
      caller that was let through before. */
  datatype Event = Ask(now: int) | Succeed | Fail(now: int)

  function EventStep(c: Config, s: State, e: Event): State {
    match e
    case Ask(now) => AllowStep(c, s, now).0
    case Succeed => SuccessStep(c, s)
    case Fail(now) => FailureStep(c, s, now)
  }

  /** How many callers are let through before the half-open breaker leaves that state. */
  function Trials(c: Config, s: State, events: seq<Event>): nat
    decreases events
  {
    if events == [] || !s.status.HalfOpen? then 0
    else
      (if events[0].Ask? && AllowStep(c, s, events[0].now).1 then 1 else 0)
      + Trials(c, EventStep(c, s, events[0]), events[1..])
  }

  function Asks(events: seq<Event>): nat {
    if events == [] then 0 else (if events[0].Ask? then 1 else 0) + Asks(events[1..])
  }

  /** The place of the first failure or of the `successes`-th success, whichever comes first. */
  function Decided(events: seq<Event>, successes: int): (n: nat)
    ensures n <= |events|
    decreases events
  {
    if events == [] || events[0].Fail? || (events[0].Succeed? && successes <= 1) then 0
    else 1 + Decided(events[1..], if events[0].Succeed? then successes - 1 else successes)
  }

  /** A half-open breaker turns nobody away: whoever asks before it is decided is a trial. */
  lemma {:induction false} WhoeverAsksIsATrial(c: Config, s: State, events: seq<Event>)
    requires s.status.HalfOpen? && s.successCount < c.halfOpenMax
    ensures Trials(c, s, events) == Asks(events[..Decided(events, c.halfOpenMax - s.successCount)])
    decreases events
  {
    var left := c.halfOpenMax - s.successCount;
    var n := Decided(events, left);
    if n == 0 {
      if events != [] {
        assert !EventStep(c, s, events[0]).status.HalfOpen?;
      }
    } else {
      WhoeverAsksIsATrial(c, EventStep(c, s, events[0]), events[1..]);
      assert events[..n][1..] == events[1..][..n - 1];
    }
  }

  /** At most halfOpenMax trials pass, the one that ends the open state included, if and only if
      no more callers than that ask before the reports decide; with the engine's one trial, if
      and only if the next call on the breaker is a report. */
  lemma {:induction false} TrialsAreWithinMaxExactlyWhen(c: Config, s: State, now: int, events: seq<Event>)
    requires s.status.Open? && now - s.lastFailureTime > c.resetTimeout && c.halfOpenMax >= 1
    ensures var trials := 1 + Trials(c, AllowStep(c, s, now).0, events);
      && (trials <= c.halfOpenMax <==> Asks(events[..Decided(events, c.halfOpenMax)]) < c.halfOpenMax)
      && (c.halfOpenMax == 1 ==> (trials <= 1 <==> events == [] || !events[0].Ask?))
  {
    WhoeverAsksIsATrial(c, AllowStep(c, s, now).0, events);
    var n := Decided(events, c.halfOpenMax);
    if c.halfOpenMax == 1 && events != [] {
      assert n > 0 <==> events[0].Ask?;
      if n > 0 {
        assert events[..n][0] == events[0];
      }
    }
  }
}
