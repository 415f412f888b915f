/** How often one client gets through the limiter: the bound on every window, and the fraction
    of a token that is lost on every call. */
module RateBounds {
  import opened Common
  import opened RateLimiter

  predicate InOrder(clock: int, times: seq<int>)
    decreases times
  {
    times == [] || (clock <= times[0] && InOrder(times[0], times[1..]))
  }

  lemma {:induction false} CallTimesInOrder(clock: int, start: int, ops: seq<Op>, ip: string)
    requires Ordered(clock, ops) && start <= clock
    ensures InOrder(start, CallTimes(ops, ip))
    decreases ops
  {
    if ops != [] {
      var rest := CallTimes(ops[1..], ip);
      if CallOn(ops[0], ip) {
        CallTimesInOrder(ops[0].at, ops[0].at, ops[1..], ip);
        assert CallTimes(ops, ip) == [ops[0].at] + rest;
      } else {
        CallTimesInOrder(ops[0].at, start, ops[1..], ip);
      }
    }
  }

  /** How many of the calls in the closed window [t1, t2] were allowed. */
  function Admitted(times: seq<int>, oks: seq<bool>, t1: int, t2: int): nat
    requires |times| == |oks|
  {
    if times == [] then 0
    else (if oks[0] && t1 <= times[0] <= t2 then 1 else 0) + Admitted(times[1..], oks[1..], t1, t2)
  }

  lemma {:induction false} NoneAfter(clock: int, times: seq<int>, oks: seq<bool>, t1: int, t2: int)
    requires |times| == |oks| && InOrder(clock, times) && t2 < clock
    ensures Admitted(times, oks, t1, t2) == 0
    decreases times
  {
    if times != [] {
      NoneAfter(times[0], times[1..], oks[1..], t1, t2);
    }
  }

  lemma {:induction false} Distribute(rate: int, t0: int, t1: int, t2: int)
    ensures rate * (t2 - t0) == rate * (t1 - t0) + rate * (t2 - t1)
  {}

  /** One call takes its token out of what the bucket held and what the elapsed time earned. */
  lemma {:induction false} TakeSpends(c: Config, e: Entry, now: int)
    requires Sane(c) && 0 <= e.tokens <= c.maxTokens && e.lastSeen <= now
    ensures var (e', ok) := Take(c, Some(e), now);
      && 0 <= e'.tokens <= c.maxTokens && e'.lastSeen == now
      && SECOND * (e'.tokens + if ok then 1 else 0) <= SECOND * e.tokens + c.refillRate * (now - e.lastSeen)
  {
    MulMono(0, now - e.lastSeen, c.refillRate);
  }

  /** A call leaves the bucket in range and takes a token from at most maxTokens. */
  lemma {:induction false} TakeKeepsRange(c: Config, b: Option<Entry>, now: int)
    requires Sane(c)
    requires b.Some? ==> 0 <= b.value.tokens <= c.maxTokens && b.value.lastSeen <= now
    ensures var (e, ok) := Take(c, b, now);
      0 <= e.tokens && e.tokens + (if ok then 1 else 0) <= c.maxTokens && e.lastSeen == now
  {
    if b.Some? {
      MulMono(0, now - b.value.lastSeen, c.refillRate);
    }
  }

  /** From a bucket with e.tokens, at most those and what the elapsed time earns get in. */
  lemma {:induction false} AdmittedFromBucket(c: Config, e: Entry, times: seq<int>, t1: int, t2: int)
    requires Sane(c) && 0 <= e.tokens <= c.maxTokens && InOrder(e.lastSeen, times) && e.lastSeen <= t2
    ensures SECOND * Admitted(times, BucketVerdicts(c, Some(e), times), t1, t2)
         <= SECOND * e.tokens + c.refillRate * (t2 - e.lastSeen)
    decreases times
  {
    MulMono(0, t2 - e.lastSeen, c.refillRate);
    if times == [] {
    } else if times[0] > t2 {
      NoneAfter(times[0], times, BucketVerdicts(c, Some(e), times), t1, t2);
    } else {
      var (e', ok) := Take(c, Some(e), times[0]);
      TakeSpends(c, e, times[0]);
      AdmittedFromBucket(c, e', times[1..], t1, t2);
      Distribute(c.refillRate, e.lastSeen, times[0], t2);
      assert BucketVerdicts(c, Some(e), times) == [ok] + BucketVerdicts(c, Some(e'), times[1..]);
    }
  }

  lemma {:induction false} OneMore(c: Config, first: nat, later: nat, tokens: int, left: int, window: int)
    requires Sane(c) && first + tokens <= c.maxTokens && left <= window
    requires SECOND * later <= SECOND * tokens + c.refillRate * left
    ensures SECOND * (first + later) <= SECOND * c.maxTokens + c.refillRate * window
  {
    MulMono(left, window, c.refillRate);
  }

  lemma {:induction false} AdmittedInWindow(c: Config, b: Option<Entry>, clock: int, times: seq<int>, t1: int, t2: int)
    requires Sane(c) && t1 <= t2 && InOrder(clock, times)
    requires b.Some? ==> 0 <= b.value.tokens <= c.maxTokens && b.value.lastSeen <= clock
    ensures SECOND * Admitted(times, BucketVerdicts(c, b, times), t1, t2)
         <= SECOND * c.maxTokens + c.refillRate * (t2 - t1)
    decreases times
  {
    MulMono(0, t2 - t1, c.refillRate);
    if times == [] {
    } else if times[0] > t2 {
      NoneAfter(times[0], times, BucketVerdicts(c, b, times), t1, t2);
    } else {
      var (e, ok) := Take(c, b, times[0]);
      TakeKeepsRange(c, b, times[0]);
      if times[0] < t1 {
        AdmittedInWindow(c, Some(e), times[0], times[1..], t1, t2);
      } else {
        AdmittedFromBucket(c, e, times[1..], t1, t2);
        var later := Admitted(times[1..], BucketVerdicts(c, Some(e), times[1..]), t1, t2);
        OneMore(c, if ok then 1 else 0, later, e.tokens, t2 - times[0], t2 - t1);
      }
    }
  }

  /** The rate bound: whatever other clients and the sweep do, the calls allowed to one IP in
      any window number at most maxTokens plus what the window earns. */
  lemma {:induction false} RateBound(c: Config, clock: int, ops: seq<Op>, ip: string, t1: int, t2: int)
    requires Sane(c) && RefillsWithinTtl(c) && Ordered(clock, ops) && t1 <= t2
    ensures |Verdicts(c, map[], ops, ip)| == |CallTimes(ops, ip)|
    ensures SECOND * Admitted(CallTimes(ops, ip), Verdicts(c, map[], ops, ip), t1, t2)
         <= SECOND * c.maxTokens + c.refillRate * (t2 - t1)
  {
    SweepIsInvisible(c, clock, ops, ip);
    CallTimesInOrder(clock, clock, ops, ip);
    AdmittedInWindow(c, None, clock, CallTimes(ops, ip), t1, t2);
  }

  lemma {:induction false} AllAdmitted(times: seq<int>, oks: seq<bool>, t1: int, t2: int)
    requires |times| == |oks| && forall i :: 0 <= i < |times| ==> oks[i] && t1 <= times[i] <= t2
    ensures Admitted(times, oks, t1, t2) == |times|
  {
    if times != [] {
      AllAdmitted(times[1..], oks[1..], t1, t2);
    }
  }

  lemma {:induction false} CallTimesAreOps(ops: seq<Op>, ip: string)
    ensures forall t :: t in CallTimes(ops, ip) ==> exists op :: op in ops && op.at == t
  {
    if ops != [] {
      CallTimesAreOps(ops[1..], ip);
      forall t | t in CallTimes(ops, ip)
        ensures exists op :: op in ops && op.at == t
      {
        if t in CallTimes(ops[1..], ip) {
          var op :| op in ops[1..] && op.at == t;
          assert op in ops;
        } else {
          assert ops[0] in ops && ops[0].at == t;
        }
      }
    }
  }

  ghost predicate Bounded(c: Config, ops: seq<Op>, ip: string, t1: int, t2: int) {
    |Verdicts(c, map[], ops, ip)| == |CallTimes(ops, ip)|
    && SECOND * Admitted(CallTimes(ops, ip), Verdicts(c, map[], ops, ip), t1, t2)
         <= SECOND * c.maxTokens + c.refillRate * (t2 - t1)
  }

  ghost predicate BoundedInEveryWindow(c: Config, ops: seq<Op>, ip: string) {
    forall t1: int, t2: int :: t1 <= t2 ==> Bounded(c, ops, ip, t1, t2)
  }

  lemma {:induction false} VerdictPerCall(c: Config, t: Table, ops: seq<Op>, ip: string)
    ensures |Verdicts(c, t, ops, ip)| == |CallTimes(ops, ip)|
    decreases ops
  {
    if ops != [] {
      VerdictPerCall(c, Apply(c, t, ops[0]), ops[1..], ip);
    }
  }

  /** The probe gets twice maxTokens calls through within ttl + 1. */
  lemma {:induction false} ProbeBreaksTheBound(c: Config, ip: string)
    requires Sane(c) && !RefillsWithinTtl(c)
    ensures Ordered(0, Probe(c, ip)) && !Bounded(c, Probe(c, ip), ip, 0, c.ttl + 1)
  {
    var ops := Probe(c, ip);
    var oks := Verdicts(c, map[], ops, ip);
    ProbeOrdered(c, ip);
    ProbeIsAllowed(c, ip);
    VerdictPerCall(c, map[], ops, ip);
    CallTimesAreOps(ops, ip);
    assert forall op :: op in ops ==> 0 <= op.at <= c.ttl + 1;
    assert forall i :: 0 <= i < |oks| ==> CallTimes(ops, ip)[i] in CallTimes(ops, ip);
    AllAdmitted(CallTimes(ops, ip), oks, 0, c.ttl + 1);
  }

  /** The rate bound holds in every run and every window if and only if a bucket refills
      within `ttl`. */
  lemma {:induction false} RateBoundExactlyWhen(c: Config, ip: string)
    requires Sane(c)
    ensures RefillsWithinTtl(c) <==>
      forall ops {:induction false} :: Ordered(0, ops) ==> BoundedInEveryWindow(c, ops, ip)
  {
    if RefillsWithinTtl(c) {
      forall ops, t1: int, t2: int | Ordered(0, ops) && t1 <= t2
        ensures Bounded(c, ops, ip, t1, t2)
      {
        RateBound(c, 0, ops, ip, t1, t2);
      }
    } else {
      ProbeBreaksTheBound(c, ip);
      assert !BoundedInEveryWindow(c, Probe(c, ip), ip);
    }
  }

  // ----- the lost remainder -----

  /** Every gap earns less than one whole token, so truncation loses all of it. */
  predicate ShortGaps(c: Config, last: int, times: seq<int>)
    decreases times
  {
    times == [] ||
    (last <= times[0] && (times[0] - last) * c.refillRate < SECOND && ShortGaps(c, times[0], times[1..]))
  }

  predicate LongGaps(c: Config, last: int, times: seq<int>)
    decreases times
  {
    times == [] ||
    (last <= times[0] && (times[0] - last) * c.refillRate >= SECOND && LongGaps(c, times[0], times[1..]))
  }

  /** No gap is long enough for the sweep to forget the client. */
  predicate GapsWithinTtl(c: Config, last: int, times: seq<int>)
    decreases times
  {
    times == [] || (times[0] - last <= c.ttl && GapsWithinTtl(c, times[0], times[1..]))
  }

  lemma {:induction false} CallsComeLater(clock: int, ops: seq<Op>, ip: string)
    requires Ordered(clock, ops) && CallTimes(ops, ip) != []
    ensures clock <= CallTimes(ops, ip)[0]
    decreases ops
  {
    if !CallOn(ops[0], ip) {
      CallsComeLater(ops[0].at, ops[1..], ip);
    }
  }

  lemma {:induction false} DeniedOnce(c: Config, last: int, now: int)
    requires Sane(c) && last <= now && (now - last) * c.refillRate < SECOND
    ensures Take(c, Some(Entry(0, last)), now) == (Entry(0, now), false)
  {
    MulMono(0, now - last, c.refillRate);
  }

  /** A client with no tokens that retries faster than one token refills, and often enough not
      to be swept, is denied on every call of an arbitrarily long run, however much time the
      run takes altogether. */
  lemma {:induction false} ImpatientClientIsStarved(c: Config, t: Table, clock: int, ops: seq<Op>, ip: string,
      last: int)
    requires Sane(c) && last <= clock && Ordered(clock, ops)
    requires Lookup(t, ip) == Some(Entry(0, last))
    requires ShortGaps(c, last, CallTimes(ops, ip)) && GapsWithinTtl(c, last, CallTimes(ops, ip))
    ensures forall ok :: ok in Verdicts(c, t, ops, ip) ==> !ok
    decreases ops
  {
    if CallTimes(ops, ip) == [] {
      VerdictPerCall(c, t, ops, ip);
    } else {
      var op, rest := ops[0], ops[1..];
      CallsComeLater(clock, ops, ip);
      if CallOn(op, ip) {
        assert CallTimes(ops, ip)[1..] == CallTimes(rest, ip);
        DeniedOnce(c, last, op.at);
        ImpatientClientIsStarved(c, Apply(c, t, op), op.at, rest, ip, op.at);
      } else {
        CallsComeLater(op.at, rest, ip);
        ImpatientClientIsStarved(c, Apply(c, t, op), op.at, rest, ip, last);
      }
    }
  }

  /** With buckets that refill within `ttl`, gaps that earn no token are never that long. */
  lemma {:induction false} ShortGapsAreWithinTtl(c: Config, last: int, times: seq<int>)
    requires Sane(c) && RefillsWithinTtl(c) && ShortGaps(c, last, times)
    ensures GapsWithinTtl(c, last, times)
    decreases times
  {
    if times != [] {
      if times[0] - last > c.ttl {
        MulMono(c.ttl + 1, times[0] - last, c.refillRate);
      }
      ShortGapsAreWithinTtl(c, times[0], times[1..]);
    }
  }

  /** The same calls with a sweep right before each of them. */
  function SweptCalls(times: seq<int>, ip: string): seq<Op> {
    if times == [] then [] else [Sweep(times[0]), Call(ip, times[0])] + SweptCalls(times[1..], ip)
  }

  lemma {:induction false} SweptCallsAreCalls(c: Config, last: int, times: seq<int>, ip: string)
    requires ShortGaps(c, last, times)
    ensures Ordered(last, SweptCalls(times, ip)) && CallTimes(SweptCalls(times, ip), ip) == times
    decreases times
  {
    if times != [] {
      var ops := SweptCalls(times, ip);
      assert ops[1..] == [Call(ip, times[0])] + SweptCalls(times[1..], ip);
      assert ops[1..][1..] == SweptCalls(times[1..], ip);
      SweptCallsAreCalls(c, times[0], times[1..], ip);
      assert Ordered(times[0], ops[1..]);
      assert CallTimes(ops[1..], ip) == [times[0]] + times[1..];
    }
  }

  predicate SomeAllowed(oks: seq<bool>) { true in oks }

  lemma {:induction false} LongGapIsForgiven(c: Config, t: Table, last: int, times: seq<int>, ip: string)
    requires Sane(c) && Lookup(t, ip) == Some(Entry(0, last))
    requires ShortGaps(c, last, times) && !GapsWithinTtl(c, last, times)
    ensures SomeAllowed(Verdicts(c, t, SweptCalls(times, ip), ip))
    decreases times
  {
    var ops := SweptCalls(times, ip);
    var rest := SweptCalls(times[1..], ip);
    assert ops[1..] == [Call(ip, times[0])] + rest && ops[1..][1..] == rest;
    var swept := SweepStep(c, t, times[0]);
    var after := Apply(c, swept, Call(ip, times[0]));
    var (e, ok) := Take(c, Lookup(swept, ip), times[0]);
    assert Verdicts(c, swept, ops[1..], ip) == [ok] + Verdicts(c, after, rest, ip);
    assert Verdicts(c, t, ops, ip) == Verdicts(c, swept, ops[1..], ip);
    if times[0] - last > c.ttl {
      assert Verdicts(c, t, ops, ip)[0];
    } else {
      DeniedOnce(c, last, times[0]);
      LongGapIsForgiven(c, after, times[0], times[1..], ip);
      assert true in Verdicts(c, after, rest, ip);
    }
  }

  /** Calls at gaps that earn no token are all denied, under every interleaving with other
      clients and sweeps, if and only if no gap is longer than `ttl`. */
  lemma {:induction false} ImpatientClientIsStarvedExactlyWhen(c: Config, t: Table, ip: string, last: int,
      times: seq<int>)
    requires Sane(c) && Lookup(t, ip) == Some(Entry(0, last)) && ShortGaps(c, last, times)
    ensures GapsWithinTtl(c, last, times) <==>
      forall ops {:induction false} :: Ordered(last, ops) && CallTimes(ops, ip) == times ==>
        forall ok :: ok in Verdicts(c, t, ops, ip) ==> !ok
  {
    if GapsWithinTtl(c, last, times) {
      forall ops | Ordered(last, ops) && CallTimes(ops, ip) == times
        ensures forall ok :: ok in Verdicts(c, t, ops, ip) ==> !ok
      {
        ImpatientClientIsStarved(c, t, last, ops, ip, last);
      }
    } else {
      SweptCallsAreCalls(c, last, times, ip);
      LongGapIsForgiven(c, t, last, times, ip);
      assert true in Verdicts(c, t, SweptCalls(times, ip), ip);
    }
  }

  lemma {:induction false} PatientFrom(c: Config, t: Table, ops: seq<Op>, ip: string)
    requires Sane(c)
    requires ip in t ==> t[ip].tokens >= 0 && LongGaps(c, t[ip].lastSeen, CallTimes(ops, ip))
    requires var times := CallTimes(ops, ip); times != [] ==> LongGaps(c, times[0], times[1..])
    ensures forall ok :: ok in Verdicts(c, t, ops, ip) ==> ok
    decreases ops
  {
    if ops != [] {
      var op, rest := ops[0], ops[1..];
      if CallOn(op, ip) {
        assert CallTimes(ops, ip)[1..] == CallTimes(rest, ip);
      }
      PatientFrom(c, Apply(c, t, op), rest, ip);
    }
  }

  /** A client whose gaps each earn a whole token is never denied, whatever the sweep does. */
  lemma {:induction false} PatientClientIsNeverDenied(c: Config, ops: seq<Op>, ip: string)
    requires Sane(c)
    requires var times := CallTimes(ops, ip); times != [] ==> LongGaps(c, times[0], times[1..])
    ensures forall ok :: ok in Verdicts(c, map[], ops, ip) ==> ok
  {
    PatientFrom(c, map[], ops, ip);
  }
}
