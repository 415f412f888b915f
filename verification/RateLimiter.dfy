/** The per-IP login token bucket with its background sweep.

    Time is an integer count of nanoseconds passed into every operation.  The table of
    visitors forgets idle clients to stay small; the theorems below say exactly when that
    forgetting cannot be observed, and bound the calls admitted in any window of time. */
module RateLimiter {
  import opened Common

  /** `refillRate` is in tokens per second, `ttl` in nanoseconds. */
  datatype Config = Config(maxTokens: int, refillRate: int, ttl: int)

  datatype Entry = Entry(tokens: int, lastSeen: int)

  type Table = map<string, Entry>

  // ----- one step -----

  /** Whole tokens earned in `elapsed`: the product in seconds, truncated toward zero. */
  function Refill(elapsed: int, rate: int): int {
    var earned := elapsed * rate;
    if earned >= 0 then earned / SECOND else -((-earned) / SECOND)
  }

  /** The magnitude is the number of whole tokens, whatever the sign. */
  lemma {:induction false} RefillCountsWholeTokens(elapsed: int, rate: int)
    ensures var earned, whole := elapsed * rate, Refill(elapsed, rate);
      if earned >= 0 then whole * 1_000_000_000 <= earned < (whole + 1) * 1_000_000_000
      else whole * 1_000_000_000 >= earned > (whole - 1) * 1_000_000_000
  {}

  /** One call on one bucket; `None` is an IP without an entry. */
  function Take(c: Config, b: Option<Entry>, now: int): (Entry, bool) {
    match b
    case None => (Entry(c.maxTokens - 1, now), true)
    case Some(e) =>
      var tokens := Min(c.maxTokens, e.tokens + Refill(now - e.lastSeen, c.refillRate));
      if tokens > 0 then (Entry(tokens - 1, now), true) else (Entry(tokens, now), false)
  }

  function Lookup(t: Table, ip: string): Option<Entry> {
    if ip in t then Some(t[ip]) else None
  }

  function AllowStep(c: Config, t: Table, ip: string, now: int): (Table, bool) {
    var (e, ok) := Take(c, Lookup(t, ip), now);
    (t[ip := e], ok)
  }

  function SweepStep(c: Config, t: Table, now: int): Table {
    map ip | ip in t && now - t[ip].lastSeen <= c.ttl :: t[ip]
  }

  // ----- the limiter itself -----

  class VisitorEntry {
    var tokens: int
    var lastSeen: int

    constructor (tokens: int, lastSeen: int)
      ensures this.tokens == tokens && this.lastSeen == lastSeen
    {
      this.tokens := tokens;
      this.lastSeen := lastSeen;
    }
  }

  class IpRateLimiter {
    var visitors: map<string, VisitorEntry>
    const config: Config

    constructor (maxTokens: int, refillRate: int)
      ensures Valid() && Contents() == map[]
      ensures config == Config(maxTokens, refillRate, 15 * 60 * SECOND)
    {
      visitors := map[];
      config := Config(maxTokens, refillRate, 15 * 60 * SECOND);
    }

    /** No two IPs share an entry, so updating one in place cannot touch another. */
    ghost predicate Valid()
      reads this
    {
      forall a, b :: a in visitors && b in visitors && a != b ==> visitors[a] != visitors[b]
    }

    ghost function Contents(): Table
      reads this, visitors.Values
    {
      map ip | ip in visitors :: Entry(visitors[ip].tokens, visitors[ip].lastSeen)
    }

    method Allow(ip: string, now: int) returns (ok: bool)
      requires Valid()
      modifies this`visitors, visitors.Values
      ensures Valid()
      ensures (Contents(), ok) == AllowStep(config, old(Contents()), ip, now)
    {
      if ip !in visitors {
        var entry := new VisitorEntry(config.maxTokens - 1, now);
        visitors := visitors[ip := entry];
        assert Contents() == old(Contents())[ip := Entry(entry.tokens, now)];
        return true;
      }
      var v := visitors[ip];
      var elapsed := now - v.lastSeen;
      v.tokens := v.tokens + Refill(elapsed, config.refillRate);
      if v.tokens > config.maxTokens {
        v.tokens := config.maxTokens;
      }
      v.lastSeen := now;
      assert Contents() == old(Contents())[ip := Entry(v.tokens, now)];
      if v.tokens > 0 {
        v.tokens := v.tokens - 1;
        assert Contents() == old(Contents())[ip := Entry(v.tokens, now)];
        return true;
      }
      return false;
    }

    /** One tick of the background sweep: every entry idle for longer than `ttl` goes. */
    method Cleanup(now: int)
      requires Valid()
      modifies this`visitors
      ensures Valid()
      ensures Contents() == SweepStep(config, old(Contents()), now)
    {
      var pending := visitors.Keys;
      while pending != {}
        invariant pending <= visitors.Keys <= old(visitors).Keys
        invariant forall ip :: ip in visitors ==> visitors[ip] == old(visitors)[ip]
        invariant forall ip :: ip in old(visitors) ==>
          (ip in visitors <==> ip in pending || now - old(visitors)[ip].lastSeen <= config.ttl)
        decreases pending
      {
        var ip :| ip in pending;
        if now - visitors[ip].lastSeen > config.ttl {
          visitors := visitors - {ip};
        }
        pending := pending - {ip};
      }
    }
  }

  // ----- runs -----

  datatype Op = Call(ip: string, at: int) | Sweep(at: int)

  function Apply(c: Config, t: Table, op: Op): Table {
    match op
    case Call(ip, at) => AllowStep(c, t, ip, at).0
    case Sweep(at) => SweepStep(c, t, at)
  }

  function TableAfter(c: Config, t: Table, ops: seq<Op>): Table
    decreases ops
  {
    if ops == [] then t else TableAfter(c, Apply(c, t, ops[0]), ops[1..])
  }

  /** The clock never runs backwards, starting from `clock`. */
  predicate Ordered(clock: int, ops: seq<Op>)
    decreases ops
  {
    ops == [] || (clock <= ops[0].at && Ordered(ops[0].at, ops[1..]))
  }

  predicate CallOn(op: Op, ip: string) { op.Call? && op.ip == ip }

  /** When `ip` called, and what each of those calls was answered. */
  function CallTimes(ops: seq<Op>, ip: string): seq<int> {
    if ops == [] then []
    else if CallOn(ops[0], ip) then [ops[0].at] + CallTimes(ops[1..], ip)
    else CallTimes(ops[1..], ip)
  }

  function Verdicts(c: Config, t: Table, ops: seq<Op>, ip: string): seq<bool>
    decreases ops
  {
    if ops == [] then []
    else
      var rest := Verdicts(c, Apply(c, t, ops[0]), ops[1..], ip);
      if CallOn(ops[0], ip) then [AllowStep(c, t, ip, ops[0].at).1] + rest else rest
  }

  /** The reference: one bucket, for one client, that is never forgotten. */
  function BucketVerdicts(c: Config, b: Option<Entry>, times: seq<int>): (oks: seq<bool>)
    ensures |oks| == |times|
    decreases times
  {
    if times == [] then []
    else
      var (e, ok) := Take(c, b, times[0]);
      [ok] + BucketVerdicts(c, Some(e), times[1..])
  }

  predicate Sane(c: Config) { c.maxTokens >= 1 && c.refillRate >= 0 && c.ttl >= 0 }

  /** A bucket idle for longer than `ttl` has refilled completely. */
  predicate RefillsWithinTtl(c: Config) {
    c.refillRate * (c.ttl + 1) >= c.maxTokens * SECOND
  }

  predicate InRange(c: Config, t: Table) {
    forall ip :: ip in t ==> 0 <= t[ip].tokens <= c.maxTokens
  }

  predicate SeenBy(t: Table, clock: int) {
    forall ip :: ip in t ==> t[ip].lastSeen <= clock
  }

  /** 0 <= tokens <= maxTokens in every table of every run. */
  lemma {:induction false} TokensStayInRange(c: Config, t: Table, clock: int, ops: seq<Op>)
    requires Sane(c) && InRange(c, t) && SeenBy(t, clock) && Ordered(clock, ops)
    ensures InRange(c, TableAfter(c, t, ops))
    decreases ops
  {
    if ops != [] {
      var op := ops[0];
      if op.Call? && op.ip in t {
        MulMono(0, op.at - t[op.ip].lastSeen, c.refillRate);
      }
      TokensStayInRange(c, Apply(c, t, op), op.at, ops[1..]);
    }
  }

  // ----- forgetting cannot be observed -----

  /** The reference bucket `b` agrees with the table on `ip`, or the table has forgotten a
      bucket that had been idle for longer than `ttl`. */
  predicate Matches(c: Config, t: Table, ip: string, b: Option<Entry>, clock: int) {
    Lookup(t, ip) == b
    || (ip !in t && b.Some? && b.value.tokens >= 0 && clock - b.value.lastSeen > c.ttl)
  }

  lemma {:induction false} ForgottenIsFull(c: Config, e: Entry, now: int)
    requires Sane(c) && RefillsWithinTtl(c) && e.tokens >= 0 && now - e.lastSeen > c.ttl
    ensures Take(c, Some(e), now) == Take(c, None, now)
  {
    MulMono(c.ttl + 1, now - e.lastSeen, c.refillRate);
  }

  lemma {:induction false} SimulatesFrom(c: Config, t: Table, clock: int, ops: seq<Op>, ip: string, b: Option<Entry>)
    requires Sane(c) && RefillsWithinTtl(c) && InRange(c, t) && SeenBy(t, clock) && Ordered(clock, ops)
    requires Matches(c, t, ip, b, clock)
    ensures Verdicts(c, t, ops, ip) == BucketVerdicts(c, b, CallTimes(ops, ip))
    decreases ops
  {
    if ops != [] {
      var op := ops[0];
      TokensStayInRange(c, t, clock, [op]);
      assert TableAfter(c, t, [op]) == Apply(c, t, op);
      if CallOn(op, ip) {
        if Lookup(t, ip) != b {
          ForgottenIsFull(c, b.value, op.at);
        }
        var (e, ok) := Take(c, b, op.at);
        SimulatesFrom(c, Apply(c, t, op), op.at, ops[1..], ip, Some(e));
        assert CallTimes(ops, ip)[1..] == CallTimes(ops[1..], ip);
      } else {
        SimulatesFrom(c, Apply(c, t, op), op.at, ops[1..], ip, b);
      }
    }
  }

  /** For every interleaving of calls and sweeps, each client gets the verdicts of a bucket
      of its own that is never swept. */
  lemma {:induction false} SweepIsInvisible(c: Config, clock: int, ops: seq<Op>, ip: string)
    requires Sane(c) && RefillsWithinTtl(c) && Ordered(clock, ops)
    ensures Verdicts(c, map[], ops, ip) == BucketVerdicts(c, None, CallTimes(ops, ip))
  {
    SimulatesFrom(c, map[], clock, ops, ip, None);
  }

  function Burst(n: nat, ip: string, at: int): seq<Op> { seq(n, _ => Call(ip, at)) }

  /** Drain the bucket, wait just past `ttl`, sweep, and call once per token again. */
  function Probe(c: Config, ip: string): seq<Op>
    requires Sane(c)
  {
    Burst(c.maxTokens, ip, 0) + [Sweep(c.ttl + 1)] + Burst(c.maxTokens, ip, c.ttl + 1)
  }

  lemma {:induction false} OrderedConcat(clock: int, xs: seq<Op>, mid: int, ys: seq<Op>)
    requires Ordered(clock, xs) && Ordered(mid, ys) && clock <= mid
    requires forall x :: x in xs ==> x.at <= mid
    ensures Ordered(clock, xs + ys)
    decreases xs
  {
    if xs == [] {
      assert xs + ys == ys;
    } else {
      assert (xs + ys)[0] == xs[0] && (xs + ys)[1..] == xs[1..] + ys;
      OrderedConcat(xs[0].at, xs[1..], mid, ys);
    }
  }

  lemma {:induction false} BurstOrdered(n: nat, ip: string, at: int)
    ensures Ordered(at, Burst(n, ip, at))
  {
    if n > 0 {
      assert Burst(n, ip, at)[1..] == Burst(n - 1, ip, at);
      BurstOrdered(n - 1, ip, at);
    }
  }

  lemma {:induction false} ProbeOrdered(c: Config, ip: string)
    requires Sane(c)
    ensures Ordered(0, Probe(c, ip))
  {
    BurstOrdered(c.maxTokens, ip, 0);
    BurstOrdered(c.maxTokens, ip, c.ttl + 1);
    var tail := [Sweep(c.ttl + 1)] + Burst(c.maxTokens, ip, c.ttl + 1);
    assert tail[1..] == Burst(c.maxTokens, ip, c.ttl + 1);
    OrderedConcat(0, Burst(c.maxTokens, ip, 0), c.ttl + 1, tail);
    assert Probe(c, ip) == Burst(c.maxTokens, ip, 0) + tail;
  }

  lemma {:induction false} CallTimesConcat(xs: seq<Op>, ys: seq<Op>, ip: string)
    ensures CallTimes(xs + ys, ip) == CallTimes(xs, ip) + CallTimes(ys, ip)
    decreases xs
  {
    if xs == [] {
      assert xs + ys == ys;
    } else {
      assert (xs + ys)[0] == xs[0] && (xs + ys)[1..] == xs[1..] + ys;
      CallTimesConcat(xs[1..], ys, ip);
    }
  }

  lemma {:induction false} VerdictsConcat(c: Config, t: Table, xs: seq<Op>, ys: seq<Op>, ip: string)
    ensures Verdicts(c, t, xs + ys, ip) == Verdicts(c, t, xs, ip) + Verdicts(c, TableAfter(c, t, xs), ys, ip)
    decreases xs
  {
    if xs == [] {
      assert xs + ys == ys;
    } else {
      assert (xs + ys)[0] == xs[0] && (xs + ys)[1..] == xs[1..] + ys;
      VerdictsConcat(c, Apply(c, t, xs[0]), xs[1..], ys, ip);
    }
  }

  lemma {:induction false} UnsweptIsTheReference(c: Config, t: Table, ops: seq<Op>, ip: string)
    requires forall op :: op in ops ==> op.Call?
    ensures Verdicts(c, t, ops, ip) == BucketVerdicts(c, Lookup(t, ip), CallTimes(ops, ip))
    decreases ops
  {
    if ops != [] {
      UnsweptIsTheReference(c, Apply(c, t, ops[0]), ops[1..], ip);
      if CallOn(ops[0], ip) {
        assert CallTimes(ops, ip)[1..] == CallTimes(ops[1..], ip);
      }
    }
  }

  /** A burst at one instant is answered from the tokens already there. */
  lemma {:induction false} BurstVerdicts(c: Config, t: Table, n: nat, ip: string, at: int, k: nat)
    requires Sane(c) && Lookup(t, ip) == Some(Entry(k, at)) && k <= c.maxTokens
    ensures Verdicts(c, t, Burst(n, ip, at), ip) == seq(n, i => i < k)
    ensures n >= k ==> Lookup(TableAfter(c, t, Burst(n, ip, at)), ip) == Some(Entry(0, at))
    decreases n
  {
    if n > 0 {
      var rest := Burst(n, ip, at)[1..];
      assert rest == Burst(n - 1, ip, at);
      BurstVerdicts(c, Apply(c, t, Call(ip, at)), n - 1, ip, at, if k > 0 then k - 1 else 0);
    }
  }

  lemma {:induction false} FirstBurst(c: Config, t: Table, ip: string, at: int)
    requires Sane(c) && ip !in t
    ensures Verdicts(c, t, Burst(c.maxTokens, ip, at), ip) == seq(c.maxTokens, _ => true)
    ensures Lookup(TableAfter(c, t, Burst(c.maxTokens, ip, at)), ip) == Some(Entry(0, at))
  {
    var burst := Burst(c.maxTokens, ip, at);
    assert burst[1..] == Burst(c.maxTokens - 1, ip, at);
    BurstVerdicts(c, Apply(c, t, Call(ip, at)), c.maxTokens - 1, ip, at, c.maxTokens - 1);
  }

  /** The swept limiter meets no entry at the second burst, and allows the whole of it. */
  lemma {:induction false} ProbeIsAllowed(c: Config, ip: string)
    requires Sane(c)
    ensures Verdicts(c, map[], Probe(c, ip), ip) == seq(2 * c.maxTokens, _ => true)
  {
    var later := c.ttl + 1;
    var first, second := Burst(c.maxTokens, ip, 0), Burst(c.maxTokens, ip, later);
    var drained := TableAfter(c, map[], first);
    FirstBurst(c, map[], ip, 0);
    FirstBurst(c, SweepStep(c, drained, later), ip, later);
    assert ([Sweep(later)] + second)[1..] == second;
    VerdictsConcat(c, map[], first, [Sweep(later)] + second, ip);
    assert Probe(c, ip) == first + ([Sweep(later)] + second);
  }

  /** A private bucket answers the probe as the table would without the sweep. */
  lemma {:induction false} UnsweptProbe(c: Config, ip: string)
    requires Sane(c)
    ensures BucketVerdicts(c, None, CallTimes(Probe(c, ip), ip))
         == Verdicts(c, map[], Burst(c.maxTokens, ip, 0) + Burst(c.maxTokens, ip, c.ttl + 1), ip)
  {
    var first, second := Burst(c.maxTokens, ip, 0), Burst(c.maxTokens, ip, c.ttl + 1);
    assert ([Sweep(c.ttl + 1)] + second)[1..] == second;
    assert Probe(c, ip) == first + ([Sweep(c.ttl + 1)] + second);
    UnsweptIsTheReference(c, map[], first + second, ip);
    CallTimesConcat(first, second, ip);
    CallTimesConcat(first, [Sweep(c.ttl + 1)] + second, ip);
  }

  /** Unswept, the second burst meets the tokens refilled so far, which are too few. */
  lemma {:induction false} UnsweptProbeRunsDry(c: Config, ip: string)
    requires Sane(c) && !RefillsWithinTtl(c)
    ensures var v := Verdicts(c, map[], Burst(c.maxTokens, ip, 0) + Burst(c.maxTokens, ip, c.ttl + 1), ip);
      var at := c.maxTokens + Refill(c.ttl + 1, c.refillRate);
      c.maxTokens <= at < 2 * c.maxTokens && at < |v| && !v[at]
  {
    var later := c.ttl + 1;
    var first, second := Burst(c.maxTokens, ip, 0), Burst(c.maxTokens, ip, later);
    FirstBurst(c, map[], ip, 0);
    var refilled := Refill(later, c.refillRate);
    MulMono(0, later, c.refillRate);
    SecondBurst(c, TableAfter(c, map[], first), ip, later, refilled);
    VerdictsConcat(c, map[], first, second, ip);
  }

  /** A limiter whose buckets refill too slowly answers the probe differently. */
  lemma {:induction false} ProbeSeesTheSweep(c: Config, ip: string)
    requires Sane(c) && !RefillsWithinTtl(c)
    ensures Verdicts(c, map[], Probe(c, ip), ip) != BucketVerdicts(c, None, CallTimes(Probe(c, ip), ip))
  {
    hide Verdicts, BucketVerdicts, Probe, CallTimes;
    ProbeIsAllowed(c, ip);
    UnsweptProbe(c, ip);
    UnsweptProbeRunsDry(c, ip);
  }

  lemma {:induction false} SecondBurst(c: Config, t: Table, ip: string, at: int, k: nat)
    requires Sane(c) && Lookup(t, ip) == Some(Entry(0, 0)) && k == Refill(at, c.refillRate) < c.maxTokens
    ensures Verdicts(c, t, Burst(c.maxTokens, ip, at), ip) == seq(c.maxTokens, i => i < k)
  {
    var burst := Burst(c.maxTokens, ip, at);
    assert burst[1..] == Burst(c.maxTokens - 1, ip, at);
    BurstVerdicts(c, Apply(c, t, Call(ip, at)), c.maxTokens - 1, ip, at, if k > 0 then k - 1 else 0);
  }

  /** Forgetting is invisible in every run if and only if a bucket refills within `ttl`. */
  lemma {:induction false} SweepIsInvisibleExactlyWhen(c: Config, ip: string)
    requires Sane(c)
    ensures RefillsWithinTtl(c) <==>
      forall ops {:induction false} :: Ordered(0, ops) ==>
        Verdicts(c, map[], ops, ip) == BucketVerdicts(c, None, CallTimes(ops, ip))
  {
    if RefillsWithinTtl(c) {
      forall ops | Ordered(0, ops)
        ensures Verdicts(c, map[], ops, ip) == BucketVerdicts(c, None, CallTimes(ops, ip))
      {
        SweepIsInvisible(c, 0, ops, ip);
      }
    } else {
      ProbeOrdered(c, ip);
      ProbeSeesTheSweep(c, ip);
    }
  }
}
