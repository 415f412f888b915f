/** The in-memory side of the audit log: a ring of the latest events, and the queries the
    dashboard makes on it. */
module AuditLog {
  import opened Common
  import opened Grouping

  datatype Event = Event(id: string, timestamp: string, eventType: string, severity: string,
                         namespace: string, success: bool)

  // ----- the ring refines the history -----

  /** The last `k` events of a history, newest first. */
  function Newest(history: seq<Event>, k: nat): (r: seq<Event>)
    requires k <= |history|
    ensures |r| == k
  {
    seq(k, i requires 0 <= i < k => history[|history| - 1 - i])
  }

  /** What Recent(n) must return. */
  function Latest(history: seq<Event>, ringSize: nat, n: int): seq<Event> {
    if n <= 0 then [] else Newest(history, Min(n, Min(ringSize, |history|)))
  }

  predicate Matches(e: Event, eventType: string, namespace: string) {
    (eventType == "" || e.eventType == eventType) && (namespace == "" || e.namespace == namespace)
  }

  function Wanted(eventType: string, namespace: string): Event -> bool { e => Matches(e, eventType, namespace) }

  function Select(events: seq<Event>, keep: Event -> bool): seq<Event> {
    if events == [] then []
    else if keep(events[0]) then [events[0]] + Select(events[1..], keep)
    else Select(events[1..], keep)
  }

  function Take(events: seq<Event>, n: nat): seq<Event> {
    if n <= |events| then events[..n] else events
  }

  lemma {:induction false} SelectConcat(xs: seq<Event>, ys: seq<Event>, keep: Event -> bool)
    ensures Select(xs + ys, keep) == Select(xs, keep) + Select(ys, keep)
    decreases xs
  {
    if xs == [] {
      assert xs + ys == ys;
    } else {
      assert (xs + ys)[0] == xs[0] && (xs + ys)[1..] == xs[1..] + ys;
      SelectConcat(xs[1..], ys, keep);
    }
  }

  predicate Increasing(at: seq<nat>) { forall i, j :: 0 <= i < j < |at| ==> at[i] < at[j] }

  /** Places in a list, as places in the list with one more element in front. */
  function Later(at: seq<nat>): seq<nat> { seq(|at|, i requires 0 <= i < |at| => at[i] + 1) }

  lemma {:induction false} LaterPlaces(at: seq<nat>, k: nat)
    ensures k in Later(at) <==> k > 0 && k - 1 in at
  {
    if k > 0 && k - 1 in at {
      var i :| 0 <= i < |at| && at[i] == k - 1;
      assert Later(at)[i] == k;
    }
  }

  /** The places of the kept events, in order. */
  function Places(events: seq<Event>, keep: Event -> bool): seq<nat> {
    if events == [] then []
    else (if keep(events[0]) then [0] else []) + Later(Places(events[1..], keep))
  }

  lemma {:induction false} PlacesAreExactly(events: seq<Event>, keep: Event -> bool, k: nat)
    ensures k in Places(events, keep) <==> k < |events| && keep(events[k])
    decreases events
  {
    if events != [] {
      hide Later;
      var later := Later(Places(events[1..], keep));
      assert Places(events, keep) == (if keep(events[0]) then [0] else []) + later;
      LaterPlaces(Places(events[1..], keep), k);
      assert k in Places(events, keep) <==> (k == 0 && keep(events[0])) || k in later;
      if k > 0 {
        PlacesAreExactly(events[1..], keep, k - 1);
        assert k < |events| ==> events[k] == events[1..][k - 1];
      }
    }
  }

  lemma {:induction false} PlacesIncrease(events: seq<Event>, keep: Event -> bool)
    ensures Increasing(Places(events, keep))
  {
    if events != [] {
      PlacesIncrease(events[1..], keep);
    }
  }

  lemma {:induction false} SelectByPosition(events: seq<Event>, keep: Event -> bool)
    ensures var at := Places(events, keep);
      |at| == |Select(events, keep)| && forall i :: 0 <= i < |at| ==>
        at[i] < |events| && Select(events, keep)[i] == events[at[i]]
  {
    if events != [] {
      SelectByPosition(events[1..], keep);
    }
  }

  /** What a query by type and namespace answers. */
  function Filtered(history: seq<Event>, ringSize: nat, eventType: string, namespace: string, limit: int): seq<Event> {
    Take(Select(Latest(history, ringSize, ringSize), Wanted(eventType, namespace)), if limit >= 1 then limit else 1)
  }

  /** Places in the history, given their places counted back from the newest event. */
  function CountedBack(n: nat, at: seq<nat>): seq<int> { seq(|at|, i requires 0 <= i < |at| => n - 1 - at[i]) }

  lemma {:induction false} CountedBackHas(n: nat, at: seq<nat>, k: nat)
    ensures k in CountedBack(n, at) ==> n - 1 - k in at
    ensures n - 1 - k in at ==> k in CountedBack(n, at)
  {
    if n - 1 - k in at {
      var i :| 0 <= i < |at| && at[i] == n - 1 - k;
      assert CountedBack(n, at)[i] == k;
    }
  }

  lemma {:induction false} FirstOf(at: seq<nat>, most: nat, k: nat)
    requires Increasing(at)
    ensures k in at && k !in at[..Min(most, |at|)] ==> |at| > most && forall i :: 0 <= i < most ==> at[i] < k
  {
    var first := at[..Min(most, |at|)];
    forall j | 0 <= j < |first|
      ensures at[j] in first
    {
      assert first[j] == at[j];
    }
  }

  /** Where in the history the answer to a query stands. */
  function FilterPlaces(history: seq<Event>, ringSize: nat, eventType: string, namespace: string, limit: int):
    seq<int>
  {
    var picks := Places(Latest(history, ringSize, ringSize), Wanted(eventType, namespace));
    CountedBack(|history|, picks[..Min(if limit >= 1 then limit else 1, |picks|)])
  }

  lemma {:induction false} FilterListsPlaces(history: seq<Event>, ringSize: nat, eventType: string, namespace: string,
                                             limit: int)
    ensures var r := Filtered(history, ringSize, eventType, namespace, limit);
      var at := FilterPlaces(history, ringSize, eventType, namespace, limit);
      && |r| == |at| <= (if limit < 1 then 1 else limit)
      && (forall i, j :: 0 <= i < j < |at| ==> at[i] > at[j])
      && (forall i :: 0 <= i < |at| ==> 0 <= at[i] < |history| && r[i] == history[at[i]])
  {
    var all, keep := Latest(history, ringSize, ringSize), Wanted(eventType, namespace);
    SelectByPosition(all, keep);
    PlacesIncrease(all, keep);
    hide Places, Select;
  }

  lemma {:induction false} FilterPlaceMatches(history: seq<Event>, ringSize: nat, eventType: string,
                                              namespace: string, limit: int, k: nat)
    requires k in FilterPlaces(history, ringSize, eventType, namespace, limit)
    ensures k < |history| <= k + ringSize && Matches(history[k], eventType, namespace)
  {
    var n, all, keep := |history|, Latest(history, ringSize, ringSize), Wanted(eventType, namespace);
    var picks := Places(all, keep);
    CountedBackHas(n, picks[..Min(if limit >= 1 then limit else 1, |picks|)], k);
    PlacesAreExactly(all, keep, n - 1 - k);
  }

  lemma {:induction false} FilterLeavesOutOlder(history: seq<Event>, ringSize: nat, eventType: string,
                                                namespace: string, limit: int, k: nat)
    requires k < |history| <= k + ringSize && Matches(history[k], eventType, namespace)
    requires k !in FilterPlaces(history, ringSize, eventType, namespace, limit)
    ensures var at := FilterPlaces(history, ringSize, eventType, namespace, limit);
      |at| == (if limit < 1 then 1 else limit) && forall i :: 0 <= i < |at| ==> k < at[i]
  {
    hide Places;
    var n, all, keep := |history|, Latest(history, ringSize, ringSize), Wanted(eventType, namespace);
    var picks, most := Places(all, keep), if limit >= 1 then limit else 1;
    assert all[n - 1 - k] == history[k];
    PlacesIncrease(all, keep);
    PlacesAreExactly(all, keep, n - 1 - k);
    var first := picks[..Min(most, |picks|)];
    CountedBackHas(n, first, k);
    FirstOf(picks, most, n - 1 - k);
    assert |first| == most;
    forall i | 0 <= i < most
      ensures k < CountedBack(n, first)[i]
    {
      assert first[i] == picks[i] < n - 1 - k;
    }
    hide Wanted, Matches, Latest;
  }

  /** A query by type and namespace lists, newest first, places of the history that the ring
      still holds, as many as the limit allows or fewer, but one for a limit below one.  What
      stands at these places matches; a match the ring holds that is left out is older than all
      that are listed, and those are as many as the limit allows. */
  lemma {:induction false} FilterIsRead(history: seq<Event>, ringSize: nat, eventType: string, namespace: string,
                                        limit: int) returns (at: seq<int>)
    ensures var r := Filtered(history, ringSize, eventType, namespace, limit);
      && |r| == |at| <= (if limit < 1 then 1 else limit)
      && (forall i, j :: 0 <= i < j < |at| ==> at[i] > at[j])
      && (forall i :: 0 <= i < |at| ==> 0 <= at[i] < |history| && r[i] == history[at[i]])
    ensures forall k: nat :: k in at ==>
      && k < |history| <= k + ringSize
      && (eventType == "" || history[k].eventType == eventType)
      && (namespace == "" || history[k].namespace == namespace)
    ensures forall k: nat :: k < |history| <= k + ringSize && k !in at ==>
      || (eventType != "" && history[k].eventType != eventType)
      || (namespace != "" && history[k].namespace != namespace)
      || (|at| == (if limit < 1 then 1 else limit) && forall i :: 0 <= i < |at| ==> k < at[i])
  {
    at := FilterPlaces(history, ringSize, eventType, namespace, limit);
    FilterListsPlaces(history, ringSize, eventType, namespace, limit);
    forall k: nat
      ensures k in at ==> k < |history| <= k + ringSize && Matches(history[k], eventType, namespace)
      ensures k < |history| <= k + ringSize && k !in at && Matches(history[k], eventType, namespace) ==>
        |at| == (if limit < 1 then 1 else limit) && forall i :: 0 <= i < |at| ==> k < at[i]
    {
      hide FilterPlaces, Filtered;
      if k in at {
        FilterPlaceMatches(history, ringSize, eventType, namespace, limit, k);
      } else if k < |history| <= k + ringSize && Matches(history[k], eventType, namespace) {
        FilterLeavesOutOlder(history, ringSize, eventType, namespace, limit, k);
      }
    }
    hide FilterPlaces, Filtered;
  }

  // ----- counts -----

  type Tally = map<string, nat>

  function Bump(t: Tally, key: string): Tally {
    t[key := (if key in t then t[key] else 0) + 1]
  }

  /** The sum of all counts. */
  ghost function Total(t: Tally): nat {
    if t == map[] then 0
    else var key :| key in t; t[key] + Total(t - {key})
  }

  lemma {:induction false} TotalSplits(t: Tally, key: string)
    requires key in t
    ensures Total(t) == t[key] + Total(t - {key})
    decreases |t|
  {
    var k :| key in t && k in t && Total(t) == t[k] + Total(t - {k});
    if k != key {
      RemoveShrinks(t, k);
      RemoveShrinks(t, key);
      TotalSplits(t - {k}, key);
      TotalSplits(t - {key}, k);
      assert t - {k} - {key} == t - {key} - {k};
    }
  }

  lemma {:induction false} RemoveShrinks(t: Tally, key: string)
    requires key in t
    ensures |t - {key}| < |t|
  {
    assert (t - {key}).Keys == t.Keys - {key};
    assert |(t - {key}).Keys| == |t - {key}| && |t.Keys| == |t|;
  }

  lemma {:induction false} BumpAddsOne(t: Tally, key: string)
    ensures Total(Bump(t, key)) == Total(t) + 1
  {
    var t' := Bump(t, key);
    TotalSplits(t', key);
    if key in t {
      TotalSplits(t, key);
      assert t' - {key} == t - {key};
    } else {
      assert t' - {key} == t;
    }
  }

  function CountWith(events: seq<Event>, p: Event -> bool): nat {
    if events == [] then 0 else (if p(events[0]) then 1 else 0) + CountWith(events[1..], p)
  }

  lemma {:induction false} CountSnoc(events: seq<Event>, e: Event, p: Event -> bool)
    ensures CountWith(events + [e], p) == CountWith(events, p) + if p(e) then 1 else 0
  {
    if events == [] {
      assert [e][1..] == [];
    } else {
      assert (events + [e])[0] == events[0] && (events + [e])[1..] == events[1..] + [e];
      CountSnoc(events[1..], e, p);
    }
  }

  function Satisfying(events: seq<Event>, p: Event -> bool): nat -> bool {
    (i: nat) => i < |events| && p(events[i])
  }

  lemma {:induction false} CountByPosition(events: seq<Event>, p: Event -> bool)
    ensures CountWith(events, p) == HowMany(|events|, Satisfying(events, p))
  {
    if events != [] {
      var n := |events| - 1;
      assert events == events[..n] + [events[n]];
      CountSnoc(events[..n], events[n], p);
      CountByPosition(events[..n], p);
      HowManySnoc(n, Satisfying(events, p));
      HowManySame(n, Satisfying(events, p), Satisfying(events[..n], p));
    }
  }

  function KeyIs(key: Event -> string, k: string): Event -> bool { e => key(e) == k }

  function TypeOf(e: Event): string { e.eventType }
  function SeverityOf(e: Event): string { e.severity }
  function Succeeded(): Event -> bool { (e: Event) => e.success }

  /** `t` counts the events by `key`: every count is right and positive, and the counts sum to
      the total. */
  ghost predicate Counts(t: Tally, events: seq<Event>, key: Event -> string) {
    && Total(t) == |events| && (forall k :: k in t ==> t[k] > 0)
    && forall k :: (if k in t then t[k] else 0) == CountWith(events, KeyIs(key, k))
  }

  lemma {:induction false} CountsNone(key: Event -> string)
    ensures Counts(map[], [], key) && CountWith([], Succeeded()) == 0
  {}

  lemma {:induction false} CountsSnoc(t: Tally, events: seq<Event>, e: Event, key: Event -> string)
    requires Counts(t, events, key)
    ensures Counts(Bump(t, key(e)), events + [e], key)
  {
    BumpAddsOne(t, key(e));
    forall k
      ensures var t' := Bump(t, key(e));
        (if k in t' then t'[k] else 0) == CountWith(events + [e], KeyIs(key, k))
    {
      CountSnoc(events, e, KeyIs(key, k));
    }
  }

  // What the places of a history say, counted back from the newest event.

  function HasTypes(history: seq<Event>): string -> nat -> bool {
    eventType => ((i: nat) => i < |history| && history[|history| - 1 - i].eventType == eventType)
  }

  function HasSeverities(history: seq<Event>): string -> nat -> bool {
    severity => ((i: nat) => i < |history| && history[|history| - 1 - i].severity == severity)
  }

  function HasSuccess(history: seq<Event>, success: bool): nat -> bool {
    (i: nat) => i < |history| && history[|history| - 1 - i].success == success
  }

  /** `t` holds exactly the keys that occur among the latest `n` events, with how often. */
  ghost predicate HowOften(t: Tally, n: nat, has: string -> nat -> bool) {
    forall k :: if k in t then t[k] == HowMany(n, has(k)) > 0 else HowMany(n, has(k)) == 0
  }

  lemma {:induction false} CountsReadAt(t: Tally, history: seq<Event>, ringSize: nat, key: Event -> string,
                                        has: string -> nat -> bool)
    requires Counts(t, Latest(history, ringSize, ringSize), key)
    requires forall k, i: nat :: i < |history| ==> has(k)(i) == (key(history[|history| - 1 - i]) == k)
    ensures HowOften(t, Min(ringSize, |history|), has)
  {
    var all := Latest(history, ringSize, ringSize);
    forall k
      ensures CountWith(all, KeyIs(key, k)) == HowMany(Min(ringSize, |history|), has(k))
    {
      CountByPosition(all, KeyIs(key, k));
      HowManySame(|all|, Satisfying(all, KeyIs(key, k)), has(k));
    }
  }

  datatype Stats = Stats(total: nat, byType: Tally, bySeverity: Tally, successCount: nat, failureCount: nat)

  ghost predicate IsStats(stats: Stats, all: seq<Event>) {
    && stats.total == |all|
    && Counts(stats.byType, all, TypeOf) && Counts(stats.bySeverity, all, SeverityOf)
    && stats.successCount == CountWith(all, Succeeded())
    && stats.successCount + stats.failureCount == stats.total
  }

  /** The statistics, read off the places of the history that the ring still holds. */
  lemma {:induction false} StatsAreRead(stats: Stats, history: seq<Event>, ringSize: nat)
    requires IsStats(stats, Latest(history, ringSize, ringSize))
    ensures var n := Min(ringSize, |history|);
      && stats.total == n
      && HowOften(stats.byType, n, HasTypes(history))
      && HowOften(stats.bySeverity, n, HasSeverities(history))
      && stats.successCount == HowMany(n, HasSuccess(history, true))
      && stats.failureCount == n - stats.successCount
  {
    hide HowMany, CountWith, HowOften, Counts;
    var all := Latest(history, ringSize, ringSize);
    CountsReadAt(stats.byType, history, ringSize, TypeOf, HasTypes(history));
    CountsReadAt(stats.bySeverity, history, ringSize, SeverityOf, HasSeverities(history));
    CountByPosition(all, Succeeded());
    forall i: nat | i < |all|
      ensures Satisfying(all, Succeeded())(i) == HasSuccess(history, true)(i)
    {
      assert all[i] == history[|history| - 1 - i];
    }
    HowManySame(|all|, Satisfying(all, Succeeded()), HasSuccess(history, true));
  }

  // ----- the logger -----

  lemma {:induction false} MultipleIsFar(k: int, n: nat)
    ensures k != 0 ==> k * n >= n || k * n + n <= 0
  {
    if k >= 1 {
      MulMono(1, k, n);
    } else if k <= -1 {
      MulMono(k, -1, n);
    }
  }

  lemma {:induction false} WrapAround(x: int, n: nat)
    requires 0 <= x < 2 * n
    ensures x % n == if x < n then x else x - n
  {
    var q, r := if x < n then 0 else 1, if x < n then x else x - n;
    assert x == q * n + r;
    assert (x / n - q) * n == r - x % n;
    MultipleIsFar(x / n - q, n);
  }

  class Logger {
    var ring: array<Option<Event>>
    var rptr: nat
    const ringSize: nat
    ghost var history: seq<Event>

    constructor ()
      ensures Valid() && fresh(ring) && ringSize == 500 && history == []
    {
      ring := new Option<Event>[500](_ => None);
      rptr := 0;
      ringSize := 500;
      history := [];
    }

    /** Before the ring is full it holds the history from slot 0; afterwards the oldest event
        it still holds is at `rptr`, and the events wrap around. */
    ghost predicate Valid()
      reads this, ring
    {
      var n := |history|;
      && ring.Length == ringSize && 0 <= rptr < ringSize
      && (n < ringSize ==>
            && rptr == n
            && (forall i :: 0 <= i < n ==> ring[i] == Some(history[i]))
            && (forall i :: n <= i < ringSize ==> ring[i] == None))
      && (n >= ringSize ==>
            && (forall i :: rptr <= i < ringSize ==> ring[i] == Some(history[n - ringSize + (i - rptr)]))
            && (forall i :: 0 <= i < rptr ==> ring[i] == Some(history[n - rptr + i])))
    }

    method Log(event: Event)
      requires Valid()
      modifies this, ring
      ensures Valid() && ring == old(ring) && history == old(history) + [event]
    {
      ring[rptr] := Some(event);
      WrapAround(rptr + 1, ringSize);
      rptr := (rptr + 1) % ringSize;
      history := history + [event];
    }

    /** The slot `i` places before the write pointer holds the `i`-th newest event, if any. */
    function Slot(i: nat): nat
      requires Valid() && i < ringSize
      reads this, ring
      ensures Slot(i) < ringSize
      ensures ring[Slot(i)] == if i < |history| then Some(history[|history| - 1 - i]) else None
    {
      WrapAround(rptr - 1 - i + ringSize, ringSize);
      (rptr - 1 - i + ringSize) % ringSize
    }

    /** Up to `n` events, newest first. */
    method Recent(n: int) returns (events: seq<Event>)
      requires Valid()
      ensures events == Latest(history, ringSize, n)
      ensures |events| == if n <= 0 then 0 else Min(n, Min(ringSize, |history|))
      ensures forall i :: 0 <= i < |events| ==> events[i] == history[|history| - 1 - i]
    {
      events := [];
      var i := 0;
      while i < ringSize && i < n
        invariant 0 <= i <= ringSize && (n >= 0 ==> i <= n) && (n < 0 ==> i == 0)
        invariant events == Newest(history, Min(i, |history|))
      {
        var idx := Slot(i);
        if ring[idx].Some? {
          events := events + [ring[idx].value];
          assert events == Newest(history, i + 1);
        }
        i := i + 1;
      }
    }

    /** The events of a type and namespace, newest first; "" matches everything. */
    method Filter(eventType: string, namespace: string, limit: int) returns (filtered: seq<Event>)
      requires Valid()
      ensures filtered == Filtered(history, ringSize, eventType, namespace, limit)
    {
      var all := Recent(ringSize);
      ghost var keep := Wanted(eventType, namespace);
      filtered := [];
      for i := 0 to |all|
        invariant filtered == Select(all[..i], keep)
        invariant |filtered| < (if limit >= 1 then limit else 1)
      {
        assert all == all[..i + 1] + all[i + 1..];
        assert all[..i + 1] == all[..i] + [all[i]];
        SelectConcat(all[..i], [all[i]], keep);
        SelectConcat(all[..i + 1], all[i + 1..], keep);
        assert [all[i]][1..] == [];
        if eventType != "" && all[i].eventType != eventType {
          continue;
        }
        if namespace != "" && all[i].namespace != namespace {
          continue;
        }
        filtered := filtered + [all[i]];
        if |filtered| >= limit {
          return;
        }
      }
      assert all[..|all|] == all;
    }

    method GetStats() returns (stats: Stats)
      requires Valid()
      ensures IsStats(stats, Latest(history, ringSize, ringSize))
      ensures var n := Min(ringSize, |history|);
        && stats.total == n
        && HowOften(stats.byType, n, HasTypes(history))
        && HowOften(stats.bySeverity, n, HasSeverities(history))
        && stats.successCount == HowMany(n, HasSuccess(history, true))
        && stats.failureCount == n - stats.successCount
    {
      hide Counts, HowOften, HowMany, Bump, CountWith;
      var all := Recent(ringSize);
      CountsNone(TypeOf);
      CountsNone(SeverityOf);
      var byType: Tally, bySeverity: Tally, successes, failures := map[], map[], 0, 0;
      for i := 0 to |all|
        invariant Counts(byType, all[..i], TypeOf) && Counts(bySeverity, all[..i], SeverityOf)
        invariant successes == CountWith(all[..i], Succeeded()) && successes + failures == i
      {
        var e := all[i];
        assert all[..i + 1] == all[..i] + [e];
        CountsSnoc(byType, all[..i], e, TypeOf);
        CountsSnoc(bySeverity, all[..i], e, SeverityOf);
        CountSnoc(all[..i], e, Succeeded());
        byType := Bump(byType, e.eventType);
        bySeverity := Bump(bySeverity, e.severity);
        if e.success {
          successes := successes + 1;
        } else {
          failures := failures + 1;
        }
      }
      assert all[..|all|] == all;
      stats := Stats(|all|, byType, bySeverity, successes, failures);
      StatsAreRead(stats, history, ringSize);
    }
  }
}
