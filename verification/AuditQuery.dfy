/** Paginated audit queries: filter, sort newest first by timestamp string, cut out a page. */
module AuditQuery {
  import opened Common
  import opened Sorting
  import opened AuditLog
  import opened Text

  /** Newest first, as the timestamps compare. */
  predicate Newer(a: Event, b: Event) { Less(b.timestamp, a.timestamp) }

  lemma {:induction false} NewerIsStrictWeak()
    ensures StrictWeakOrder(Newer)
  {
    forall a, b | Newer(a, b)
      ensures !Newer(b, a)
    {
      LessIsTotal(b.timestamp, a.timestamp);
    }
    forall a, b, c | Newer(a, b)
      ensures Newer(a, c) || Newer(c, b)
    {
      LessIsTotal(c.timestamp, a.timestamp);
      if Less(a.timestamp, c.timestamp) {
        LessIsTransitive(b.timestamp, a.timestamp, c.timestamp);
      }
    }
  }

  /** The filters of a query.  How RFC 3339 times are parsed is a parameter; a bound or a
      timestamp that does not parse filters nothing out. */
  datatype Query = Query(severity: string, from: string, to: string,
                         parseBound: string -> Option<int>, parseStamp: string -> Option<int>)

  predicate Passes(q: Query, e: Event) {
    && (q.severity == "" || e.severity == q.severity)
    && (q.from != "" && q.parseBound(q.from).Some? && q.parseStamp(e.timestamp).Some? ==>
          q.parseStamp(e.timestamp).value >= q.parseBound(q.from).value)
    && (q.to != "" && q.parseBound(q.to).Some? && q.parseStamp(e.timestamp).Some? ==>
          q.parseStamp(e.timestamp).value <= q.parseBound(q.to).value)
  }

  function Passing(q: Query): Event -> bool { e => Passes(q, e) }

  /** All the events a query can show, newest first. */
  function Results(events: seq<Event>, q: Query): seq<Event> {
    Sort(Newer, Select(events, Passing(q)))
  }

  /** Page `page`, counting from one, of pages of `limit`. */
  function Page(sorted: seq<Event>, page: nat, limit: nat): seq<Event>
    requires page >= 1 && limit >= 1
  {
    var start := (page - 1) * limit;
    if start >= |sorted| then [] else sorted[start..Min(start + limit, |sorted|)]
  }

  function PageOf(page: int): nat { if page < 1 then 1 else page }
  function LimitOf(limit: int): nat { if limit < 1 then 50 else limit }

  method KeepPassing(events: seq<Event>, q: Query) returns (filtered: seq<Event>)
    ensures filtered == Select(events, Passing(q))
  {
    filtered := [];
    for i := 0 to |events|
      invariant filtered == Select(events[..i], Passing(q))
    {
      var e := events[i];
      assert events[..i + 1] == events[..i] + [e];
      SelectConcat(events[..i], [e], Passing(q));
      assert [e][1..] == [];
      if q.severity != "" && e.severity != q.severity {
        continue;
      }
      if q.from != "" {
        var fromTime := q.parseBound(q.from);
        if fromTime.Some? {
          var et := q.parseStamp(e.timestamp);
          if et.Some? && et.value < fromTime.value {
            continue;
          }
        }
      }
      if q.to != "" {
        var toTime := q.parseBound(q.to);
        if toTime.Some? {
          var et := q.parseStamp(e.timestamp);
          if et.Some? && et.value > toTime.value {
            continue;
          }
        }
      }
      filtered := filtered + [e];
    }
    assert events[..|events|] == events;
  }

  method Paginate(events: seq<Event>, page: int, limit: int, q: Query) returns (result: seq<Event>, total: nat)
    ensures result == Page(Results(events, q), PageOf(page), LimitOf(limit))
    ensures total == |Select(events, Passing(q))|
    ensures page >= 1 && limit >= 1 ==> result == Page(Results(events, q), page, limit)
    ensures page >= 1 && limit < 1 ==> result == Page(Results(events, q), page, 50)
    ensures page < 1 && limit >= 1 ==> result == Page(Results(events, q), 1, limit)
    ensures page < 1 && limit < 1 ==> result == Page(Results(events, q), 1, 50)
  {
    var filtered := KeepPassing(events, q);
    var sorted := Sort(Newer, filtered);
    SortPermutes(Newer, filtered);
    total := |sorted|;
    result := CutPage(sorted, if page < 1 then 1 else page, if limit < 1 then 50 else limit);
  }

  method CutPage(sorted: seq<Event>, page: nat, limit: nat) returns (result: seq<Event>)
    requires page >= 1 && limit >= 1
    ensures result == Page(sorted, page, limit)
  {
    var total := |sorted|;
    var start := (page - 1) * limit;
    if start >= total {
      return [];
    }
    MulMono(0, page - 1, limit);
    var end := start + limit;
    if end > total {
      end := total;
    }
    result := sorted[start..end];
  }

  // ----- pages partition the results -----

  function FirstPages(sorted: seq<Event>, n: nat, limit: nat): seq<Event>
    requires limit >= 1
  {
    if n == 0 then [] else FirstPages(sorted, n - 1, limit) + Page(sorted, n, limit)
  }

  lemma {:induction false} PagesConcatenate(sorted: seq<Event>, n: nat, limit: nat)
    requires limit >= 1
    ensures FirstPages(sorted, n, limit) == sorted[..Min(n * limit, |sorted|)]
  {
    if n > 0 {
      PagesConcatenate(sorted, n - 1, limit);
      assert n * limit == (n - 1) * limit + limit;
    }
  }

  /** The pages, put one after the other, are the filtered events in descending timestamp
      order: no event is missing, repeated or out of place. */
  lemma {:induction false} PagesPartitionTheResults(events: seq<Event>, q: Query, n: nat, limit: nat)
    requires limit >= 1 && n * limit >= |Select(events, Passing(q))|
    ensures FirstPages(Results(events, q), n, limit) == Results(events, q)
    ensures multiset(Results(events, q)) == multiset(Select(events, Passing(q)))
    ensures Sorted(Newer, Results(events, q))
  {
    var filtered := Select(events, Passing(q));
    NewerIsStrictWeak();
    SortPermutes(Newer, filtered);
    SortSorts(Newer, filtered);
    PagesConcatenate(Results(events, q), n, limit);
  }

  lemma {:induction false} SelectCounts(events: seq<Event>, keep: Event -> bool, e: Event)
    ensures multiset(Select(events, keep))[e] == if keep(e) then multiset(events)[e] else 0
  {
    if events != [] {
      SelectCounts(events[1..], keep, e);
      assert events == [events[0]] + events[1..];
    }
  }

  /** An event stands among the results as often as it was given, unless its severity is not
      the one asked for or its time, if it has one, lies outside a bound that is given and
      parses; then it does not stand there at all.  No later timestamp follows an earlier one. */
  lemma {:induction false} ResultsAreRead(events: seq<Event>, q: Query, e: Event)
    ensures multiset(Results(events, q))[e] ==
      if (q.severity != "" && e.severity != q.severity)
         || (exists bound, time :: q.from != "" && q.parseBound(q.from) == Some(bound)
                                   && q.parseStamp(e.timestamp) == Some(time) && time < bound)
         || (exists bound, time :: q.to != "" && q.parseBound(q.to) == Some(bound)
                                   && q.parseStamp(e.timestamp) == Some(time) && time > bound)
      then 0 else multiset(events)[e]
    ensures var r := Results(events, q);
      forall i, j :: 0 <= i < j < |r| ==> !Less(r[i].timestamp, r[j].timestamp)
  {
    var filtered := Select(events, Passing(q));
    NewerIsStrictWeak();
    SortPermutes(Newer, filtered);
    SortSorts(Newer, filtered);
    SelectCounts(events, Passing(q), e);
    var r := Results(events, q);
    forall i, j | 0 <= i < j < |r|
      ensures !Less(r[i].timestamp, r[j].timestamp)
    {
      assert !Newer(r[j], r[i]);
    }
    assert multiset(r)[e] == multiset(filtered)[e];
    assert !Passes(q, e) <==>
      || (q.severity != "" && e.severity != q.severity)
      || (exists bound, time :: q.from != "" && q.parseBound(q.from) == Some(bound)
                                && q.parseStamp(e.timestamp) == Some(time) && time < bound)
      || (exists bound, time :: q.to != "" && q.parseBound(q.to) == Some(bound)
                                && q.parseStamp(e.timestamp) == Some(time) && time > bound);
  }

  // ----- querying the ring -----

  /** QueryFile without a file: the latest limit*page events, then the page. */
  method QueryRing(l: Logger, page: int, limit: int, q: Query) returns (result: seq<Event>, total: nat)
    requires l.Valid()
    ensures var window := Latest(l.history, l.ringSize, limit * page);
      && result == Page(Results(window, q), PageOf(page), LimitOf(limit))
      && total == |Select(window, Passing(q))|
  {
    var all := l.Recent(limit * page);
    result, total := Paginate(all, page, limit, q);
  }

  /** Timestamps strictly increase in the order events were logged. */
  predicate Chronicle(history: seq<Event>) {
    forall i, j :: 0 <= i < j < |history| ==> Less(history[i].timestamp, history[j].timestamp)
  }

  predicate StrictlyNewestFirst(events: seq<Event>) {
    forall i, j :: 0 <= i < j < |events| ==> Newer(events[i], events[j])
  }

  lemma {:induction false} SelectIsIncreasing(events: seq<Event>, keep: Event -> bool)
    requires StrictlyNewestFirst(events)
    ensures StrictlyNewestFirst(Select(events, keep))
    ensures forall e :: e in Select(events, keep) ==> e in events
  {
    if events != [] {
      SelectIsIncreasing(events[1..], keep);
      var rest := Select(events[1..], keep);
      forall i | 0 <= i < |rest|
        ensures Newer(events[0], rest[i])
      {
        assert rest[i] in events[1..];
        var k :| 0 <= k < |events[1..]| && events[1..][k] == rest[i];
        assert events[k + 1] == rest[i];
      }
    }
  }

  lemma {:induction false} SortedAlready(events: seq<Event>)
    requires StrictlyNewestFirst(events)
    ensures Sort(Newer, events) == events
  {
    NewerIsStrictWeak();
    SortPermutes(Newer, events);
    SortSorts(Newer, events);
    var sorted := Sort(Newer, events);
    forall a, b | a in sorted && b in sorted && a != b
      ensures Newer(a, b) || Newer(b, a)
    {
      assert a in multiset(events) && b in multiset(events);
      var i :| 0 <= i < |events| && events[i] == a;
      var j :| 0 <= j < |events| && events[j] == b;
    }
    forall i, j | 0 <= i < j < |events|
      ensures !Newer(events[j], events[i])
    {
      LessIsTotal(events[j].timestamp, events[i].timestamp);
    }
    SortedIsUnique(Newer, sorted, events);
  }

  lemma {:induction false} RingResults(history: seq<Event>, ringSize: nat, n: int, q: Query)
    requires Chronicle(history)
    ensures Results(Latest(history, ringSize, n), q) == Select(Latest(history, ringSize, n), Passing(q))
  {
    var window := Latest(history, ringSize, n);
    SelectIsIncreasing(window, Passing(q));
    SortedAlready(Select(window, Passing(q)));
  }

  lemma {:induction false} WindowIsPrefix(history: seq<Event>, ringSize: nat, n: int)
    ensures var all, window := Latest(history, ringSize, ringSize), Latest(history, ringSize, n);
      |window| <= |all| && window == all[..|window|]
  {}

  lemma {:induction false} PrefixOfPage(shorter: seq<Event>, longer: seq<Event>, page: nat, limit: nat)
    requires page >= 1 && limit >= 1 && shorter <= longer
    ensures Page(shorter, page, limit) <= Page(longer, page, limit)
    ensures Page(shorter, page, limit) == Page(longer, page, limit) <==>
      |longer| <= (page - 1) * limit || |shorter| >= Min(page * limit, |longer|)
  {
    var start := (page - 1) * limit;
    assert start >= 0 && page * limit == start + limit;
    var x, y := Page(shorter, page, limit), Page(longer, page, limit);
    if x == y && |longer| > start {
      assert |y| == Min(start + limit, |longer|) - start;
    }
  }

  /** With timestamps increasing in log order, a page queried from the ring is a prefix of the
      page over everything the ring retains, and is that whole page if and only if enough
      matches lie among the latest limit*page events, which the query is cut to before
      filtering. */
  lemma {:induction false} RingPageExactlyWhen(history: seq<Event>, ringSize: nat, page: nat, limit: nat, q: Query)
    requires page >= 1 && limit >= 1 && Chronicle(history)
    ensures var all, window := Latest(history, ringSize, ringSize), Latest(history, ringSize, limit * page);
      var whole, cut := Page(Results(all, q), page, limit), Page(Results(window, q), page, limit);
      var matches, found := |Select(all, Passing(q))|, |Select(window, Passing(q))|;
      && cut <= whole
      && (cut == whole <==> matches <= (page - 1) * limit || found >= Min(page * limit, matches))
  {
    var all, window := Latest(history, ringSize, ringSize), Latest(history, ringSize, limit * page);
    RingResults(history, ringSize, ringSize, q);
    RingResults(history, ringSize, limit * page, q);
    WindowIsPrefix(history, ringSize, limit * page);
    assert all == window + all[|window|..];
    SelectConcat(window, all[|window|..], Passing(q));
    PrefixOfPage(Select(window, Passing(q)), Select(all, Passing(q)), page, limit);
  }

  predicate Unfiltered(q: Query) { q.severity == "" && q.from == "" && q.to == "" }

  lemma {:induction false} UnfilteredSelectsAll(events: seq<Event>, q: Query)
    requires Unfiltered(q)
    ensures Select(events, Passing(q)) == events
  {
    if events != [] {
      UnfilteredSelectsAll(events[1..], q);
    }
  }

  /** Without filters a page queried from the ring is the whole page. */
  lemma {:induction false} UnfilteredRingPage(history: seq<Event>, ringSize: nat, page: nat, limit: nat, q: Query)
    requires page >= 1 && limit >= 1 && Chronicle(history) && Unfiltered(q)
    ensures Page(Results(Latest(history, ringSize, limit * page), q), page, limit)
         == Page(Latest(history, ringSize, ringSize), page, limit)
  {
    RingPageExactlyWhen(history, ringSize, page, limit, q);
    var all, window := Latest(history, ringSize, ringSize), Latest(history, ringSize, limit * page);
    UnfilteredSelectsAll(all, q);
    UnfilteredSelectsAll(window, q);
    RingResults(history, ringSize, ringSize, q);
    assert limit * page == page * limit > 0;
  }

  // ----- timestamps as strings -----

  predicate Digits(f: string) { forall i :: 0 <= i < |f| ==> '0' <= f[i] <= '9' }

  /** The fraction of a second as RFC3339Nano prints it: trailing zeros are dropped. */
  predicate Fraction(f: string) { Digits(f) && |f| <= 9 && (f != "" ==> f[|f| - 1] != '0') }

  /** A UTC timestamp with the given date and time down to the second. */
  function Stamp(second: string, f: string): string {
    second + (if f == "" then "Z" else "." + f + "Z")
  }

  function Pow10(k: nat): nat { if k == 0 then 1 else 10 * Pow10(k - 1) }

  /** The nanoseconds `f` stands for, when `k` digits are left. */
  function Nanos(f: string, k: nat): nat
    requires Digits(f) && |f| <= k
  {
    if f == "" then 0
    else
      MulMono(0, f[0] as int - '0' as int, Pow10(k - 1));
      (f[0] as int - '0' as int) * Pow10(k - 1) + Nanos(f[1..], k - 1)
  }

  lemma {:induction false} NanosBelow(f: string, k: nat)
    requires Digits(f) && |f| <= k
    ensures Nanos(f, k) < Pow10(k)
  {
    if f == "" {
      Pow10Positive(k);
    } else {
      NanosBelow(f[1..], k - 1);
      MulMono(f[0] as int - '0' as int, 9, Pow10(k - 1));
    }
  }

  lemma {:induction false} Pow10Positive(k: nat)
    ensures Pow10(k) >= 1
  {
    if k > 0 {
      Pow10Positive(k - 1);
    }
  }

  lemma {:induction false} NanosPositive(f: string, k: nat)
    requires Fraction(f) && f != "" && |f| <= k
    ensures Nanos(f, k) > 0
  {
    var d := f[0] as int - '0' as int;
    Pow10Positive(k - 1);
    if |f| > 1 {
      assert f[|f| - 1] == f[1..][|f| - 2];
      NanosPositive(f[1..], k - 1);
      assert d * Pow10(k - 1) >= 0;
    } else {
      assert d >= 1;
      assert d * Pow10(k - 1) >= Pow10(k - 1);
    }
  }

  predicate ProperPrefix(f: string, g: string) { f < g }

  /** What follows the second, after the point. */
  lemma {:induction false} FractionsCompare(f: string, g: string, k: nat)
    requires Fraction(f) && Fraction(g) && |f| <= k && |g| <= k && f != g
    ensures ProperPrefix(f, g) ==> Nanos(f, k) < Nanos(g, k) && Less(g + "Z", f + "Z")
    ensures ProperPrefix(g, f) ==> Nanos(g, k) < Nanos(f, k) && Less(f + "Z", g + "Z")
    ensures !ProperPrefix(f, g) && !ProperPrefix(g, f) ==>
      (Nanos(f, k) < Nanos(g, k) <==> Less(f + "Z", g + "Z")) && Nanos(f, k) != Nanos(g, k)
  {
    if f == "" {
      NanosPositive(g, k);
      assert (g + "Z")[0] == g[0] && ("" + "Z")[0] == 'Z';
    } else if g == "" {
      NanosPositive(f, k);
      assert (f + "Z")[0] == f[0] && ("" + "Z")[0] == 'Z';
    } else {
      assert (f + "Z")[1..] == f[1..] + "Z" && (g + "Z")[1..] == g[1..] + "Z";
      assert f == [f[0]] + f[1..] && g == [g[0]] + g[1..];
      if f[0] == g[0] {
        FractionsCompare(f[1..], g[1..], k - 1);
        assert ProperPrefix(f, g) <==> ProperPrefix(f[1..], g[1..]);
        assert ProperPrefix(g, f) <==> ProperPrefix(g[1..], f[1..]);
      } else {
        DifferentFirstDigits(f, g, k);
      }
    }
  }

  lemma {:induction false} LeadingDigitDecides(a: int, x: nat, b: int, y: nat, p: nat)
    requires x < p && y < p && a != b
    ensures a * p + x < b * p + y <==> a < b
    ensures a * p + x != b * p + y
  {
    if a < b {
      MulMono(a + 1, b, p);
    } else {
      MulMono(b + 1, a, p);
    }
  }

  lemma {:induction false} DifferentFirstDigits(f: string, g: string, k: nat)
    requires Digits(f) && Digits(g) && 0 < |f| <= k && 0 < |g| <= k && f[0] != g[0]
    ensures Nanos(f, k) < Nanos(g, k) <==> f[0] < g[0]
    ensures Nanos(f, k) != Nanos(g, k)
  {
    NanosBelow(f[1..], k - 1);
    NanosBelow(g[1..], k - 1);
    LeadingDigitDecides(f[0] as int - '0' as int, Nanos(f[1..], k - 1),
                        g[0] as int - '0' as int, Nanos(g[1..], k - 1), Pow10(k - 1));
  }

  lemma {:induction false} LessBehindPrefix(p: string, a: string, b: string)
    ensures Less(p + a, p + b) <==> Less(a, b)
  {
    if p == "" {
      assert p + a == a && p + b == b;
    } else {
      assert (p + a)[1..] == p[1..] + a && (p + b)[1..] == p[1..] + b;
      LessBehindPrefix(p[1..], a, b);
    }
  }

  /** Within one second, the string order of two timestamps is their order in time if and only
      if neither printed fraction is a proper prefix of the other; a missing fraction, being
      empty, is a prefix of every other. */
  lemma {:induction false} StringOrderIsTimeOrderExactlyWhen(second: string, f: string, g: string)
    requires Fraction(f) && Fraction(g) && f != g
    ensures (Nanos(f, 9) < Nanos(g, 9) <==> Less(Stamp(second, f), Stamp(second, g)))
       <==> !ProperPrefix(f, g) && !ProperPrefix(g, f)
  {
    FractionsCompare(f, g, 9);
    var a, b := if f == "" then "Z" else "." + f + "Z", if g == "" then "Z" else "." + g + "Z";
    LessBehindPrefix(second, a, b);
    if f != "" && g != "" {
      assert a == "." + (f + "Z") && b == "." + (g + "Z");
      LessBehindPrefix(".", f + "Z", g + "Z");
      LessIsTotal(f + "Z", g + "Z");
    } else {
      assert ProperPrefix(f, g) || ProperPrefix(g, f);
      assert a[0] != b[0];
    }
  }

  // ----- the order of the page -----

  /** When an event happened: the date and time down to the second, in the fixed-width form
      that orders as a string, and the printed fraction. */
  datatype Instant = Instant(second: string, fraction: string)

  predicate Before(a: Instant, b: Instant)
    requires Fraction(a.fraction) && Fraction(b.fraction)
  {
    Less(a.second, b.second) || (a.second == b.second && Nanos(a.fraction, 9) < Nanos(b.fraction, 9))
  }

  /** The stamps of events that happened at the instants `at` gives, with seconds of one width. */
  ghost predicate StampedAt(events: seq<Event>, at: Event -> Instant) {
    && (forall e :: e in events ==> Fraction(at(e).fraction) && e.timestamp == Stamp(at(e).second, at(e).fraction))
    && (forall a, b :: a in events && b in events ==> |at(a).second| == |at(b).second|)
  }

  /** Two stamps of one second, where one fraction is printed as a proper prefix of the other. */
  predicate Confusable(a: Instant, b: Instant) {
    a.second == b.second && ProperPrefix(a.fraction, b.fraction)
  }

  ghost predicate DescendingInTime(events: seq<Event>, at: Event -> Instant)
    requires StampedAt(events, at)
  {
    forall i, j :: 0 <= i < j < |events| ==> !Before(at(events[i]), at(events[j]))
  }

  lemma {:induction false} FirstDifferenceDecides(p: string, a: string, r: string, b: string)
    requires |p| == |r| && p != r
    ensures Less(p + a, r + b) <==> Less(p, r)
  {
    assert (p + a)[0] == p[0] && (r + b)[0] == r[0];
    if p[0] == r[0] {
      assert p == [p[0]] + p[1..] && r == [r[0]] + r[1..];
      assert (p + a)[1..] == p[1..] + a && (r + b)[1..] == r[1..] + b;
      FirstDifferenceDecides(p[1..], a, r[1..], b);
    }
  }

  lemma {:induction false} StampsCompare(a: Instant, b: Instant)
    requires Fraction(a.fraction) && Fraction(b.fraction) && |a.second| == |b.second|
    ensures Before(a, b) && !Confusable(a, b) ==> Less(Stamp(a.second, a.fraction), Stamp(b.second, b.fraction))
    ensures Confusable(a, b) ==>
      Before(a, b) && Less(Stamp(b.second, b.fraction), Stamp(a.second, a.fraction))
  {
    var f, g := a.fraction, b.fraction;
    LessIsTotal(a.second, b.second);
    if a.second != b.second {
      FirstDifferenceDecides(a.second, if f == "" then "Z" else "." + f + "Z", b.second,
                             if g == "" then "Z" else "." + g + "Z");
      assert Stamp(a.second, f) == a.second + (if f == "" then "Z" else "." + f + "Z");
    } else if f != g {
      FractionsCompare(f, g, 9);
      StringOrderIsTimeOrderExactlyWhen(a.second, f, g);
      LessIsTotal(Stamp(a.second, f), Stamp(a.second, g));
      StampsDiffer(a.second, f, g);
    }
  }

  lemma {:induction false} StampsDiffer(second: string, f: string, g: string)
    requires Fraction(f) && Fraction(g) && f != g
    ensures Stamp(second, f) != Stamp(second, g)
  {
    var n := |second|;
    if |Stamp(second, f)| == |Stamp(second, g)| {
      assert f != "" && g != "" && |f| == |g|;
      assert Stamp(second, f)[n + 1..n + 1 + |f|] == f && Stamp(second, g)[n + 1..n + 1 + |g|] == g;
    }
  }

  /** A list sorted newest first as strings is in descending time order if and only if no two
      of its stamps can be confused. */
  lemma {:induction false} SortedIsDescendingExactlyWhen(events: seq<Event>, at: Event -> Instant)
    requires StampedAt(events, at) && Sorted(Newer, events)
    ensures DescendingInTime(events, at) <==>
      forall a, b :: a in events && b in events ==> !Confusable(at(a), at(b))
  {
    if forall a, b :: a in events && b in events ==> !Confusable(at(a), at(b)) {
      forall i, j | 0 <= i < j < |events|
        ensures !Before(at(events[i]), at(events[j]))
      {
        assert events[i] in events && events[j] in events;
        StampsCompare(at(events[i]), at(events[j]));
        assert !Newer(events[j], events[i]);
      }
    } else {
      var a, b :| a in events && b in events && Confusable(at(a), at(b));
      StampsCompare(at(a), at(b));
      var i :| 0 <= i < |events| && events[i] == a;
      var j :| 0 <= j < |events| && events[j] == b;
      assert Newer(a, b);
      assert i < j && Before(at(events[i]), at(events[j]));
    }
  }

  /** The events a query shows come newest first in time if and only if no two events that pass
      its filters have confusable stamps. */
  lemma {:induction false} ResultsAreChronologicalExactlyWhen(events: seq<Event>, q: Query, at: Event -> Instant)
    requires StampedAt(Select(events, Passing(q)), at)
    ensures StampedAt(Results(events, q), at)
    ensures DescendingInTime(Results(events, q), at) <==>
      forall a, b :: a in Select(events, Passing(q)) && b in Select(events, Passing(q)) ==> !Confusable(at(a), at(b))
  {
    var passing, results := Select(events, Passing(q)), Results(events, q);
    NewerIsStrictWeak();
    SortPermutes(Newer, passing);
    SortSorts(Newer, passing);
    forall e
      ensures e in results <==> e in passing
    {
      assert e in results <==> e in multiset(results);
      assert e in passing <==> e in multiset(passing);
    }
    SortedIsDescendingExactlyWhen(results, at);
  }

  /** The first page of two events half a second apart shows the earlier one first. */
  lemma {:induction false} PageOutOfOrder(early: Event, late: Event, second: string, q: Query)
    requires early.timestamp == Stamp(second, "") && late.timestamp == Stamp(second, "5")
    requires Unfiltered(q)
    ensures Nanos("", 9) < Nanos("5", 9)
    ensures Page(Results([late, early], q), 1, 2) == [early, late]
    ensures Page(Results([early, late], q), 1, 2) == [early, late]
  {
    var a, b := Instant(second, ""), Instant(second, "5");
    assert ProperPrefix("", "5");
    StampsCompare(a, b);
    FractionsCompare("", "5", 9);
    assert Newer(early, late);
    LessIsTotal(early.timestamp, late.timestamp);
    TwoSorted(early, late);
    UnfilteredSelectsAll([late, early], q);
    UnfilteredSelectsAll([early, late], q);
  }

  lemma {:induction false} TwoSorted(a: Event, b: Event)
    requires Newer(a, b) && !Newer(b, a)
    ensures Sort(Newer, [a, b]) == [a, b] && Sort(Newer, [b, a]) == [a, b]
  {
    assert [a, b][1..] == [b] && [b, a][1..] == [a] && [a][1..] == [] && [b][1..] == [];
    assert Sort(Newer, [a]) == [a] && Sort(Newer, [b]) == [b];
    assert Insert(Newer, a, [b]) == [a, b];
    assert Insert(Newer, b, [a]) == [a] + Insert(Newer, b, []);
  }
}
