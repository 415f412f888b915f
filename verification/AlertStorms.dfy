/** Counting alert storms: events are sorted by time and cut greedily into windows of at most
    five minutes; a window with more than twenty events is a storm.

    Times are nanoseconds since Go's zero time, the start of year 1, where the first window
    begins before any event has been seen. */
module AlertStorms {
  import opened Common
  import opened Sorting

  const WINDOW := 5 * MINUTE

  predicate Earlier(a: int, b: int) { a < b }

  // ----- the windows -----

  /** The longest prefix that still belongs to a window starting at `start`. */
  function Span(times: seq<int>, start: int): nat {
    if times == [] || times[0] - start > WINDOW then 0 else 1 + Span(times[1..], start)
  }

  lemma {:induction false} SpanIs(times: seq<int>, start: int)
    ensures Span(times, start) <= |times|
    ensures forall i :: 0 <= i < Span(times, start) ==> times[i] - start <= WINDOW
    ensures Span(times, start) < |times| ==> times[Span(times, start)] - start > WINDOW
  {
    if times != [] && times[0] - start <= WINDOW {
      SpanIs(times[1..], start);
    }
  }

  /** The greedy windows of sorted times, the first one starting at `start`. */
  function Windows(times: seq<int>, start: int): seq<seq<int>>
    decreases |times|, 1
  {
    SpanIs(times, start);
    var n := Span(times, start);
    [times[..n]] + LaterWindows(times[n..])
  }

  /** Each later window starts at its first event. */
  function LaterWindows(times: seq<int>): seq<seq<int>>
    decreases |times|, 0
  {
    if times == [] then []
    else
      SpanIs(times[1..], times[0]);
      var n := 1 + Span(times[1..], times[0]);
      [times[..n]] + LaterWindows(times[n..])
  }

  predicate IsStorm(window: seq<int>) { |window| > 20 }

  function Storms(windows: seq<seq<int>>): nat {
    if windows == [] then 0 else (if IsStorm(windows[0]) then 1 else 0) + Storms(windows[1..])
  }

  /** The loop's view: a window open since `start` with `count` events in it. */
  function StormsFrom(times: seq<int>, start: int, count: nat): nat
    decreases times
  {
    if times == [] then if count > 20 then 1 else 0
    else if times[0] - start > WINDOW then (if count > 20 then 1 else 0) + StormsFrom(times[1..], times[0], 1)
    else StormsFrom(times[1..], start, count + 1)
  }

  lemma {:induction false} LoopCountsWindows(times: seq<int>, start: int, count: nat)
    ensures Span(times, start) <= |times|
    ensures StormsFrom(times, start, count)
         == (if count + Span(times, start) > 20 then 1 else 0) + Storms(LaterWindows(times[Span(times, start)..]))
    decreases times
  {
    SpanIs(times, start);
    var n := Span(times, start);
    if times == [] {
      assert times[n..] == [];
    } else if times[0] - start > WINDOW {
      LoopCountsWindows(times[1..], times[0], 1);
      assert times[n..] == times;
      var m := 1 + Span(times[1..], times[0]);
      assert times[1..][m - 1..] == times[m..];
      assert LaterWindows(times) == [times[..m]] + LaterWindows(times[m..]);
    } else {
      LoopCountsWindows(times[1..], start, count + 1);
      assert times[1..][n - 1..] == times[n..];
    }
  }

  /** `stamps` are the events' timestamps, None where they do not parse. */
  function Parsed(stamps: seq<Option<int>>): seq<int> {
    if stamps == [] then []
    else if stamps[0].Some? then [stamps[0].value] + Parsed(stamps[1..])
    else Parsed(stamps[1..])
  }

  function StormCount(times: seq<int>): nat { Storms(Windows(Sort(Earlier, times), 0)) }

  lemma {:induction false} ParsedSnoc(stamps: seq<Option<int>>, last: Option<int>)
    ensures Parsed(stamps + [last]) == Parsed(stamps) + if last.Some? then [last.value] else []
  {
    if stamps == [] {
      assert [last][1..] == [];
    } else {
      assert (stamps + [last])[0] == stamps[0] && (stamps + [last])[1..] == stamps[1..] + [last];
      ParsedSnoc(stamps[1..], last);
    }
  }

  /** The parsed times are those of the events that have one, each as often as it occurs. */
  lemma {:induction false} ParsedAre(stamps: seq<Option<int>>, t: int)
    ensures multiset(Parsed(stamps))[t] == multiset(stamps)[Some(t)]
  {
    if stamps != [] {
      ParsedAre(stamps[1..], t);
      assert stamps == [stamps[0]] + stamps[1..];
    }
  }

  method DetectAlertStorms(stamps: seq<Option<int>>) returns (storms: nat)
    ensures storms == StormCount(Parsed(stamps))
  {
    var tsEvents := [];
    for i := 0 to |stamps|
      invariant tsEvents == Parsed(stamps[..i])
    {
      assert stamps[..i + 1] == stamps[..i] + [stamps[i]];
      ParsedSnoc(stamps[..i], stamps[i]);
      if stamps[i].Some? {
        tsEvents := tsEvents + [stamps[i].value];
      }
    }
    assert stamps[..|stamps|] == stamps;
    var sorted := Sort(Earlier, tsEvents);
    storms := 0;
    var windowStart, count := 0, 0;
    for i := 0 to |sorted|
      invariant storms + StormsFrom(sorted[i..], windowStart, count) == StormsFrom(sorted, 0, 0)
    {
      assert sorted[i..][0] == sorted[i] && sorted[i..][1..] == sorted[i + 1..];
      if sorted[i] - windowStart > WINDOW {
        if count > 20 {
          storms := storms + 1;
        }
        windowStart := sorted[i];
        count := 1;
      } else {
        count := count + 1;
      }
    }
    if count > 20 {
      storms := storms + 1;
    }
    LoopCountsWindows(sorted, 0, 0);
    SpanIs(sorted, 0);
  }

  // ----- the windows partition the events -----

  function Flatten(windows: seq<seq<int>>): seq<int> {
    if windows == [] then [] else windows[0] + Flatten(windows[1..])
  }

  lemma {:induction false} EarlierIsStrictWeak()
    ensures StrictWeakOrder(Earlier)
  {}

  lemma {:induction false} LaterWindowsPartition(times: seq<int>)
    ensures Flatten(LaterWindows(times)) == times
    decreases |times|
  {
    if times != [] {
      SpanIs(times[1..], times[0]);
      var n := 1 + Span(times[1..], times[0]);
      LaterWindowsPartition(times[n..]);
      assert LaterWindows(times)[1..] == LaterWindows(times[n..]);
      assert times == times[..n] + times[n..];
    }
  }

  predicate Within(window: seq<int>) {
    forall i, j :: 0 <= i < |window| && 0 <= j < |window| ==> window[j] - window[i] <= 300 * 1_000_000_000
  }

  lemma {:induction false} LaterWindowsAreShort(times: seq<int>)
    requires Sorted(Earlier, times)
    ensures forall w :: w in LaterWindows(times) ==> Within(w)
    decreases |times|
  {
    if times != [] {
      SpanIs(times[1..], times[0]);
      var n := 1 + Span(times[1..], times[0]);
      LaterWindowsAreShort(times[n..]);
      forall i, j | 0 <= i < n && 0 <= j < n
        ensures times[j] - times[i] <= WINDOW
      {
        assert j > 0 ==> times[1..][j - 1] - times[0] <= WINDOW;
        assert i > 0 ==> !Earlier(times[i], times[0]);
      }
    }
  }

  lemma {:induction false} WindowsFlatten(times: seq<int>)
    ensures Flatten(Windows(times, 0)) == times
  {
    SpanIs(times, 0);
    var n := Span(times, 0);
    LaterWindowsPartition(times[n..]);
    var later := LaterWindows(times[n..]);
    assert ([times[..n]] + later)[1..] == later;
  }

  lemma {:induction false} WindowsPartition(times: seq<int>)
    ensures var sorted := Sort(Earlier, times);
      Flatten(Windows(sorted, 0)) == sorted && multiset(sorted) == multiset(times)
      && |sorted| == |times| && Sorted(Earlier, sorted)
  {
    EarlierIsStrictWeak();
    SortPermutes(Earlier, times);
    SortSorts(Earlier, times);
    WindowsFlatten(Sort(Earlier, times));
  }

  lemma {:induction false} OnlyTheFirstCanBeLong(sorted: seq<int>)
    requires Sorted(Earlier, sorted)
    ensures Span(sorted, 0) <= |sorted|
    ensures (forall w :: w in Windows(sorted, 0) ==> Within(w)) <==> Within(sorted[..Span(sorted, 0)])
  {
    SpanIs(sorted, 0);
    var n := Span(sorted, 0);
    LaterWindowsAreShort(sorted[n..]);
    assert Windows(sorted, 0)[0] == sorted[..n];
    assert forall w :: w in Windows(sorted, 0) <==> w == sorted[..n] || w in LaterWindows(sorted[n..]);
  }

  /** The windows put one after the other are the sorted events.  They all span at most five
      minutes if and only if those up to five minutes after the zero time do, which is so in
      particular when no event is dated before year 1. */
  lemma {:induction false} WindowsPartitionExactlyWhen(times: seq<int>)
    ensures var sorted := Sort(Earlier, times); var windows := Windows(sorted, 0);
      && Flatten(windows) == sorted && multiset(sorted) == multiset(times) && Sorted(Earlier, sorted)
      && ((forall w :: w in windows ==> Within(w)) <==>
            forall a, b ::
              a in times && b in times && a <= 300 * 1_000_000_000 && b <= 300 * 1_000_000_000 ==>
                b - a <= 300 * 1_000_000_000)
  {
    WindowsPartition(times);
    OnlyTheFirstCanBeLong(Sort(Earlier, times));
    FirstWindow(Sort(Earlier, times), times);
  }

  lemma {:induction false} FirstWindow(sorted: seq<int>, times: seq<int>)
    requires Sorted(Earlier, sorted) && multiset(sorted) == multiset(times)
    ensures var n := Span(sorted, 0);
      && n <= |sorted|
      && (Within(sorted[..n]) <==>
            forall a, b :: a in times && b in times && a <= WINDOW && b <= WINDOW ==> b - a <= WINDOW)
  {
    SpanIs(sorted, 0);
    var n := Span(sorted, 0);
    forall a
      ensures a in times && a <= WINDOW <==> a in sorted[..n]
    {
      assert a in times <==> a in multiset(times);
      assert a in sorted <==> a in multiset(sorted);
      if a in sorted && a <= WINDOW {
        var i :| 0 <= i < |sorted| && sorted[i] == a;
        assert i >= n ==> !Earlier(sorted[i], sorted[n]);
        assert i < n && sorted[..n][i] == a;
      }
    }
    if Within(sorted[..n]) {
      forall a, b | a in times && b in times && a <= WINDOW && b <= WINDOW
        ensures b - a <= WINDOW
      {
        var i :| 0 <= i < n && sorted[..n][i] == a;
        var j :| 0 <= j < n && sorted[..n][j] == b;
      }
    }
    if forall a, b :: a in times && b in times && a <= WINDOW && b <= WINDOW ==> b - a <= WINDOW {
      forall i, j | 0 <= i < n && 0 <= j < n
        ensures sorted[..n][j] - sorted[..n][i] <= WINDOW
      {
        assert sorted[..n][i] in sorted[..n] && sorted[..n][j] in sorted[..n];
      }
    }
  }

  // ----- bounds on the number of storms -----

  lemma {:induction false} StormsCost(windows: seq<seq<int>>)
    ensures 21 * Storms(windows) <= |Flatten(windows)|
  {
    if windows != [] {
      StormsCost(windows[1..]);
    }
  }

  /** Every storm uses up twenty-one events of its own. */
  lemma {:induction false} StormsAreCostly(times: seq<int>)
    ensures 21 * StormCount(times) <= |times|
  {
    WindowsPartition(times);
    StormsCost(Windows(Sort(Earlier, times), 0));
  }

  /** The count does not depend on the order in which the events are listed. */
  lemma {:induction false} OrderDoesNotMatter(times: seq<int>, shuffled: seq<int>)
    requires multiset(times) == multiset(shuffled)
    ensures StormCount(times) == StormCount(shuffled)
  {
    EarlierIsStrictWeak();
    SortPermutes(Earlier, times);
    SortPermutes(Earlier, shuffled);
    SortSorts(Earlier, times);
    SortSorts(Earlier, shuffled);
    SortedIsUnique(Earlier, Sort(Earlier, times), Sort(Earlier, shuffled));
  }

  /** How many times lie in the closed interval of five minutes from `a`. */
  function InInterval(times: seq<int>, a: int): nat {
    if times == [] then 0
    else (if a <= times[0] <= a + 300 * 1_000_000_000 then 1 else 0) + InInterval(times[1..], a)
  }

  lemma {:induction false} InIntervalConcat(xs: seq<int>, ys: seq<int>, a: int)
    ensures InInterval(xs + ys, a) == InInterval(xs, a) + InInterval(ys, a)
    decreases xs
  {
    if xs == [] {
      assert xs + ys == ys;
    } else {
      assert (xs + ys)[0] == xs[0] && (xs + ys)[1..] == xs[1..] + ys;
      InIntervalConcat(xs[1..], ys, a);
    }
  }

  lemma {:induction false} InIntervalAtMost(times: seq<int>, a: int)
    ensures InInterval(times, a) <= |times|
  {
    if times != [] {
      InIntervalAtMost(times[1..], a);
    }
  }

  lemma {:induction false} NoneInInterval(times: seq<int>, a: int)
    requires forall i :: 0 <= i < |times| ==> !(a <= times[i] <= a + WINDOW)
    ensures InInterval(times, a) == 0
  {
    if times != [] {
      NoneInInterval(times[1..], a);
    }
  }

  lemma {:induction false} NoneFrom(times: seq<int>, a: int)
    requires Sorted(Earlier, times) && (times != [] ==> times[0] > a + WINDOW)
    ensures InInterval(times, a) == 0
  {
    forall i | 0 <= i < |times|
      ensures times[i] > a + WINDOW
    {
      assert i > 0 ==> !Earlier(times[i], times[0]);
    }
    NoneInInterval(times, a);
  }

  /** Without a storm among windows that start at events, an interval starting at or before
      the first event holds at most 20 of the events, and any interval at most 39. */
  lemma {:induction false} QuietLaterWindows(times: seq<int>, a: int)
    requires Sorted(Earlier, times) && Storms(LaterWindows(times)) == 0
    ensures InInterval(times, a) <= 39
    ensures times != [] && a <= times[0] ==> InInterval(times, a) <= 20
    decreases |times|
  {
    if times != [] {
      SpanIs(times[1..], times[0]);
      var n := 1 + Span(times[1..], times[0]);
      var window, rest := times[..n], times[n..];
      assert LaterWindows(times)[1..] == LaterWindows(rest);
      assert !IsStorm(LaterWindows(times)[0]);
      assert times == window + rest;
      InIntervalConcat(window, rest, a);
      InIntervalAtMost(window, a);
      QuietLaterWindows(rest, a);
      assert rest != [] ==> rest[0] == times[1..][n - 1] && rest[0] - times[0] > WINDOW;
      if a <= times[0] {
        NoneFrom(rest, a);
      } else if rest != [] && a > rest[0] {
        forall i | 0 <= i < n
          ensures window[i] < a
        {
          assert !Earlier(rest[0], window[i]);
        }
        NoneInInterval(window, a);
      } else {
        FirstIsOutside(window, a);
      }
    }
  }

  lemma {:induction false} FirstIsOutside(window: seq<int>, a: int)
    requires window != [] && window[0] < a
    ensures InInterval(window, a) <= |window| - 1
  {
    InIntervalAtMost(window[1..], a);
  }

  lemma {:induction false} InIntervalWithout(times: seq<int>, i: nat, a: int)
    requires i < |times|
    ensures InInterval(times, a) == InInterval([times[i]], a) + InInterval(times[..i] + times[i + 1..], a)
  {
    assert times == times[..i] + ([times[i]] + times[i + 1..]);
    InIntervalConcat(times[..i], [times[i]] + times[i + 1..], a);
    InIntervalConcat([times[i]], times[i + 1..], a);
    InIntervalConcat(times[..i], times[i + 1..], a);
  }

  lemma {:induction false} InIntervalCons(times: seq<int>, a: int)
    requires times != []
    ensures InInterval(times, a) == InInterval([times[0]], a) + InInterval(times[1..], a)
  {
    assert times == [times[0]] + times[1..];
    InIntervalConcat([times[0]], times[1..], a);
  }

  lemma {:induction false} PermutedInterval(xs: seq<int>, ys: seq<int>, a: int)
    requires multiset(xs) == multiset(ys)
    ensures InInterval(xs, a) == InInterval(ys, a)
    decreases xs
  {
    assert |multiset(xs)| == |xs| && |multiset(ys)| == |ys|;
    if xs != [] {
      assert xs[0] in multiset(ys);
      var i :| 0 <= i < |ys| && ys[i] == xs[0];
      var rest := ys[..i] + ys[i + 1..];
      TailCounts(xs);
      WithoutOne(ys, i);
      PermutedInterval(xs[1..], rest, a);
      InIntervalWithout(ys, i, a);
      InIntervalCons(xs, a);
    }
  }

  lemma {:induction false} QuietFirst(sorted: seq<int>)
    requires Storms(Windows(sorted, 0)) == 0 && Sorted(Earlier, sorted)
    ensures var n := Span(sorted, 0);
      n <= 20 && n <= |sorted| && Storms(LaterWindows(sorted[n..])) == 0 && Sorted(Earlier, sorted[n..])
  {
    SpanIs(sorted, 0);
    var n := Span(sorted, 0);
    assert Windows(sorted, 0)[1..] == LaterWindows(sorted[n..]);
    assert !IsStorm(Windows(sorted, 0)[0]);
  }

  lemma {:induction false} BeforeTheInterval(first: seq<int>, rest: seq<int>, a: int)
    requires Sorted(Earlier, first + rest) && rest != [] && rest[0] < a
    ensures InInterval(first, a) == 0
  {
    var n := |first|;
    assert (first + rest)[n] == rest[0];
    forall i | 0 <= i < n
      ensures first[i] < a
    {
      assert (first + rest)[i] == first[i] && !Earlier((first + rest)[n], (first + rest)[i]);
    }
    NoneInInterval(first, a);
  }

  lemma {:induction false} QuietSorted(sorted: seq<int>, a: int)
    requires Storms(Windows(sorted, 0)) == 0 && Sorted(Earlier, sorted)
    ensures InInterval(sorted, a) <= 40
    ensures Span(sorted, 0) == 0 ==> InInterval(sorted, a) <= 39
  {
    SpanIs(sorted, 0);
    var n := Span(sorted, 0);
    var first, rest := sorted[..n], sorted[n..];
    QuietFirst(sorted);
    assert sorted == first + rest;
    InIntervalConcat(first, rest, a);
    InIntervalAtMost(first, a);
    QuietLaterWindows(rest, a);
    if rest != [] && a > rest[0] {
      BeforeTheInterval(first, rest, a);
    }
  }

  lemma {:induction false} QuietIntervals(times: seq<int>, a: int)
    requires StormCount(times) == 0
    ensures InInterval(times, a) <= 40
    ensures (forall i :: 0 <= i < |times| ==> times[i] > WINDOW) ==> InInterval(times, a) <= 39
  {
    var sorted := Sort(Earlier, times);
    WindowsPartition(times);
    PermutedInterval(times, sorted, a);
    QuietSorted(sorted, a);
    if Span(sorted, 0) > 0 {
      assert sorted[0] in multiset(times) && sorted[0] <= WINDOW;
    }
  }

  // ----- how many events force a storm -----

  function Times(n: nat, t: int): seq<int> { seq(n, _ => t) }

  lemma {:induction false} TimesJoin(n: nat, t: int, rest: seq<int>)
    requires n > 0
    ensures (Times(n, t) + rest)[0] == t && (Times(n, t) + rest)[1..] == Times(n - 1, t) + rest
  {}

  lemma {:induction false} OpenWindowTakes(n: nat, t: int, rest: seq<int>, start: int, count: nat)
    requires t - start <= WINDOW
    ensures StormsFrom(Times(n, t) + rest, start, count) == StormsFrom(rest, start, count + n)
    decreases n
  {
    if n == 0 {
      assert Times(0, t) + rest == rest;
    } else {
      TimesJoin(n, t, rest);
      OpenWindowTakes(n - 1, t, rest, start, count + 1);
    }
  }

  /** Events after the window's end close it and open their own. */
  lemma {:induction false} NextWindowTakes(n: nat, t: int, rest: seq<int>, start: int, count: nat)
    requires n > 0 && t - start > WINDOW
    ensures StormsFrom(Times(n, t) + rest, start, count)
         == (if count > 20 then 1 else 0) + StormsFrom(rest, t, n)
  {
    TimesJoin(n, t, rest);
    OpenWindowTakes(n - 1, t, rest, t, 1);
  }

  lemma {:induction false} SortedCount(times: seq<int>)
    requires Sorted(Earlier, times)
    ensures StormCount(times) == StormsFrom(times, 0, 0)
  {
    EarlierIsStrictWeak();
    SortPermutes(Earlier, times);
    SortSorts(Earlier, times);
    SortedIsUnique(Earlier, Sort(Earlier, times), times);
    SpanIs(times, 0);
    LoopCountsWindows(times, 0, 0);
  }

  lemma {:induction false} TimesSorted(n: nat, t: int, rest: seq<int>)
    requires Sorted(Earlier, rest) && (rest != [] ==> t <= rest[0])
    ensures Sorted(Earlier, Times(n, t) + rest)
  {
    assert forall i :: 0 <= i < |rest| ==> i == 0 || !Earlier(rest[i], rest[0]);
  }

  lemma {:induction false} TimesInInterval(n: nat, t: int, a: int)
    requires a <= t <= a + WINDOW
    ensures InInterval(Times(n, t), a) == n
  {
    if n > 0 {
      assert Times(n, t)[1..] == Times(n - 1, t);
      TimesInInterval(n - 1, t, a);
    }
  }

  /** Twenty events that fall into the window of the zero time, and twenty just after it. */
  function FortyEvents(): seq<int> { Times(20, WINDOW) + (Times(20, WINDOW + 1) + []) }

  lemma {:induction false} FortyCanBeQuiet()
    ensures StormCount(FortyEvents()) == 0 && InInterval(FortyEvents(), WINDOW) == 40
  {
    TimesSorted(20, WINDOW + 1, []);
    TimesSorted(20, WINDOW, Times(20, WINDOW + 1) + []);
    SortedCount(FortyEvents());
    OpenWindowTakes(20, WINDOW, Times(20, WINDOW + 1) + [], 0, 0);
    NextWindowTakes(20, WINDOW + 1, [], 0, 20);
    TimesInInterval(20, WINDOW, WINDOW);
    TimesInInterval(20, WINDOW + 1, WINDOW);
    assert Times(20, WINDOW + 1) + [] == Times(20, WINDOW + 1);
    InIntervalConcat(Times(20, WINDOW), Times(20, WINDOW + 1), WINDOW);
  }

  /** One event that opens a window, nineteen more in it, and twenty just after it. */
  function LaterEvents(): seq<int> {
    var t := WINDOW + 1;
    Times(1, t) + (Times(19, t + 1) + (Times(20, t + WINDOW + 1) + []))
  }

  lemma {:induction false} LaterEventsAreQuiet()
    ensures StormCount(LaterEvents()) == 0
  {
    var t := WINDOW + 1;
    TimesSorted(20, t + WINDOW + 1, []);
    TimesSorted(19, t + 1, Times(20, t + WINDOW + 1) + []);
    TimesSorted(1, t, Times(19, t + 1) + (Times(20, t + WINDOW + 1) + []));
    SortedCount(LaterEvents());
    NextWindowTakes(1, t, Times(19, t + 1) + (Times(20, t + WINDOW + 1) + []), 0, 0);
    OpenWindowTakes(19, t + 1, Times(20, t + WINDOW + 1) + [], t, 1);
    NextWindowTakes(20, t + WINDOW + 1, [], t, 20);
  }

  lemma {:induction false} ThirtyNineCanBeQuiet()
    ensures StormCount(LaterEvents()) == 0 && InInterval(LaterEvents(), WINDOW + 2) == 39
    ensures forall i :: 0 <= i < |LaterEvents()| ==> LaterEvents()[i] > WINDOW
  {
    var t, a := WINDOW + 1, WINDOW + 2;
    LaterEventsAreQuiet();
    NoneInInterval(Times(1, t), a);
    TimesInInterval(19, t + 1, a);
    TimesInInterval(20, t + WINDOW + 1, a);
    assert Times(20, t + WINDOW + 1) + [] == Times(20, t + WINDOW + 1);
    InIntervalConcat(Times(19, t + 1), Times(20, t + WINDOW + 1), a);
    InIntervalConcat(Times(1, t), Times(19, t + 1) + Times(20, t + WINDOW + 1), a);
  }

  /** `n` events in a closed interval of five minutes force a storm, if `late` provided that no
      event is within five minutes of the zero time. */
  ghost predicate ForcesAStorm(n: int, late: bool) {
    forall times, a ::
      InInterval(times, a) >= n && (late ==> forall i :: 0 <= i < |times| ==> times[i] > 300 * 1_000_000_000) ==>
        StormCount(times) >= 1
  }

  /** The least number of events that forces a storm is 41, and 40 away from the zero time. */
  lemma {:induction false} CrowdedIntervalIsNoticedExactlyWhen(n: int)
    ensures ForcesAStorm(n, false) <==> n >= 41
    ensures ForcesAStorm(n, true) <==> n >= 40
  {
    FortyCanBeQuiet();
    ThirtyNineCanBeQuiet();
    forall times, a | StormCount(times) == 0
      ensures InInterval(times, a) <= 40
      ensures (forall i :: 0 <= i < |times| ==> times[i] > WINDOW) ==> InInterval(times, a) <= 39
    {
      QuietIntervals(times, a);
    }
  }
}
