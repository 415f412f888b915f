/** Which conversations the chat engine keeps.  A store is seen as the map from conversation
    id to last activity; the order in which Go iterates over its map is a parameter. */
module ConversationStore {
  import opened Common

  const CONVERSATION_TTL := 30 * MINUTE
  const MAX_CONVERSATIONS := 1000

  type Store = map<string, int>

  // ----- the oldest entry -----

  /** `order` visits every key once. */
  ghost predicate Visits(order: seq<string>, keys: set<string>) {
    && (forall id :: id in order <==> id in keys)
    && (forall i, j :: 0 <= i < j < |order| ==> order[i] != order[j])
  }

  /** The scan for the oldest entry, where "" stands for "none yet". */
  function OldestFrom(m: Store, order: seq<string>, oldest: string, oldestTime: int): string
    requires forall id :: id in order ==> id in m
    decreases order
  {
    if order == [] then oldest
    else
      var id := order[0];
      if oldest == "" || m[id] < oldestTime then OldestFrom(m, order[1..], id, m[id])
      else OldestFrom(m, order[1..], oldest, oldestTime)
  }

  function OldestIn(m: Store, order: seq<string>): string
    requires forall id :: id in order ==> id in m
  {
    OldestFrom(m, order, "", 0)
  }

  ghost predicate LeastRecent(m: Store, id: string) {
    id in m && forall other :: other in m ==> m[id] <= m[other]
  }

  lemma {:induction false} ScanFindsLeast(m: Store, order: seq<string>, oldest: string)
    requires forall id :: id in order ==> id in m && id != ""
    requires oldest != "" && oldest in m
    ensures var found := OldestFrom(m, order, oldest, m[oldest]);
      && found in m && (found == oldest || found in order)
      && m[found] <= m[oldest] && forall id :: id in order ==> m[found] <= m[id]
    decreases order
  {
    if order != [] {
      assert order[0] in order;
      var next := if m[order[0]] < m[oldest] then order[0] else oldest;
      assert forall id :: id in order[1..] ==> id in order;
      ScanFindsLeast(m, order[1..], next);
    }
  }

  /** The empty id is in the store, and is strictly older than every other entry. */
  ghost predicate EmptyIdIsOldest(m: Store) {
    "" in m && forall id :: id in m && id != "" ==> m[""] < m[id]
  }

  /** Visiting "" forgets only entries that are more recent than it; as long as one that is not
      is still to come or at hand, nothing is lost. */
  lemma {:induction false} ScanPassesEmpty(m: Store, order: seq<string>, oldest: string, oldestTime: int)
    requires Visits(order, set id | id in order) && (forall id :: id in order ==> id in m)
    requires oldest != "" ==> oldest in m && oldestTime == m[oldest]
    requires "" in order
    requires (oldest != "" && oldestTime <= m[""]) || exists id :: id in order && id != "" && m[id] <= m[""]
    ensures var found := OldestFrom(m, order, oldest, oldestTime);
      && found in m && found != "" && (oldest != "" ==> m[found] <= oldestTime)
      && forall id :: id in order ==> m[found] <= m[id]
    decreases order
  {
    var id, rest := order[0], order[1..];
    assert forall x :: x in order <==> x == id || x in rest;
    if id != "" {
      var takes := oldest == "" || m[id] < oldestTime;
      ScanPassesEmpty(m, rest, if takes then id else oldest, if takes then m[id] else oldestTime);
    } else if oldest == "" || m[""] < oldestTime {
      assert OldestFrom(m, order, oldest, oldestTime) == OldestFrom(m, rest[1..], rest[0], m[rest[0]]);
      assert forall x :: x in rest <==> x == rest[0] || x in rest[1..];
      ScanFindsLeast(m, rest[1..], rest[0]);
    } else {
      ScanFindsLeast(m, rest, oldest);
    }
  }

  /** In every iteration order, the scan finds a least-recently-active entry to evict if and
      only if the empty id is not the strictly oldest. */
  lemma {:induction false} OldestIsLeastRecentExactlyWhen(m: Store, order: seq<string>)
    requires Visits(order, m.Keys) && m != map[]
    ensures OldestIn(m, order) != "" && LeastRecent(m, OldestIn(m, order)) <==> !EmptyIdIsOldest(m)
  {
    var id :| id in m;
    assert id in order;
    if !EmptyIdIsOldest(m) {
      if "" in m {
        ScanPassesEmpty(m, order, "", 0);
      } else {
        ScanFindsLeast(m, order[1..], order[0]);
        assert forall x :: x in order <==> x == order[0] || x in order[1..];
      }
      assert forall other :: other in m ==> other in order;
    }
  }

  /** The empty id hides every other entry: it is visited last and is strictly older. */
  ghost predicate SentinelHides(m: Store, order: seq<string>)
    requires order != []
  {
    EmptyIdIsOldest(m) && order[|order| - 1] == ""
  }

  lemma {:induction false} ScanEndsEmpty(m: Store, order: seq<string>, oldest: string, oldestTime: int)
    requires Visits(order, set id | id in order) && order != []
    requires forall id :: id in order ==> id in m
    requires oldest != "" ==> oldest in m && oldestTime == m[oldest] && oldest !in order
    ensures OldestFrom(m, order, oldest, oldestTime) == "" <==>
      && order[|order| - 1] == ""
      && (forall id :: id in order && id != "" ==> m[""] < m[id])
      && (oldest != "" ==> m[""] < oldestTime)
    decreases order
  {
    var id, rest := order[0], order[1..];
    if rest == [] {
      assert OldestFrom(m, rest, id, m[id]) == id;
    } else {
      assert order[|order| - 1] == rest[|rest| - 1];
      assert forall x :: x in order <==> x == id || x in rest;
      var takes := oldest == "" || m[id] < oldestTime;
      if takes {
        ScanEndsEmpty(m, rest, id, m[id]);
      } else {
        ScanEndsEmpty(m, rest, oldest, oldestTime);
      }
      if order[|order| - 1] == "" {
        assert id != "";
      }
    }
  }

  /** The eviction finds nothing to evict if and only if the empty id hides the rest. */
  lemma {:induction false} NothingFoundExactlyWhen(m: Store, order: seq<string>)
    requires Visits(order, m.Keys) && m != map[]
    ensures order != [] && (OldestIn(m, order) == "" <==> SentinelHides(m, order))
  {
    var id :| id in m;
    assert id in order;
    ScanEndsEmpty(m, order, "", 0);
  }

  // ----- one operation -----

  datatype Op =
    | Get(id: string, at: int, hasProvider: bool, order: seq<string>)
    | EvictIdle(at: int)
    | Delete(id: string)
    | Touch(id: string, at: int)     // a message arrives in the conversation

  function EvictOldest(m: Store, order: seq<string>): Store
    requires forall id :: id in order ==> id in m
  {
    var oldest := OldestIn(m, order);
    if oldest != "" then m - {oldest} else m
  }

  function Roomy(m: Store, order: seq<string>): Store
    requires forall id :: id in order ==> id in m
  {
    if |m| >= MAX_CONVERSATIONS then EvictOldest(m, order) else m
  }

  function GetStep(m: Store, id: string, now: int, hasProvider: bool, order: seq<string>): Store
    requires forall id :: id in order ==> id in m
  {
    if id in m || !hasProvider then m
    else Roomy(m, order)[id := now]
  }

  predicate Fresh(m: Store, id: string, now: int) { id in m && now - m[id] <= CONVERSATION_TTL }

  /** What the sweep must do: keep only entries idle for at most the TTL and at most the cap,
      drop no entry that is more recent than one it keeps, and report how many it dropped. */
  ghost predicate SweptTo(m: Store, now: int, m': Store, evicted: int) {
    && (forall id :: id in m' ==> Fresh(m, id, now) && m'[id] == m[id])
    && |m'| <= MAX_CONVERSATIONS
    && (forall id, kept :: Fresh(m, id, now) && id !in m' && kept in m' ==> m[id] <= m[kept])
    && ((exists id :: Fresh(m, id, now) && id !in m') ==> |m'| == MAX_CONVERSATIONS)
    && evicted == |m| - |m'|
  }

  ghost predicate Step(m: Store, op: Op, m': Store) {
    match op
    case Get(id, at, hasProvider, order) =>
      Visits(order, m.Keys) && m' == GetStep(m, id, at, hasProvider, order)
    case EvictIdle(at) => SweptTo(m, at, m', |m| - |m'|)
    case Delete(id) => m' == m - {id}
    case Touch(id, at) => m' == if id in m then m[id := at] else m
  }

  lemma {:induction false} SizeWithout(m: Store, id: string)
    ensures |m - {id}| == if id in m then |m| - 1 else |m|
  {
    assert (m - {id}).Keys == m.Keys - {id};
    assert |m.Keys| == |m| && |(m - {id}).Keys| == |m - {id}|;
  }

  lemma {:induction false} SizeWith(m: Store, id: string, at: int)
    ensures |m[id := at]| == if id in m then |m| else |m| + 1
  {
    assert m[id := at].Keys == m.Keys + {id};
    assert |m.Keys| == |m| && |m[id := at].Keys| == |m[id := at]|;
  }

  /** A Get leaves the store over the cap if and only if it was full, a conversation had to be
      made, and the empty id hid every candidate. */
  lemma {:induction false} GetKeepsCapExactlyWhen(m: Store, id: string, now: int, hasProvider: bool, order: seq<string>)
    requires Visits(order, m.Keys) && |m| <= MAX_CONVERSATIONS
    ensures |GetStep(m, id, now, hasProvider, order)| <= MAX_CONVERSATIONS <==>
      !(id !in m && hasProvider && |m| == MAX_CONVERSATIONS && order != [] && SentinelHides(m, order))
  {
    if |m| == MAX_CONVERSATIONS {
      assert m != map[];
      NothingFoundExactlyWhen(m, order);
      var oldest := OldestIn(m, order);
      if oldest != "" {
        ScanStaysInside(m, order, "", 0);
        SizeWithout(m, oldest);
      }
    }
    if id !in m {
      SizeWith(Roomy(m, order), id, now);
    }
  }

  lemma {:induction false} ScanStaysInside(m: Store, order: seq<string>, oldest: string, oldestTime: int)
    requires forall id :: id in order ==> id in m
    ensures var found := OldestFrom(m, order, oldest, oldestTime); found == oldest || found in m
    decreases order
  {
    if order != [] {
      var id := order[0];
      if oldest == "" || m[id] < oldestTime {
        ScanStaysInside(m, order[1..], id, m[id]);
      } else {
        ScanStaysInside(m, order[1..], oldest, oldestTime);
      }
    }
  }

  /** What a sweep leaves, in numbers: nothing idle for more than thirty minutes, everything
      else if that is at most a thousand, and otherwise a thousand of the most recent. */
  lemma {:induction false} SweepIsRead(m: Store, now: int, m': Store)
    requires Step(m, EvictIdle(now), m')
    ensures var live := map id | id in m && now - m[id] <= 30 * 60 * 1_000_000_000 :: m[id];
      && (forall id :: id in m' ==> id in live && m'[id] == live[id])
      && |m'| == Min(|live|, 1000)
      && (|live| <= 1000 ==> m' == live)
      && (forall gone, kept :: gone in live && gone !in m' && kept in m' ==> live[gone] <= live[kept])
  {
    var live := map id | id in m && now - m[id] <= 30 * 60 * 1_000_000_000 :: m[id];
    assert forall id :: id in live <==> Fresh(m, id, now);
    assert |m'.Keys| == |m'| && |live.Keys| == |live| && m'.Keys <= live.Keys;
    if exists id :: Fresh(m, id, now) && id !in m' {
      var id :| Fresh(m, id, now) && id !in m';
      assert m'.Keys < live.Keys;
      ProperSubsetIsSmaller(m'.Keys, live.Keys, id);
    } else {
      assert m'.Keys == live.Keys;
      assert m' == live;
    }
  }

  lemma {:induction false} ProperSubsetIsSmaller(a: set<string>, b: set<string>, x: string)
    requires a <= b && x in b && x !in a
    ensures |a| < |b|
  {
    var rest := b - a;
    assert x in rest && b == a + rest;
    assert |b| == |a| + |rest|;
  }

  // ----- whole runs -----

  predicate NonEmptyId(op: Op) { op.Get? ==> op.id != "" }

  ghost predicate StepAt(states: seq<Store>, ops: seq<Op>, i: nat)
    requires |states| == |ops| + 1 && i < |ops|
  {
    Step(states[i], ops[i], states[i + 1]) && NonEmptyId(ops[i])
  }

  /** A run with non-empty ids: `states[i + 1]` is what `ops[i]` makes of `states[i]`. */
  ghost predicate Run(states: seq<Store>, ops: seq<Op>) {
    |states| == |ops| + 1 && forall i :: 0 <= i < |ops| ==> StepAt(states, ops, i)
  }

  predicate WithinCap(m: Store) { |m| <= MAX_CONVERSATIONS && "" !in m }

  lemma {:induction false} StepKeepsCap(m: Store, op: Op, m': Store)
    requires Step(m, op, m') && NonEmptyId(op) && WithinCap(m)
    ensures WithinCap(m')
  {
    match op
    case Get(id, at, hasProvider, order) => GetKeepsCapExactlyWhen(m, id, at, hasProvider, order);
    case EvictIdle(at) =>
    case Delete(id) => SizeWithout(m, id);
    case Touch(id, at) => SizeWith(m, id, at);
  }

  lemma {:induction false} StepAtKeepsCap(states: seq<Store>, ops: seq<Op>, i: nat)
    requires Run(states, ops) && i < |ops| && WithinCap(states[i])
    ensures WithinCap(states[i + 1])
  {
    assert StepAt(states, ops, i);
    StepKeepsCap(states[i], ops[i], states[i + 1]);
  }

  /** With non-empty ids the store holds at most maxConversations after every operation of
      every run. */
  lemma {:induction false} CapHoldsThroughout(states: seq<Store>, ops: seq<Op>, k: nat)
    requires Run(states, ops) && k < |states| && WithinCap(states[0])
    ensures WithinCap(states[k])
  {
    if k > 0 {
      CapHoldsThroughout(states, ops, k - 1);
      StepAtKeepsCap(states, ops, k - 1);
    }
  }

  /** Making room in a full store takes a least-recently-active conversation, and no other, if
      and only if the empty id is not the strictly oldest. */
  lemma {:induction false} FullStoreEvictsLeastRecentExactlyWhen(m: Store, op: Op, m': Store)
    requires Step(m, op, m') && op.Get? && op.id !in m && op.hasProvider
    requires |m| >= MAX_CONVERSATIONS
    ensures (exists victim :: LeastRecent(m, victim) && m' == (m - {victim})[op.id := op.at]) <==> !EmptyIdIsOldest(m)
  {
    assert m != map[];
    OldestIsLeastRecentExactlyWhen(m, op.order);
    if EmptyIdIsOldest(m) {
      assert "" in m';
      assert forall victim :: LeastRecent(m, victim) ==> victim == "";
    } else {
      var victim := OldestIn(m, op.order);
      assert LeastRecent(m, victim) && m' == (m - {victim})[op.id := op.at];
    }
  }

  // ----- what the empty id can do -----

  lemma {:induction false} Enumerate(keys: set<string>) returns (order: seq<string>)
    ensures Visits(order, keys)
    decreases keys
  {
    if keys == {} {
      order := [];
    } else {
      var id :| id in keys;
      var rest := Enumerate(keys - {id});
      order := [id] + rest;
    }
  }

  lemma {:induction false} ScanEndsAfterEmpty(m: Store, order: seq<string>, last: string, oldest: string, oldestTime: int)
    requires EmptyIdIsOldest(m) && last in m && (oldest == "" || m[""] < oldestTime)
    requires forall id :: id in order ==> id in m && id != ""
    ensures OldestFrom(m, order + ["", last], oldest, oldestTime) == last
    decreases order
  {
    if order == [] {
      assert order + ["", last] == ["", last] && ["", last][1..] == [last] && [last][1..] == [];
      assert OldestFrom(m, [last], "", m[""]) == OldestFrom(m, [], last, m[last]);
      assert OldestFrom(m, ["", last], oldest, oldestTime) == OldestFrom(m, [last], "", m[""]);
    } else {
      assert (order + ["", last])[0] == order[0] && (order + ["", last])[1..] == order[1..] + ["", last];
      assert order[0] in order;
      var takes := oldest == "" || m[order[0]] < oldestTime;
      ScanEndsAfterEmpty(m, order[1..], last, if takes then order[0] else oldest,
                         if takes then m[order[0]] else oldestTime);
    }
  }

  /** If the empty id is the strictly oldest, every other conversation can be the one a Get on
      a full store evicts, depending on the order in which the map is iterated. */
  lemma {:induction false} AnyoneCanBeEvicted(m: Store, victim: string, id: string, at: int) returns (order: seq<string>)
    requires EmptyIdIsOldest(m) && |m| >= MAX_CONVERSATIONS && victim in m && victim != "" && id !in m
    ensures Visits(order, m.Keys) && GetStep(m, id, at, true, order) == (m - {victim})[id := at]
  {
    var others := Enumerate(m.Keys - {"", victim});
    order := others + ["", victim];
    ScanEndsAfterEmpty(m, others, victim, "", 0);
  }

  function Name(i: nat): string { seq(i, _ => 'a') }

  /** Conversations "", "a", "aa" and so on, the n-th last active at time n. */
  function FirstNames(n: nat): Store {
    if n == 0 then map[] else FirstNames(n - 1)[Name(n - 1) := n - 1]
  }

  lemma {:induction false} FirstNamesAre(n: nat)
    ensures |FirstNames(n)| == n
    ensures forall id :: id in FirstNames(n) <==> |id| < n && id == Name(|id|)
    ensures forall id :: id in FirstNames(n) ==> FirstNames(n)[id] == |id|
  {
    if n > 0 {
      FirstNamesAre(n - 1);
      assert |Name(n - 1)| == n - 1;
      SizeWith(FirstNames(n - 1), Name(n - 1), n - 1);
    }
  }

  /** A full store whose next Get evicts the most recently active conversation. */
  lemma {:induction false} SentinelMisleads() returns (m: Store, newest: string, order: seq<string>)
    ensures |m| == MAX_CONVERSATIONS && "new" !in m && Visits(order, m.Keys)
    ensures newest in m && forall other :: other in m && other != newest ==> m[other] < m[newest]
    ensures GetStep(m, "new", MAX_CONVERSATIONS, true, order) == (m - {newest})["new" := MAX_CONVERSATIONS]
  {
    m, newest := FirstNames(MAX_CONVERSATIONS), Name(MAX_CONVERSATIONS - 1);
    FirstNamesAre(MAX_CONVERSATIONS);
    assert Name(0) == "" && |newest| == MAX_CONVERSATIONS - 1;
    assert forall id :: id in m && id != newest ==> id == Name(|id|) && |id| != MAX_CONVERSATIONS - 1;
    assert Name(3)[0] == 'a' && "new"[0] == 'n';
    order := AnyoneCanBeEvicted(m, newest, "new", MAX_CONVERSATIONS);
  }
}
