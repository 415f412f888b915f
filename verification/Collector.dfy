/** The Kubernetes event collector's dedup map: a trigger on a resource is accepted only if
    the last accepted one is at least `cooldown` old, and every accepted trigger prunes the
    entries older than `dedupWindow`. */
module Collector {
  import opened Common
  import opened Text

  datatype Config = Config(cooldown: int, dedupWindow: int)

  /** What NewEventCollector installs. */
  const DEFAULTS := Config(5 * MINUTE, 10 * MINUTE)

  type Processed = map<string, int>

  const TRIGGER_PATTERNS: seq<string> := [
    "BackOff", "CrashLoopBackOff", "Failed", "Unhealthy", "FailedScheduling",
    "ImagePullBackOff", "ErrImagePull", "OOMKilled", "Evicted", "NodeNotReady",
    "SystemOOM", "ContainerCreating"
  ]

  ghost predicate IsTrigger(reason: string) {
    exists p | p in TRIGGER_PATTERNS :: Contains(reason, p)
  }

  /** An added or modified cluster event.  The clock is read three times while it is
      handled: to check the cooldown, to stamp the entry, and to prune. */
  datatype Arrival = Arrival(reason: string, kind: string, namespace: string, name: string,
                             checkedAt: int, stampedAt: int, prunedAt: int)
  {
    function Key(): string { kind + "/" + namespace + "/" + name }
  }

  // ----- one step -----

  predicate OnCooldown(c: Config, m: Processed, key: string, now: int) {
    key in m && now - m[key] < c.cooldown
  }

  function Prune(c: Config, m: Processed, now: int): Processed {
    map k | k in m && now - m[k] <= c.dedupWindow :: m[k]
  }

  ghost function Step(c: Config, m: Processed, a: Arrival): (Processed, bool) {
    if !IsTrigger(a.reason) || OnCooldown(c, m, a.Key(), a.checkedAt) then (m, false)
    else (Prune(c, m[a.Key() := a.stampedAt], a.prunedAt), true)
  }

  /** The reference: the same without pruning. */
  ghost function UnprunedStep(c: Config, m: Processed, a: Arrival): (Processed, bool) {
    if !IsTrigger(a.reason) || OnCooldown(c, m, a.Key(), a.checkedAt) then (m, false)
    else (m[a.Key() := a.stampedAt], true)
  }

  class EventCollector {
    var processed: Processed
    const config: Config

    constructor ()
      ensures processed == map[] && config == Config(5 * 60 * 1_000_000_000, 10 * 60 * 1_000_000_000)
    {
      processed := map[];
      config := DEFAULTS;
    }

    method ShouldTrigger(reason: string) returns (hit: bool)
      ensures hit <==> IsTrigger(reason)
    {
      for i := 0 to |TRIGGER_PATTERNS|
        invariant forall j | 0 <= j < i :: !Contains(reason, TRIGGER_PATTERNS[j])
      {
        if Contains(reason, TRIGGER_PATTERNS[i]) {
          return true;
        }
      }
      return false;
    }

    /** The body of the watch loop up to the creation of the report. */
    method Handle(a: Arrival) returns (accepted: bool)
      modifies this`processed
      ensures (processed, accepted) == Step(config, old(processed), a)
    {
      var hit := ShouldTrigger(a.reason);
      if !hit {
        return false;
      }
      var key := a.Key();
      if key in processed {
        if a.checkedAt - processed[key] < config.cooldown {
          return false;
        }
      }
      processed := processed[key := a.stampedAt];
      ghost var stamped := processed;
      var pending := processed.Keys;
      while pending != {}
        invariant pending <= processed.Keys <= stamped.Keys
        invariant forall k :: k in processed ==> processed[k] == stamped[k]
        invariant forall k :: k in stamped ==>
          (k in processed <==> k in pending || a.prunedAt - stamped[k] <= config.dedupWindow)
        decreases pending
      {
        var k :| k in pending;
        if a.prunedAt - processed[k] > config.dedupWindow {
          processed := processed - {k};
        }
        pending := pending - {k};
      }
      assert processed == Prune(config, stamped, a.prunedAt);
      return true;
    }
  }

  // ----- runs -----

  ghost function Accepted(c: Config, m: Processed, run: seq<Arrival>): (oks: seq<bool>)
    ensures |oks| == |run|
    decreases run
  {
    if run == [] then []
    else var (m', ok) := Step(c, m, run[0]); [ok] + Accepted(c, m', run[1..])
  }

  ghost function UnprunedAccepted(c: Config, m: Processed, run: seq<Arrival>): (oks: seq<bool>)
    ensures |oks| == |run|
    decreases run
  {
    if run == [] then []
    else var (m', ok) := UnprunedStep(c, m, run[0]); [ok] + UnprunedAccepted(c, m', run[1..])
  }

  predicate Ordered(clock: int, run: seq<Arrival>)
    decreases run
  {
    run == [] ||
    (clock <= run[0].checkedAt <= run[0].stampedAt <= run[0].prunedAt && Ordered(run[0].prunedAt, run[1..]))
  }

  /** The pruned map keeps exactly what could still be on cooldown. */
  predicate Forgets(c: Config, pruned: Processed, full: Processed, clock: int) {
    && pruned.Keys <= full.Keys
    && (forall k :: k in pruned ==> pruned[k] == full[k])
    && (forall k :: k in full && k !in pruned ==> clock - full[k] >= c.cooldown)
  }

  lemma {:induction false} PruningSimulates(c: Config, pruned: Processed, full: Processed, clock: int,
      run: seq<Arrival>)
    requires c.dedupWindow + 1 >= c.cooldown && Ordered(clock, run)
    requires Forgets(c, pruned, full, clock)
    ensures Accepted(c, pruned, run) == UnprunedAccepted(c, full, run)
    decreases run
  {
    if run != [] {
      var a := run[0];
      PruningSimulates(c, Step(c, pruned, a).0, UnprunedStep(c, full, a).0, a.prunedAt, run[1..]);
    }
  }

  /** An event with the trigger reason "Failed" on the pod `name`, all readings equal. */
  function At(name: string, now: int): Arrival {
    Arrival("Failed", "Pod", "default", name, now, now, now)
  }

  lemma {:induction false} AlwaysATrigger(name: string, now: int)
    ensures IsTrigger(At(name, now).reason)
  {
    assert OccursAt("Failed", "Failed", 0);
    assert Contains("Failed", TRIGGER_PATTERNS[2]);
  }

  lemma {:induction false} ThirdAnswer(c: Config, m: Processed, u: Processed, x: Arrival, y: Arrival, z: Arrival)
    ensures var m1 := Step(c, m, x).0; var m2 := Step(c, m1, y).0;
      Accepted(c, m, [x, y, z])[2] == Step(c, m2, z).1
    ensures var u1 := UnprunedStep(c, u, x).0; var u2 := UnprunedStep(c, u1, y).0;
      UnprunedAccepted(c, u, [x, y, z])[2] == UnprunedStep(c, u2, z).1
  {
    assert [x, y, z][1..] == [y, z] && [y, z][1..] == [z];
    var m1, u1 := Step(c, m, x).0, UnprunedStep(c, u, x).0;
    var m2, u2 := Step(c, m1, y).0, UnprunedStep(c, u1, y).0;
    assert Accepted(c, m1, [y, z])[1..] == Accepted(c, m2, [z]);
    assert UnprunedAccepted(c, u1, [y, z])[1..] == UnprunedAccepted(c, u2, [z]);
    assert Accepted(c, m, [x, y, z])[1..] == Accepted(c, m1, [y, z]);
    assert UnprunedAccepted(c, u, [x, y, z])[1..] == UnprunedAccepted(c, u1, [y, z]);
  }

  lemma {:induction false} DifferentPods(now: int)
    ensures At("a", 0).Key() != At("b", now).Key()
  {
    var ka, kb := At("a", 0).Key(), At("b", now).Key();
    assert ka[|ka| - 1] == 'a' && kb[|kb| - 1] == 'b';
  }

  /** With a shorter window, a second resource's trigger makes the first one's be accepted
      again while it is still cooling down. */
  lemma {:induction false} ShortWindowLeaks(c: Config)
    requires c.dedupWindow >= 0 && c.dedupWindow + 1 < c.cooldown
    ensures var later := c.dedupWindow + 1;
      var run := [At("a", 0), At("b", later), At("a", later)];
      Ordered(0, run) && Accepted(c, map[], run) != UnprunedAccepted(c, map[], run)
  {
    var later := c.dedupWindow + 1;
    var x, y, z := At("a", 0), At("b", later), At("a", later);
    var run := [x, y, z];
    assert run[1..] == [y, z] && [y, z][1..] == [z];
    assert Ordered(later, [z]) && Ordered(0, [y, z]);
    AlwaysATrigger("a", 0);
    AlwaysATrigger("b", later);
    AlwaysATrigger("a", later);
    DifferentPods(later);
    var ka, kb := x.Key(), y.Key();
    assert z.Key() == ka;
    assert Step(c, map[], x).0 == UnprunedStep(c, map[], x).0 == map[ka := 0];
    assert Step(c, map[ka := 0], y).0 == map[kb := later];
    assert UnprunedStep(c, map[ka := 0], y).0 == map[ka := 0, kb := later];
    ThirdAnswer(c, map[], map[], x, y, z);
  }

  /** Pruning is invisible in every run if and only if nothing is pruned while it could
      still be on cooldown. */
  lemma {:induction false} PruningIsInvisibleExactlyWhen(c: Config)
    requires c.dedupWindow >= 0
    ensures c.dedupWindow + 1 >= c.cooldown <==>
      forall run {:induction false} :: Ordered(0, run) ==> Accepted(c, map[], run) == UnprunedAccepted(c, map[], run)
  {
    if c.dedupWindow + 1 >= c.cooldown {
      forall run | Ordered(0, run)
        ensures Accepted(c, map[], run) == UnprunedAccepted(c, map[], run)
      {
        PruningSimulates(c, map[], map[], 0, run);
      }
    } else {
      ShortWindowLeaks(c);
    }
  }

  // ----- which triggers are accepted -----

  lemma {:induction false} TriggersAre(reason: string)
    ensures IsTrigger(reason) <==>
      || Contains(reason, "BackOff") || Contains(reason, "CrashLoopBackOff") || Contains(reason, "Failed")
      || Contains(reason, "Unhealthy") || Contains(reason, "FailedScheduling") || Contains(reason, "ImagePullBackOff")
      || Contains(reason, "ErrImagePull") || Contains(reason, "OOMKilled") || Contains(reason, "Evicted")
      || Contains(reason, "NodeNotReady") || Contains(reason, "SystemOOM") || Contains(reason, "ContainerCreating")
  {
    hide Contains;
    assert |TRIGGER_PATTERNS| == 12;
    assert TRIGGER_PATTERNS[0] == "BackOff" && TRIGGER_PATTERNS[1] == "CrashLoopBackOff";
    assert TRIGGER_PATTERNS[2] == "Failed" && TRIGGER_PATTERNS[3] == "Unhealthy";
    assert TRIGGER_PATTERNS[4] == "FailedScheduling" && TRIGGER_PATTERNS[5] == "ImagePullBackOff";
    assert TRIGGER_PATTERNS[6] == "ErrImagePull" && TRIGGER_PATTERNS[7] == "OOMKilled";
    assert TRIGGER_PATTERNS[8] == "Evicted" && TRIGGER_PATTERNS[9] == "NodeNotReady";
    assert TRIGGER_PATTERNS[10] == "SystemOOM" && TRIGGER_PATTERNS[11] == "ContainerCreating";
  }

  predicate SameResource(a: Arrival, b: Arrival) { a.kind == b.kind && a.namespace == b.namespace && a.name == b.name }

  /** Kinds and namespaces, like all Kubernetes names, have no slash. */
  predicate PlainNames(a: Arrival) { '/' !in a.kind && '/' !in a.namespace }

  lemma {:induction false} KeysTellResourcesApart(a: Arrival, b: Arrival)
    requires PlainNames(a) && PlainNames(b)
    ensures a.Key() == b.Key() <==> SameResource(a, b)
  {
    if a.Key() == b.Key() {
      assert a.Key() == a.kind + ['/'] + (a.namespace + "/" + a.name);
      assert b.Key() == b.kind + ['/'] + (b.namespace + "/" + b.name);
      CutIsUnique(a.kind, a.namespace + "/" + a.name, b.kind, b.namespace + "/" + b.name, '/');
      assert a.namespace + "/" + a.name == a.namespace + ['/'] + a.name;
      assert b.namespace + "/" + b.name == b.namespace + ['/'] + b.name;
      CutIsUnique(a.namespace, a.name, b.namespace, b.name, '/');
    }
  }

  /** No accepted trigger on the resource of run[j] before it is still cooling down. */
  ghost predicate CooledDown(c: Config, run: seq<Arrival>, oks: seq<bool>, j: nat)
    requires |oks| == |run| && j < |run|
  {
    forall i: nat :: i < j && oks[i] && SameResource(run[i], run[j]) ==>
      run[j].checkedAt - run[i].stampedAt >= c.cooldown
  }

  /** The unpruned map holds the last accepted trigger of each key. */
  ghost predicate Remembers(m: Processed, run: seq<Arrival>, oks: seq<bool>)
    requires |oks| == |run|
  {
    && (forall i: nat :: i < |run| && oks[i] ==> run[i].Key() in m && run[i].stampedAt <= m[run[i].Key()])
    && (forall key :: key in m ==>
          exists i: nat :: i < |run| && oks[i] && run[i].Key() == key && run[i].stampedAt == m[key])
  }

  lemma {:induction false} RememberOne(c: Config, m: Processed, done: seq<Arrival>, oks: seq<bool>, clock: int,
                                       a: Arrival)
    requires |oks| == |done| && Remembers(m, done, oks) && clock <= a.stampedAt
    requires forall i: nat :: i < |done| ==> done[i].stampedAt <= clock
    ensures var (m', ok) := UnprunedStep(c, m, a); Remembers(m', done + [a], oks + [ok])
  {
    var (m', ok) := UnprunedStep(c, m, a);
    var run, all := done + [a], oks + [ok];
    forall key | key in m'
      ensures exists i: nat :: i < |run| && all[i] && run[i].Key() == key && run[i].stampedAt == m'[key]
    {
      if ok && key == a.Key() {
        assert run[|done|] == a && all[|done|];
      } else {
        var i: nat :| i < |done| && oks[i] && done[i].Key() == key && done[i].stampedAt == m[key];
        assert run[i] == done[i] && all[i];
      }
    }
  }

  lemma {:induction false} UnprunedAcceptsExactlyWhen(c: Config, m: Processed, done: seq<Arrival>, oks: seq<bool>,
      clock: int, run: seq<Arrival>, j: nat)
    requires |oks| == |done| && Remembers(m, done, oks) && Ordered(clock, run) && j < |run|
    requires forall i: nat :: i < |done| ==> done[i].stampedAt <= clock
    requires forall a :: a in done || a in run ==> PlainNames(a)
    ensures var all := oks + UnprunedAccepted(c, m, run);
      UnprunedAccepted(c, m, run)[j] <==>
        IsTrigger(run[j].reason) && CooledDown(c, done + run, all, |done| + j)
    decreases run
  {
    var a := run[0];
    var (m', ok) := UnprunedStep(c, m, a);
    assert UnprunedAccepted(c, m, run) == [ok] + UnprunedAccepted(c, m', run[1..]);
    assert (done + [a]) + run[1..] == done + run;
    assert (oks + [ok]) + UnprunedAccepted(c, m', run[1..]) == oks + UnprunedAccepted(c, m, run);
    RememberOne(c, m, done, oks, clock, a);
    if j > 0 {
      UnprunedAcceptsExactlyWhen(c, m', done + [a], oks + [ok], a.prunedAt, run[1..], j - 1);
    } else {
      var all := oks + UnprunedAccepted(c, m, run);
      assert a in run;
      forall i: nat | i < |done|
        ensures (done + run)[i] == done[i] && all[i] == oks[i]
        ensures done[i].Key() == a.Key() <==> SameResource(done[i], a)
      {
        assert done[i] in done;
        KeysTellResourcesApart(done[i], a);
      }
    }
  }

  lemma {:induction false} UnprunedFromStart(c: Config, clock: int, run: seq<Arrival>, j: nat)
    requires Ordered(clock, run) && j < |run| && forall a :: a in run ==> PlainNames(a)
    ensures var oks := UnprunedAccepted(c, map[], run);
      oks[j] <==> IsTrigger(run[j].reason) && CooledDown(c, run, oks, j)
  {
    var done: seq<Arrival>, none: seq<bool> := [], [];
    var oks := UnprunedAccepted(c, map[], run);
    UnprunedAcceptsExactlyWhen(c, map[], done, none, clock, run, j);
    assert done + run == run && none + oks == oks;
  }

  /** In every run a trigger is accepted exactly when its reason has one of the patterns and every
      trigger accepted before on the same resource is at least `cooldown` old. */
  lemma {:induction false} AcceptedExactlyWhen(c: Config, clock: int, run: seq<Arrival>, j: nat)
    requires Ordered(clock, run) && c.cooldown <= c.dedupWindow + 1 && j < |run|
    requires forall a :: a in run ==> PlainNames(a)
    ensures Accepted(c, map[], run)[j] <==> IsTrigger(run[j].reason) && CooledDown(c, run, Accepted(c, map[], run), j)
  {
    hide Accepted, UnprunedAccepted, IsTrigger, CooledDown;
    PruningSimulates(c, map[], map[], clock, run);
    UnprunedFromStart(c, clock, run, j);
  }

  // ----- accepted triggers are spaced out -----

  lemma {:induction false} CooldownFromLast(c: Config, m: Processed, clock: int, run: seq<Arrival>, key: string, j: nat)
    requires Ordered(clock, run) && key in m && c.cooldown >= 0
    requires j < |run| && run[j].Key() == key
    ensures UnprunedAccepted(c, m, run)[j] ==> run[j].checkedAt - m[key] >= c.cooldown
    decreases run
  {
    if j > 0 {
      var (m', ok) := UnprunedStep(c, m, run[0]);
      CooldownFromLast(c, m', run[0].prunedAt, run[1..], key, j - 1);
    }
  }

  lemma {:induction false} AcceptedAreSpacedUnpruned(c: Config, m: Processed, clock: int, run: seq<Arrival>,
      i: nat, j: nat)
    requires Ordered(clock, run) && c.cooldown >= 0
    requires i < j < |run| && run[i].Key() == run[j].Key()
    ensures UnprunedAccepted(c, m, run)[i] && UnprunedAccepted(c, m, run)[j]
      ==> run[j].checkedAt - run[i].stampedAt >= c.cooldown
    decreases run
  {
    var (m', ok) := UnprunedStep(c, m, run[0]);
    assert UnprunedAccepted(c, m, run) == [ok] + UnprunedAccepted(c, m', run[1..]);
    if i > 0 {
      AcceptedAreSpacedUnpruned(c, m', run[0].prunedAt, run[1..], i - 1, j - 1);
    } else if ok {
      CooldownFromLast(c, m', run[0].prunedAt, run[1..], run[0].Key(), j - 1);
    }
  }

  /** In every run, two accepted triggers on one resource are at least `cooldown` apart. */
  lemma {:induction false} AcceptedAreSpaced(c: Config, clock: int, run: seq<Arrival>, i: nat, j: nat)
    requires Ordered(clock, run) && 0 <= c.cooldown <= c.dedupWindow + 1
    requires i < j < |run| && run[i].Key() == run[j].Key()
    ensures Accepted(c, map[], run)[i] && Accepted(c, map[], run)[j]
      ==> run[j].checkedAt - run[i].stampedAt >= c.cooldown
  {
    PruningSimulates(c, map[], map[], clock, run);
    AcceptedAreSpacedUnpruned(c, map[], clock, run, i, j);
  }
}
