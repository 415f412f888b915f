/** How old the body of a HIT can be when the entries of warmed paths are left alone and workers
    save within a ttl: then a worker's check misses only before the body is first stored, and
    no save is followed by another of the same body. */
module CacheCover {
  import opened Common
  import opened ResponseCache
  import opened CacheAges

  /** How long after its origin a body is first stored. */
  function Slack(g: Setting, left: bool): nat { if left then g.saveDelay else g.storeDelay }

  /** The latest time at which a body of that origin is first stored. */
  function FirstStored(g: Setting, o: Origin): int { o.at + Slack(g, o.left) }

  predicate EntryIsYoung(g: Setting, clock: int, s: System, key: string)
    requires key in s.entries
  {
    && key in s.origins
    && s.entries[key].expiresAt <= clock + g.ttl
    && s.entries[key].expiresAt <= FirstStored(g, s.origins[key]) + g.saveDelay + g.ttl
  }

  /** The worker's check either came after the entry expired, or before its body was first
      stored. */
  predicate CheckMissed(g: Setting, s: System, w: Warming)
    requires !w.Taken?
  {
    AnonKey(w.path) in s.entries ==>
      var e := s.entries[AnonKey(w.path)];
      || e.expiresAt < w.since
      || (w.since + g.ttl <= e.expiresAt && w.since <= FirstStored(g, OriginOf(s, AnonKey(w.path))))
  }

  /** While the worker may still save what it has, no other check for the path misses, unless
      its own handler panicked and nothing is stored yet. */
  predicate Covered(g: Setting, s: System, w: Warming)
    requires w.Written?
  {
    || (w.origin.left && w.since <= w.origin.at)
    || (AnonKey(w.path) in s.entries && w.since + g.saveDelay <= s.entries[AnonKey(w.path)].expiresAt)
  }

  /** `v` checked before the body `w` holds was first stored, or too late for `w` to save it. */
  predicate Apart(g: Setting, v: Warming, w: Warming)
    requires w.Written?
  {
    !v.Taken? && AnonKey(v.path) == AnonKey(w.path) ==>
      v.since <= FirstStored(g, w.origin) || w.since + g.saveDelay < v.since
  }

  predicate WorkerInv(g: Setting, clock: int, s: System, w: Warming) {
    && w.path in g.paths
    && (!w.Taken? ==> w.since <= clock && CheckMissed(g, s, w))
    && (w.Written? && Cacheable(w.body) ==>
          Covered(g, s, w) && forall v :: v in s.warming ==> Apart(g, s.warming[v], w))
  }

  predicate HitIsYoung(g: Setting, h: Hit) { h.at <= FirstStored(g, h.origin) + g.saveDelay + g.ttl }

  ghost predicate AgeInv(g: Setting, clock: int, s: System) {
    && (forall path :: path in s.jobs ==> path in g.paths)
    && (forall key :: key in s.entries ==> EntryIsYoung(g, clock, s, key))
    && (forall w :: w in s.warming ==> WorkerInv(g, clock, s, s.warming[w]))
    && (forall h :: h in s.hits ==> HitIsYoung(g, h))
  }

  lemma {:induction false} SavedStaysYoung(g: Setting, clock: int, s: System, key: string, body: string,
      origin: Origin, now: int)
    requires AgeInv(g, clock, s) && !Chains(g) && clock <= now <= FirstStored(g, origin) + g.saveDelay
    requires forall w :: w in s.warming && !s.warming[w].Taken? && AnonKey(s.warming[w].path) == key ==>
      s.warming[w].since <= FirstStored(g, origin)
    ensures AgeInv(g, now, Saved(g.ttl, s, key, body, origin, now))
  {
    var s' := Saved(g.ttl, s, key, body, origin, now);
    forall k | k in s'.entries
      ensures EntryIsYoung(g, now, s', k)
    {
      assert k in s.entries ==> EntryIsYoung(g, clock, s, k);
    }
    forall w | w in s'.warming
      ensures WorkerInv(g, now, s', s'.warming[w])
    {
      assert WorkerInv(g, clock, s, s.warming[w]);
    }
  }

  lemma {:induction false} ServedStaysYoung(g: Setting, clock: int, s: System, key: string, now: int)
    requires AgeInv(g, clock, s) && clock <= now && Get(s.entries, key, now).Some?
    ensures AgeInv(g, now, Served(s, key, Get(s.entries, key, now).value, now))
  {
    assert EntryIsYoung(g, clock, s, key);
    var s' := Served(s, key, Get(s.entries, key, now).value, now);
    forall w | w in s'.warming
      ensures WorkerInv(g, now, s', s'.warming[w])
    {
      assert WorkerInv(g, clock, s, s.warming[w]);
    }
  }

  /** A worker takes its next step without touching the cache. */
  lemma {:induction false} WorkerMoves(g: Setting, clock: int, s: System, w: nat, next: Warming, now: int)
    requires AgeInv(g, clock, s) && clock <= now
    requires !next.Taken? && next.path in g.paths && next.since <= now && CheckMissed(g, s, next)
    requires next.Written? && Cacheable(next.body) ==>
      && Covered(g, s, next) && next.since <= FirstStored(g, next.origin)
      && forall v :: v in s.warming ==> Apart(g, s.warming[v], next)
    requires forall v :: v in s.warming && s.warming[v].Written? && Cacheable(s.warming[v].body) ==>
      Apart(g, next, s.warming[v])
    ensures AgeInv(g, now, s.(warming := s.warming[w := next]))
  {
    var s' := s.(warming := s.warming[w := next]);
    forall v | v in s'.warming
      ensures WorkerInv(g, now, s', s'.warming[v])
    {
      assert v != w ==> WorkerInv(g, clock, s, s.warming[v]);
    }
  }

  lemma {:induction false} CheckStaysYoung(g: Setting, clock: int, s: System, w: nat, now: int)
    requires AgeInv(g, clock, s) && clock <= now && w in s.warming && s.warming[w].Taken?
    ensures AgeInv(g, now, Step(g.ttl, s, WarmCheck(w, now)))
  {
    assert WorkerInv(g, clock, s, s.warming[w]);
    if Get(s.entries, AnonKey(s.warming[w].path), now).Some? {
      LosesWorker(g, clock, s, w);
      LaterStaysYoung(g, clock, s.(warming := s.warming - {w}), now);
    } else {
      var next := Missed(s.warming[w].path, now);
      forall v | v in s.warming && s.warming[v].Written? && Cacheable(s.warming[v].body)
        ensures Apart(g, next, s.warming[v])
      {
        assert WorkerInv(g, clock, s, s.warming[v]);
        assert Apart(g, s.warming[v], s.warming[v]);
      }
      WorkerMoves(g, clock, s, w, next, now);
    }
  }

  lemma {:induction false} TakeStaysYoung(g: Setting, clock: int, s: System, w: nat)
    requires AgeInv(g, clock, s) && w < MAX_WORKERS && w !in s.warming && s.jobs != []
    ensures AgeInv(g, clock, Step(g.ttl, s, WarmTake(w)))
  {
    var s' := Step(g.ttl, s, WarmTake(w));
    forall v | v in s'.warming
      ensures WorkerInv(g, clock, s', s'.warming[v])
    {
      assert v != w ==> WorkerInv(g, clock, s, s.warming[v]);
    }
  }

  lemma {:induction false} LaterStaysYoung(g: Setting, clock: int, s: System, now: int)
    requires AgeInv(g, clock, s) && clock <= now
    ensures AgeInv(g, now, s)
  {
    forall w | w in s.warming
      ensures WorkerInv(g, now, s, s.warming[w])
    {
      assert WorkerInv(g, clock, s, s.warming[w]);
    }
    forall key | key in s.entries
      ensures EntryIsYoung(g, now, s, key)
    {
      assert EntryIsYoung(g, clock, s, key);
    }
  }

  lemma {:induction false} WarmLookupStaysYoung(g: Setting, clock: int, s: System, w: nat, now: int)
    requires AgeInv(g, clock, s) && !Chains(g) && clock <= now
    requires w in s.warming && s.warming[w].Missed?
    ensures AgeInv(g, now, Step(g.ttl, s, WarmLookup(w, now)))
  {
    var Missed(path, since) := s.warming[w];
    var key := AnonKey(path);
    assert WorkerInv(g, clock, s, s.warming[w]);
    if Get(s.entries, key, now).None? {
      MovesOn(g, clock, s, w, Running(path, since), now);
    } else {
      var next := Written(path, since, s.entries[key].data, OriginOf(s, key));
      forall v | v in s.warming
        ensures Apart(g, s.warming[v], next)
      {
        assert WorkerInv(g, clock, s, s.warming[v]);
      }
      MovesOn(g, clock, s, w, next, clock);
      ServedStaysYoung(g, clock, s.(warming := s.warming[w := next]), key, now);
    }
  }

  /** The same, for a worker that keeps its path. */
  lemma {:induction false} MovesOn(g: Setting, clock: int, s: System, w: nat, next: Warming, now: int)
    requires AgeInv(g, clock, s) && clock <= now
    requires w in s.warming && !s.warming[w].Taken? && !next.Taken?
    requires next.path == s.warming[w].path && next.since == s.warming[w].since
    requires next.Written? && Cacheable(next.body) ==>
      && Covered(g, s, next) && next.since <= FirstStored(g, next.origin)
      && forall v :: v in s.warming ==> Apart(g, s.warming[v], next)
    ensures AgeInv(g, now, s.(warming := s.warming[w := next]))
  {
    assert WorkerInv(g, clock, s, s.warming[w]);
    forall v | v in s.warming && s.warming[v].Written? && Cacheable(s.warming[v].body)
      ensures Apart(g, next, s.warming[v])
    {
      assert WorkerInv(g, clock, s, s.warming[v]);
      assert Apart(g, s.warming[w], s.warming[v]);
    }
    WorkerMoves(g, clock, s, w, next, now);
  }

  lemma {:induction false} WarmPanicStaysYoung(g: Setting, clock: int, s: System, w: nat, written: string, now: int)
    requires AgeInv(g, clock, s) && clock <= now
    requires w in s.warming && s.warming[w].Running?
    ensures AgeInv(g, now, Step(g.ttl, s, WarmPanic(w, written, now)))
  {
    var Running(path, since) := s.warming[w];
    var next := Written(path, since, written, Origin(true, now));
    forall v | v in s.warming
      ensures WorkerInv(g, clock, s, s.warming[v]) && Apart(g, s.warming[v], next)
    {
      assert WorkerInv(g, clock, s, s.warming[v]);
    }
    var mid := s.(leftovers := s.leftovers + {Made(AnonKey(path), written, now)});
    SameCache(g, clock, s, mid);
    MovesOn(g, clock, mid, w, next, now);
  }

  /** Only what the invariant reads matters. */
  lemma {:induction false} SameCache(g: Setting, clock: int, s: System, s': System)
    requires AgeInv(g, clock, s)
    requires s'.entries == s.entries && s'.origins == s.origins && s'.warming == s.warming && s'.hits == s.hits
    requires forall path :: path in s'.jobs ==> path in g.paths
    ensures AgeInv(g, clock, s')
  {
    forall w | w in s.warming
      ensures WorkerInv(g, clock, s', s.warming[w])
    {
      assert WorkerInv(g, clock, s, s.warming[w]);
    }
    forall key | key in s.entries
      ensures EntryIsYoung(g, clock, s', key)
    {
      assert EntryIsYoung(g, clock, s, key);
    }
  }

  lemma {:induction false} WarmSaveStaysYoung(g: Setting, clock: int, s: System, w: nat, now: int)
    requires AgeInv(g, clock, s) && !Chains(g) && clock <= now
    requires w in s.warming && s.warming[w].Written? && Allowed(g, s, WarmSave(w, now))
    ensures AgeInv(g, now, Step(g.ttl, s, WarmSave(w, now)))
  {
    var Written(path, since, body, origin) := s.warming[w];
    var mid := s.(warming := s.warming - {w});
    LosesWorker(g, clock, s, w);
    assert WorkerInv(g, clock, s, s.warming[w]);
    if Cacheable(body) {
      assert Apart(g, s.warming[w], s.warming[w]);
      forall v | v in mid.warming && !mid.warming[v].Taken? && AnonKey(mid.warming[v].path) == AnonKey(path)
        ensures mid.warming[v].since <= FirstStored(g, origin)
      {
        assert Apart(g, s.warming[v], s.warming[w]) && WorkerInv(g, clock, s, s.warming[v]);
      }
      SavedStaysYoung(g, clock, mid, AnonKey(path), body, origin, now);
    } else {
      LaterStaysYoung(g, clock, mid, now);
    }
  }

  lemma {:induction false} LosesWorker(g: Setting, clock: int, s: System, w: nat)
    requires AgeInv(g, clock, s)
    ensures AgeInv(g, clock, s.(warming := s.warming - {w}))
  {
    var s' := s.(warming := s.warming - {w});
    forall v | v in s'.warming
      ensures WorkerInv(g, clock, s', s'.warming[v])
    {
      assert WorkerInv(g, clock, s, s.warming[v]);
    }
  }

  lemma {:induction false} WarmStoreStaysYoung(g: Setting, clock: int, s: System, w: nat, now: int)
    requires AgeInv(g, clock, s) && !Chains(g) && clock <= now
    requires w in s.warming && s.warming[w].Answered? && Allowed(g, s, WarmStore(w, now))
    ensures AgeInv(g, now, Step(g.ttl, s, WarmStore(w, now)))
  {
    var Answered(path, since, body, made) := s.warming[w];
    var origin := Origin(false, made);
    forall v | v in s.warming && !s.warming[v].Taken?
      ensures s.warming[v].since <= FirstStored(g, origin)
    {
      assert WorkerInv(g, clock, s, s.warming[v]);
    }
    // The entry is stored before the worker can be said to hold what it covers.
    var stored := Saved(g.ttl, s, AnonKey(path), body, origin, now);
    if Cacheable(body) {
      SavedStaysYoung(g, clock, s, AnonKey(path), body, origin, now);
    } else {
      LaterStaysYoung(g, clock, s, now);
    }
    MovesOn(g, now, stored, w, Written(path, since, body, origin), now);
  }

  lemma {:induction false} DropStaysYoung(g: Setting, clock: int, s: System, entries: Entries)
    requires AgeInv(g, clock, s) && !Chains(g)
    requires forall key :: key in entries ==> key in s.entries && entries[key] == s.entries[key]
    requires forall path :: path in g.paths && AnonKey(path) in s.entries ==> AnonKey(path) in entries
    ensures AgeInv(g, clock, s.(entries := entries))
  {
    var s' := s.(entries := entries);
    forall key | key in entries
      ensures EntryIsYoung(g, clock, s', key)
    {
      assert EntryIsYoung(g, clock, s, key);
    }
    forall w | w in s'.warming
      ensures WorkerInv(g, clock, s', s'.warming[w])
    {
      assert WorkerInv(g, clock, s, s.warming[w]);
    }
  }

  lemma {:induction false} WarmingStaysYoung(g: Setting, clock: int, s: System, a: Action)
    requires AgeInv(g, clock, s) && !Chains(g) && Allowed(g, s, a) && clock <= Reading(a, clock)
    requires a.WarmLookup? || a.WarmProduce? || a.WarmPanic? || a.WarmStore? || a.WarmSave?
    ensures AgeInv(g, Reading(a, clock), Step(g.ttl, s, a))
  {
    var w, now := a.worker, a.now;
    if a.WarmLookup? && w in s.warming && s.warming[w].Missed? {
      WarmLookupStaysYoung(g, clock, s, w, now);
    } else if a.WarmProduce? && w in s.warming && s.warming[w].Running? {
      var Running(path, since) := s.warming[w];
      var mid := s.(produced := s.produced + {Made(AnonKey(path), a.body, now)});
      SameCache(g, clock, s, mid);
      MovesOn(g, clock, mid, w, Answered(path, since, a.body, now), now);
    } else if a.WarmPanic? && w in s.warming && s.warming[w].Running? {
      WarmPanicStaysYoung(g, clock, s, w, a.written, now);
    } else if a.WarmStore? && w in s.warming && s.warming[w].Answered? {
      WarmStoreStaysYoung(g, clock, s, w, now);
    } else if a.WarmSave? && w in s.warming && s.warming[w].Written? {
      WarmSaveStaysYoung(g, clock, s, w, now);
    } else {
      LaterStaysYoung(g, clock, s, now);
    }
  }

  lemma {:induction false} StoreStaysYoung(g: Setting, clock: int, s: System, id: nat, now: int)
    requires AgeInv(g, clock, s) && !Chains(g) && clock <= now
    requires id in s.pending && s.pending[id].Holding? && Allowed(g, s, Store(id, now))
    ensures AgeInv(g, now, Step(g.ttl, s, Store(id, now)))
  {
    var Holding(key, body, made) := s.pending[id];
    var mid := s.(pending := s.pending - {id});
    SameCache(g, clock, s, mid);
    if Cacheable(body) {
      forall w | w in mid.warming && !mid.warming[w].Taken?
        ensures mid.warming[w].since <= FirstStored(g, Origin(false, made))
      {
        assert WorkerInv(g, clock, s, s.warming[w]);
      }
      SavedStaysYoung(g, clock, mid, key, body, Origin(false, made), now);
    } else {
      LaterStaysYoung(g, clock, mid, now);
    }
  }

  lemma {:induction false} StepStaysYoung(g: Setting, clock: int, s: System, a: Action)
    requires AgeInv(g, clock, s) && !Chains(g) && Allowed(g, s, a) && clock <= Reading(a, clock)
    ensures AgeInv(g, Reading(a, clock), Step(g.ttl, s, a))
  {
    var now := Reading(a, clock);
    match a {
      case Lookup(id, key, _) =>
        if id !in s.pending && Get(s.entries, key, now).Some? {
          ServedStaysYoung(g, clock, s, key, now);
        } else {
          SameCache(g, clock, s, Step(g.ttl, s, a));
          LaterStaysYoung(g, clock, Step(g.ttl, s, a), now);
        }
      case Store(id, _) =>
        if id in s.pending && s.pending[id].Holding? {
          StoreStaysYoung(g, clock, s, id, now);
        } else {
          LaterStaysYoung(g, clock, s, now);
        }
      case WarmStart(_) =>
        SameCache(g, clock, s, Step(g.ttl, s, a));
      case WarmTake(w) =>
        if w < MAX_WORKERS && w !in s.warming && s.jobs != [] {
          TakeStaysYoung(g, clock, s, w);
        }
      case WarmCheck(w, _) =>
        if w in s.warming && s.warming[w].Taken? {
          CheckStaysYoung(g, clock, s, w, now);
        } else {
          LaterStaysYoung(g, clock, s, now);
        }
      case Drop(key) =>
        DropStaysYoung(g, clock, s, s.entries - {key});
      case DropPrefix(prefix) =>
        DropStaysYoung(g, clock, s, WithoutPrefix(s.entries, prefix));
      case Produce(_, _, _) =>
        SameCache(g, clock, s, Step(g.ttl, s, a));
        LaterStaysYoung(g, clock, Step(g.ttl, s, a), now);
      case Fail(_) =>
        SameCache(g, clock, s, Step(g.ttl, s, a));
      case _ =>
        WarmingStaysYoung(g, clock, s, a);
    }
  }

  lemma {:induction false} RunStaysYoung(g: Setting, clock: int, s: System, actions: seq<Action>)
    requires AgeInv(g, clock, s) && !Chains(g) && Ordered(clock, actions) && AllAllowed(g, s, actions)
    ensures forall h :: h in Run(g.ttl, s, actions).hits ==> HitIsYoung(g, h)
    decreases actions
  {
    if actions != [] {
      StepStaysYoung(g, clock, s, actions[0]);
      RunStaysYoung(g, Reading(actions[0], clock), Step(g.ttl, s, actions[0]), actions[1..]);
    }
  }
}
