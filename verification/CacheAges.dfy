/** How old the body of a HIT can be, from above.  The time to live counts from the last store,
    and a worker of the warmer that has missed in the cache may meet a live entry on its own
    request and store that body once more, with a fresh expiry.  CacheRelays has the runs that
    reach the bounds. */
module CacheAges {
  import opened Common
  import opened ResponseCache

  /** What the runs keep to: a middleware stores a body at most `storeDelay` after its handler
      returned, a worker saves at most `saveDelay` after its check, every pass of the warmer is
      over `paths`, and their entries are dropped before they expire only if `invalidates`. */
  datatype Setting = Setting(ttl: nat, storeDelay: nat, saveDelay: nat, paths: seq<string>, invalidates: bool)

  predicate Allowed(g: Setting, s: System, a: Action) {
    match a
    case Store(id, now) =>
      id in s.pending && s.pending[id].Holding? ==> now <= s.pending[id].made + g.storeDelay
    case WarmStart(paths) => paths == g.paths
    case WarmStore(w, now) => w in s.warming && s.warming[w].Answered? ==> now <= s.warming[w].made + g.storeDelay
    case WarmSave(w, now) => w in s.warming && s.warming[w].Written? ==> now <= s.warming[w].since + g.saveDelay
    case Drop(key) => g.invalidates || forall path :: path in g.paths ==> key != AnonKey(path)
    case DropPrefix(prefix) => g.invalidates || forall path :: path in g.paths ==> !HasPrefix(AnonKey(path), prefix)
    case _ => true
  }

  predicate AllAllowed(g: Setting, s: System, actions: seq<Action>)
    decreases actions
  {
    actions == [] || (Allowed(g, s, actions[0]) && AllAllowed(g, Step(g.ttl, s, actions[0]), actions[1..]))
  }

  /** A check can miss although another worker holds a body stored before: its entry was
      dropped, or has expired. */
  predicate Chains(g: Setting) { g.invalidates || g.saveDelay > g.ttl }

  /** A refresh drops the key of its own URL, which has a query, so it leaves the entries of
      warmed paths alone. */
  lemma {:induction false} RefreshesLeaveWarmedPathsAlone(g: Setting, s: System, r: Request)
    requires PlainUser(r.user) && PlainPath(r.path) && r.rawQuery != ""
    requires forall path :: path in g.paths ==> PlainPath(path)
    ensures Allowed(g, s, Drop(Key(r)))
  {
    forall path | path in g.paths
      ensures Key(r) != AnonKey(path)
    {
      KeysAreInjective(r, Request(None, path, ""));
    }
  }

  // ----- how often a path is listed -----

  function MostIn(rest: seq<string>, paths: seq<string>): nat {
    if rest == [] then 0
    else
      var n, most := multiset(paths)[rest[0]], MostIn(rest[1..], paths);
      if n >= most then n else most
  }

  /** How often the path listed most often is listed. */
  function MostListed(paths: seq<string>): nat { MostIn(paths, paths) }

  lemma {:induction false} MostInBounds(rest: seq<string>, paths: seq<string>, path: string)
    requires path in rest
    ensures multiset(paths)[path] <= MostIn(rest, paths)
    decreases rest
  {
    if path != rest[0] {
      MostInBounds(rest[1..], paths, path);
    }
  }

  lemma {:induction false} ListedAtMost(paths: seq<string>, path: string)
    ensures multiset(paths)[path] <= MostListed(paths)
  {
    if path in multiset(paths) {
      MostInBounds(paths, paths, path);
    }
  }

  lemma {:induction false} MostInIsListed(rest: seq<string>, paths: seq<string>) returns (path: string)
    requires rest != []
    ensures path in rest && multiset(paths)[path] == MostIn(rest, paths)
    decreases rest
  {
    path := rest[0];
    if |rest| > 1 && MostIn(rest[1..], paths) > multiset(paths)[path] {
      path := MostInIsListed(rest[1..], paths);
    }
  }

  // ----- a bound by the number of saves -----

  function At(warming: map<nat, Warming>, path: string): set<nat> { set w | w in warming && warming[w].path == path }

  /** How many workers are done with the path in this pass. */
  function Spent(g: Setting, s: System, path: string): int {
    multiset(g.paths)[path] - multiset(s.jobs)[path] - |At(s.warming, path)|
  }

  lemma {:induction false} AtWith(warming: map<nat, Warming>, w: nat, v: Warming, path: string)
    requires w !in warming
    ensures |At(warming[w := v], path)| == |At(warming, path)| + if v.path == path then 1 else 0
  {
    assert At(warming[w := v], path) == At(warming, path) + if v.path == path then {w} else {};
  }

  lemma {:induction false} AtWithout(warming: map<nat, Warming>, w: nat, path: string)
    requires w in warming
    ensures |At(warming - {w}, path)| == |At(warming, path)| - if warming[w].path == path then 1 else 0
  {
    assert At(warming - {w}, path) == At(warming, path) - if warming[w].path == path then {w} else {};
  }

  lemma {:induction false} AtAfter(warming: map<nat, Warming>, w: nat, v: Warming, path: string)
    requires w in warming && v.path == warming[w].path
    ensures At(warming[w := v], path) == At(warming, path)
  {}

  /** When bodies of that origin are stored at first, by the middleware. */
  function Base(g: Setting, o: Origin): int { o.at + if o.left then 0 else g.storeDelay }

  /** The latest store of such a body after that many saves in a row. */
  function After(g: Setting, o: Origin, saves: int): int { Base(g, o) + saves * g.saveDelay }

  lemma {:induction false} MoreSaves(g: Setting, o: Origin, m: int, n: int)
    requires m <= n
    ensures After(g, o, m) <= After(g, o, n)
  {
    MulMono(m, n, g.saveDelay);
  }

  predicate EntryCounts(g: Setting, clock: int, s: System, key: string)
    requires key in s.entries
  {
    && key in s.origins
    && s.entries[key].expiresAt <= clock + g.ttl
    && s.entries[key].expiresAt <= After(g, s.origins[key], MostListed(g.paths)) + g.ttl
  }

  /** The entry for the worker's path expired before the check, or was stored since then. */
  predicate MeetsCounted(g: Setting, s: System, w: Warming)
    requires !w.Taken?
  {
    AnonKey(w.path) in s.entries ==>
      var e := s.entries[AnonKey(w.path)];
      || e.expiresAt < w.since
      || (w.since + g.ttl <= e.expiresAt <= After(g, OriginOf(s, AnonKey(w.path)), Spent(g, s, w.path)) + g.ttl)
  }

  predicate WorkerCounts(g: Setting, clock: int, s: System, w: Warming) {
    !w.Taken? ==>
      && w.since <= clock
      && MeetsCounted(g, s, w)
      && (w.Answered? ==> w.since <= w.made)
      && (w.Written? && Cacheable(w.body) ==> w.since <= After(g, w.origin, Spent(g, s, w.path)))
  }

  predicate HitCounts(g: Setting, h: Hit) { h.at <= After(g, h.origin, MostListed(g.paths)) + g.ttl }

  ghost predicate CountInv(g: Setting, clock: int, s: System) {
    && (forall path :: Spent(g, s, path) >= 0)
    && (forall key :: key in s.entries ==> EntryCounts(g, clock, s, key))
    && (forall w :: w in s.warming ==> WorkerCounts(g, clock, s, s.warming[w]))
    && (forall h :: h in s.hits ==> HitCounts(g, h))
  }

  lemma {:induction false} WorkerStillCounts(g: Setting, clock: int, now: int, s: System, s': System, w: Warming)
    requires WorkerCounts(g, clock, s, w) && clock <= now && s'.origins == s.origins
    requires forall key :: key in s'.entries ==> key in s.entries && s'.entries[key] == s.entries[key]
    requires Spent(g, s, w.path) <= Spent(g, s', w.path)
    ensures WorkerCounts(g, now, s', w)
  {
    MoreSaves(g, OriginOf(s, AnonKey(w.path)), Spent(g, s, w.path), Spent(g, s', w.path));
    if w.Written? {
      MoreSaves(g, w.origin, Spent(g, s, w.path), Spent(g, s', w.path));
    }
  }

  /** Steps that store and serve nothing. */
  lemma {:induction false} MovingCounts(g: Setting, clock: int, now: int, s: System, s': System)
    requires CountInv(g, clock, s) && clock <= now && s'.origins == s.origins && s'.hits == s.hits
    requires forall key :: key in s'.entries ==> key in s.entries && s'.entries[key] == s.entries[key]
    requires forall path :: Spent(g, s, path) <= Spent(g, s', path)
    requires forall w :: w in s'.warming ==>
      (w in s.warming && s'.warming[w] == s.warming[w]) || WorkerCounts(g, now, s', s'.warming[w])
    ensures CountInv(g, now, s')
  {
    forall w | w in s'.warming
      ensures WorkerCounts(g, now, s', s'.warming[w])
    {
      if w in s.warming && s'.warming[w] == s.warming[w] {
        WorkerStillCounts(g, clock, now, s, s', s.warming[w]);
      }
    }
    forall key | key in s'.entries
      ensures EntryCounts(g, now, s', key)
    {
      assert EntryCounts(g, clock, s, key);
    }
  }

  lemma {:induction false} ServedCounts(g: Setting, clock: int, s: System, key: string, now: int)
    requires CountInv(g, clock, s) && clock <= now && Get(s.entries, key, now).Some?
    ensures CountInv(g, now, Served(s, key, Get(s.entries, key, now).value, now))
  {
    assert EntryCounts(g, clock, s, key);
    MovingCounts(g, clock, now, s, s);
    var s' := Served(s, key, Get(s.entries, key, now).value, now);
    forall path
      ensures Spent(g, s', path) >= 0
    {
      assert Spent(g, s', path) == Spent(g, s, path);
    }
    forall w | w in s'.warming
      ensures WorkerCounts(g, now, s', s'.warming[w])
    {
      assert WorkerCounts(g, now, s, s.warming[w]);
    }
    forall k | k in s'.entries
      ensures EntryCounts(g, now, s', k)
    {
      assert EntryCounts(g, now, s, k);
    }
  }

  lemma {:induction false} AnonKeysDiffer(p: string, q: string)
    ensures AnonKey(p) == AnonKey(q) <==> p == q
  {
    assert AnonKey(p)[5..|AnonKey(p)| - 1] == p && AnonKey(q)[5..|AnonKey(q)| - 1] == q;
  }

  /** A store counts if it comes early enough for the saves made on the path so far. */
  lemma {:induction false} SavedCounts(g: Setting, clock: int, s: System, key: string, body: string, origin: Origin,
      now: int)
    requires CountInv(g, clock, s) && clock <= now <= After(g, origin, MostListed(g.paths))
    requires forall path :: AnonKey(path) == key ==> now <= After(g, origin, Spent(g, s, path))
    ensures CountInv(g, now, Saved(g.ttl, s, key, body, origin, now))
  {
    var s' := Saved(g.ttl, s, key, body, origin, now);
    forall path
      ensures Spent(g, s', path) == Spent(g, s, path) >= 0
    {}
    forall w | w in s'.warming
      ensures WorkerCounts(g, now, s', s'.warming[w])
    {
      assert WorkerCounts(g, clock, s, s.warming[w]);
    }
    forall k | k in s'.entries
      ensures EntryCounts(g, now, s', k)
    {
      assert k in s.entries ==> EntryCounts(g, clock, s, k);
    }
  }

  /** A body stored by the middleware. */
  lemma {:induction false} FirstStoreCounts(g: Setting, clock: int, s: System, key: string, body: string, made: int,
      now: int)
    requires CountInv(g, clock, s) && clock <= now <= made + g.storeDelay
    ensures CountInv(g, now, Saved(g.ttl, s, key, body, Origin(false, made), now))
  {
    var origin := Origin(false, made);
    MoreSaves(g, origin, 0, MostListed(g.paths));
    forall path | AnonKey(path) == key
      ensures now <= After(g, origin, Spent(g, s, path))
    {
      MoreSaves(g, origin, 0, Spent(g, s, path));
    }
    SavedCounts(g, clock, s, key, body, origin, now);
  }

  lemma {:induction false} PathIsDone(g: Setting, s: System, w: nat, path: string)
    requires w in s.warming
    ensures Spent(g, s.(warming := s.warming - {w}), path)
         == Spent(g, s, path) + if s.warming[w].path == path then 1 else 0
  {
    AtWithout(s.warming, w, path);
  }

  lemma {:induction false} LeavingCounts(g: Setting, clock: int, now: int, s: System, w: nat)
    requires CountInv(g, clock, s) && clock <= now && w in s.warming
    ensures CountInv(g, now, s.(warming := s.warming - {w}))
  {
    forall path
      ensures Spent(g, s, path) <= Spent(g, s.(warming := s.warming - {w}), path)
    {
      PathIsDone(g, s, w, path);
    }
    MovingCounts(g, clock, now, s, s.(warming := s.warming - {w}));
  }

  /** The worker takes its next step, with what its handler did recorded. */
  lemma {:induction false} WorkingCounts(g: Setting, clock: int, now: int, s: System, s': System, w: nat,
      next: Warming)
    requires CountInv(g, clock, s) && clock <= now && w in s.warming && next.path == s.warming[w].path
    requires s'.entries == s.entries && s'.origins == s.origins && s'.hits == s.hits && s'.jobs == s.jobs
    requires s'.warming == s.warming[w := next] && WorkerCounts(g, now, s, next)
    ensures CountInv(g, now, s')
  {
    forall path
      ensures Spent(g, s, path) == Spent(g, s', path)
    {
      AtAfter(s.warming, w, next, path);
    }
    WorkerStillCounts(g, now, now, s, s', next);
    MovingCounts(g, clock, now, s, s');
  }

  lemma {:induction false} WarmSaveCounts(g: Setting, clock: int, s: System, w: nat, now: int)
    requires CountInv(g, clock, s) && clock <= now
    requires w in s.warming && s.warming[w].Written? && Allowed(g, s, WarmSave(w, now))
    ensures CountInv(g, now, Step(g.ttl, s, WarmSave(w, now)))
  {
    var Written(path, since, body, origin) := s.warming[w];
    var mid := s.(warming := s.warming - {w});
    LeavingCounts(g, clock, now, s, w);
    if Cacheable(body) {
      assert WorkerCounts(g, clock, s, s.warming[w]);
      PathIsDone(g, s, w, path);
      OneMoreSave(g, origin, Spent(g, s, path));
      assert now <= After(g, origin, Spent(g, mid, path));
      ListedAtMost(g.paths, path);
      MoreSaves(g, origin, Spent(g, mid, path), MostListed(g.paths));
      forall p | AnonKey(p) == AnonKey(path)
        ensures p == path
      {
        AnonKeysDiffer(p, path);
      }
      SavedCounts(g, now, mid, AnonKey(path), body, origin, now);
    }
  }

  lemma {:induction false} OneMoreSave(g: Setting, o: Origin, n: int)
    ensures After(g, o, n + 1) == After(g, o, n) + g.saveDelay
  {
    assert (n + 1) * g.saveDelay == n * g.saveDelay + g.saveDelay;
  }

  lemma {:induction false} WarmLookupCounts(g: Setting, clock: int, s: System, w: nat, now: int)
    requires CountInv(g, clock, s) && clock <= now && w in s.warming && s.warming[w].Missed?
    ensures CountInv(g, now, Step(g.ttl, s, WarmLookup(w, now)))
  {
    var Missed(path, since) := s.warming[w];
    var key := AnonKey(path);
    assert WorkerCounts(g, clock, s, s.warming[w]);
    if Get(s.entries, key, now).None? {
      WorkingCounts(g, clock, now, s, Step(g.ttl, s, WarmLookup(w, now)), w, Running(path, since));
    } else {
      var next := Written(path, since, s.entries[key].data, OriginOf(s, key));
      var mid := s.(warming := s.warming[w := next]);
      WorkingCounts(g, clock, clock, s, mid, w, next);
      ServedCounts(g, clock, mid, key, now);
    }
  }

  lemma {:induction false} WarmStoreCounts(g: Setting, clock: int, s: System, w: nat, now: int)
    requires CountInv(g, clock, s) && clock <= now
    requires w in s.warming && s.warming[w].Answered? && Allowed(g, s, WarmStore(w, now))
    ensures CountInv(g, now, Step(g.ttl, s, WarmStore(w, now)))
  {
    var Answered(path, since, body, made) := s.warming[w];
    var origin := Origin(false, made);
    var next := Written(path, since, body, origin);
    var mid := s.(warming := s.warming[w := next]);
    assert WorkerCounts(g, clock, s, s.warming[w]);
    MoreSaves(g, origin, 0, Spent(g, s, path));
    WorkingCounts(g, clock, clock, s, mid, w, next);
    FirstStoreCounts(g, clock, mid, AnonKey(path), body, made, now);
  }

  lemma {:induction false} WarmCallCounts(g: Setting, clock: int, s: System, a: Action)
    requires CountInv(g, clock, s) && (a.WarmProduce? || a.WarmPanic?) && clock <= a.now
    requires a.worker in s.warming && s.warming[a.worker].Running?
    ensures CountInv(g, a.now, Step(g.ttl, s, a))
  {
    var Running(path, since) := s.warming[a.worker];
    assert WorkerCounts(g, clock, s, s.warming[a.worker]);
    MoreSaves(g, Origin(true, a.now), 0, Spent(g, s, path));
    var s' := Step(g.ttl, s, a);
    WorkingCounts(g, clock, a.now, s, s', a.worker, s'.warming[a.worker]);
  }

  lemma {:induction false} TakeCounts(g: Setting, clock: int, s: System, w: nat)
    requires CountInv(g, clock, s) && w < MAX_WORKERS && w !in s.warming && s.jobs != []
    ensures CountInv(g, clock, Step(g.ttl, s, WarmTake(w)))
  {
    var s' := Step(g.ttl, s, WarmTake(w));
    assert s.jobs == [s.jobs[0]] + s.jobs[1..];
    forall path
      ensures Spent(g, s, path) == Spent(g, s', path)
    {
      AtWith(s.warming, w, Taken(s.jobs[0]), path);
    }
    MovingCounts(g, clock, clock, s, s');
  }

  /** A new pass begins when nobody is at work. */
  lemma {:induction false} StartCounts(g: Setting, clock: int, s: System)
    requires CountInv(g, clock, s) && s.jobs == [] && s.warming == map[]
    ensures CountInv(g, clock, s.(jobs := g.paths))
  {
    var s' := s.(jobs := g.paths);
    forall path
      ensures Spent(g, s', path) >= 0
    {
      assert At(s'.warming, path) == {};
    }
    forall key | key in s'.entries
      ensures EntryCounts(g, clock, s', key)
    {
      assert EntryCounts(g, clock, s, key);
    }
  }

  lemma {:induction false} CheckCounts(g: Setting, clock: int, s: System, w: nat, now: int)
    requires CountInv(g, clock, s) && clock <= now && w in s.warming && s.warming[w].Taken?
    ensures CountInv(g, now, Step(g.ttl, s, WarmCheck(w, now)))
  {
    var path := s.warming[w].path;
    if Get(s.entries, AnonKey(path), now).Some? {
      LeavingCounts(g, clock, now, s, w);
    } else {
      WorkingCounts(g, clock, now, s, Step(g.ttl, s, WarmCheck(w, now)), w, Missed(path, now));
    }
  }

  /** Nothing happens to the warmer or the cache, except that entries are dropped. */
  lemma {:induction false} ElsewhereCounts(g: Setting, clock: int, now: int, s: System, s': System)
    requires CountInv(g, clock, s) && clock <= now
    requires s'.origins == s.origins && s'.hits == s.hits && s'.jobs == s.jobs && s'.warming == s.warming
    requires forall key :: key in s'.entries ==> key in s.entries && s'.entries[key] == s.entries[key]
    ensures CountInv(g, now, s')
  {
    forall path
      ensures Spent(g, s, path) == Spent(g, s', path)
    {}
    MovingCounts(g, clock, now, s, s');
  }

  lemma {:induction false} RequestCounts(g: Setting, clock: int, s: System, a: Action)
    requires CountInv(g, clock, s) && Allowed(g, s, a) && clock <= Reading(a, clock)
    requires a.Lookup? || a.Produce? || a.Fail? || a.Store? || a.Drop? || a.DropPrefix?
    ensures CountInv(g, Reading(a, clock), Step(g.ttl, s, a))
  {
    var now := Reading(a, clock);
    if a.Lookup? && a.id !in s.pending && Get(s.entries, a.key, now).Some? {
      ServedCounts(g, clock, s, a.key, now);
    } else if a.Store? && a.id in s.pending && s.pending[a.id].Holding? {
      var Holding(key, body, made) := s.pending[a.id];
      var mid := s.(pending := s.pending - {a.id});
      ElsewhereCounts(g, clock, clock, s, mid);
      FirstStoreCounts(g, clock, mid, key, body, made, now);
    } else {
      ElsewhereCounts(g, clock, now, s, Step(g.ttl, s, a));
    }
  }

  lemma {:induction false} WarmingCounts(g: Setting, clock: int, s: System, a: Action)
    requires CountInv(g, clock, s) && Allowed(g, s, a) && clock <= Reading(a, clock)
    requires !(a.Lookup? || a.Produce? || a.Fail? || a.Store? || a.Drop? || a.DropPrefix?)
    ensures CountInv(g, Reading(a, clock), Step(g.ttl, s, a))
  {
    if a.WarmStart? && s.jobs == [] && s.warming == map[] {
      StartCounts(g, clock, s);
    } else if a.WarmTake? && a.worker < MAX_WORKERS && a.worker !in s.warming && s.jobs != [] {
      TakeCounts(g, clock, s, a.worker);
    } else if a.WarmCheck? && a.worker in s.warming && s.warming[a.worker].Taken? {
      CheckCounts(g, clock, s, a.worker, a.now);
    } else if a.WarmLookup? && a.worker in s.warming && s.warming[a.worker].Missed? {
      WarmLookupCounts(g, clock, s, a.worker, a.now);
    } else if (a.WarmProduce? || a.WarmPanic?) && a.worker in s.warming && s.warming[a.worker].Running? {
      WarmCallCounts(g, clock, s, a);
    } else if a.WarmStore? && a.worker in s.warming && s.warming[a.worker].Answered? {
      WarmStoreCounts(g, clock, s, a.worker, a.now);
    } else if a.WarmSave? && a.worker in s.warming && s.warming[a.worker].Written? {
      WarmSaveCounts(g, clock, s, a.worker, a.now);
    } else {
      ElsewhereCounts(g, clock, Reading(a, clock), s, s);
    }
  }

  lemma {:induction false} RunKeepsCount(g: Setting, clock: int, s: System, actions: seq<Action>)
    requires CountInv(g, clock, s) && Ordered(clock, actions) && AllAllowed(g, s, actions)
    ensures forall h :: h in Run(g.ttl, s, actions).hits ==> HitCounts(g, h)
    decreases actions
  {
    if actions != [] {
      var a := actions[0];
      if a.Lookup? || a.Produce? || a.Fail? || a.Store? || a.Drop? || a.DropPrefix? {
        RequestCounts(g, clock, s, a);
      } else {
        WarmingCounts(g, clock, s, a);
      }
      RunKeepsCount(g, Reading(a, clock), Step(g.ttl, s, a), actions[1..]);
    }
  }

  /** Under every interleaving, and whatever is dropped, each time a path is listed lets its
      entry outlive its first store by one save: no more workers can be on it in one pass. */
  lemma {:induction false} SavesAreCounted(g: Setting, clock: int, actions: seq<Action>)
    requires Ordered(clock, actions) && AllAllowed(g, EMPTY, actions)
    ensures forall h :: h in Run(g.ttl, EMPTY, actions).hits ==> HitCounts(g, h)
  {
    forall path
      ensures Spent(g, EMPTY, path) >= 0
    {
      assert At(EMPTY.warming, path) == {} && multiset(EMPTY.jobs)[path] == 0;
    }
    RunKeepsCount(g, clock, EMPTY, actions);
  }
}
