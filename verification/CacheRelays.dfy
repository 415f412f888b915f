/** How old the body of a HIT can get: the runs that reach the bounds of CacheAges and CacheCover,
    and so the age of the oldest HIT for every setting. */
module CacheRelays {
  import opened Common
  import opened ResponseCache
  import opened CacheAges
  import CacheCover

  /** The actions take the system from `s` at `clock` to `s'` at `clock'`, as allowed. */
  predicate Leads(g: Setting, clock: int, s: System, actions: seq<Action>, clock': int, s': System)
    decreases actions
  {
    if actions == [] then clock' == clock && s' == s
    else
      && Allowed(g, s, actions[0])
      && clock <= Reading(actions[0], clock)
      && Leads(g, Reading(actions[0], clock), Step(g.ttl, s, actions[0]), actions[1..], clock', s')
  }

  lemma {:induction false} LeadsIsARun(g: Setting, clock: int, s: System, actions: seq<Action>, clock': int, s': System)
    requires Leads(g, clock, s, actions, clock', s')
    ensures Run(g.ttl, s, actions) == s' && Ordered(clock, actions) && AllAllowed(g, s, actions)
    decreases actions
  {
    if actions != [] {
      LeadsIsARun(g, Reading(actions[0], clock), Step(g.ttl, s, actions[0]), actions[1..], clock', s');
    }
  }

  lemma {:induction false} LeadsOn(g: Setting, clock: int, s: System, xs: seq<Action>, mid: int, via: System,
      ys: seq<Action>, clock': int, s': System)
    requires Leads(g, clock, s, xs, mid, via) && Leads(g, mid, via, ys, clock', s')
    ensures Leads(g, clock, s, xs + ys, clock', s')
    decreases xs
  {
    if xs == [] {
      assert [] + ys == ys;
    } else {
      assert (xs + ys)[1..] == xs[1..] + ys;
      LeadsOn(g, Reading(xs[0], clock), Step(g.ttl, s, xs[0]), xs[1..], mid, via, ys, clock', s');
    }
  }

  lemma {:induction false} StaysPut(g: Setting, clock: int, s: System)
    ensures Leads(g, clock, s, [], clock, s)
  {}

  /** One action more. */
  lemma {:induction false} Then(g: Setting, clock: int, s: System, xs: seq<Action>, mid: int, via: System, a: Action)
      returns (ys: seq<Action>, clock': int, s': System)
    requires Leads(g, clock, s, xs, mid, via) && Allowed(g, via, a) && mid <= Reading(a, mid)
    ensures clock' == Reading(a, mid) && s' == Step(g.ttl, via, a) && Leads(g, clock, s, ys, clock', s')
  {
    ys, clock', s' := xs + [a], Reading(a, mid), Step(g.ttl, via, a);
    assert [a][1..] == [];
    LeadsOn(g, clock, s, xs, mid, via, [a], clock', s');
  }

  // ----- taking a path -----

  /** What a worker that stores nothing leaves as it was. */
  predicate SameElse(s: System, s': System) {
    s'.entries == s.entries && s'.origins == s.origins && s'.pending == s.pending && s'.warming == s.warming
  }

  /** A worker takes the next path, and its check misses. */
  lemma {:induction false} TakeAndMiss(g: Setting, clock: int, s: System, w: nat, now: int)
      returns (actions: seq<Action>, s': System)
    requires w < MAX_WORKERS && w !in s.warming && s.jobs != [] && clock <= now
    requires Get(s.entries, AnonKey(s.jobs[0]), now).None?
    ensures Leads(g, clock, s, actions, now, s')
    ensures s' == s.(jobs := s.jobs[1..], warming := s.warming[w := Missed(s.jobs[0], now)])
  {
    hide Leads;
    var end := clock;
    actions, s' := [], s;
    StaysPut(g, clock, s);
    actions, end, s' := Then(g, clock, s, actions, end, s', WarmTake(w));
    assert s'.warming == s.warming[w := Taken(s.jobs[0])];
    actions, end, s' := Then(g, clock, s, actions, end, s', WarmCheck(w, now));
    assert s'.warming == s.warming[w := Missed(s.jobs[0], now)];
  }

  /** Its own request misses too, and the handler panics. */
  lemma {:induction false} RequestPanics(g: Setting, s: System, w: nat, written: string, now: int)
      returns (actions: seq<Action>, s': System)
    requires w in s.warming && s.warming[w].Missed? && Get(s.entries, AnonKey(s.warming[w].path), now).None?
    ensures Leads(g, now, s, actions, now, s')
    ensures s'.warming == s.warming[w := Written(s.warming[w].path, s.warming[w].since, written, Origin(true, now))]
    ensures s'.entries == s.entries && s'.origins == s.origins && s'.pending == s.pending && s'.jobs == s.jobs
  {
    hide Leads;
    var Missed(path, since) := s.warming[w];
    var end := now;
    actions, s' := [], s;
    StaysPut(g, now, s);
    actions, end, s' := Then(g, now, s, actions, end, s', WarmLookup(w, now));
    assert s'.warming == s.warming[w := Running(path, since)];
    actions, end, s' := Then(g, now, s, actions, end, s', WarmPanic(w, written, now));
    assert s'.warming == s.warming[w := Written(path, since, written, Origin(true, now))];
  }

  /** A third worker takes the next path, and its handler panics before writing anything. */
  lemma {:induction false} SkipOne(g: Setting, s: System, now: int) returns (actions: seq<Action>, s': System)
    requires s.jobs != [] && 2 !in s.warming && AnonKey(s.jobs[0]) !in s.entries
    ensures Leads(g, now, s, actions, now, s') && SameElse(s, s') && s'.jobs == s.jobs[1..]
  {
    hide Leads;
    var check, s1 := TakeAndMiss(g, now, s, 2, now);
    var panic, s2 := RequestPanics(g, s1, 2, "", now);
    LeadsOn(g, now, s, check, now, s1, panic, now, s2);
    var end;
    actions, end, s' := Then(g, now, s, check + panic, now, s2, WarmSave(2, now));
    assert s'.warming == s.warming;
  }

  /** The pass comes to the next place where `path` is listed. */
  lemma {:induction false} SkipTo(g: Setting, s: System, path: string, now: int)
      returns (actions: seq<Action>, s': System)
    requires path in s.jobs && 2 !in s.warming && s.entries.Keys <= {AnonKey(path)}
    ensures Leads(g, now, s, actions, now, s') && SameElse(s, s')
    ensures s'.jobs != [] && s'.jobs[0] == path && multiset(s'.jobs[1..])[path] == multiset(s.jobs)[path] - 1
    decreases s.jobs
  {
    assert s.jobs == [s.jobs[0]] + s.jobs[1..];
    if s.jobs[0] == path {
      actions, s' := [], s;
    } else {
      AnonKeysDiffer(s.jobs[0], path);
      var first, s1 := SkipOne(g, s, now);
      actions, s' := SkipTo(g, s1, path, now);
      LeadsOn(g, now, s, first, now, s1, actions, now, s');
      actions := first + actions;
    }
  }

  // ----- passing a body on -----

  /** One worker holds the body since `now`, and nothing else is going on. */
  predicate Holds(g: Setting, s: System, path: string, w: nat, body: string, origin: Origin, now: int) {
    && s.warming == map[w := Written(path, now, body, origin)]
    && s.entries.Keys <= {AnonKey(path)} && 2 !in s.pending
    && (AnonKey(path) in s.entries ==> s.entries[AnonKey(path)].expiresAt <= now + g.ttl)
  }

  /** The check of another worker will miss after `saveDelay`, once `dropped` is dropped. */
  predicate WillMiss(g: Setting, s: System, path: string, dropped: string) {
    if dropped == AnonKey(path) then g.invalidates
    else dropped == "" && (AnonKey(path) in s.entries ==> g.saveDelay > g.ttl)
  }

  /** Another worker takes the path, and its check misses. */
  lemma {:induction false} OtherChecks(g: Setting, s: System, path: string, dropped: string, w: nat, body: string,
      origin: Origin, now: int) returns (actions: seq<Action>, s': System)
    requires w < 2 && path in s.jobs && Holds(g, s, path, w, body, origin, now) && WillMiss(g, s, path, dropped)
    ensures var at := now + g.saveDelay;
      && Leads(g, now, s, actions, at, s')
      && s'.warming == map[w := Written(path, now, body, origin), 1 - w := Missed(path, at)]
      && s'.entries.Keys <= {AnonKey(path)} && 2 !in s'.pending
      && multiset(s'.jobs)[path] == multiset(s.jobs)[path] - 1
  {
    hide Leads;
    var at := now + g.saveDelay;
    var skip, s1 := SkipTo(g, s, path, now);
    var before, end, s2 := Then(g, now, s, skip, now, s1, Drop(dropped));
    var check;
    check, s' := TakeAndMiss(g, now, s2, 1 - w, at);
    LeadsOn(g, now, s, before, now, s2, check, at, s');
    actions := before + check;
  }

  lemma {:induction false} SaveStores(g: Setting, s: System, path: string, w: nat, since: int, body: string,
      origin: Origin, at: int)
    requires w in s.warming && s.warming[w] == Written(path, since, body, origin) && Cacheable(body)
    requires s.entries.Keys <= {AnonKey(path)}
    ensures var s', key := Step(g.ttl, s, WarmSave(w, at)), AnonKey(path);
      && s'.warming == s.warming - {w} && s'.pending == s.pending && s'.hits == s.hits && s'.jobs == s.jobs
      && s'.entries == map[key := Entry(body, at + g.ttl)]
      && key in s'.origins && s'.origins[key] == origin
  {}

  /** A worker whose check missed meets the entry on its own request. */
  lemma {:induction false} RequestMeets(g: Setting, s: System, path: string, w: nat, body: string, origin: Origin,
      now: int)
    requires s.warming == map[w := Missed(path, now)] && 2 !in s.pending
    requires s.entries == map[AnonKey(path) := Entry(body, now + g.ttl)]
    requires AnonKey(path) in s.origins && s.origins[AnonKey(path)] == origin
    ensures var s' := Step(g.ttl, s, WarmLookup(w, now));
      Holds(g, s', path, w, body, origin, now) && s'.jobs == s.jobs
  {
    var s' := Step(g.ttl, s, WarmLookup(w, now));
    assert s'.warming == map[w := Written(path, now, body, origin)];
  }

  /** The save comes before the other's own request, which meets it. */
  lemma {:induction false} SaveIsMet(g: Setting, s: System, path: string, w: nat, body: string, origin: Origin,
      now: int) returns (actions: seq<Action>, s': System)
    requires w < 2 && Cacheable(body) && s.entries.Keys <= {AnonKey(path)} && 2 !in s.pending
    requires s.warming ==
      map[w := Written(path, now, body, origin), 1 - w := Missed(path, now + g.saveDelay)]
    ensures var at := now + g.saveDelay;
      Leads(g, at, s, actions, at, s') && Holds(g, s', path, 1 - w, body, origin, at) && s'.jobs == s.jobs
  {
    hide Leads;
    var at := now + g.saveDelay;
    var end := at;
    actions, s' := [], s;
    StaysPut(g, at, s);
    actions, end, s' := Then(g, at, s, actions, end, s', WarmSave(w, at));
    SaveStores(g, s, path, w, now, body, origin, at);
    assert s'.warming == map[1 - w := Missed(path, at)];
    RequestMeets(g, s', path, 1 - w, body, origin, at);
    actions, end, s' := Then(g, at, s, actions, end, s', WarmLookup(1 - w, at));
  }

  /** The last save, and a request a ttl later. */
  lemma {:induction false} LastSaveIsServed(g: Setting, s: System, path: string, w: nat, body: string, origin: Origin,
      now: int) returns (actions: seq<Action>, end: int, s': System, h: Hit)
    requires Cacheable(body) && Holds(g, s, path, w, body, origin, now)
    ensures Leads(g, now, s, actions, end, s') && h in s'.hits
    ensures h.origin == origin && h.at == now + g.saveDelay + g.ttl
  {
    hide Leads;
    var at, key := now + g.saveDelay, AnonKey(path);
    actions, end, s' := [], now, s;
    StaysPut(g, now, s);
    actions, end, s' := Then(g, now, s, actions, end, s', WarmSave(w, at));
    SaveStores(g, s, path, w, now, body, origin, at);
    h := Hit(key, body, origin, at + g.ttl);
    var s1 := s';
    actions, end, s' := Then(g, now, s, actions, end, s', Lookup(2, key, at + g.ttl));
    assert s'.hits == s1.hits + [h];
  }

  /** Every `saveDelay` a worker hands its body to the next one through the cache; the path has to
      be listed again for each.  At the end the body is saved once more, and served a ttl later. */
  lemma {:induction false} RelayServes(g: Setting, s: System, path: string, w: nat, body: string, origin: Origin,
      now: int, rounds: nat) returns (actions: seq<Action>, end: int, s': System, h: Hit)
    requires w < 2 && Cacheable(body) && Holds(g, s, path, w, body, origin, now)
    requires rounds <= multiset(s.jobs)[path]
    requires rounds > 0 ==> Chains(g) || (rounds == 1 && AnonKey(path) !in s.entries)
    ensures Leads(g, now, s, actions, end, s') && h in s'.hits
    ensures h.origin == origin && h.at == now + (rounds + 1) * g.saveDelay + g.ttl
    decreases rounds
  {
    hide Leads;
    if rounds == 0 {
      actions, end, s', h := LastSaveIsServed(g, s, path, w, body, origin, now);
    } else {
      var at, dropped := now + g.saveDelay, if g.invalidates then AnonKey(path) else "";
      var check, s1 := OtherChecks(g, s, path, dropped, w, body, origin, now);
      var save, s2 := SaveIsMet(g, s1, path, w, body, origin, now);
      actions, end, s', h := RelayServes(g, s2, path, 1 - w, body, origin, at, rounds - 1);
      LeadsOn(g, at, s1, save, at, s2, actions, end, s');
      LeadsOn(g, now, s, check, at, s1, save + actions, end, s');
      actions := check + (save + actions);
      assert rounds * g.saveDelay + g.saveDelay == (rounds + 1) * g.saveDelay;
    }
  }

  // ----- where it starts -----

  /** The pass comes to `path` for the first time. */
  lemma {:induction false} PassComesTo(g: Setting, path: string) returns (actions: seq<Action>, s: System)
    requires path in g.paths
    ensures Leads(g, 0, EMPTY, actions, 0, s) && SameElse(EMPTY, s)
    ensures s.jobs != [] && s.jobs[0] == path && multiset(s.jobs[1..])[path] == multiset(g.paths)[path] - 1
  {
    var first, end, s1 := Then(g, 0, EMPTY, [], 0, EMPTY, WarmStart(g.paths));
    actions, s := SkipTo(g, s1, path, 0);
    LeadsOn(g, 0, EMPTY, first, 0, s1, actions, 0, s);
    actions := first + actions;
  }

  /** A request's answer, stored late, meets a worker whose check came just before. */
  lemma {:induction false} AnswerIsMet(g: Setting, path: string, body: string) returns (actions: seq<Action>, s: System)
    requires path in g.paths && Cacheable(body)
    ensures Leads(g, 0, EMPTY, actions, g.storeDelay, s)
    ensures Holds(g, s, path, 0, body, Origin(false, 0), g.storeDelay)
    ensures multiset(s.jobs)[path] == multiset(g.paths)[path] - 1
  {
    hide Leads;
    var key, at, end := AnonKey(path), g.storeDelay, 0;
    actions, s := PassComesTo(g, path);
    actions, end, s := Then(g, 0, EMPTY, actions, end, s, Lookup(0, key, 0));
    actions, end, s := Then(g, 0, EMPTY, actions, end, s, Produce(0, body, 0));
    assert s.pending == map[0 := Holding(key, body, 0)];
    var check, s1 := TakeAndMiss(g, 0, s, 0, at);
    LeadsOn(g, 0, EMPTY, actions, 0, s, check, at, s1);
    actions, end, s := actions + check, at, s1;
    assert s.warming == map[0 := Missed(path, at)];
    actions, end, s := Then(g, 0, EMPTY, actions, end, s, Store(0, at));
    assert s.entries == map[key := Entry(body, at + g.ttl)] && s.origins == map[key := Origin(false, 0)];
    RequestMeets(g, s, path, 0, body, Origin(false, 0), at);
    actions, end, s := Then(g, 0, EMPTY, actions, end, s, WarmLookup(0, at));
  }

  /** A worker's call panics after writing something. */
  lemma {:induction false} CallPanics(g: Setting, path: string, body: string) returns (actions: seq<Action>, s: System)
    requires path in g.paths
    ensures Leads(g, 0, EMPTY, actions, 0, s) && Holds(g, s, path, 0, body, Origin(true, 0), 0) && s.entries == map[]
    ensures multiset(s.jobs)[path] == multiset(g.paths)[path] - 1
  {
    hide Leads;
    var pass, s0 := PassComesTo(g, path);
    var check, s1 := TakeAndMiss(g, 0, s0, 0, 0);
    assert s1.warming == map[0 := Missed(path, 0)];
    LeadsOn(g, 0, EMPTY, pass, 0, s0, check, 0, s1);
    var panic;
    panic, s := RequestPanics(g, s1, 0, body, 0);
    LeadsOn(g, 0, EMPTY, pass + check, 0, s1, panic, 0, s);
    actions := pass + check + panic;
  }

  // ----- the oldest HIT -----

  /** How many workers in a row can save one body: as many as the path has places in the list if
      their checks can miss, and otherwise only the first to meet the body, and one before it
      if that one's own handler had left it. */
  function Saves(g: Setting, left: bool): int {
    if Chains(g) then MostListed(g.paths) else Min(MostListed(g.paths), if left then 2 else 1)
  }

  function OldestHit(g: Setting, left: bool): int {
    (if left then 0 else g.storeDelay) + Saves(g, left) * g.saveDelay + g.ttl
  }

  /** Every HIT of that kind, in every allowed run, has a body at most `bound` old. */
  ghost predicate HitsAreAtMost(g: Setting, left: bool, bound: int) {
    forall clock, actions, h | Ordered(clock, actions) && AllAllowed(g, EMPTY, actions)
      && h in Run(g.ttl, EMPTY, actions).hits && h.origin.left == left ::
      h.at - h.origin.at <= bound
  }

  lemma {:induction false} NoHitIsOlder(g: Setting, clock: int, actions: seq<Action>, h: Hit)
    requires g.paths != [] && Ordered(clock, actions) && AllAllowed(g, EMPTY, actions)
    requires h in Run(g.ttl, EMPTY, actions).hits
    ensures h.at - h.origin.at <= OldestHit(g, h.origin.left)
  {
    SavesAreCounted(g, clock, actions);
    assert HitCounts(g, h);
    if !Chains(g) {
      CacheCover.RunStaysYoung(g, clock, EMPTY, actions);
      assert CacheCover.HitIsYoung(g, h);
      ListedAtMost(g.paths, g.paths[0]);
    }
  }

  lemma {:induction false} SomeHitIsAsOld(g: Setting, left: bool) returns (actions: seq<Action>, h: Hit)
    requires g.paths != []
    ensures Ordered(0, actions) && AllAllowed(g, EMPTY, actions) && h in Run(g.ttl, EMPTY, actions).hits
    ensures h.origin.left == left && h.at - h.origin.at == OldestHit(g, left)
  {
    var path := MostInIsListed(g.paths, g.paths);
    var s, end, s';
    if left {
      actions, s := CallPanics(g, path, "{}");
    } else {
      actions, s := AnswerIsMet(g, path, "{}");
    }
    var origin, now := Origin(left, 0), if left then 0 else g.storeDelay;
    var rest;
    rest, end, s', h := RelayServes(g, s, path, 0, "{}", origin, now, Saves(g, left) - 1);
    LeadsOn(g, 0, EMPTY, actions, now, s, rest, end, s');
    actions := actions + rest;
    LeadsIsARun(g, 0, EMPTY, actions, end, s');
  }

  /** For every setting, the least bound on the ages of HIT bodies. */
  lemma {:induction false} HitsAreAtMostExactlyWhen(g: Setting, left: bool, bound: int)
    requires g.paths != []
    ensures HitsAreAtMost(g, left, bound) <==> OldestHit(g, left) <= bound
  {
    if OldestHit(g, left) <= bound {
      forall clock, actions, h | Ordered(clock, actions) && AllAllowed(g, EMPTY, actions)
        && h in Run(g.ttl, EMPTY, actions).hits && h.origin.left == left
        ensures h.at - h.origin.at <= bound
      {
        NoHitIsOlder(g, clock, actions, h);
      }
    } else {
      var actions, h := SomeHitIsAsOld(g, left);
    }
  }

  /** If every body is stored when its handler returns, no HIT body is older than the ttl if and
      only if workers save at the instant of their check. */
  lemma {:induction false} HitsAreAtMostATtlOldExactlyWhen(g: Setting)
    requires g.paths != [] && g.storeDelay == 0
    ensures HitsAreAtMost(g, false, g.ttl) && HitsAreAtMost(g, true, g.ttl) <==> g.saveDelay == 0
  {
    HitsAreAtMostExactlyWhen(g, false, g.ttl);
    HitsAreAtMostExactlyWhen(g, true, g.ttl);
    ListedAtMost(g.paths, g.paths[0]);
    MulMono(1, Saves(g, false), g.saveDelay);
  }

  /** A second save of one body, for a list without repetitions, is impossible; for one that
      lists a path twice, an answer is saved twice exactly if checks can miss. */
  lemma {:induction false} SavesOfARepeatedPath(g: Setting)
    requires g.paths != []
    ensures MostListed(g.paths) >= 1
    ensures MostListed(g.paths) == 1 ==> Saves(g, false) == Saves(g, true) == 1
    ensures MostListed(g.paths) == 2 ==> Saves(g, true) == 2 && (Saves(g, false) == 2 <==> Chains(g))
  {
    ListedAtMost(g.paths, g.paths[0]);
  }
}
