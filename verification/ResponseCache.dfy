/** The dashboard's response cache: entries live for a fixed time, and a middleware puts it in
    front of the handlers.  The middleware takes the cache's lock several times per request,
    so requests interleave; they are modelled as separate atomic steps. */
module ResponseCache {
  import opened Common
  import opened Text

  datatype Entry = Entry(data: string, expiresAt: int)

  type Entries = map<string, Entry>

  const MAX_BODY := 5 * 1024 * 1024

  const MAX_WORKERS := 6

  /** Only bodies the middleware and the warmer store. */
  predicate Cacheable(body: string) { 0 < |body| < MAX_BODY }

  function Get(entries: Entries, key: string, now: int): Option<string> {
    if key !in entries || now > entries[key].expiresAt then None else Some(entries[key].data)
  }

  function Put(entries: Entries, ttl: int, key: string, data: string, now: int): Entries {
    entries[key := Entry(data, now + ttl)]
  }

  predicate HasPrefix(key: string, prefix: string) { |key| >= |prefix| && key[..|prefix|] == prefix }

  function WithoutPrefix(entries: Entries, prefix: string): Entries {
    map key | key in entries && !HasPrefix(key, prefix) :: entries[key]
  }

  class Cache {
    var entries: Entries
    const ttl: int

    constructor (ttl: int)
      ensures entries == map[] && this.ttl == ttl
    {
      entries := map[];
      this.ttl := ttl;
    }

    method GetEntry(key: string, now: int) returns (data: Option<string>)
      ensures data == Get(entries, key, now)
      ensures data == if key in entries && now <= entries[key].expiresAt then Some(entries[key].data) else None
    {
      if key !in entries || now > entries[key].expiresAt {
        return None;
      }
      return Some(entries[key].data);
    }

    method Set(key: string, data: string, now: int)
      modifies this
      ensures entries == Put(old(entries), ttl, key, data, now)
    {
      entries := entries[key := Entry(data, now + ttl)];
    }

    method Invalidate(key: string)
      modifies this
      ensures entries == old(entries) - {key}
    {
      entries := entries - {key};
    }

    method InvalidatePrefix(prefix: string)
      modifies this
      ensures entries == WithoutPrefix(old(entries), prefix)
      ensures entries == map key | key in old(entries) && !(prefix <= key) :: old(entries)[key]
    {
      var pending := entries.Keys;
      while pending != {}
        invariant pending <= entries.Keys <= old(entries).Keys
        invariant forall k :: k in entries ==> entries[k] == old(entries)[k]
        invariant forall k :: k in old(entries) ==> (k in entries <==> k in pending || !HasPrefix(k, prefix))
        decreases pending
      {
        var k :| k in pending;
        if |k| >= |prefix| && k[..|prefix|] == prefix {
          entries := entries - {k};
        }
        pending := pending - {k};
      }
    }

    /** One request through the middleware when no other interleaves; `body` is what the
        handler would answer.  `hit` is the X-Cache header. */
    method Serve(r: Request, refresh: bool, body: string, lookedUpAt: int, storedAt: int)
      returns (answer: string, hit: bool)
      modifies this
      ensures (answer, hit, entries) == Serving(old(entries), ttl, r, refresh, body, lookedUpAt, storedAt)
    {
      var key := MakeKey(r);
      if refresh {
        Invalidate(key);
      }
      var data := GetEntry(key, lookedUpAt);
      if data.Some? {
        return data.value, true;
      }
      if |body| > 0 && |body| < 5 * 1024 * 1024 {
        Set(key, body, storedAt);
      }
      return body, false;
    }
  }

  // ----- keys -----

  datatype Identity = Identity(role: string, allowedNamespaces: string)

  datatype Request = Request(user: Option<Identity>, path: string, rawQuery: string)

  function UserKey(user: Option<Identity>): string {
    match user case None => "anon" case Some(u) => u.role + ":" + u.allowedNamespaces
  }

  function Key(r: Request): string { UserKey(r.user) + ":" + r.path + "?" + r.rawQuery }

  /** The key the warmer builds, which is that of an anonymous request for the plain path. */
  function AnonKey(path: string): (key: string)
    ensures key == Key(Request(None, path, ""))
  {
    assert Key(Request(None, path, "")) == "anon" + ":" + path + "?" + "";
    "anon:" + path + "?"
  }

  method MakeKey(r: Request) returns (key: string)
    ensures key == Key(r)
  {
    var userKey := "anon";
    if r.user.Some? {
      userKey := r.user.value.role + ":" + r.user.value.allowedNamespaces;
    }
    key := userKey + ":" + r.path + "?" + r.rawQuery;
  }

  predicate PlainUser(user: Option<Identity>) {
    user.Some? ==>
      && ':' !in user.value.role && '/' !in user.value.role
      && ':' !in user.value.allowedNamespaces && '/' !in user.value.allowedNamespaces
  }

  predicate PlainPath(path: string) { path != "" && path[0] == '/' && '?' !in path }

  lemma {:induction false} UserKeysDiffer(u: Option<Identity>, v: Option<Identity>)
    requires PlainUser(u) && PlainUser(v) && UserKey(u) == UserKey(v)
    ensures u == v
  {
    if u.Some? {
      assert UserKey(u)[|u.value.role|] == ':';
      assert ':' in UserKey(u);
    }
    if v.Some? {
      assert UserKey(v)[|v.value.role|] == ':';
      assert ':' in UserKey(v);
    }
    if u.Some? && v.Some? {
      CutIsUnique(u.value.role, u.value.allowedNamespaces, v.value.role, v.value.allowedNamespaces, ':');
    }
  }

  lemma {:induction false} KeyIsCut(r: Request)
    requires PlainUser(r.user) && PlainPath(r.path)
    ensures Key(r) == (UserKey(r.user) + ":") + ['/'] + (r.path[1..] + "?" + r.rawQuery)
  {
    assert r.path == "/" + r.path[1..];
  }

  /** Two requests share a cache entry only if they have the same user role and namespaces,
      path and query. */
  lemma {:induction false} KeysAreInjective(r: Request, s: Request)
    requires PlainUser(r.user) && PlainUser(s.user) && PlainPath(r.path) && PlainPath(s.path)
    ensures Key(r) == Key(s) <==> r == s
  {
    if Key(r) == Key(s) {
      KeyIsCut(r);
      KeyIsCut(s);
      PartsAgree(r, s, UserKey(r.user) + ":", UserKey(s.user) + ":",
                 r.path[1..] + "?" + r.rawQuery, s.path[1..] + "?" + s.rawQuery);
    }
  }

  lemma {:induction false} PartsAgree(r: Request, s: Request, rHead: string, sHead: string,
      rTail: string, sTail: string)
    requires PlainUser(r.user) && PlainUser(s.user) && PlainPath(r.path) && PlainPath(s.path)
    requires rHead == UserKey(r.user) + ":" && sHead == UserKey(s.user) + ":"
    requires rTail == r.path[1..] + "?" + r.rawQuery && sTail == s.path[1..] + "?" + s.rawQuery
    requires rHead + ['/'] + rTail == sHead + ['/'] + sTail
    ensures r == s
  {
    CutIsUnique(rHead, rTail, sHead, sTail, '/');
    assert UserKey(r.user) == rHead[..|rHead| - 1] && UserKey(s.user) == sHead[..|sHead| - 1];
    UserKeysDiffer(r.user, s.user);
    CutIsUnique(r.path[1..], r.rawQuery, s.path[1..], s.rawQuery, '?');
    assert r.path == ['/'] + r.path[1..] && s.path == ['/'] + s.path[1..];
  }

  /** Without that, requests of different users can share an entry. */
  lemma {:induction false} KeysCanCollide(path: string)
    ensures Key(Request(Some(Identity("a:b", "c")), path, "")) == Key(Request(Some(Identity("a", "b:c")), path, ""))
  {
    assert "a:b" + ":" + "c" == "a" + ":" + "b:c";
  }

  /** An uninterrupted request: the answer, whether it is a HIT, and the entries left. */
  function Serving(entries: Entries, ttl: int, r: Request, refresh: bool, body: string, lookedUpAt: int, storedAt: int):
      (string, bool, Entries)
  {
    var before := if refresh then entries - {Key(r)} else entries;
    match Get(before, Key(r), lookedUpAt)
    case Some(data) => (data, true, before)
    case None => (body, false, if Cacheable(body) then Put(before, ttl, Key(r), body, storedAt) else before)
  }

  /** A refresh always asks the handler.  But the query string, refresh=true included, is part
      of the key, so the plain URL is served afterwards as if it had never happened: `asks`
      says which query strings ask for a refresh. */
  lemma {:induction false} RefreshLeavesThePlainEntry(asks: string -> bool, entries: Entries, ttl: int, r: Request,
      plain: Request, body: string, lookedUpAt: int, storedAt: int, now: int)
    requires r.path == plain.path && r.user == plain.user && asks(r.rawQuery) && !asks(plain.rawQuery)
    ensures var (answer, hit, after) := Serving(entries, ttl, r, asks(r.rawQuery), body, lookedUpAt, storedAt);
      && !hit && answer == body
      && Get(after, Key(plain), now) == Get(entries, Key(plain), now)
      && (forall later: string, at: int ::
            var with, without := Serving(after, ttl, plain, asks(plain.rawQuery), later, now, at),
                                 Serving(entries, ttl, plain, asks(plain.rawQuery), later, now, at);
            with.0 == without.0 && with.1 == without.1)
  {
    var head := UserKey(r.user) + ":" + r.path + "?";
    assert Key(r)[|head|..] == r.rawQuery && Key(plain)[|head|..] == plain.rawQuery;
    assert Key(r) != Key(plain);
  }

  // ----- the cache with both its writers -----

  /** Where a body comes from: a handler that returned it at that time, or a panicked call that
      had written it by then. */
  datatype Origin = Origin(left: bool, at: int)

  /** A request between its steps. */
  datatype Pending = Waiting(key: string) | Holding(key: string, body: string, made: int)

  /** A worker of the warmer that has taken a path, between its steps.  At `since` it looks in
      the cache; then it sends a request of its own through the middleware, and stores what
      that request has written. */
  datatype Warming =
    | Taken(path: string)
    | Missed(path: string, since: int)
    | Running(path: string, since: int)
    | Answered(path: string, since: int, body: string, made: int)
    | Written(path: string, since: int, body: string, origin: Origin)

  datatype Action =
    | Lookup(id: nat, key: string, now: int)       // the get of request `id`
    | Produce(id: nat, body: string, now: int)     // its handler returns
    | Fail(id: nat)                                // its handler panics: nothing is stored
    | Store(id: nat, now: int)                     // its set, if the body is cacheable
    | WarmStart(paths: seq<string>)                // a pass of the warmer, when the last one is over
    | WarmTake(worker: nat)                        // the next path of the pass
    | WarmCheck(worker: nat, now: int)
    | WarmLookup(worker: nat, now: int)            // the get of the worker's own request
    | WarmProduce(worker: nat, body: string, now: int)
    | WarmPanic(worker: nat, written: string, now: int)    // recovered: what was written is kept
    | WarmStore(worker: nat, now: int)             // the middleware's set
    | WarmSave(worker: nat, now: int)              // the worker's set
    | Drop(key: string)                            // invalidate, from a refresh or elsewhere
    | DropPrefix(prefix: string)

  datatype Made = Made(key: string, body: string, at: int)

  datatype Stored = Stored(key: string, body: string, origin: Origin, at: int)

  datatype Hit = Hit(key: string, body: string, origin: Origin, at: int)

  datatype System = System(
    entries: Entries,
    origins: map<string, Origin>,                  // of the bodies in the entries
    pending: map<nat, Pending>,
    jobs: seq<string>,                             // the paths the pass has still to hand out
    warming: map<nat, Warming>,
    produced: set<Made>,                           // what handlers returned, and when
    leftovers: set<Made>,                          // what panicked calls had written
    stores: set<Stored>,                           // what was set, and when
    hits: seq<Hit>)

  function OriginOf(s: System, key: string): Origin {
    if key in s.origins then s.origins[key] else Origin(false, 0)
  }

  function Saved(ttl: int, s: System, key: string, body: string, origin: Origin, now: int): System {
    if !Cacheable(body) then s
    else
      s.(entries := Put(s.entries, ttl, key, body, now), origins := s.origins[key := origin],
         stores := s.stores + {Stored(key, body, origin, now)})
  }

  function Served(s: System, key: string, body: string, now: int): System {
    s.(hits := s.hits + [Hit(key, body, OriginOf(s, key), now)])
  }

  function Step(ttl: int, s: System, a: Action): System {
    match a
    case Lookup(id, key, now) =>
      if id in s.pending then s
      else
        var found := Get(s.entries, key, now);
        if found.Some? then Served(s, key, found.value, now)
        else s.(pending := s.pending[id := Waiting(key)])
    case Produce(id, body, now) =>
      if id in s.pending && s.pending[id].Waiting? then
        var key := s.pending[id].key;
        s.(pending := s.pending[id := Holding(key, body, now)], produced := s.produced + {Made(key, body, now)})
      else s
    case Fail(id) =>
      if id in s.pending && s.pending[id].Waiting? then s.(pending := s.pending - {id}) else s
    case Store(id, now) =>
      if id in s.pending && s.pending[id].Holding? then
        var Holding(key, body, made) := s.pending[id];
        Saved(ttl, s.(pending := s.pending - {id}), key, body, Origin(false, made), now)
      else s
    case WarmStart(paths) => if s.jobs == [] && s.warming == map[] then s.(jobs := paths) else s
    case WarmTake(w) =>
      if w >= MAX_WORKERS || w in s.warming || s.jobs == [] then s
      else s.(jobs := s.jobs[1..], warming := s.warming[w := Taken(s.jobs[0])])
    case WarmCheck(w, now) =>
      if w in s.warming && s.warming[w].Taken? then
        var path := s.warming[w].path;
        if Get(s.entries, AnonKey(path), now).Some? then s.(warming := s.warming - {w})
        else s.(warming := s.warming[w := Missed(path, now)])
      else s
    case WarmLookup(w, now) =>
      if w in s.warming && s.warming[w].Missed? then
        var Missed(path, since) := s.warming[w];
        var found := Get(s.entries, AnonKey(path), now);
        if found.Some? then
          Served(s.(warming := s.warming[w := Written(path, since, found.value, OriginOf(s, AnonKey(path)))]),
                 AnonKey(path), found.value, now)
        else s.(warming := s.warming[w := Running(path, since)])
      else s
    case WarmProduce(w, body, now) =>
      if w in s.warming && s.warming[w].Running? then
        var Running(path, since) := s.warming[w];
        s.(warming := s.warming[w := Answered(path, since, body, now)],
           produced := s.produced + {Made(AnonKey(path), body, now)})
      else s
    case WarmPanic(w, written, now) =>
      if w in s.warming && s.warming[w].Running? then
        var Running(path, since) := s.warming[w];
        s.(warming := s.warming[w := Written(path, since, written, Origin(true, now))],
           leftovers := s.leftovers + {Made(AnonKey(path), written, now)})
      else s
    case WarmStore(w, now) =>
      if w in s.warming && s.warming[w].Answered? then
        var Answered(path, since, body, made) := s.warming[w];
        var origin := Origin(false, made);
        Saved(ttl, s.(warming := s.warming[w := Written(path, since, body, origin)]), AnonKey(path), body, origin, now)
      else s
    case WarmSave(w, now) =>
      if w in s.warming && s.warming[w].Written? then
        var Written(path, since, body, origin) := s.warming[w];
        Saved(ttl, s.(warming := s.warming - {w}), AnonKey(path), body, origin, now)
      else s
    case Drop(key) => s.(entries := s.entries - {key})
    case DropPrefix(prefix) => s.(entries := WithoutPrefix(s.entries, prefix))
  }

  function Run(ttl: int, s: System, actions: seq<Action>): System
    decreases actions
  {
    if actions == [] then s else Run(ttl, Step(ttl, s, actions[0]), actions[1..])
  }

  const EMPTY := System(map[], map[], map[], [], map[], {}, {}, {}, [])

  /** The clock reading of the action, if it takes one. */
  function Reading(a: Action, clock: int): int {
    match a
    case Lookup(_, _, now) => now
    case Produce(_, _, now) => now
    case Store(_, now) => now
    case WarmCheck(_, now) => now
    case WarmLookup(_, now) => now
    case WarmProduce(_, _, now) => now
    case WarmPanic(_, _, now) => now
    case WarmStore(_, now) => now
    case WarmSave(_, now) => now
    case _ => clock
  }

  predicate Ordered(clock: int, actions: seq<Action>)
    decreases actions
  {
    actions == [] || (clock <= Reading(actions[0], clock) && Ordered(Reading(actions[0], clock), actions[1..]))
  }

  /** The handler returned that body under the key at that time, or a panicked call of the
      warmer had written it. */
  predicate Originates(s: System, key: string, body: string, origin: Origin) {
    Made(key, body, origin.at) in (if origin.left then s.leftovers else s.produced)
  }

  /** The hit's body has its origin under the same key, was stored since then, and was stored
      at most `ttl` before the hit. */
  ghost predicate Justified(ttl: int, s: System, h: Hit) {
    && Cacheable(h.body)
    && Originates(s, h.key, h.body, h.origin)
    && exists at :: Stored(h.key, h.body, h.origin, at) in s.stores && h.origin.at <= at <= h.at <= at + ttl
  }

  predicate PendingInv(clock: int, s: System, p: Pending) {
    p.Holding? ==> Originates(s, p.key, p.body, Origin(false, p.made)) && p.made <= clock
  }

  predicate WarmingInv(clock: int, s: System, w: Warming) {
    match w
    case Answered(path, _, body, made) =>
      Originates(s, AnonKey(path), body, Origin(false, made)) && made <= clock
    case Written(path, _, body, origin) => Originates(s, AnonKey(path), body, origin) && origin.at <= clock
    case _ => true
  }

  predicate EntryInv(ttl: int, clock: int, s: System, key: string, e: Entry) {
    && key in s.origins
    && Cacheable(e.data)
    && Originates(s, key, e.data, s.origins[key])
    && Stored(key, e.data, s.origins[key], e.expiresAt - ttl) in s.stores
    && s.origins[key].at <= e.expiresAt - ttl <= clock
  }

  ghost predicate Inv(ttl: int, clock: int, s: System) {
    && (forall id :: id in s.pending ==> PendingInv(clock, s, s.pending[id]))
    && (forall w :: w in s.warming ==> WarmingInv(clock, s, s.warming[w]))
    && (forall key :: key in s.entries ==> EntryInv(ttl, clock, s, key, s.entries[key]))
    && (forall h :: h in s.hits ==> Justified(ttl, s, h))
  }

  lemma {:induction false} StillJustified(ttl: int, s: System, s': System, h: Hit)
    requires Justified(ttl, s, h)
    requires s.produced <= s'.produced && s.leftovers <= s'.leftovers && s.stores <= s'.stores
    ensures Justified(ttl, s', h)
  {
    var at :| Stored(h.key, h.body, h.origin, at) in s.stores && h.origin.at <= at <= h.at <= at + ttl;
    assert Stored(h.key, h.body, h.origin, at) in s'.stores;
  }

  lemma {:induction false} NewHitIsJustified(ttl: int, clock: int, s: System, key: string, now: int)
    requires Inv(ttl, clock, s) && clock <= now && Get(s.entries, key, now).Some?
    ensures Justified(ttl, s, Hit(key, Get(s.entries, key, now).value, OriginOf(s, key), now))
  {
    assert EntryInv(ttl, clock, s, key, s.entries[key]);
  }

  lemma {:induction false} SavedKeepsInv(ttl: int, clock: int, s: System, key: string, body: string, origin: Origin,
      now: int)
    requires Inv(ttl, clock, s) && clock <= now && origin.at <= now && Originates(s, key, body, origin)
    ensures Inv(ttl, now, Saved(ttl, s, key, body, origin, now))
  {
    var s' := Saved(ttl, s, key, body, origin, now);
    forall k | k in s'.entries
      ensures EntryInv(ttl, now, s', k, s'.entries[k])
    {
      assert k != key ==> EntryInv(ttl, clock, s, k, s.entries[k]);
    }
    forall h | h in s'.hits
      ensures Justified(ttl, s', h)
    {
      StillJustified(ttl, s, s', h);
    }
  }

  lemma {:induction false} ServedKeepsInv(ttl: int, clock: int, s: System, key: string, now: int)
    requires Inv(ttl, clock, s) && clock <= now && Get(s.entries, key, now).Some?
    ensures Inv(ttl, now, Served(s, key, Get(s.entries, key, now).value, now))
  {
    var s' := Served(s, key, Get(s.entries, key, now).value, now);
    NewHitIsJustified(ttl, clock, s, key, now);
    forall h | h in s'.hits
      ensures Justified(ttl, s', h)
    {
      StillJustified(ttl, s, s', h);
    }
  }

  /** Steps that take a request or a worker on, and record what a handler did. */
  lemma {:induction false} BookkeepingKeepsInv(ttl: int, clock: int, now: int, s: System, s': System)
    requires Inv(ttl, clock, s) && clock <= now && s'.hits == s.hits && s'.stores == s.stores
    requires s.produced <= s'.produced && s.leftovers <= s'.leftovers && s'.origins == s.origins
    requires forall key :: key in s'.entries ==> key in s.entries && s'.entries[key] == s.entries[key]
    requires forall id :: id in s'.pending ==>
      (id in s.pending && s'.pending[id] == s.pending[id]) || PendingInv(now, s', s'.pending[id])
    requires forall w :: w in s'.warming ==>
      (w in s.warming && s'.warming[w] == s.warming[w]) || WarmingInv(now, s', s'.warming[w])
    ensures Inv(ttl, now, s')
  {
    forall h | h in s'.hits
      ensures Justified(ttl, s', h)
    {
      StillJustified(ttl, s, s', h);
    }
  }

  lemma {:induction false} RequestKeepsInv(ttl: int, clock: int, s: System, a: Action)
    requires Inv(ttl, clock, s) && clock <= Reading(a, clock)
    requires a.Lookup? || a.Produce? || a.Fail? || a.Store? || a.Drop? || a.DropPrefix?
    ensures Inv(ttl, Reading(a, clock), Step(ttl, s, a))
  {
    var now := Reading(a, clock);
    if a.Lookup? && a.id !in s.pending && Get(s.entries, a.key, now).Some? {
      ServedKeepsInv(ttl, clock, s, a.key, now);
    } else if a.Store? && a.id in s.pending && s.pending[a.id].Holding? {
      var mid := s.(pending := s.pending - {a.id});
      BookkeepingKeepsInv(ttl, clock, clock, s, mid);
      var Holding(key, body, made) := s.pending[a.id];
      assert PendingInv(clock, s, s.pending[a.id]);
      SavedKeepsInv(ttl, clock, mid, key, body, Origin(false, made), now);
    } else {
      BookkeepingKeepsInv(ttl, clock, now, s, Step(ttl, s, a));
    }
  }

  lemma {:induction false} WarmLookupKeepsInv(ttl: int, clock: int, s: System, w: nat, now: int)
    requires Inv(ttl, clock, s) && clock <= now
    ensures Inv(ttl, now, Step(ttl, s, WarmLookup(w, now)))
  {
    if w in s.warming && s.warming[w].Missed? && Get(s.entries, AnonKey(s.warming[w].path), now).Some? {
      var Missed(path, since) := s.warming[w];
      var key := AnonKey(path);
      assert EntryInv(ttl, clock, s, key, s.entries[key]);
      var mid := s.(warming := s.warming[w := Written(path, since, s.entries[key].data, OriginOf(s, key))]);
      BookkeepingKeepsInv(ttl, clock, clock, s, mid);
      ServedKeepsInv(ttl, clock, mid, key, now);
    } else {
      BookkeepingKeepsInv(ttl, clock, now, s, Step(ttl, s, WarmLookup(w, now)));
    }
  }

  lemma {:induction false} WarmSetKeepsInv(ttl: int, clock: int, s: System, a: Action)
    requires Inv(ttl, clock, s) && clock <= Reading(a, clock) && (a.WarmStore? || a.WarmSave?)
    ensures Inv(ttl, Reading(a, clock), Step(ttl, s, a))
  {
    var now, w := Reading(a, clock), a.worker;
    if w in s.warming && a.WarmStore? && s.warming[w].Answered? {
      var Answered(path, since, body, made) := s.warming[w];
      var origin := Origin(false, made);
      var mid := s.(warming := s.warming[w := Written(path, since, body, origin)]);
      assert WarmingInv(clock, s, s.warming[w]);
      BookkeepingKeepsInv(ttl, clock, clock, s, mid);
      SavedKeepsInv(ttl, clock, mid, AnonKey(path), body, origin, now);
    } else if w in s.warming && a.WarmSave? && s.warming[w].Written? {
      var Written(path, _, body, origin) := s.warming[w];
      var mid := s.(warming := s.warming - {w});
      assert WarmingInv(clock, s, s.warming[w]);
      BookkeepingKeepsInv(ttl, clock, clock, s, mid);
      SavedKeepsInv(ttl, clock, mid, AnonKey(path), body, origin, now);
    } else {
      BookkeepingKeepsInv(ttl, clock, now, s, Step(ttl, s, a));
    }
  }

  lemma {:induction false} WarmTakeKeepsInv(ttl: int, clock: int, s: System, a: Action)
    requires Inv(ttl, clock, s) && clock <= Reading(a, clock)
    requires a.WarmStart? || a.WarmTake?
    ensures Inv(ttl, Reading(a, clock), Step(ttl, s, a))
  {
    BookkeepingKeepsInv(ttl, clock, Reading(a, clock), s, Step(ttl, s, a));
  }

  lemma {:induction false} WarmCheckKeepsInv(ttl: int, clock: int, s: System, w: nat, now: int)
    requires Inv(ttl, clock, s) && clock <= now
    ensures Inv(ttl, now, Step(ttl, s, WarmCheck(w, now)))
  {
    BookkeepingKeepsInv(ttl, clock, now, s, Step(ttl, s, WarmCheck(w, now)));
  }

  lemma {:induction false} WarmCallKeepsInv(ttl: int, clock: int, s: System, a: Action)
    requires Inv(ttl, clock, s) && clock <= Reading(a, clock) && (a.WarmProduce? || a.WarmPanic?)
    ensures Inv(ttl, Reading(a, clock), Step(ttl, s, a))
  {
    BookkeepingKeepsInv(ttl, clock, Reading(a, clock), s, Step(ttl, s, a));
  }

  lemma {:induction false} StepKeepsInv(ttl: int, clock: int, s: System, a: Action)
    requires Inv(ttl, clock, s) && clock <= Reading(a, clock)
    ensures Inv(ttl, Reading(a, clock), Step(ttl, s, a))
  {
    hide Step, Inv;
    if a.WarmLookup? {
      WarmLookupKeepsInv(ttl, clock, s, a.worker, a.now);
    } else if a.WarmStore? || a.WarmSave? {
      WarmSetKeepsInv(ttl, clock, s, a);
    } else if a.WarmCheck? {
      WarmCheckKeepsInv(ttl, clock, s, a.worker, a.now);
    } else if a.WarmStart? || a.WarmTake? {
      WarmTakeKeepsInv(ttl, clock, s, a);
    } else if a.WarmProduce? || a.WarmPanic? {
      WarmCallKeepsInv(ttl, clock, s, a);
    } else {
      RequestKeepsInv(ttl, clock, s, a);
    }
  }

  lemma {:induction false} RunKeepsInv(ttl: int, clock: int, s: System, actions: seq<Action>) returns (end: int)
    requires Inv(ttl, clock, s) && Ordered(clock, actions)
    ensures Inv(ttl, end, Run(ttl, s, actions))
    decreases actions
  {
    end := clock;
    if actions != [] {
      StepKeepsInv(ttl, clock, s, actions[0]);
      end := RunKeepsInv(ttl, Reading(actions[0], clock), Step(ttl, s, actions[0]), actions[1..]);
    }
  }

  /** Under every interleaving of requests, refreshes, invalidations and warmer steps, every HIT
      answers with a body stored under the same key at most `ttl` before, and by the time of
      that store the handler had returned that body for the key, or a call of the warmer had
      written it when it panicked. */
  lemma {:induction false} HitsAreJustified(ttl: int, clock: int, actions: seq<Action>, i: nat)
    requires Ordered(clock, actions) && i < |Run(ttl, EMPTY, actions).hits|
    ensures Justified(ttl, Run(ttl, EMPTY, actions), Run(ttl, EMPTY, actions).hits[i])
  {
    var _ := RunKeepsInv(ttl, clock, EMPTY, actions);
  }

  // ----- when every hit is an answer -----

  ghost predicate IsAnswer(s: System, key: string, body: string) {
    exists at :: Made(key, body, at) in s.produced
  }

  ghost predicate IsLeftover(s: System, key: string, body: string) {
    exists at :: Made(key, body, at) in s.leftovers
  }

  /** Within one run, if what panicked calls had written is told apart from what calls return:
      every HIT body is an answer of the handler if and only if no entry served came from a
      panicked call. */
  lemma {:induction false} HitsAreAnswersExactlyWhen(ttl: int, clock: int, actions: seq<Action>)
    requires Ordered(clock, actions)
    ensures var s := Run(ttl, EMPTY, actions);
      (forall key, body :: IsLeftover(s, key, body) ==> !IsAnswer(s, key, body)) ==>
      ((forall h :: h in s.hits ==> IsAnswer(s, h.key, h.body)) <==> (forall h :: h in s.hits ==> !h.origin.left))
  {
    var _ := RunKeepsInv(ttl, clock, EMPTY, actions);
    var s := Run(ttl, EMPTY, actions);
    forall h | h in s.hits
      ensures if h.origin.left then IsLeftover(s, h.key, h.body) else IsAnswer(s, h.key, h.body)
    {
      assert Justified(ttl, s, h);
    }
  }

  /** What the handlers can return for a key, and what a call for it may have written when it
      panics. */
  datatype Handlers = Handlers(answers: (string, string) -> bool, leaves: (string, string) -> bool)

  ghost predicate StepObeys(s: System, a: Action, h: Handlers) {
    match a
    case Produce(id, body, _) =>
      id in s.pending && s.pending[id].Waiting? ==> h.answers(s.pending[id].key, body)
    case WarmProduce(w, body, _) =>
      w in s.warming && s.warming[w].Running? ==> h.answers(AnonKey(s.warming[w].path), body)
    case WarmPanic(w, written, _) =>
      w in s.warming && s.warming[w].Running? ==> h.leaves(AnonKey(s.warming[w].path), written)
    case _ => true
  }

  ghost predicate Obeys(ttl: int, s: System, actions: seq<Action>, h: Handlers)
    decreases actions
  {
    actions == [] || (StepObeys(s, actions[0], h) && Obeys(ttl, Step(ttl, s, actions[0]), actions[1..], h))
  }

  ghost predicate CanBeLeft(h: Handlers, key: string, body: string) {
    h.leaves(key, body) && exists path :: key == AnonKey(path)
  }

  ghost predicate FromHandlers(s: System, h: Handlers) {
    && (forall m :: m in s.produced ==> h.answers(m.key, m.body))
    && (forall m :: m in s.leftovers ==> CanBeLeft(h, m.key, m.body))
  }

  lemma {:induction false} StepIsFromHandlers(ttl: int, s: System, a: Action, h: Handlers)
    requires FromHandlers(s, h) && StepObeys(s, a, h)
    ensures FromHandlers(Step(ttl, s, a), h)
  {
    var s' := Step(ttl, s, a);
    if a.WarmPanic? && s' != s {
      var m := Made(AnonKey(s.warming[a.worker].path), a.written, a.now);
      assert CanBeLeft(h, m.key, m.body);
      assert s'.leftovers == s.leftovers + {m} && s'.produced == s.produced;
    }
  }

  lemma {:induction false} RunIsFromHandlers(ttl: int, s: System, actions: seq<Action>, h: Handlers)
    requires FromHandlers(s, h) && Obeys(ttl, s, actions, h)
    ensures FromHandlers(Run(ttl, s, actions), h)
    decreases actions
  {
    if actions != [] {
      StepIsFromHandlers(ttl, s, actions[0], h);
      RunIsFromHandlers(ttl, Step(ttl, s, actions[0]), actions[1..], h);
    }
  }

  /** A warmer call that panics half way: what it had written is served to the next request. */
  function PanickedRun(path: string, written: string): seq<Action> {
    [WarmStart([path]), WarmTake(0), WarmCheck(0, 0), WarmLookup(0, 0), WarmPanic(0, written, 0), WarmSave(0, 0),
     Lookup(0, AnonKey(path), 0)]
  }

  /** The run's actions from the `i`-th on take the system from `s` to `s'`. */
  ghost predicate Ends(ttl: int, s: System, actions: seq<Action>, i: nat, h: Handlers, s': System)
    requires i <= |actions|
  {
    Run(ttl, s, actions[i..]) == s' && Ordered(0, actions[i..]) && Obeys(ttl, s, actions[i..], h)
  }

  lemma {:induction false} EndsOneEarlier(ttl: int, s: System, actions: seq<Action>, i: nat, h: Handlers, s': System)
    requires i < |actions| && StepObeys(s, actions[i], h) && Reading(actions[i], 0) == 0
    requires Ends(ttl, Step(ttl, s, actions[i]), actions, i + 1, h, s')
    ensures Ends(ttl, s, actions, i, h, s')
  {
    assert actions[i..][0] == actions[i] && actions[i..][1..] == actions[i + 1..];
  }

  lemma {:induction false} PanicIsServed(ttl: int, path: string, written: string, h: Handlers)
    requires ttl >= 0 && Cacheable(written)
    ensures var run := PanickedRun(path, written); var s := Run(ttl, EMPTY, run);
      && Ordered(0, run) && s.hits == [Hit(AnonKey(path), written, Origin(true, 0), 0)] && s.produced == {}
      && (h.leaves(AnonKey(path), written) ==> Obeys(ttl, EMPTY, run, h))
  {
    var run, key := PanickedRun(path, written), AnonKey(path);
    var s1 := Step(ttl, EMPTY, run[0]);
    var s2 := Step(ttl, s1, run[1]);
    assert s2.warming == map[0 := Taken(path)];
    var s3 := Step(ttl, s2, run[2]);
    assert s3.warming == map[0 := Missed(path, 0)];
    var s4 := Step(ttl, s3, run[3]);
    assert s4.warming == map[0 := Running(path, 0)];
    var s5 := Step(ttl, s4, run[4]);
    assert s5.warming == map[0 := Written(path, 0, written, Origin(true, 0))];
    var s6 := Step(ttl, s5, run[5]);
    assert s6.entries == map[key := Entry(written, ttl)] && s6.origins == map[key := Origin(true, 0)];
    var s7 := Step(ttl, s6, run[6]);
    var any := if h.leaves(key, written) then h else Handlers((k, b) => true, (k, b) => true);
    PanickedRunEnds(ttl, run, any, s1, s2, s3, s4, s5, s6, s7);
  }

  lemma {:induction false} PanickedRunEnds(ttl: int, run: seq<Action>, h: Handlers, s1: System, s2: System, s3: System,
      s4: System, s5: System, s6: System, s7: System)
    requires |run| == 7 && forall i :: 0 <= i < 7 ==> Reading(run[i], 0) == 0
    requires s1 == Step(ttl, EMPTY, run[0]) && s2 == Step(ttl, s1, run[1]) && s3 == Step(ttl, s2, run[2])
    requires s4 == Step(ttl, s3, run[3]) && s5 == Step(ttl, s4, run[4]) && s6 == Step(ttl, s5, run[5])
    requires s7 == Step(ttl, s6, run[6])
    requires StepObeys(EMPTY, run[0], h) && StepObeys(s1, run[1], h) && StepObeys(s2, run[2], h)
    requires StepObeys(s3, run[3], h) && StepObeys(s4, run[4], h) && StepObeys(s5, run[5], h) && StepObeys(s6, run[6], h)
    ensures Run(ttl, EMPTY, run) == s7 && Ordered(0, run) && Obeys(ttl, EMPTY, run, h)
  {
    hide Step, StepObeys;
    assert Ends(ttl, s7, run, 7, h, s7);
    EndsOneEarlier(ttl, s6, run, 6, h, s7);
    EndsOneEarlier(ttl, s5, run, 5, h, s7);
    EndsOneEarlier(ttl, s4, run, 4, h, s7);
    EndsOneEarlier(ttl, s3, run, 3, h, s7);
    EndsOneEarlier(ttl, s2, run, 2, h, s7);
    EndsOneEarlier(ttl, s1, run, 1, h, s7);
    EndsOneEarlier(ttl, EMPTY, run, 0, h, s7);
    assert run[0..] == run;
  }

  /** Over all runs: every HIT body is one the handlers can return for its key if and only if
      whatever a panicking call for a warmed path can leave behind, and the cache takes, is
      itself such an answer. */
  lemma {:induction false} EveryHitIsAnAnswerExactlyWhen(ttl: int, h: Handlers)
    requires ttl >= 0
    ensures
      (forall actions {:induction false} :: Ordered(0, actions) && Obeys(ttl, EMPTY, actions, h) ==>
         forall hit :: hit in Run(ttl, EMPTY, actions).hits ==> h.answers(hit.key, hit.body))
      <==>
      (forall path, body :: Cacheable(body) && h.leaves(AnonKey(path), body) ==> h.answers(AnonKey(path), body))
  {
    if forall path, body :: Cacheable(body) && h.leaves(AnonKey(path), body) ==> h.answers(AnonKey(path), body) {
      forall actions, hit | Ordered(0, actions) && Obeys(ttl, EMPTY, actions, h) && hit in Run(ttl, EMPTY, actions).hits
        ensures h.answers(hit.key, hit.body)
      {
        var _ := RunKeepsInv(ttl, 0, EMPTY, actions);
        RunIsFromHandlers(ttl, EMPTY, actions, h);
        var s := Run(ttl, EMPTY, actions);
        assert Justified(ttl, s, hit);
        if hit.origin.left {
          assert CanBeLeft(h, hit.key, hit.body);
        }
      }
    } else {
      var path, body :| Cacheable(body) && h.leaves(AnonKey(path), body) && !h.answers(AnonKey(path), body);
      PanicIsServed(ttl, path, body, h);
      var hit := Hit(AnonKey(path), body, Origin(true, 0), 0);
      assert hit in Run(ttl, EMPTY, PanickedRun(path, body)).hits;
    }
  }
}
