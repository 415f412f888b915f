/** What an uninterrupted request through the cache middleware answers and leaves behind, and
    that it is the uninterrupted case of the interleaved steps of ResponseCache. */
module CacheServing {
  import opened Common
  import opened ResponseCache

  /** The body is stored and served later. */
  predicate Stays(body: string) { 1 <= |body| <= 5 * 1024 * 1024 - 1 }

  /** A HIT answers with what is stored and changes nothing; there is one unless a refresh is
      asked for, nothing is stored, or it has expired. */
  lemma {:induction false} HitExactlyWhen(entries: Entries, ttl: int, r: Request, refresh: bool, body: string,
      lookedUpAt: int, storedAt: int)
    ensures var (answer, hit, after) := Serving(entries, ttl, r, refresh, body, lookedUpAt, storedAt);
      && (hit <==> !refresh && Key(r) in entries && lookedUpAt <= entries[Key(r)].expiresAt)
      && (hit ==> answer == entries[Key(r)].data && after == entries)
      && (!hit ==> answer == body)
  {}

  /** After a miss whose body is stored, the same request is a HIT with that body up to a ttl
      after the store and a miss afterwards; nothing else is stored or lost. */
  lemma {:induction false} MissFillsTheCache(entries: Entries, ttl: int, r: Request, refresh: bool, body: string,
      lookedUpAt: int, storedAt: int)
    ensures var (answer, hit, after) := Serving(entries, ttl, r, refresh, body, lookedUpAt, storedAt);
      && (forall key :: key != Key(r) ==>
            (key in after <==> key in entries) && (key in after ==> after[key] == entries[key]))
      && (!hit && !Stays(body) ==> after.Keys == if refresh then entries.Keys - {Key(r)} else entries.Keys)
      && (!hit && !Stays(body) && !refresh ==> after == entries)
      && (!hit && Stays(body) ==>
            forall other: string, later: int, at: int ::
              var again := Serving(after, ttl, r, false, other, later, at);
              if later <= storedAt + ttl then again == (body, true, after) else again.0 == other && !again.1)
  {
    var (answer, hit, after) := Serving(entries, ttl, r, refresh, body, lookedUpAt, storedAt);
    assert refresh ==> entries - {Key(r)} - {Key(r)} == entries - {Key(r)};
  }

  /** The request as a run of the interleaved system in which nothing comes between its steps. */
  lemma {:induction false} ServingIsUninterrupted(s: System, ttl: int, id: nat, r: Request, refresh: bool,
      body: string, lookedUpAt: int, producedAt: int, storedAt: int)
    requires id !in s.pending
    ensures var (answer, hit, after) := Serving(s.entries, ttl, r, refresh, body, lookedUpAt, storedAt);
      var dropped := if refresh then Step(ttl, s, Drop(Key(r))) else s;
      var asked := Step(ttl, dropped, Lookup(id, Key(r), lookedUpAt));
      if hit then
        && asked.entries == after && |asked.hits| == |s.hits| + 1
        && asked.hits[|s.hits|].key == Key(r) && asked.hits[|s.hits|].body == answer
      else
        var done := Step(ttl, Step(ttl, asked, Produce(id, body, producedAt)), Store(id, storedAt));
        done.entries == after && done.hits == s.hits && done.pending == s.pending
  {
    var dropped := if refresh then Step(ttl, s, Drop(Key(r))) else s;
    var asked := Step(ttl, dropped, Lookup(id, Key(r), lookedUpAt));
    if Get(dropped.entries, Key(r), lookedUpAt).None? {
      var produced := Step(ttl, asked, Produce(id, body, producedAt));
      assert asked.pending == s.pending[id := Waiting(Key(r))];
      assert produced.pending == s.pending[id := Holding(Key(r), body, producedAt)];
      assert produced.pending - {id} == s.pending;
    }
  }

  /** The request finds nothing: it waits for the handler. */
  predicate Misses(s: System, ttl: int, id: nat, key: string, now: int) {
    var asked := Step(ttl, s, Lookup(id, key, now));
    asked.hits == s.hits && id in asked.pending && asked.pending[id] == Waiting(key)
  }

  /** Keys that were dropped miss, those that were not are looked up as before. */
  lemma {:induction false} ExactlyDroppedKeysMiss(s: System, ttl: int, a: Action, id: nat, key: string, now: int)
    requires (a.Drop? || a.DropPrefix?) && id !in s.pending
    ensures Misses(Step(ttl, s, a), ttl, id, key, now) <==>
      Misses(s, ttl, id, key, now) || (a.Drop? && a.key == key) || (a.DropPrefix? && a.prefix <= key)
  {}

  /** A request whose handler panicked is over: nothing it does later changes anything. */
  lemma {:induction false} FailedRequestLeavesNothing(s: System, ttl: int, id: nat, body: string, now: int)
    requires id in s.pending && s.pending[id].Waiting?
    ensures var failed := Step(ttl, s, Fail(id));
      && failed == s.(pending := s.pending - {id})
      && Step(ttl, failed, Produce(id, body, now)) == failed && Step(ttl, failed, Store(id, now)) == failed
  {}
}
