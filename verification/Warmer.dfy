/** The audit cache warmer: six workers drain a queue of endpoint paths into the response
    cache, and a summary is rebuilt from it.  Every atomic step of every worker is a separate
    action, so a run is any interleaving of them. */
module Warmer {
  import opened Grouping
  import opened ResponseCache
  import opened Sorting

  datatype Worker =
    | Idle
    | Looking(path: string)                // took a job, has not looked in the cache yet
    | Serving(path: string)                // the handler is running
    | Served(path: string, body: string)   // returned or panicked; `body` is what it had written
    | Exited

  /** `unsent` is what the producer still has to queue; `taken` and `dropped` are histories, the
      latter with the latest body that could not be cached. */
  datatype Pool = Pool(unsent: seq<string>, closed: bool, queue: seq<string>, workers: seq<Worker>,
                       entries: Entries, taken: seq<string>, dropped: map<string, string>)

  datatype Action =
    | Send
    | Close
    | Take(worker: nat)
    | Check(worker: nat, now: int)
    | Finish(worker: nat, body: string)    // the handler returns, or panics half way
    | Save(worker: nat, now: int)
    | Exit(worker: nat)
    | Elsewhere(key: string, body: string, now: int)   // a request fills the cache meanwhile

  function At(s: Pool, i: nat): Worker { if i < |s.workers| then s.workers[i] else Exited }

  predicate Enabled(s: Pool, a: Action) {
    match a
    case Send => s.unsent != []
    case Close => s.unsent == [] && !s.closed
    case Take(i) => At(s, i).Idle? && s.queue != []
    case Check(i, _) => At(s, i).Looking?
    case Finish(i, _) => At(s, i).Serving?
    case Save(i, _) => At(s, i).Served?
    case Exit(i) => At(s, i).Idle? && s.queue == [] && s.closed
    case Elsewhere(_, body, _) => Cacheable(body)
  }

  function Moved(s: Pool, i: nat, w: Worker): Pool
    requires i < |s.workers|
  {
    s.(workers := s.workers[i := w])
  }

  function Step(ttl: int, s: Pool, a: Action): Pool
    requires Enabled(s, a)
  {
    match a
    case Send => s.(unsent := s.unsent[1..], queue := s.queue + [s.unsent[0]])
    case Close => s.(closed := true)
    case Take(i) =>
      var path := s.queue[0];
      Moved(s, i, Looking(path)).(queue := s.queue[1..], taken := s.taken + [path])
    case Check(i, now) =>
      var path := s.workers[i].path;
      Moved(s, i, if Get(s.entries, AnonKey(path), now).Some? then Idle else Serving(path))
    case Finish(i, body) => Moved(s, i, Served(s.workers[i].path, body))
    case Save(i, now) =>
      var Served(path, body) := s.workers[i];
      if Cacheable(body) then Moved(s, i, Idle).(entries := Put(s.entries, ttl, AnonKey(path), body, now))
      else Moved(s, i, Idle).(dropped := s.dropped[path := body])
    case Exit(i) => Moved(s, i, Exited)
    case Elsewhere(key, body, now) => s.(entries := Put(s.entries, ttl, key, body, now))
  }

  function Start(paths: seq<string>, entries: Entries): Pool {
    Pool(paths, false, [], seq(MAX_WORKERS, _ => Idle), entries, [], map[])
  }

  predicate Drained(s: Pool) { forall w :: w in s.workers ==> w.Exited? }

  /** The actions can be taken one after the other. */
  predicate Runs(ttl: int, s: Pool, actions: seq<Action>)
    decreases actions
  {
    actions == [] || (Enabled(s, actions[0]) && Runs(ttl, Step(ttl, s, actions[0]), actions[1..]))
  }

  function After(ttl: int, s: Pool, actions: seq<Action>): Pool
    requires Runs(ttl, s, actions)
    decreases actions
  {
    if actions == [] then s else After(ttl, Step(ttl, s, actions[0]), actions[1..])
  }

  // ----- each path is taken exactly once -----

  /** A worker has the path in hand. */
  predicate InHand(w: Worker, path: string) {
    match w
    case Looking(p) => p == path
    case Serving(p) => p == path
    case Served(p, _) => p == path
    case Idle => false
    case Exited => false
  }

  predicate Settled(s: Pool, path: string) {
    || AnonKey(path) in s.entries || path in s.dropped
    || exists i | 0 <= i < |s.workers| :: InHand(s.workers[i], path)
  }

  /** The body is empty, or has five mebibytes or more. */
  predicate Refused(body: string) { |body| == 0 || |body| >= 5 * 1024 * 1024 }

  /** Taken, queued and unsent paths are the list of paths, in order; a taken path is cached,
      was dropped, or is in a worker's hands; and nobody leaves while there is work. */
  predicate Inv(paths: seq<string>, s: Pool) {
    && s.taken + s.queue + s.unsent == paths
    && |s.workers| == MAX_WORKERS
    && (s.closed ==> s.unsent == [])
    && (forall i :: 0 <= i < |s.workers| && s.workers[i].Exited? ==> s.closed && s.queue == [])
    && (forall i :: 0 <= i < |s.taken| ==> Settled(s, s.taken[i]))
    && (forall path :: path in s.dropped ==> Refused(s.dropped[path]))
  }

  lemma {:induction false} SettledStays(ttl: int, s: Pool, a: Action, path: string)
    requires Enabled(s, a) && |s.workers| == MAX_WORKERS && Settled(s, path)
    ensures Settled(Step(ttl, s, a), path)
  {
    var s' := Step(ttl, s, a);
    if AnonKey(path) !in s.entries && path !in s.dropped {
      var i :| 0 <= i < |s.workers| && InHand(s.workers[i], path);
      if s'.workers[i] != s.workers[i] {
        if a.Check? && a.worker == i {
          assert InHand(s'.workers[i], path);
        } else if a.Finish? {
          assert InHand(s'.workers[i], path);
        }
      } else {
        assert InHand(s'.workers[i], path);
      }
    }
  }

  lemma {:induction false} HeadMoves(xs: seq<string>, ys: seq<string>)
    requires ys != []
    ensures (xs + [ys[0]]) + ys[1..] == xs + ys
  {}

  lemma {:induction false} StepMovesPaths(ttl: int, s: Pool, a: Action)
    requires Enabled(s, a)
    ensures var s' := Step(ttl, s, a);
      && s'.taken + s'.queue + s'.unsent == s.taken + s.queue + s.unsent
      && s'.taken == s.taken + if a.Take? then [s.queue[0]] else []
  {
    var s' := Step(ttl, s, a);
    if a.Send? {
      HeadMoves(s.taken + s.queue, s.unsent);
      assert s.taken + s'.queue == s.taken + s.queue + [s.unsent[0]];
    } else if a.Take? {
      HeadMoves(s.taken, s.queue);
    }
  }

  lemma {:induction false} StepKeepsInv(ttl: int, paths: seq<string>, s: Pool, a: Action)
    requires Inv(paths, s) && Enabled(s, a)
    ensures Inv(paths, Step(ttl, s, a))
  {
    var s' := Step(ttl, s, a);
    StepMovesPaths(ttl, s, a);
    forall i | 0 <= i < |s'.taken|
      ensures Settled(s', s'.taken[i])
    {
      if i < |s.taken| {
        SettledStays(ttl, s, a, s.taken[i]);
      } else {
        assert InHand(s'.workers[a.worker], s'.taken[i]);
      }
    }
  }

  lemma {:induction false} RunKeepsInv(ttl: int, paths: seq<string>, s: Pool, actions: seq<Action>)
    requires Inv(paths, s) && Runs(ttl, s, actions)
    ensures Inv(paths, After(ttl, s, actions))
    decreases actions
  {
    if actions != [] {
      StepKeepsInv(ttl, paths, s, actions[0]);
      RunKeepsInv(ttl, paths, Step(ttl, s, actions[0]), actions[1..]);
    }
  }

  /** Under every interleaving and whatever handlers do, the paths taken so far are the first
      ones of the list, each once; when all workers have left every path has been taken, and
      is in the cache unless an answer to it was empty or had five mebibytes or more. */
  lemma {:induction false} EveryPathIsTakenOnce(ttl: int, paths: seq<string>, entries: Entries, actions: seq<Action>)
    requires Runs(ttl, Start(paths, entries), actions)
    ensures var s := After(ttl, Start(paths, entries), actions);
      && s.taken <= paths
      && (Drained(s) ==>
            && s.taken == paths && s.queue == [] && s.unsent == []
            && forall path :: path in paths ==>
                 AnonKey(path) in s.entries || (path in s.dropped && Refused(s.dropped[path])))
  {
    hide After, Runs, Settled;
    var s := After(ttl, Start(paths, entries), actions);
    assert Inv(paths, Start(paths, entries)) by { assert [] + [] + paths == paths; }
    RunKeepsInv(ttl, paths, Start(paths, entries), actions);
    assert paths == s.taken + (s.queue + s.unsent);
    if Drained(s) {
      DrainedHasTakenAll(paths, s);
    }
  }

  lemma {:induction false} DrainedHasTakenAll(paths: seq<string>, s: Pool)
    requires Inv(paths, s) && Drained(s)
    ensures s.taken == paths && s.queue == [] && s.unsent == []
    ensures forall path :: path in paths ==>
      AnonKey(path) in s.entries || (path in s.dropped && Refused(s.dropped[path]))
  {
    assert s.workers[0] in s.workers;
    assert s.taken == paths;
    forall path | path in paths
      ensures AnonKey(path) in s.entries || (path in s.dropped && Refused(s.dropped[path]))
    {
      var i :| 0 <= i < |paths| && paths[i] == path;
      assert Settled(s, s.taken[i]);
      forall k | 0 <= k < |s.workers|
        ensures !InHand(s.workers[k], path)
      {
        assert s.workers[k] in s.workers;
      }
    }
  }

  // ----- what is stored was answered -----

  lemma {:induction false} RunsPrefix(ttl: int, s: Pool, actions: seq<Action>, k: nat)
    requires Runs(ttl, s, actions) && k <= |actions|
    ensures Runs(ttl, s, actions[..k])
    ensures k < |actions| ==>
      && Runs(ttl, s, actions[..k + 1]) && Enabled(After(ttl, s, actions[..k]), actions[k])
      && After(ttl, s, actions[..k + 1]) == Step(ttl, After(ttl, s, actions[..k]), actions[k])
    decreases k
  {
    if k == 0 {
      if actions != [] {
        assert actions[..1][1..] == [];
      }
    } else {
      RunsPrefix(ttl, Step(ttl, s, actions[0]), actions[1..], k - 1);
      assert actions[..k][1..] == actions[1..][..k - 1];
      if k < |actions| {
        assert actions[..k + 1][1..] == actions[1..][..k];
      }
    }
  }

  /** The handler answered `body` to a worker for `path` in one of the first `k` actions. */
  ghost predicate Answered(ttl: int, s: Pool, actions: seq<Action>, k: nat, path: string, body: string)
    requires Runs(ttl, s, actions) && k <= |actions|
  {
    exists i, worker :: 0 <= i < k && AnsweredAt(ttl, s, actions, i, worker, path, body)
  }

  ghost predicate AnsweredAt(ttl: int, s: Pool, actions: seq<Action>, i: nat, worker: nat, path: string, body: string)
    requires Runs(ttl, s, actions) && i < |actions|
  {
    RunsPrefix(ttl, s, actions, i);
    actions[i] == Finish(worker, body) && At(After(ttl, s, actions[..i]), worker) == Serving(path)
  }

  /** A request filled the cache with the body in one of the first `k` actions. */
  ghost predicate Filled(actions: seq<Action>, k: nat, key: string, body: string)
    requires k <= |actions|
  {
    exists i, now :: 0 <= i < k && actions[i] == Elsewhere(key, body, now)
  }

  /** What a key may hold after `k` actions. */
  ghost predicate Explained(ttl: int, start: Pool, actions: seq<Action>, k: nat, key: string, e: Entry)
    requires Runs(ttl, start, actions) && k <= |actions|
  {
    || (key in start.entries && start.entries[key] == e)
    || Filled(actions, k, key, e.data)
    || exists path :: key == AnonKey(path) && Answered(ttl, start, actions, k, path, e.data)
  }

  /** After `k` actions, the cache holds what it held at the start, what requests filled it
      with, and what handlers answered to workers, under the path they were asked for. */
  ghost predicate Accounted(ttl: int, start: Pool, actions: seq<Action>, k: nat, s: Pool)
    requires Runs(ttl, start, actions) && k <= |actions|
  {
    && (forall key :: key in s.entries ==> Explained(ttl, start, actions, k, key, s.entries[key]))
    && (forall i :: 0 <= i < |s.workers| && s.workers[i].Served? ==>
          Answered(ttl, start, actions, k, s.workers[i].path, s.workers[i].body))
  }

  lemma {:induction false} StaysAnswered(ttl: int, start: Pool, actions: seq<Action>, k: nat, path: string,
                                         body: string)
    requires Runs(ttl, start, actions) && k < |actions| && Answered(ttl, start, actions, k, path, body)
    ensures Answered(ttl, start, actions, k + 1, path, body)
  {
    hide AnsweredAt, Runs;
  }

  lemma {:induction false} StaysExplained(ttl: int, start: Pool, actions: seq<Action>, k: nat, key: string, e: Entry)
    requires Runs(ttl, start, actions) && k < |actions| && Explained(ttl, start, actions, k, key, e)
    ensures Explained(ttl, start, actions, k + 1, key, e)
  {
    hide AnsweredAt, Runs, Answered;
    if Filled(actions, k, key, e.data) {
      assert Filled(actions, k + 1, key, e.data);
    } else if !(key in start.entries && start.entries[key] == e) {
      var path :| key == AnonKey(path) && Answered(ttl, start, actions, k, path, e.data);
      StaysAnswered(ttl, start, actions, k, path, e.data);
    }
  }

  lemma {:induction false} StepIsAnswered(ttl: int, start: Pool, actions: seq<Action>, k: nat, s: Pool, i: nat)
    requires Runs(ttl, start, actions) && k < |actions| && Accounted(ttl, start, actions, k, s)
    requires Runs(ttl, start, actions[..k]) && s == After(ttl, start, actions[..k]) && Enabled(s, actions[k])
    requires i < |s.workers| && Step(ttl, s, actions[k]).workers[i].Served?
    ensures var w := Step(ttl, s, actions[k]).workers[i]; Answered(ttl, start, actions, k + 1, w.path, w.body)
  {
    hide Runs, After, Explained;
    var a, w := actions[k], Step(ttl, s, actions[k]).workers[i];
    if a.Finish? && a.worker == i {
      assert AnsweredAt(ttl, start, actions, k, i, w.path, w.body);
    } else {
      assert w == s.workers[i];
      StaysAnswered(ttl, start, actions, k, w.path, w.body);
    }
  }

  lemma {:induction false} StepIsExplained(ttl: int, start: Pool, actions: seq<Action>, k: nat, s: Pool, key: string)
    requires Runs(ttl, start, actions) && k < |actions| && Accounted(ttl, start, actions, k, s)
    requires Enabled(s, actions[k]) && key in Step(ttl, s, actions[k]).entries
    ensures Explained(ttl, start, actions, k + 1, key, Step(ttl, s, actions[k]).entries[key])
  {
    hide Runs, Answered;
    var a, e := actions[k], Step(ttl, s, actions[k]).entries[key];
    if a.Elsewhere? && a.key == key {
      assert Filled(actions, k + 1, key, a.body);
    } else if a.Save? && Cacheable(s.workers[a.worker].body) && key == AnonKey(s.workers[a.worker].path) {
      StaysAnswered(ttl, start, actions, k, s.workers[a.worker].path, s.workers[a.worker].body);
    } else {
      hide Explained;
      assert key in s.entries && e == s.entries[key];
      StaysExplained(ttl, start, actions, k, key, e);
    }
  }

  lemma {:induction false} StepIsAccounted(ttl: int, start: Pool, actions: seq<Action>, k: nat, s: Pool)
    requires Runs(ttl, start, actions) && k < |actions| && Accounted(ttl, start, actions, k, s)
    requires Runs(ttl, start, actions[..k]) && s == After(ttl, start, actions[..k]) && Enabled(s, actions[k])
    ensures Accounted(ttl, start, actions, k + 1, Step(ttl, s, actions[k]))
  {
    var s' := Step(ttl, s, actions[k]);
    assert |s'.workers| == |s.workers|;
    forall key | key in s'.entries
      ensures Explained(ttl, start, actions, k + 1, key, s'.entries[key])
    {
      StepIsExplained(ttl, start, actions, k, s, key);
    }
    forall i | 0 <= i < |s'.workers| && s'.workers[i].Served?
      ensures Answered(ttl, start, actions, k + 1, s'.workers[i].path, s'.workers[i].body)
    {
      StepIsAnswered(ttl, start, actions, k, s, i);
    }
    hide *;
  }

  lemma {:induction false} PrefixIsAccounted(ttl: int, start: Pool, actions: seq<Action>, k: nat)
    requires Runs(ttl, start, actions) && k <= |actions|
    requires forall w :: w in start.workers ==> w.Idle?
    ensures Runs(ttl, start, actions[..k]) && Accounted(ttl, start, actions, k, After(ttl, start, actions[..k]))
  {
    RunsPrefix(ttl, start, actions, k);
    if k > 0 {
      PrefixIsAccounted(ttl, start, actions, k - 1);
      RunsPrefix(ttl, start, actions, k - 1);
      StepIsAccounted(ttl, start, actions, k - 1, After(ttl, start, actions[..k - 1]));
      hide Accounted;
    } else {
      assert actions[..0] == [];
      assert forall i :: 0 <= i < |start.workers| ==> start.workers[i] in start.workers;
    }
  }

  /** Whatever the interleaving, an entry found in the cache afterwards was there at the start,
      or was put there by a request, or is the answer some handler gave to a worker that asked
      for the path in its key. */
  lemma {:induction false} EntriesAreAnswers(ttl: int, paths: seq<string>, entries: Entries, actions: seq<Action>,
                                             key: string)
    requires Runs(ttl, Start(paths, entries), actions)
    requires key in After(ttl, Start(paths, entries), actions).entries
    ensures var start := Start(paths, entries);
      var entry := After(ttl, start, actions).entries[key];
      || (key in entries && entries[key] == entry)
      || Filled(actions, |actions|, key, entry.data)
      || exists path :: key == "anon:" + path + "?" && Answered(ttl, start, actions, |actions|, path, entry.data)
  {
    PrefixIsAccounted(ttl, Start(paths, entries), actions, |actions|);
    assert actions[..|actions|] == actions;
  }

  // ----- the pool always drains -----

  function Weight(w: Worker): nat {
    match w case Exited => 0 case Idle => 1 case Served(_, _) => 2 case Serving(_) => 3 case Looking(_) => 4
  }

  function WorkersWeight(workers: seq<Worker>): nat {
    if workers == [] then 0 else Weight(workers[0]) + WorkersWeight(workers[1..])
  }

  /** How many actions of the pool itself can still follow. */
  function Work(s: Pool): nat {
    5 * |s.unsent| + (if s.closed then 0 else 1) + 4 * |s.queue| + WorkersWeight(s.workers)
  }

  lemma {:induction false} WeightAfter(workers: seq<Worker>, i: nat, w: Worker)
    requires i < |workers|
    ensures WorkersWeight(workers[i := w]) == WorkersWeight(workers) - Weight(workers[i]) + Weight(w)
  {
    if i == 0 {
      assert workers[0 := w][1..] == workers[1..];
    } else {
      assert workers[i := w][1..] == workers[1..][i - 1 := w];
      WeightAfter(workers[1..], i - 1, w);
    }
  }

  lemma {:induction false} StepUsesWork(ttl: int, s: Pool, a: Action)
    requires Enabled(s, a)
    ensures if a.Elsewhere? then Work(Step(ttl, s, a)) == Work(s) else Work(Step(ttl, s, a)) < Work(s)
  {
    match a
    case Send =>
    case Close =>
    case Elsewhere(_, _, _) =>
    case Take(i) => WeightAfter(s.workers, i, Looking(s.queue[0]));
    case Check(i, now) => WeightAfter(s.workers, i, Step(ttl, s, a).workers[i]);
    case Finish(i, body) => WeightAfter(s.workers, i, Step(ttl, s, a).workers[i]);
    case Save(i, now) => WeightAfter(s.workers, i, Idle);
    case Exit(i) => WeightAfter(s.workers, i, Exited);
  }

  function OwnActions(actions: seq<Action>): nat {
    if actions == [] then 0 else (if actions[0].Elsewhere? then 0 else 1) + OwnActions(actions[1..])
  }

  lemma {:induction false} RunUsesWork(ttl: int, s: Pool, actions: seq<Action>)
    requires Runs(ttl, s, actions)
    ensures OwnActions(actions) + Work(After(ttl, s, actions)) <= Work(s)
    decreases actions
  {
    if actions != [] {
      StepUsesWork(ttl, s, actions[0]);
      RunUsesWork(ttl, Step(ttl, s, actions[0]), actions[1..]);
    }
  }

  /** No interleaving takes more than five steps per path and seven more, and as long as a
      worker is left some step of the pool is possible: the queue always drains. */
  lemma {:induction false} PoolAlwaysDrains(ttl: int, paths: seq<string>, entries: Entries, actions: seq<Action>)
    requires Runs(ttl, Start(paths, entries), actions)
    ensures OwnActions(actions) <= 5 * |paths| + 7
    ensures var s := After(ttl, Start(paths, entries), actions);
      Drained(s) || exists a: Action :: !a.Elsewhere? && Enabled(s, a)
  {
    var start := Start(paths, entries);
    RunUsesWork(ttl, start, actions);
    assert WorkersWeight(start.workers) == 6 by { IdleWeight(MAX_WORKERS); }
    assert Inv(paths, start) by { assert [] + [] + paths == paths; }
    RunKeepsInv(ttl, paths, start, actions);
    var s := After(ttl, start, actions);
    if !Drained(s) {
      var w :| w in s.workers && !w.Exited?;
      var i :| 0 <= i < |s.workers| && s.workers[i] == w;
      var a := if w.Looking? then Check(i, 0)
               else if w.Serving? then Finish(i, "")
               else if w.Served? then Save(i, 0)
               else if s.queue != [] then Take(i)
               else if s.unsent != [] then Send
               else if !s.closed then Close
               else Exit(i);
      assert !a.Elsewhere? && Enabled(s, a);
    }
  }

  lemma {:induction false} IdleWeight(n: nat)
    ensures WorkersWeight(seq(n, _ => Idle)) == n
  {
    if n > 0 {
      assert seq(n, _ => Idle)[1..] == seq(n - 1, _ => Idle);
      IdleWeight(n - 1);
    }
  }

  // ----- the summary -----

  datatype Status = Ok | NotYet | Broken

  datatype Summary = Summary(results: map<string, Status>, ok: nat, pending: nat, count: nat)

  /** `parses` says whether a body is a JSON object. */
  function StatusOf(entries: Entries, parses: string -> bool, path: string, now: int): Status {
    var data := Get(entries, AnonKey(path), now);
    if data.None? then NotYet else if parses(data.value) then Ok else Broken
  }

  function CountStatus(statuses: seq<Status>, which: Status): nat {
    if statuses == [] then 0 else (if statuses[0] == which then 1 else 0) + CountStatus(statuses[1..], which)
  }

  function Statuses(entries: Entries, parses: string -> bool, paths: seq<string>, now: int): (r: seq<Status>)
    ensures |r| == |paths|
  {
    seq(|paths|, i requires 0 <= i < |paths| => StatusOf(entries, parses, paths[i], now))
  }

  lemma {:induction false} CountSnoc(statuses: seq<Status>, s: Status, which: Status)
    ensures CountStatus(statuses + [s], which) == CountStatus(statuses, which) + if s == which then 1 else 0
  {
    if statuses == [] {
      assert [s][1..] == [];
    } else {
      assert (statuses + [s])[0] == statuses[0] && (statuses + [s])[1..] == statuses[1..] + [s];
      CountSnoc(statuses[1..], s, which);
    }
  }

  lemma {:induction false} CountsAddUp(statuses: seq<Status>)
    ensures CountStatus(statuses, Ok) + CountStatus(statuses, NotYet) + CountStatus(statuses, Broken) == |statuses|
  {
    if statuses != [] {
      CountsAddUp(statuses[1..]);
    }
  }

  /** The response to the path is in the cache and has not expired. */
  predicate InCache(entries: Entries, path: string, now: int) {
    var key := "anon:" + path + "?";
    key in entries && now <= entries[key].expiresAt
  }

  /** Ok if the response is there and parses, pending if it is not there. */
  predicate StatusReads(entries: Entries, parses: string -> bool, path: string, now: int, status: Status) {
    && (status == Ok <==> InCache(entries, path, now) && parses(entries["anon:" + path + "?"].data))
    && (status == NotYet <==> !InCache(entries, path, now))
  }

  lemma {:induction false} StatusIsRead(entries: Entries, parses: string -> bool, path: string, now: int)
    ensures StatusReads(entries, parses, path, now, StatusOf(entries, parses, path, now))
  {
    var key := "anon:" + path + "?";
    assert AnonKey(path) == key;
    assert InCache(entries, path, now) ==> Get(entries, key, now).value == entries[key].data;
  }

  function IsServed(entries: Entries, paths: seq<string>, now: int): nat -> bool {
    (i: nat) => i < |paths| && InCache(entries, paths[i], now)
  }

  function IsOk(entries: Entries, parses: string -> bool, paths: seq<string>, now: int): nat -> bool {
    (i: nat) => i < |paths| && InCache(entries, paths[i], now) && parses(entries["anon:" + paths[i] + "?"].data)
  }

  function HasStatus(statuses: seq<Status>, which: Status): nat -> bool {
    (i: nat) => i < |statuses| && statuses[i] == which
  }

  lemma {:induction false} CountByPosition(statuses: seq<Status>, which: Status)
    ensures CountStatus(statuses, which) == HowMany(|statuses|, HasStatus(statuses, which))
  {
    if statuses != [] {
      var n := |statuses| - 1;
      assert statuses == statuses[..n] + [statuses[n]];
      CountSnoc(statuses[..n], statuses[n], which);
      CountByPosition(statuses[..n], which);
      HowManySnoc(n, HasStatus(statuses, which));
      HowManySame(n, HasStatus(statuses, which), HasStatus(statuses[..n], which));
    }
  }

  lemma {:induction false} HowManyNot(n: nat, f: nat -> bool, g: nat -> bool)
    requires forall i: nat :: i < n ==> f(i) == !g(i)
    ensures HowMany(n, f) + HowMany(n, g) == n
  {
    if n > 0 {
      HowManySnoc(n - 1, f);
      HowManySnoc(n - 1, g);
      HowManyNot(n - 1, f, g);
    } else {
      assert (set i: nat | i < 0 && f(i)) == {} && (set i: nat | i < 0 && g(i)) == {};
    }
  }

  /** The counts, read off the cache: ok counts the paths whose response is in the cache and
      parses, pending those whose response is not there. */
  lemma {:induction false} CountsAreRead(entries: Entries, parses: string -> bool, paths: seq<string>, now: int)
    ensures var statuses := Statuses(entries, parses, paths, now);
      && CountStatus(statuses, Ok) == HowMany(|paths|, IsOk(entries, parses, paths, now))
      && CountStatus(statuses, NotYet) == |paths| - HowMany(|paths|, IsServed(entries, paths, now))
  {
    var statuses := Statuses(entries, parses, paths, now);
    CountByPosition(statuses, Ok);
    CountByPosition(statuses, NotYet);
    forall i: nat | i < |paths|
      ensures statuses[i] == Ok <==> IsOk(entries, parses, paths, now)(i)
      ensures statuses[i] == NotYet <==> !IsServed(entries, paths, now)(i)
    {
      assert statuses[i] == StatusOf(entries, parses, paths[i], now);
      StatusIsRead(entries, parses, paths[i], now);
    }
    HowManySame(|paths|, HasStatus(statuses, Ok), IsOk(entries, parses, paths, now));
    HowManyNot(|paths|, HasStatus(statuses, NotYet), IsServed(entries, paths, now));
  }

  method RebuildBatchSummary(cache: Cache, parses: string -> bool, paths: seq<string>, now: int)
    returns (summary: Summary)
    ensures var statuses := Statuses(cache.entries, parses, paths, now);
      && summary.ok == CountStatus(statuses, Ok) && summary.pending == CountStatus(statuses, NotYet)
      && summary.ok + summary.pending + CountStatus(statuses, Broken) == |paths|
    ensures summary.results.Keys == set path | path in paths
    ensures forall path :: path in paths ==> summary.results[path] == StatusOf(cache.entries, parses, path, now)
    ensures summary.count == |summary.results|
    ensures forall path :: path in paths ==> StatusReads(cache.entries, parses, path, now, summary.results[path])
    ensures summary.ok == HowMany(|paths|, IsOk(cache.entries, parses, paths, now))
    ensures summary.pending == |paths| - HowMany(|paths|, IsServed(cache.entries, paths, now))
  {
    hide HowMany, IsOk, IsServed, StatusReads, CountStatus;
    CountsAddUp([]);
    var results, ok, pending := map[], 0, 0;
    ghost var statuses := Statuses(cache.entries, parses, paths, now);
    for i := 0 to |paths|
      invariant ok == CountStatus(statuses[..i], Ok) && pending == CountStatus(statuses[..i], NotYet)
      invariant results.Keys == set path | path in paths[..i]
      invariant forall path :: path in results ==> results[path] == StatusOf(cache.entries, parses, path, now)
    {
      assert statuses[..i + 1] == statuses[..i] + [statuses[i]];
      CountSnoc(statuses[..i], statuses[i], Ok);
      CountSnoc(statuses[..i], statuses[i], NotYet);
      assert paths[..i + 1] == paths[..i] + [paths[i]];
      var data := cache.GetEntry(AnonKey(paths[i]), now);
      if data.None? {
        results := results[paths[i] := NotYet];
        pending := pending + 1;
        continue;
      }
      if !parses(data.value) {
        results := results[paths[i] := Broken];
        continue;
      }
      results := results[paths[i] := Ok];
      ok := ok + 1;
    }
    assert statuses[..|paths|] == statuses && paths[..|paths|] == paths;
    CountsAddUp(statuses);
    CountsAreRead(cache.entries, parses, paths, now);
    forall path | path in paths
      ensures StatusReads(cache.entries, parses, path, now, results[path])
    {
      StatusIsRead(cache.entries, parses, path, now);
    }
    summary := Summary(results, ok, pending, |results|);
  }

  /** The reported Count is the number of paths if and only if no path is listed twice. */
  lemma {:induction false} CountIsExactWhen(results: map<string, Status>, paths: seq<string>)
    requires results.Keys == set path | path in paths
    ensures |results| == |paths| <==> Distinct(paths)
  {
    DistinctSize(paths);
    assert |results| == |results.Keys|;
  }

  /** After a pool run, a path is pending in the summary exactly when the answer to it was not
      cached by anyone, or its entry has expired since. */
  lemma {:induction false} PendingExactlyWhen(ttl: int, paths: seq<string>, entries: Entries, actions: seq<Action>,
                           parses: string -> bool, path: string, now: int)
    requires Runs(ttl, Start(paths, entries), actions) && path in paths
    requires Drained(After(ttl, Start(paths, entries), actions))
    ensures var s := After(ttl, Start(paths, entries), actions);
      StatusOf(s.entries, parses, path, now) == NotYet <==>
        || (AnonKey(path) !in s.entries && path in s.dropped && Refused(s.dropped[path]))
        || (AnonKey(path) in s.entries && now > s.entries[AnonKey(path)].expiresAt)
  {
    EveryPathIsTakenOnce(ttl, paths, entries, actions);
  }
}
