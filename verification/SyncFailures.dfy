/** What admin requests leave behind when calls to the Kubernetes API fail: the handlers log the
    error of a sync or a cleanup and answer as if it had succeeded. */
module SyncFailures {
  import opened Cluster
  import opened RbacSync
  import opened UserAdmin

  // ----- how far a sync gets -----

  /** The cluster with the user's bindings in those namespaces in place. */
  ghost function Placed(st: State, u: User, nss: seq<string>): State
    requires NamespaceScoped(u.role)
  {
    var placed := map ns | ns in nss && ns in st.namespaces :: BindingKey(u.username, ns) := WantedBinding(u, ns);
    st.(bindings := st.bindings + placed)
  }

  /** The API refuses the create, or the update of a binding that is there by then. */
  predicate RefusedAt(api: Api, st: State, u: User, desired: seq<string>, i: nat)
    requires NamespaceScoped(u.role) && i < |desired|
  {
    var ns := desired[i];
    var key := BindingKey(u.username, ns);
    || key in api.createFails
    || (ns in st.namespaces && (key in st.bindings || ns in desired[..i]) && key in api.updateFails)
    || (ns in st.namespaces && key in st.bindings && ns !in desired[..i]
        && api.immutableRoleRef && st.bindings[key].role != RoleName(u.role))
  }

  function FirstRefused(api: Api, st: State, u: User, desired: seq<string>, i: nat): (n: nat)
    requires NamespaceScoped(u.role) && i <= |desired|
    ensures i <= n <= |desired|
    ensures n < |desired| ==> RefusedAt(api, st, u, desired, n)
    ensures forall j :: i <= j < n ==> !RefusedAt(api, st, u, desired, j)
    decreases |desired| - i
  {
    if i == |desired| || RefusedAt(api, st, u, desired, i) then i else FirstRefused(api, st, u, desired, i + 1)
  }

  lemma {:induction false} PlacedAt(st: State, u: User, nss: seq<string>, key: Key)
    requires NamespaceScoped(u.role)
    ensures var st' := Placed(st, u, nss);
      var wanted := key.ns in nss && key.ns in st.namespaces && key == BindingKey(u.username, key.ns);
      && (key in st'.bindings <==> wanted || key in st.bindings)
      && (key in st'.bindings ==>
            st'.bindings[key] == if wanted then WantedBinding(u, key.ns) else st.bindings[key])
  {}

  lemma {:induction false} PlacedSnoc(st: State, u: User, nss: seq<string>, ns: string)
    requires NamespaceScoped(u.role)
    ensures var before := Placed(st, u, nss);
      Placed(st, u, nss + [ns])
      == if ns in st.namespaces
         then before.(bindings := before.bindings[BindingKey(u.username, ns) := WantedBinding(u, ns)])
         else before
  {
    var got, before := Placed(st, u, nss + [ns]).bindings, Placed(st, u, nss).bindings;
    var want := if ns in st.namespaces then before[BindingKey(u.username, ns) := WantedBinding(u, ns)] else before;
    forall k
      ensures k in got <==> k in want
      ensures k in got ==> got[k] == want[k]
    {
      PlacedAt(st, u, nss, k);
      PlacedAt(st, u, nss + [ns], k);
    }
    assert got == want;
  }

  lemma {:induction false} PlacedNext(api: Api, st: State, u: User, desired: seq<string>, i: nat)
    requires NamespaceScoped(u.role) && i < |desired|
    ensures var (st', r) := Upsert(api, Placed(st, u, desired[..i]), BindingKey(u.username, desired[i]),
                                   WantedBinding(u, desired[i]));
      && (r.Failed? <==> RefusedAt(api, st, u, desired, i))
      && st' == Placed(st, u, if r.Failed? then desired[..i] else desired[..i + 1])
  {
    PlacedAt(st, u, desired[..i], BindingKey(u.username, desired[i]));
    PlacedSnoc(st, u, desired[..i], desired[i]);
    assert desired[..i + 1] == desired[..i] + [desired[i]];
    hide Placed;
  }

  /** A sync puts the bindings before the first refusal in place and no other. */
  lemma {:induction false} UpsertAllStopsAtTheFirstRefusal(api: Api, st: State, u: User, desired: seq<string>, i: nat)
    requires NamespaceScoped(u.role) && i <= |desired|
    ensures var n := FirstRefused(api, st, u, desired, i);
      UpsertAll(api, Placed(st, u, desired[..i]), u, desired[i..]) == (Placed(st, u, desired[..n]), n == |desired|)
    decreases |desired| - i
  {
    if i < |desired| {
      PlacedNext(api, st, u, desired, i);
      assert desired[i..][0] == desired[i] && desired[i..][1..] == desired[i + 1..];
      UpsertAllStopsAtTheFirstRefusal(api, st, u, desired, i + 1);
    }
  }

  /** The namespaces a sync serves before the API refuses one. */
  function Served(api: Api, st: State, u: User): seq<string> {
    if !NamespaceScoped(u.role) then []
    else
      var desired := Namespaces(u.allowedNamespaces);
      desired[..FirstRefused(api, st, u, desired, 0)]
  }

  function Wished(u: User): seq<string> {
    if NamespaceScoped(u.role) then Namespaces(u.allowedNamespaces) else []
  }

  lemma {:induction false} SyncedIs(api: Api, st: State, u: User)
    ensures Synced(api, st, u).0 ==
      var placed := if NamespaceScoped(u.role) then Placed(st, u, Served(api, st, u)) else st;
      if |Served(api, st, u)| == |Wished(u)| then Cleaned(api, placed, u.username, Desired(u)).0 else placed
  {
    if NamespaceScoped(u.role) {
      var desired := Namespaces(u.allowedNamespaces);
      UpsertAllStopsAtTheFirstRefusal(api, st, u, desired, 0);
      assert desired[0..] == desired && desired[..0] == [];
      assert Placed(st, u, []).bindings == st.bindings;
    }
  }

  /** A sync reports success if and only if the API refuses no binding and lists the namespaces;
      failures to list or to delete bindings are not reported. */
  lemma {:induction false} SyncSucceedsExactlyWhen(api: Api, st: State, u: User)
    ensures Synced(api, st, u).1 <==>
      && !api.listNamespacesFails
      && (NamespaceScoped(u.role) ==>
            var desired := Namespaces(u.allowedNamespaces);
            forall i: nat :: i < |desired| ==> !RefusedAt(api, st, u, desired, i))
  {
    if NamespaceScoped(u.role) {
      var desired := Namespaces(u.allowedNamespaces);
      UpsertAllStopsAtTheFirstRefusal(api, st, u, desired, 0);
      assert desired[0..] == desired && desired[..0] == [];
      assert Placed(st, u, []).bindings == st.bindings;
      hide RefusedAt, UpsertAll;
    }
  }

  // ----- when a request keeps the invariant -----

  ghost predicate Right(st: State, u: User, ns: string) {
    NamespaceScoped(u.role) &&
    var key := BindingKey(u.username, ns);
    key in st.bindings && st.bindings[key] == WantedBinding(u, ns)
  }

  /** The cleanup lists the namespaces, and in each of them finds and deletes what the user
      should no longer have. */
  ghost predicate CleanupWorks(api: Api, st: State, u: User) {
    && !api.listNamespacesFails
    && forall key :: key in Undesired(st, u) ==> key.ns !in api.listFails && key !in api.deleteFails
  }

  /** Every binding the user should have is put in place before the API refuses one, or was
      right already; and if the user has others, nothing is refused and the cleanup works. */
  ghost predicate Carried(api: Api, st: State, u: User) {
    && (forall ns :: ns in Wished(u) && ns in st.namespaces ==> ns in Served(api, st, u) || Right(st, u, ns))
    && (Undesired(st, u) != {} ==> |Served(api, st, u)| == |Wished(u)| && CleanupWorks(api, st, u))
  }

  /** The user's own bindings are as they should be. */
  ghost predicate OwnInSync(st: State, u: User) {
    Undesired(st, u) == {} && forall ns :: ns in Wished(u) && ns in st.namespaces ==> Right(st, u, ns)
  }

  lemma {:induction false} PlacedKeepsUndesired(st: State, u: User, nss: seq<string>)
    requires NamespaceScoped(u.role) && forall ns :: ns in nss ==> ns in Namespaces(u.allowedNamespaces)
    ensures Undesired(Placed(st, u, nss), u) == Undesired(st, u)
    ensures forall ns :: ns in st.namespaces ==> (Right(Placed(st, u, nss), u, ns) <==> ns in nss || Right(st, u, ns))
  {
    forall key
      ensures key in Undesired(Placed(st, u, nss), u) <==> key in Undesired(st, u)
    {
      PlacedAt(st, u, nss, key);
    }
    forall ns | ns in st.namespaces
      ensures Right(Placed(st, u, nss), u, ns) <==> ns in nss || Right(st, u, ns)
    {
      PlacedAt(st, u, nss, BindingKey(u.username, ns));
    }
  }

  lemma {:induction false} CleanedUndesired(api: Api, st: State, u: User)
    requires forall key :: key in Undesired(st, u) ==> key.ns in st.namespaces
    ensures var st' := Cleaned(api, st, u.username, Desired(u)).0;
      && (Undesired(st', u) == {} <==> Undesired(st, u) == {} || CleanupWorks(api, st, u))
      && (forall ns :: ns in Wished(u) ==> (Right(st', u, ns) <==> Right(st, u, ns)))
  {
    var st' := Cleaned(api, st, u.username, Desired(u)).0;
    forall key
      ensures key in Undesired(st', u) <==>
        key in Undesired(st, u) && (api.listNamespacesFails || key.ns in api.listFails || key in api.deleteFails)
    {}
    if Undesired(st', u) == {} && Undesired(st, u) != {} {
      var key :| key in Undesired(st, u);
      assert key !in Undesired(st', u);
      assert CleanupWorks(api, st, u);
    }
  }

  lemma {:induction false} SyncPutsOwnInSyncExactlyWhen(api: Api, st: State, u: User)
    requires Canonical(st)
    ensures OwnInSync(Synced(api, st, u).0, u) <==> Carried(api, st, u)
  {
    SyncedIs(api, st, u);
    var placed := if NamespaceScoped(u.role) then Placed(st, u, Served(api, st, u)) else st;
    if NamespaceScoped(u.role) {
      PlacedKeepsUndesired(st, u, Served(api, st, u));
    }
    assert Undesired(placed, u) == Undesired(st, u);
    CleanedUndesired(api, placed, u);
  }

  lemma {:induction false} InSyncIsCanonical(users: map<nat, User>, st: State)
    requires InSync(users, st)
    ensures Canonical(st)
  {
    forall key | key in st.bindings && st.bindings[key].user.Some?
      ensures key.ns in st.namespaces && key == BindingKey(st.bindings[key].user.value, key.ns)
    {
      var id :| id in users && Wants(users[id], st.namespaces, key, st.bindings[key]);
    }
  }

  /** With everyone else in sync, a sync of `u` decides by the bindings of `u` alone. */
  lemma {:induction false} OwnBindingsDecide(api: Api, users: map<nat, User>, st: State, id: nat, u: User)
    requires InSync(users, st) && UniqueNames(users[id := u])
    requires id in users ==> users[id].username == u.username
    ensures var st' := Synced(api, st, u).0; InSync(users[id := u], st') <==> OwnInSync(st', u)
  {
    var users', st' := users[id := u], Synced(api, st, u).0;
    FailuresOnlyDelayCleanup(api, st, u);
    InSyncIsCanonical(users, st);
    if InSync(users', st') {
      OwnFromInSync(users', st', id, u);
    }
    if OwnInSync(st', u) {
      forall key | key in st'.bindings && st'.bindings[key].user.Some?
        ensures SomeoneWants(users', st'.namespaces, key, st'.bindings[key])
      {
        StillWanted(api, users, st, id, u, key);
      }
      forall i, key, b | i in users' && Wants(users'[i], st'.namespaces, key, b)
        ensures key in st'.bindings && st'.bindings[key] == b
      {
        StillThere(api, users, st, id, u, i, key, b);
      }
    }
  }

  lemma {:induction false} OwnFromInSync(users: map<nat, User>, st: State, id: nat, u: User)
    requires InSync(users, st) && UniqueNames(users) && id in users && users[id] == u
    ensures OwnInSync(st, u)
  {
    forall key | key in st.bindings && LabelledBy(st.bindings[key], u.username)
      ensures key.ns in Desired(u)
    {
      var i :| i in users && Wants(users[i], st.namespaces, key, st.bindings[key]);
      assert users[i].username == u.username;
    }
    forall ns | ns in Wished(u) && ns in st.namespaces
      ensures Right(st, u, ns)
    {
      assert Wants(users[id], st.namespaces, BindingKey(u.username, ns), WantedBinding(u, ns));
    }
  }

  lemma {:induction false} NamespacesStay(api: Api, st: State, u: User)
    ensures Synced(api, st, u).0.namespaces == st.namespaces
  {
    if NamespaceScoped(u.role) {
      UpsertAllFrame(api, st, u, Namespaces(u.allowedNamespaces));
    }
  }

  lemma {:induction false} SyncIsCanonical(api: Api, st: State, u: User)
    requires Canonical(st)
    ensures Canonical(Synced(api, st, u).0)
  {
    NamespacesStay(api, st, u);
    FailuresOnlyDelayCleanup(api, st, u);
  }

  lemma {:induction false} StillWanted(api: Api, users: map<nat, User>, st: State, id: nat, u: User, key: Key)
    requires InSync(users, st) && (id in users ==> users[id].username == u.username)
    requires var st' := Synced(api, st, u).0;
      OwnInSync(st', u) && key in st'.bindings && st'.bindings[key].user.Some?
    ensures var st' := Synced(api, st, u).0; SomeoneWants(users[id := u], st'.namespaces, key, st'.bindings[key])
  {
    var users', st' := users[id := u], Synced(api, st, u).0;
    NamespacesStay(api, st, u);
    FailuresOnlyDelayCleanup(api, st, u);
    if LabelledBy(st'.bindings[key], u.username) {
      InSyncIsCanonical(users, st);
      SyncIsCanonical(api, st, u);
      assert key !in Undesired(st', u);
      assert Right(st', u, key.ns);
      assert Wants(users'[id], st'.namespaces, key, st'.bindings[key]);
    } else {
      TargetAt(u, st.namespaces, key);
      var i :| i in users && Wants(users[i], st.namespaces, key, st.bindings[key]);
      assert users'[i] == users[i];
    }
  }

  lemma {:induction false} StillThere(api: Api, users: map<nat, User>, st: State, id: nat, u: User, i: nat, key: Key,
      b: Binding)
    requires InSync(users, st) && UniqueNames(users[id := u]) && OwnInSync(Synced(api, st, u).0, u)
    requires var st' := Synced(api, st, u).0; i in users[id := u] && Wants(users[id := u][i], st'.namespaces, key, b)
    ensures var st' := Synced(api, st, u).0; key in st'.bindings && st'.bindings[key] == b
  {
    NamespacesStay(api, st, u);
    if i == id {
      assert Right(Synced(api, st, u).0, u, key.ns);
    } else {
      assert users[id := u][i] == users[i] && users[id := u][id] == u;
      assert key in st.bindings && st.bindings[key] == b;
      InSyncIsCanonical(users, st);
      OthersUntouched(api, st, u, key);
    }
  }

  /** The request succeeds in doing, or need not do, all it should in the cluster. */
  ghost predicate Accomplishes(api: Api, w: World, op: Op) {
    match op
    case Create(_, _, _, _, _) => Creates(w, op) ==> Carried(api, w.cluster, NewUser(op))
    case Patch(id, _, _) =>
      id in w.users ==>
        if TriggersSync(op) then Carried(api, w.cluster, Patched(w.users[id], op)) else !Skipped(w, op)
    case Delete(id) => id in w.users ==> Carried(api, w.cluster, Nobody(w.users[id]))
  }

  /** For the cluster a deleted user is one that should have nothing. */
  function Nobody(u: User): User { User(u.username, "", "") }

  lemma {:induction false} NobodyMayGo(users: map<nat, User>, st: State, id: nat, u: User)
    requires id in users && users[id].username == u.username
    ensures InSync(users - {id}, st) <==> InSync(users[id := Nobody(u)], st)
  {
    var with, without := users[id := Nobody(u)], users - {id};
    if InSync(with, st) {
      DropKeepsInSync(with, st, id);
      assert with - {id} == without;
    }
    if InSync(without, st) {
      forall key | key in st.bindings && st.bindings[key].user.Some?
        ensures SomeoneWants(with, st.namespaces, key, st.bindings[key])
      {
        var i :| i in without && Wants(without[i], st.namespaces, key, st.bindings[key]);
        assert with[i] == without[i];
      }
      forall i, key, b | i in with && Wants(with[i], st.namespaces, key, b)
        ensures key in st.bindings && st.bindings[key] == b
      {
        assert i in without && without[i] == with[i];
      }
    }
  }

  /** Whatever calls fail, one admin request keeps users and bindings in sync if and only if it
      puts in place every binding that was not right already, and clears away every binding
      that the user should no longer have. */
  lemma {:induction false} StepKeepsInvUnderFailuresExactlyWhen(api: Api, w: World, op: Op)
    requires Inv(w)
    ensures Inv(Step(api, w, op).0) <==> Accomplishes(api, w, op)
  {
    InSyncIsCanonical(w.users, w.cluster);
    match op
    case Create(_, _, _, _, _) =>
      if Creates(w, op) {
        OwnBindingsDecide(api, w.users, w.cluster, w.nextId, NewUser(op));
        SyncPutsOwnInSyncExactlyWhen(api, w.cluster, NewUser(op));
      }
    case Patch(id, _, _) =>
      if id in w.users {
        var u := Patched(w.users[id], op);
        if TriggersSync(op) {
          OwnBindingsDecide(api, w.users, w.cluster, id, u);
          SyncPutsOwnInSyncExactlyWhen(api, w.cluster, u);
        } else if Skipped(w, op) {
          SkippedBreaksInv(api, w, op);
        } else {
          SameTargetKeepsInSync(w.users, w.cluster, id, u);
        }
      }
    case Delete(id) =>
      if id in w.users {
        var u := Nobody(w.users[id]);
        OwnBindingsDecide(api, w.users, w.cluster, id, u);
        SyncPutsOwnInSyncExactlyWhen(api, w.cluster, u);
        NobodyMayGo(w.users, Synced(api, w.cluster, u).0, id, w.users[id]);
      }
  }

  /** A request, and the API as it is while the request is handled: failures come and go. */
  datatype Request = Request(api: Api, op: Op)

  function RunAll(w: World, requests: seq<Request>): World
    decreases requests
  {
    if requests == [] then w else RunAll(Step(requests[0].api, w, requests[0].op).0, requests[1..])
  }

  /** The invariant holds now and after every request of the run. */
  ghost predicate InSyncAllAlong(w: World, requests: seq<Request>)
    decreases requests
  {
    Inv(w) && (requests == [] || InSyncAllAlong(Step(requests[0].api, w, requests[0].op).0, requests[1..]))
  }

  ghost predicate AccomplishesAll(w: World, requests: seq<Request>)
    decreases requests
  {
    requests == [] ||
    var r := requests[0];
    Accomplishes(r.api, w, r.op) && AccomplishesAll(Step(r.api, w, r.op).0, requests[1..])
  }

  /** So for a run: it stays in sync throughout if and only if each of its requests does. */
  lemma {:induction false} RunStaysInSyncUnderFailuresExactlyWhen(w: World, requests: seq<Request>)
    requires Inv(w)
    ensures InSyncAllAlong(w, requests) <==> AccomplishesAll(w, requests)
    decreases requests
  {
    if requests != [] {
      var r := requests[0];
      StepKeepsInvUnderFailuresExactlyWhen(r.api, w, r.op);
      var w' := Step(r.api, w, r.op).0;
      if Inv(w') {
        RunStaysInSyncUnderFailuresExactlyWhen(w', requests[1..]);
      }
    }
  }

  // ----- bindings of deleted users -----

  /** The request is about a user of that name. */
  predicate Concerns(w: World, op: Op, username: string) {
    match op
    case Create(name, _, _, _, _) => name == username
    case Patch(id, _, _) => id in w.users && w.users[id].username == username
    case Delete(id) => id in w.users && w.users[id].username == username
  }

  /** A request about somebody else leaves the bindings labelled with that name alone. */
  lemma {:induction false} OthersKeepTheirBindings(api: Api, w: World, op: Op, username: string, key: Key)
    requires Canonical(w.cluster) && !Concerns(w, op, username)
    requires key in w.cluster.bindings && LabelledBy(w.cluster.bindings[key], username)
    ensures var w' := Step(api, w, op).0;
      Canonical(w'.cluster) && key in w'.cluster.bindings && w'.cluster.bindings[key] == w.cluster.bindings[key]
  {
    match op
    case Create(_, _, _, _, _) =>
      if Creates(w, op) {
        SyncIsCanonical(api, w.cluster, NewUser(op));
        OthersUntouched(api, w.cluster, NewUser(op), key);
      }
    case Patch(id, _, _) =>
      if id in w.users && TriggersSync(op) {
        SyncIsCanonical(api, w.cluster, Patched(w.users[id], op));
        OthersUntouched(api, w.cluster, Patched(w.users[id], op), key);
      }
    case Delete(id) =>
      if id in w.users {
        SyncIsCanonical(api, w.cluster, Nobody(w.users[id]));
        OthersUntouched(api, w.cluster, Nobody(w.users[id]), key);
      }
  }

  predicate NeverCreates(requests: seq<Request>, username: string) {
    forall r :: r in requests && r.op.Create? ==> r.op.username != username
  }

  predicate NameIsGone(w: World, username: string) { forall id :: id in w.users ==> w.users[id].username != username }

  lemma {:induction false} NameStaysGone(api: Api, w: World, op: Op, username: string)
    requires NameIsGone(w, username) && (op.Create? ==> op.username != username)
    ensures NameIsGone(Step(api, w, op).0, username) && !Concerns(w, op, username)
  {}

  /** A binding that outlives its user stays, with the rights it gives, until a user of the same
      name is created: no request about anyone else removes it, whatever the API does. */
  lemma {:induction false} OrphansStay(w: World, requests: seq<Request>, username: string, key: Key)
    requires Canonical(w.cluster) && NameIsGone(w, username) && NeverCreates(requests, username)
    requires key in w.cluster.bindings && LabelledBy(w.cluster.bindings[key], username)
    ensures var w' := RunAll(w, requests);
      key in w'.cluster.bindings && w'.cluster.bindings[key] == w.cluster.bindings[key]
    decreases requests
  {
    if requests != [] {
      var r := requests[0];
      assert r in requests;
      NameStaysGone(r.api, w, r.op, username);
      OthersKeepTheirBindings(r.api, w, r.op, username, key);
      OrphansStay(Step(r.api, w, r.op).0, requests[1..], username, key);
    }
  }

  /** A DELETE whose cleanup cannot remove a binding still removes the user, and leaves that
      binding, for as long as no user of the same name is created, even if the API recovers. */
  lemma {:induction false} FailedCleanupOrphans(api: Api, w: World, id: nat, key: Key, later: seq<Request>)
    requires Inv(w) && id in w.users && key in Target(w.users[id], w.cluster.namespaces)
    requires api.listNamespacesFails || key.ns in api.listFails || key in api.deleteFails
    requires NeverCreates(later, w.users[id].username)
    ensures var (w', status) := Step(api, w, Delete(id));
      && status == Done && NameIsGone(w', w.users[id].username) && !Inv(w')
      && key in RunAll(w', later).cluster.bindings
      && RunAll(w', later).cluster.bindings[key] == Target(w.users[id], w.cluster.namespaces)[key]
  {
    var u, w' := w.users[id], Step(api, w, Delete(id)).0;
    WantsIsTarget(u, w.cluster.namespaces, key, Target(u, w.cluster.namespaces)[key]);
    InSyncIsCanonical(w.users, w.cluster);
    assert key in Undesired(w.cluster, Nobody(u));
    StepKeepsInvUnderFailuresExactlyWhen(api, w, Delete(id));
    SyncIsCanonical(api, w.cluster, Nobody(u));
    assert key in w'.cluster.bindings;
    OrphansStay(w', later, u.username, key);
  }
}
