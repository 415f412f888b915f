/** The admin handlers: each changes the user store and then reconciles the cluster. */
module UserAdmin {
  import opened Cluster
  import opened RbacSync
  import opened Common
  import opened Text

  /** A field of a PATCH body: not there, JSON null, or a string. */
  datatype Field = Absent | Null | Value(v: string)

  datatype Op =
    | Create(username: string, password: string, hashFails: bool, role: string, allowedNamespaces: string)
    | Patch(id: nat, newRole: Field, newNamespaces: Field)
    | Delete(id: nat)

  datatype Status = Done | BadRequest | ServerError

  datatype World = World(users: map<nat, User>, nextId: nat, cluster: State)

  // ----- one request, as a function -----

  predicate NameTaken(users: map<nat, User>, username: string) {
    exists id | id in users :: users[id].username == username
  }

  predicate Creates(w: World, op: Op) {
    op.Create? && op.username != "" && op.password != "" && !op.hashFails && !NameTaken(w.users, op.username)
  }

  function NewUser(op: Op): User
    requires op.Create?
  {
    User(op.username, if op.role == "" then "viewer" else op.role, op.allowedNamespaces)
  }

  /** A null column reads back as the empty string. */
  function Written(f: Field, before: string): string {
    match f case Absent => before case Null => "" case Value(v) => v
  }

  function Patched(u: User, op: Op): User
    requires op.Patch?
  {
    User(u.username, Written(op.newRole, u.role), Written(op.newNamespaces, u.allowedNamespaces))
  }

  /** The handler syncs only if a field with a non-null value is present. */
  predicate TriggersSync(op: Op)
    requires op.Patch?
  {
    op.newRole.Value? || op.newNamespaces.Value?
  }

  function Step(api: Api, w: World, op: Op): (World, Status) {
    match op
    case Create(_, _, _, _, _) =>
      if !Creates(w, op) then (w, BadRequest)
      else
        var u := NewUser(op);
        (World(w.users[w.nextId := u], w.nextId + 1, Synced(api, w.cluster, u).0), Done)
    case Patch(id, _, _) =>
      if id !in w.users then (w, Done)
      else
        var u := Patched(w.users[id], op);
        (w.(users := w.users[id := u],
            cluster := if TriggersSync(op) then Synced(api, w.cluster, u).0 else w.cluster), Done)
    case Delete(id) =>
      if id !in w.users then (w, ServerError)
      else
        (w.(users := w.users - {id}, cluster := Cleaned(api, w.cluster, w.users[id].username, {}).0), Done)
  }

  // ----- the handlers -----

  class Authenticator {
    var users: map<nat, User>
    var nextId: nat
    const rbacSyncer: RBACSyncer

    constructor (rbacSyncer: RBACSyncer)
      requires rbacSyncer.clientset != null
      ensures Valid() && this.rbacSyncer == rbacSyncer
      ensures Contents() == World(map[], 1, rbacSyncer.clientset.state)
    {
      users := map[];
      nextId := 1;
      this.rbacSyncer := rbacSyncer;
    }

    predicate Valid() { rbacSyncer.clientset != null }

    function Contents(): World
      reads this, rbacSyncer.clientset
      requires Valid()
    {
      World(users, nextId, rbacSyncer.clientset.state)
    }

    function Api(): Api
      requires Valid()
    {
      rbacSyncer.clientset.api
    }

    /** POST /api/admin/users */
    method HandleCreate(username: string, password: string, hashFails: bool, role: string, allowedNamespaces: string)
      returns (status: Status)
      requires Valid()
      modifies this, rbacSyncer.clientset
      ensures (Contents(), status)
           == Step(Api(), old(Contents()), Create(username, password, hashFails, role, allowedNamespaces))
    {
      if username == "" || password == "" {
        return BadRequest;
      }
      if hashFails || NameTaken(users, username) {
        return BadRequest;
      }
      var user := User(username, if role == "" then "viewer" else role, allowedNamespaces);
      users := users[nextId := user];
      nextId := nextId + 1;
      var _ := rbacSyncer.SyncUserRBAC(user);
      return Done;
    }

    /** PATCH /api/admin/users/{id} */
    method HandlePatch(id: nat, role: Field, allowedNamespaces: Field) returns (status: Status)
      requires Valid()
      modifies this, rbacSyncer.clientset
      ensures (Contents(), status) == Step(Api(), old(Contents()), Patch(id, role, allowedNamespaces))
    {
      if id in users {
        var user := users[id];
        if !role.Absent? {
          user := user.(role := if role.Null? then "" else role.v);
        }
        if !allowedNamespaces.Absent? {
          user := user.(allowedNamespaces := if allowedNamespaces.Null? then "" else allowedNamespaces.v);
        }
        users := users[id := user];
      }
      if role.Value? || allowedNamespaces.Value? {
        if id in users {
          var _ := rbacSyncer.SyncUserRBAC(users[id]);
        }
      }
      return Done;
    }

    /** DELETE /api/admin/users/{id} */
    method HandleDelete(id: nat) returns (status: Status)
      requires Valid()
      modifies this, rbacSyncer.clientset
      ensures (Contents(), status) == Step(Api(), old(Contents()), Delete(id))
    {
      if id in users {
        var _ := rbacSyncer.CleanupUserRBAC(users[id].username);
      }
      if id !in users {
        return ServerError;
      }
      users := users - {id};
      return Done;
    }
  }

  // ----- the invariant -----

  predicate UniqueNames(users: map<nat, User>) {
    forall i, j :: i in users && j in users && i != j ==> users[i].username != users[j].username
  }

  ghost predicate Wants(u: User, namespaces: set<string>, key: Key, b: Binding) {
    && NamespaceScoped(u.role) && key.ns in Desired(u) && key.ns in namespaces
    && key == BindingKey(u.username, key.ns) && b == WantedBinding(u, key.ns)
  }

  lemma {:induction false} WantsIsTarget(u: User, namespaces: set<string>, key: Key, b: Binding)
    ensures Wants(u, namespaces, key, b) <==> key in Target(u, namespaces) && Target(u, namespaces)[key] == b
  {}

  ghost predicate SomeoneWants(users: map<nat, User>, namespaces: set<string>, key: Key, b: Binding) {
    exists id :: id in users && Wants(users[id], namespaces, key, b)
  }

  /** The labelled bindings of the cluster are exactly what the stored users want. */
  ghost predicate InSync(users: map<nat, User>, st: State) {
    && (forall key :: key in st.bindings && st.bindings[key].user.Some? ==>
          SomeoneWants(users, st.namespaces, key, st.bindings[key]))
    && (forall id, key, b :: id in users && Wants(users[id], st.namespaces, key, b) ==>
          key in st.bindings && st.bindings[key] == b)
  }

  ghost predicate Inv(w: World) {
    UniqueNames(w.users) && (forall id :: id in w.users ==> id < w.nextId) && InSync(w.users, w.cluster)
  }

  lemma {:induction false} WantsDisjoint(u: User, v: User, namespaces: set<string>, key: Key, b: Binding, c: Binding)
    requires Wants(u, namespaces, key, b) && Wants(v, namespaces, key, c)
    ensures u.username == v.username
  {
    KeyNamesTheUser(u.username, v.username, key.ns);
  }

  /** A binding is in the reconciled cluster if the user wants it, or if it was there, is not
      one of the user's that is no longer desired, and is not overwritten by one wanted. */
  lemma {:induction false} ReconciledAt(st: State, u: User, key: Key, b: Binding)
    ensures key in Reconciled(st, u).bindings && Reconciled(st, u).bindings[key] == b <==>
      || Wants(u, st.namespaces, key, b)
      || (key in st.bindings && st.bindings[key] == b
          && (LabelledBy(b, u.username) && key.ns in st.namespaces ==> key.ns in Desired(u))
          && !Wants(u, st.namespaces, key, WantedOr(u, key, b)))
  {
    TargetAt(u, st.namespaces, key);
  }

  /** What the user would want in the place of `b`. */
  ghost function WantedOr(u: User, key: Key, b: Binding): Binding {
    if NamespaceScoped(u.role) then WantedBinding(u, key.ns) else b
  }

  /** Storing `u` under `id` and reconciling the cluster for `u` keeps everything in sync. */
  lemma {:induction false} ReconcileKeepsInSync(users: map<nat, User>, st: State, id: nat, u: User)
    requires InSync(users, st) && UniqueNames(users[id := u])
    requires id in users ==> users[id].username == u.username
    ensures InSync(users[id := u], Reconciled(st, u))
  {
    var users', st' := users[id := u], Reconciled(st, u);
    forall key | key in st'.bindings && st'.bindings[key].user.Some?
      ensures SomeoneWants(users', st.namespaces, key, st'.bindings[key])
    {
      NothingStray(users, st, id, u, key);
    }
    forall i, key, b | i in users' && Wants(users'[i], st.namespaces, key, b)
      ensures key in st'.bindings && st'.bindings[key] == b
    {
      NothingMissing(users, st, id, u, i, key, b);
    }
  }

  lemma {:induction false} NothingStray(users: map<nat, User>, st: State, id: nat, u: User, key: Key)
    requires InSync(users, st) && (id in users ==> users[id].username == u.username)
    requires key in Reconciled(st, u).bindings && Reconciled(st, u).bindings[key].user.Some?
    ensures SomeoneWants(users[id := u], st.namespaces, key, Reconciled(st, u).bindings[key])
  {
    var users', b := users[id := u], Reconciled(st, u).bindings[key];
    ReconciledAt(st, u, key, b);
    if Wants(u, st.namespaces, key, b) {
      assert id in users' && users'[id] == u;
    } else {
      var i :| i in users && Wants(users[i], st.namespaces, key, b);
      assert i != id;
      assert i in users' && users'[i] == users[i];
    }
  }

  lemma {:induction false} NothingMissing(users: map<nat, User>, st: State, id: nat, u: User, i: nat, key: Key,
      b: Binding)
    requires InSync(users, st) && UniqueNames(users[id := u])
    requires i in users[id := u] && Wants(users[id := u][i], st.namespaces, key, b)
    ensures key in Reconciled(st, u).bindings && Reconciled(st, u).bindings[key] == b
  {
    ReconciledAt(st, u, key, b);
    if i != id {
      var v := users[i];
      assert users[id := u][i] == v && users[id := u][id] == u;
      assert key in st.bindings && st.bindings[key] == b;
      if Wants(u, st.namespaces, key, WantedOr(u, key, b)) {
        WantsDisjoint(u, v, st.namespaces, key, WantedOr(u, key, b), b);
      }
    }
  }

  /** The stored user of a request that reconciles the cluster afterwards. */
  ghost predicate Blocked(api: Api, w: World, op: Op) {
    || (Creates(w, op) && RoleConflict(api, w.cluster, NewUser(op)))
    || (op.Patch? && op.id in w.users && TriggersSync(op)
        && RoleConflict(api, w.cluster, Patched(w.users[op.id], op)))
  }

  /** A PATCH with only nulls that takes bindings away from the user. */
  ghost predicate Skipped(w: World, op: Op) {
    && op.Patch? && op.id in w.users && !TriggersSync(op)
    && Target(w.users[op.id], w.cluster.namespaces) != Target(Patched(w.users[op.id], op), w.cluster.namespaces)
  }

  lemma {:induction false} SameTargetKeepsInSync(users: map<nat, User>, st: State, id: nat, u: User)
    requires InSync(users, st) && id in users
    requires Target(u, st.namespaces) == Target(users[id], st.namespaces)
    ensures InSync(users[id := u], st)
  {
    var users' := users[id := u];
    forall key | key in st.bindings && st.bindings[key].user.Some?
      ensures SomeoneWants(users', st.namespaces, key, st.bindings[key])
    {
      var b := st.bindings[key];
      var i :| i in users && Wants(users[i], st.namespaces, key, b);
      WantsIsTarget(users[id], st.namespaces, key, b);
      WantsIsTarget(u, st.namespaces, key, b);
      assert i in users' && Wants(users'[i], st.namespaces, key, b);
    }
    forall i, key, b | i in users' && Wants(users'[i], st.namespaces, key, b)
      ensures key in st.bindings && st.bindings[key] == b
    {
      WantsIsTarget(users[id], st.namespaces, key, b);
      WantsIsTarget(u, st.namespaces, key, b);
      assert i in users && Wants(users[i], st.namespaces, key, b);
    }
  }

  /** A user that wants nothing may go. */
  lemma {:induction false} DropKeepsInSync(users: map<nat, User>, st: State, id: nat)
    requires InSync(users, st) && id in users && !NamespaceScoped(users[id].role)
    ensures InSync(users - {id}, st)
  {
    var users' := users - {id};
    forall key | key in st.bindings && st.bindings[key].user.Some?
      ensures SomeoneWants(users', st.namespaces, key, st.bindings[key])
    {
      var i :| i in users && Wants(users[i], st.namespaces, key, st.bindings[key]);
      assert i in users' && users'[i] == users[i];
    }
    forall i, key, b | i in users' && Wants(users'[i], st.namespaces, key, b)
      ensures key in st.bindings && st.bindings[key] == b
    {
      assert i in users && users[i] == users'[i];
    }
  }

  /** A deleted user is, for the cluster, one that wants nothing. */
  lemma {:induction false} DeleteKeepsInv(api: Api, w: World, id: nat)
    requires ErrorFree(api) && Inv(w) && id in w.users
    ensures Inv(Step(api, w, Delete(id)).0)
  {
    var u := User(w.users[id].username, "", "");
    SyncReaches(api, w.cluster, u);
    ReconcileKeepsInSync(w.users, w.cluster, id, u);
    DropKeepsInSync(w.users[id := u], Reconciled(w.cluster, u), id);
    assert w.users[id := u] - {id} == w.users - {id};
  }

  lemma {:induction false} StepKeepsInv(api: Api, w: World, op: Op)
    requires ErrorFree(api) && Inv(w) && !Blocked(api, w, op) && !Skipped(w, op)
    ensures Inv(Step(api, w, op).0)
  {
    match op
    case Create(_, _, _, _, _) =>
      if Creates(w, op) {
        SyncReaches(api, w.cluster, NewUser(op));
        ReconcileKeepsInSync(w.users, w.cluster, w.nextId, NewUser(op));
      }
    case Patch(id, _, _) =>
      if id in w.users {
        var u := Patched(w.users[id], op);
        if TriggersSync(op) {
          SyncReaches(api, w.cluster, u);
          ReconcileKeepsInSync(w.users, w.cluster, id, u);
        } else {
          SameTargetKeepsInSync(w.users, w.cluster, id, u);
        }
      }
    case Delete(id) =>
      if id in w.users {
        DeleteKeepsInv(api, w, id);
      }
  }

  lemma {:induction false} BlockedBreaksInv(api: Api, w: World, op: Op)
    requires ErrorFree(api) && Inv(w) && Blocked(api, w, op)
    ensures !Inv(Step(api, w, op).0)
  {
    var id := if op.Create? then w.nextId else op.id;
    var w' := Step(api, w, op).0;
    var u := w'.users[id];
    RefusedRoleChangeKeepsEverything(api, w.cluster, u);
    var ns :| ns in Desired(u) && ns in w'.cluster.namespaces && ConflictsIn(w'.cluster, u, ns);
    FailuresOnlyDelayCleanup(api, w.cluster, u);
    assert Wants(u, w'.cluster.namespaces, BindingKey(u.username, ns), WantedBinding(u, ns));
  }

  lemma {:induction false} SkippedBreaksInv(api: Api, w: World, op: Op)
    requires Inv(w) && Skipped(w, op)
    ensures !Inv(Step(api, w, op).0)
  {
    var id, nss := op.id, w.cluster.namespaces;
    var u, w' := w.users[id], Step(api, w, op).0;
    NullWantsNothing(u, op, nss);
    var key :| key in Target(u, nss);
    var b := Target(u, nss)[key];
    WantsIsTarget(u, nss, key, b);
    if SomeoneWants(w'.users, nss, key, b) {
      var i :| i in w'.users && Wants(w'.users[i], nss, key, b);
      WantsIsTarget(w'.users[i], nss, key, b);
    }
  }

  lemma {:induction false} NullWantsNothing(u: User, op: Op, namespaces: set<string>)
    requires op.Patch? && !TriggersSync(op) && Target(Patched(u, op), namespaces) != Target(u, namespaces)
    ensures Target(Patched(u, op), namespaces) == map[] && Target(u, namespaces) != map[]
  {
    var u' := Patched(u, op);
    assert u' != u;
    if u'.role != "" {
      assert u'.allowedNamespaces == "";
      assert Split("", ',') == [""] && [""][1..] == [];
      assert Namespaces("") == [];
    }
    assert Desired(u') == {};
  }

  /** With no API or store errors, one admin request keeps users and bindings in sync if and
      only if the API lets every kept binding have its role and the PATCH is not all nulls
      while taking bindings away. */
  lemma {:induction false} StepKeepsInvExactlyWhen(api: Api, w: World, op: Op)
    requires ErrorFree(api) && Inv(w)
    ensures Inv(Step(api, w, op).0) <==> !Blocked(api, w, op) && !Skipped(w, op)
  {
    if Blocked(api, w, op) {
      BlockedBreaksInv(api, w, op);
    } else if Skipped(w, op) {
      SkippedBreaksInv(api, w, op);
    } else {
      StepKeepsInv(api, w, op);
    }
  }

  /** What a request writes to the store, what it answers, and for whom it syncs. */
  lemma {:induction false} RequestsAreRead(api: Api, w: World, op: Op)
    ensures var (w', status) := Step(api, w, op);
      match op
      case Create(name, password, hashFails, role, namespaces) =>
        if name == "" || password == "" || hashFails || exists id :: id in w.users && w.users[id].username == name then
          w' == w && status == BadRequest
        else
          var u := User(name, if role == "" then "viewer" else role, namespaces);
          && w'.users == w.users[w.nextId := u] && w'.nextId == w.nextId + 1 && status == Done
          && w'.cluster == Synced(api, w.cluster, u).0
      case Patch(id, newRole, newNamespaces) =>
        && status == Done && w'.nextId == w.nextId && w'.users.Keys == w.users.Keys
        && (forall other :: other in w.users && other != id ==> w'.users[other] == w.users[other])
        && (id !in w.users ==> w' == w)
        && (id in w.users ==>
              var u, u' := w.users[id], w'.users[id];
              && u'.username == u.username
              && (newRole.Absent? ==> u'.role == u.role) && (newRole.Null? ==> u'.role == "")
              && (newRole.Value? ==> u'.role == newRole.v)
              && (newNamespaces.Absent? ==> u'.allowedNamespaces == u.allowedNamespaces)
              && (newNamespaces.Null? ==> u'.allowedNamespaces == "")
              && (newNamespaces.Value? ==> u'.allowedNamespaces == newNamespaces.v)
              && w'.cluster == (if newRole.Value? || newNamespaces.Value? then Synced(api, w.cluster, u').0
                                else w.cluster))
      case Delete(id) =>
        if id !in w.users then w' == w && status == ServerError
        else
          && status == Done && w'.users == w.users - {id} && w'.nextId == w.nextId
          && w'.cluster == Synced(api, w.cluster, User(w.users[id].username, "", "")).0
  {}

  // ----- whole runs -----

  function Run(api: Api, w: World, ops: seq<Op>): World
    decreases ops
  {
    if ops == [] then w else Run(api, Step(api, w, ops[0]).0, ops[1..])
  }

  /** The invariant holds now and after every request of the run. */
  ghost predicate InSyncThroughout(api: Api, w: World, ops: seq<Op>)
    decreases ops
  {
    Inv(w) && (ops == [] || InSyncThroughout(api, Step(api, w, ops[0]).0, ops[1..]))
  }

  /** No request is blocked or skipped in the state it meets. */
  ghost predicate Unhindered(api: Api, w: World, ops: seq<Op>)
    decreases ops
  {
    ops == [] || (!Blocked(api, w, ops[0]) && !Skipped(w, ops[0]) && Unhindered(api, Step(api, w, ops[0]).0, ops[1..]))
  }

  /** Against any API without errors, users and bindings stay in sync throughout a run if and
      only if none of its requests is blocked or skipped. */
  lemma {:induction false} RunStaysInSyncExactlyWhen(api: Api, w: World, ops: seq<Op>)
    requires ErrorFree(api) && Inv(w)
    ensures InSyncThroughout(api, w, ops) <==> Unhindered(api, w, ops)
    decreases ops
  {
    if ops != [] {
      StepKeepsInvExactlyWhen(api, w, ops[0]);
      var w' := Step(api, w, ops[0]).0;
      if Inv(w') {
        RunStaysInSyncExactlyWhen(api, w', ops[1..]);
      }
    }
  }

  predicate NoNulls(op: Op) { op.Patch? ==> !op.newRole.Null? && !op.newNamespaces.Null? }

  /** After every request of every run of creates, non-null patches and deletes, against an
      API that accepts updates, the labelled bindings are exactly what the users want. */
  lemma {:induction false} RunsStayInSync(api: Api, w: World, ops: seq<Op>)
    requires ErrorFree(api) && !api.immutableRoleRef && Inv(w)
    requires forall op :: op in ops ==> NoNulls(op)
    ensures Inv(Run(api, w, ops))
    decreases ops
  {
    if ops != [] {
      var op := ops[0];
      assert NoNulls(op);
      if op.Patch? && op.id in w.users && !TriggersSync(op) {
        assert Patched(w.users[op.id], op) == w.users[op.id];
      }
      StepKeepsInv(api, w, op);
      RunsStayInSync(api, Step(api, w, op).0, ops[1..]);
    }
  }

  /** Demoting an admin who keeps a namespace: the server refuses the update, and the user
      stays bound to the admin role. */
  lemma {:induction false} DemotionIsRefused(api: Api, w: World, id: nat, ns: string)
    requires ErrorFree(api) && api.immutableRoleRef && Inv(w)
    requires id in w.users && w.users[id].role == "ns-admin"
    requires ns in Desired(w.users[id]) && ns in w.cluster.namespaces
    ensures var w' := Step(api, w, Patch(id, Value("ns-viewer"), Absent)).0;
      var key := Key(ns, "k8ops:" + w.users[id].username + ":" + ns);
      && !Inv(w') && w'.users[id].role == "ns-viewer"
      && key in w'.cluster.bindings && key in w.cluster.bindings
      && w'.cluster.bindings[key] == w.cluster.bindings[key]
      && w'.cluster.bindings[key].user == Some(w.users[id].username)
      && w'.cluster.bindings[key].role == "k8ops-role-ns-admin"
  {
    var op := Patch(id, Value("ns-viewer"), Absent);
    var u, key := Patched(w.users[id], op), BindingKey(w.users[id].username, ns);
    assert Wants(w.users[id], w.cluster.namespaces, key, WantedBinding(w.users[id], ns));
    assert ConflictsIn(w.cluster, u, ns);
    BlockedBreaksInv(api, w, op);
    FailedStays(api, w.cluster, u, Namespaces(u.allowedNamespaces), ns);
  }

  lemma {:induction false} FailedStays(api: Api, st: State, u: User, desired: seq<string>, ns: string)
    requires NamespaceScoped(u.role) && api.immutableRoleRef && ns in st.namespaces && ConflictsIn(st, u, ns)
    ensures var key := BindingKey(u.username, ns);
      var st' := UpsertAll(api, st, u, desired).0;
      key in st'.bindings && st'.bindings[key] == st.bindings[key]
    decreases desired
  {
    if desired != [] {
      var (st1, r) := Upsert(api, st, BindingKey(u.username, desired[0]), WantedBinding(u, desired[0]));
      if !r.Failed? {
        FailedStays(api, st1, u, desired[1..], ns);
      }
    }
  }
}
