/** Reconciling a user's RoleBindings with the user's role and allowed namespaces. */
module RbacSync {
  import opened Common
  import opened Cluster
  import opened Text

  datatype User = User(username: string, role: string, allowedNamespaces: string)

  predicate NamespaceScoped(role: string) { role == "ns-admin" || role == "ns-viewer" }

  function RoleName(role: string): string
    requires NamespaceScoped(role)
  {
    if role == "ns-admin" then "k8ops-role-ns-admin" else "k8ops-role-ns-viewer"
  }

  // ----- the comma-separated list of namespaces -----

  function CleanParts(parts: seq<string>): seq<string> {
    if parts == [] then []
    else
      var p := TrimSpace(parts[0]);
      if p == "" then CleanParts(parts[1..]) else [p] + CleanParts(parts[1..])
  }

  function Namespaces(s: string): seq<string> { CleanParts(Split(s, ',')) }

  lemma {:induction false} CleanPartsSnoc(parts: seq<string>, last: string)
    ensures var p := TrimSpace(last);
      CleanParts(parts + [last]) == if p == "" then CleanParts(parts) else CleanParts(parts) + [p]
  {
    if parts == [] {
      assert [last][1..] == [];
    } else {
      assert (parts + [last])[0] == parts[0] && (parts + [last])[1..] == parts[1..] + [last];
      CleanPartsSnoc(parts[1..], last);
    }
  }

  method SplitNamespaces(s: string) returns (result: seq<string>)
    ensures result == Namespaces(s)
  {
    var parts := Split(s, ',');
    result := [];
    for i := 0 to |parts|
      invariant result == CleanParts(parts[..i])
    {
      var p := TrimSpace(parts[i]);
      CleanPartsSnoc(parts[..i], parts[i]);
      assert parts[..i + 1] == parts[..i] + [parts[i]];
      if p != "" {
        result := result + [p];
      }
    }
    assert parts[..|parts|] == parts;
  }

  /** A name that splitting leaves alone. */
  predicate CleanName(p: string) { p != "" && Trimmed(p) && ',' !in p }

  lemma {:induction false} CleanPartsKeep(parts: seq<string>)
    requires forall p :: p in parts ==> CleanName(p)
    ensures CleanParts(parts) == parts
  {
    if parts != [] {
      assert CleanName(parts[0]);
      TrimLeavesTrimmed(parts[0]);
      CleanPartsKeep(parts[1..]);
    }
  }

  lemma {:induction false} PiecesAreClean(parts: seq<string>)
    requires forall p :: p in parts ==> ',' !in p
    ensures forall p :: p in CleanParts(parts) ==> CleanName(p)
  {
    if parts != [] {
      PiecesAreClean(parts[1..]);
      var p := TrimSpace(parts[0]);
      var left := TrimSpaceStrips(parts[0]);
      forall c | c in p
        ensures c in parts[0]
      {
        var i :| 0 <= i < |p| && p[i] == c;
        assert parts[0][left..left + |p|][i] == parts[0][left + i];
      }
    }
  }

  /** Round trip: joining names with commas and splitting them again gives the names back
      if and only if each is non-empty, trimmed and free of commas. */
  lemma {:induction false} SplitInvertsJoinExactlyWhen(names: seq<string>)
    ensures Namespaces(Join(names, ',')) == names <==> forall p :: p in names ==> CleanName(p)
  {
    PiecesAreClean(Split(Join(names, ','), ','));
    if forall p :: p in names ==> CleanName(p) {
      if names == [] {
        assert Split("", ',') == [""];
        TrimLeavesTrimmed("");
        assert [""][1..] == [];
      } else {
        SplitJoin(names, ',');
        CleanPartsKeep(names);
      }
    }
  }

  // ----- the bindings a user should have -----

  function BindingKey(username: string, ns: string): Key {
    Key(ns, "k8ops:" + username + ":" + ns)
  }

  function WantedBinding(u: User, ns: string): Binding
    requires NamespaceScoped(u.role)
  {
    Binding(Some(u.username), "k8ops:" + u.role + ":" + ns, RoleName(u.role))
  }

  /** The namespaces the user is meant to have bindings in, existing or not. */
  ghost function Desired(u: User): set<string> {
    if NamespaceScoped(u.role) then set ns | ns in Namespaces(u.allowedNamespaces) else {}
  }

  ghost function Target(u: User, namespaces: set<string>): map<Key, Binding> {
    map ns | ns in Desired(u) && ns in namespaces :: BindingKey(u.username, ns) := WantedBinding(u, ns)
  }

  lemma {:induction false} KeyNamesTheUser(u: string, v: string, ns: string)
    ensures BindingKey(u, ns) == BindingKey(v, ns) <==> u == v
  {
    if BindingKey(u, ns) == BindingKey(v, ns) {
      var a, b := "k8ops:" + u + ":" + ns, "k8ops:" + v + ":" + ns;
      assert |u| == |v|;
      assert a[6..6 + |u|] == u && b[6..6 + |v|] == v;
    }
  }

  // ----- one sync, as a function -----

  datatype Stored = Stored | NamespaceMissing | Failed

  /** Create, falling back to update. */
  function Upsert(api: Api, st: State, key: Key, b: Binding): (State, Stored) {
    if key in api.createFails then (st, Failed)
    else if key.ns !in st.namespaces then (st, NamespaceMissing)
    else if key !in st.bindings then (st.(bindings := st.bindings[key := b]), Stored)
    else if key in api.updateFails then (st, Failed)
    else if api.immutableRoleRef && st.bindings[key].role != b.role then (st, Failed)
    else (st.(bindings := st.bindings[key := b]), Stored)
  }

  function UpsertAll(api: Api, st: State, u: User, desired: seq<string>): (State, bool)
    requires NamespaceScoped(u.role)
    decreases desired
  {
    if desired == [] then (st, true)
    else
      var (st', r) := Upsert(api, st, BindingKey(u.username, desired[0]), WantedBinding(u, desired[0]));
      if r.Failed? then (st', false) else UpsertAll(api, st', u, desired[1..])
  }

  /** The cleanup gets to delete `key`: it is the user's, in a listed namespace not to be
      kept, and neither its listing nor its deletion fails. */
  predicate Removable(api: Api, st: State, username: string, keep: set<string>, key: Key) {
    && key in st.bindings && LabelledBy(st.bindings[key], username)
    && key.ns in st.namespaces && key.ns !in keep
    && key.ns !in api.listFails && key !in api.deleteFails
  }

  function Cleaned(api: Api, st: State, username: string, keep: set<string>): (State, bool) {
    if api.listNamespacesFails then (st, false)
    else (st.(bindings := map key | key in st.bindings && !Removable(api, st, username, keep, key) :: st.bindings[key]), true)
  }

  function Synced(api: Api, st: State, u: User): (State, bool) {
    if !NamespaceScoped(u.role) then Cleaned(api, st, u.username, {})
    else
      var desired := Namespaces(u.allowedNamespaces);
      var (st', ok) := UpsertAll(api, st, u, desired);
      if !ok then (st', false) else Cleaned(api, st', u.username, set ns | ns in desired)
  }

  // ----- the syncer -----

  class RBACSyncer {
    const clientset: Clientset?

    constructor (clientset: Clientset?)
      ensures this.clientset == clientset
    {
      this.clientset := clientset;
    }

    /** `ok` is a nil error. */
    method SyncUserRBAC(user: User) returns (ok: bool)
      modifies clientset
      ensures clientset == null ==> ok
      ensures clientset != null ==>
        (clientset.state, ok) == Synced(clientset.api, old(clientset.state), user)
    {
      if clientset == null {
        return true;
      }
      if user.role != "ns-admin" && user.role != "ns-viewer" {
        ok := CleanupUserRBAC(user.username);
        return;
      }
      var desired := SplitNamespaces(user.allowedNamespaces);
      for i := 0 to |desired|
        invariant UpsertAll(clientset.api, old(clientset.state), user, desired)
               == UpsertAll(clientset.api, clientset.state, user, desired[i..])
      {
        var ns := desired[i];
        assert desired[i..][0] == ns && desired[i..][1..] == desired[i + 1..];
        var key, rb := BindingKey(user.username, ns), WantedBinding(user, ns);
        var err := clientset.Create(key, rb);
        if err.AlreadyExists? {
          err := clientset.Update(key, rb);
        }
        if !err.Accepted? {
          if err.NotFound? {
            continue;
          }
          return false;
        }
      }
      ok := CleanupUndesiredRBAC(user.username, desired);
    }

    method CleanupUserRBAC(username: string) returns (ok: bool)
      requires clientset != null
      modifies clientset
      ensures (clientset.state, ok) == Cleaned(clientset.api, old(clientset.state), username, {})
    {
      ok := DeleteIn(username, {});
    }

    method CleanupUndesiredRBAC(username: string, desiredNs: seq<string>) returns (ok: bool)
      requires clientset != null
      modifies clientset
      ensures (clientset.state, ok)
           == Cleaned(clientset.api, old(clientset.state), username, set ns | ns in desiredNs)
    {
      var desired := {};
      for i := 0 to |desiredNs|
        invariant desired == set ns | ns in desiredNs[..i]
      {
        assert desiredNs[..i + 1] == desiredNs[..i] + [desiredNs[i]];
        desired := desired + {desiredNs[i]};
      }
      assert desiredNs[..|desiredNs|] == desiredNs;
      ok := DeleteIn(username, desired);
    }

    /** The loop the two cleanups share: every listed namespace outside `keep`, and in it
        every binding with the user's label. */
    method DeleteIn(username: string, keep: set<string>) returns (ok: bool)
      requires clientset != null
      modifies clientset
      ensures (clientset.state, ok) == Cleaned(clientset.api, old(clientset.state), username, keep)
    {
      var start := clientset.state;
      var listed := clientset.ListNamespaces();
      if listed.None? {
        return false;
      }
      var todo := listed.value;
      while todo != {}
        invariant todo <= start.namespaces
        invariant clientset.state.namespaces == start.namespaces
        invariant Swept(clientset.api, start, username, keep, todo, {}, clientset.state)
        decreases todo
      {
        var ns :| ns in todo;
        if ns !in keep {
          var rbs := clientset.ListByUser(ns, username);
          if rbs.Some? {
            var names := rbs.value;
            while names != {}
              invariant names <= rbs.value
              invariant clientset.state.namespaces == start.namespaces
              invariant Swept(clientset.api, start, username, keep, todo - {ns},
                              set name | name in names :: Key(ns, name), clientset.state)
              decreases names
            {
              var name :| name in names;
              var r := clientset.Delete(Key(ns, name));
              names := names - {name};
            }
          }
        }
        todo := todo - {ns};
      }
      assert clientset.state.bindings == Cleaned(clientset.api, start, username, keep).0.bindings;
      return true;
    }
  }

  /** What is left once the namespaces outside `todo` and the keys outside `pending` are done. */
  ghost predicate Swept(api: Api, start: State, username: string, keep: set<string>,
                        todo: set<string>, pending: set<Key>, now: State)
  {
    && now.bindings.Keys <= start.bindings.Keys
    && (forall key :: key in now.bindings ==> now.bindings[key] == start.bindings[key])
    && (forall key :: key in start.bindings ==>
          (key in now.bindings <==>
             !Removable(api, start, username, keep, key) || key.ns in todo || key in pending))
  }

  // ----- what a sync does under any API behaviour -----

  /** Labelled bindings carry the name the syncer gives them, in a namespace that exists. */
  predicate Canonical(st: State) {
    forall key :: key in st.bindings && st.bindings[key].user.Some? ==>
      key.ns in st.namespaces && key == BindingKey(st.bindings[key].user.value, key.ns)
  }

  /** `key` is where, and `b` what, the user wants in one of the listed namespaces. */
  ghost predicate WantedAt(u: User, desired: seq<string>, key: Key, b: Binding)
    requires NamespaceScoped(u.role)
  {
    key.ns in desired && key == BindingKey(u.username, key.ns) && b == WantedBinding(u, key.ns)
  }

  lemma {:induction false} UpsertAllFrame(api: Api, st: State, u: User, desired: seq<string>)
    requires NamespaceScoped(u.role)
    ensures var st' := UpsertAll(api, st, u, desired).0;
      && st'.namespaces == st.namespaces && st.bindings.Keys <= st'.bindings.Keys
      && forall key :: key in st'.bindings ==>
           || (key in st.bindings && st'.bindings[key] == st.bindings[key])
           || (key.ns in st.namespaces && WantedAt(u, desired, key, st'.bindings[key]))
    decreases desired
  {
    if desired != [] {
      var (st1, r) := Upsert(api, st, BindingKey(u.username, desired[0]), WantedBinding(u, desired[0]));
      UpsertAllFrame(api, st1, u, desired[1..]);
    }
  }

  /** Whatever fails, bindings of other users and bindings without a label keep their
      contents, except that a binding in the user's own place may be taken over. */
  lemma {:induction false} OthersUntouched(api: Api, st: State, u: User, key: Key)
    requires Canonical(st)
    requires key in st.bindings ==> !LabelledBy(st.bindings[key], u.username)
    requires key in st.bindings && st.bindings[key].user.None? ==> key != BindingKey(u.username, key.ns)
    ensures var st' := Synced(api, st, u).0;
      st'.namespaces == st.namespaces
      && (key in st.bindings ==> key in st'.bindings && st'.bindings[key] == st.bindings[key])
      && (key in st'.bindings && !LabelledBy(st'.bindings[key], u.username) ==> key in st.bindings)
  {
    if key in st.bindings && st.bindings[key].user.Some? {
      KeyNamesTheUser(u.username, st.bindings[key].user.value, key.ns);
    }
    if NamespaceScoped(u.role) {
      UpsertAllFrame(api, st, u, Namespaces(u.allowedNamespaces));
    }
  }

  /** The user's bindings in namespaces that are no longer allowed. */
  ghost function Undesired(st: State, u: User): set<Key> {
    set key | key in st.bindings && LabelledBy(st.bindings[key], u.username) && key.ns !in Desired(u)
  }

  /** Whatever fails, a sync never adds an undesired binding, never removes a desired one,
      and leaves nothing of the user's that is neither old nor wanted. */
  lemma {:induction false} FailuresOnlyDelayCleanup(api: Api, st: State, u: User)
    ensures var st' := Synced(api, st, u).0;
      && Undesired(st', u) <= Undesired(st, u)
      && (forall key :: key in st.bindings && key.ns in Desired(u) ==> key in st'.bindings)
      && (forall key :: key in st'.bindings ==>
            || (key in st.bindings && st'.bindings[key] == st.bindings[key])
            || (key in Target(u, st.namespaces) && st'.bindings[key] == Target(u, st.namespaces)[key]))
  {
    if NamespaceScoped(u.role) {
      UpsertAllFrame(api, st, u, Namespaces(u.allowedNamespaces));
    }
  }

  // ----- idempotence -----

  ghost predicate AllStored(st: State, u: User, desired: seq<string>)
    requires NamespaceScoped(u.role)
  {
    forall ns :: ns in desired && ns in st.namespaces ==>
      var key := BindingKey(u.username, ns);
      key in st.bindings && st.bindings[key] == WantedBinding(u, ns)
  }

  lemma {:induction false} StoredStays(api: Api, st: State, u: User, desired: seq<string>)
    requires NamespaceScoped(u.role) && AllStored(st, u, desired)
    ensures UpsertAll(api, st, u, desired).0 == st
    decreases desired
  {
    if desired != [] {
      var (st1, r) := Upsert(api, st, BindingKey(u.username, desired[0]), WantedBinding(u, desired[0]));
      if r.Stored? {
        assert st1.bindings == st.bindings;
      }
      StoredStays(api, st, u, desired[1..]);
    }
  }

  lemma {:induction false} UpsertAllStores(api: Api, st: State, u: User, desired: seq<string>)
    requires NamespaceScoped(u.role) && UpsertAll(api, st, u, desired).1
    ensures AllStored(UpsertAll(api, st, u, desired).0, u, desired)
    decreases desired
  {
    if desired != [] {
      var (st1, r) := Upsert(api, st, BindingKey(u.username, desired[0]), WantedBinding(u, desired[0]));
      UpsertAllStores(api, st1, u, desired[1..]);
      UpsertAllFrame(api, st1, u, desired[1..]);
    }
  }

  lemma {:induction false} UpsertAllTwice(api: Api, st: State, u: User, desired: seq<string>)
    requires NamespaceScoped(u.role)
    ensures var st' := UpsertAll(api, st, u, desired).0; UpsertAll(api, st', u, desired).0 == st'
    decreases desired
  {
    if desired != [] {
      var key, b := BindingKey(u.username, desired[0]), WantedBinding(u, desired[0]);
      var (st1, r) := Upsert(api, st, key, b);
      if !r.Failed? {
        UpsertAllTwice(api, st1, u, desired[1..]);
        UpsertAllFrame(api, st1, u, desired[1..]);
        var st' := UpsertAll(api, st1, u, desired[1..]).0;
        var (st2, r2) := Upsert(api, st', key, b);
        if r2.Stored? {
          assert st2.bindings == st'.bindings;
        }
      }
    }
  }

  /** Syncing again changes nothing, whichever calls fail, as long as the same ones do. */
  lemma {:induction false} SyncIsIdempotent(api: Api, st: State, u: User)
    ensures var st' := Synced(api, st, u).0; Synced(api, st', u).0 == st'
  {
    var st' := Synced(api, st, u).0;
    if NamespaceScoped(u.role) {
      var desired := Namespaces(u.allowedNamespaces);
      if UpsertAll(api, st, u, desired).1 {
        UpsertAllStores(api, st, u, desired);
        UpsertAllFrame(api, st, u, desired);
        StoredStays(api, st', u, desired);
      } else {
        UpsertAllTwice(api, st, u, desired);
      }
      if UpsertAll(api, st', u, desired).1 {
        CleanedTwice(api, UpsertAll(api, st, u, desired).0, u.username, set ns | ns in desired);
        if !UpsertAll(api, st, u, desired).1 {
          FailureRepeats(api, st, u, desired);
        }
      }
    } else {
      CleanedTwice(api, st, u.username, {});
    }
  }

  lemma {:induction false} CleanedTwice(api: Api, st: State, username: string, keep: set<string>)
    ensures var st' := Cleaned(api, st, username, keep).0; Cleaned(api, st', username, keep).0 == st'
  {
    var st' := Cleaned(api, st, username, keep).0;
    assert Cleaned(api, st', username, keep).0.bindings == st'.bindings;
  }

  /** A sync that stopped at a failing namespace stops again. */
  lemma {:induction false} FailureRepeats(api: Api, st: State, u: User, desired: seq<string>)
    requires NamespaceScoped(u.role) && !UpsertAll(api, st, u, desired).1
    ensures !UpsertAll(api, UpsertAll(api, st, u, desired).0, u, desired).1
    decreases desired
  {
    if desired != [] {
      var key, b := BindingKey(u.username, desired[0]), WantedBinding(u, desired[0]);
      var (st1, r) := Upsert(api, st, key, b);
      if !r.Failed? {
        FailureRepeats(api, st1, u, desired[1..]);
        UpsertAllFrame(api, st1, u, desired[1..]);
        var st' := UpsertAll(api, st1, u, desired[1..]).0;
        var (st2, r2) := Upsert(api, st', key, b);
        if r2.Stored? {
          assert st2.bindings == st'.bindings;
        }
      }
    }
  }

  // ----- convergence -----

  /** A binding the user keeps would have to change its role, and the API refuses that. */
  ghost predicate RoleConflict(api: Api, st: State, u: User) {
    api.immutableRoleRef &&
    exists ns :: ns in Desired(u) && ns in st.namespaces && ConflictsIn(st, u, ns)
  }

  ghost predicate ConflictsIn(st: State, u: User, ns: string) {
    var key := BindingKey(u.username, ns);
    NamespaceScoped(u.role) && key in st.bindings && st.bindings[key].role != RoleName(u.role)
  }

  /** What an error-free sync should leave behind. */
  ghost function Reconciled(st: State, u: User): State {
    var kept := map key |
      key in st.bindings && (LabelledBy(st.bindings[key], u.username) && key.ns in st.namespaces ==> key.ns in Desired(u))
      :: st.bindings[key];
    st.(bindings := kept + Target(u, st.namespaces))
  }

  lemma {:induction false} UpsertAllAccepted(api: Api, st: State, u: User, desired: seq<string>)
    requires ErrorFree(api) && NamespaceScoped(u.role)
    ensures UpsertAll(api, st, u, desired).1 <==>
      !api.immutableRoleRef || forall ns :: ns in desired && ns in st.namespaces ==> !ConflictsIn(st, u, ns)
    decreases desired
  {
    if desired != [] {
      var d := desired[0];
      var key, b := BindingKey(u.username, d), WantedBinding(u, d);
      var (st1, r) := Upsert(api, st, key, b);
      assert r.Failed? <==> api.immutableRoleRef && d in st.namespaces && ConflictsIn(st, u, d);
      if !r.Failed? {
        UpsertAllAccepted(api, st1, u, desired[1..]);
        forall ns | ns in st.namespaces && ns != d
          ensures ConflictsIn(st1, u, ns) <==> ConflictsIn(st, u, ns)
        {}
        assert d in st.namespaces ==> !ConflictsIn(st1, u, d);
        assert forall ns :: ns in desired <==> ns == d || ns in desired[1..];
      }
    }
  }

  lemma {:induction false} TargetAt(u: User, namespaces: set<string>, key: Key)
    ensures key in Target(u, namespaces) <==>
      key.ns in Desired(u) && key.ns in namespaces && key == BindingKey(u.username, key.ns)
    ensures key in Target(u, namespaces) ==> Target(u, namespaces)[key] == WantedBinding(u, key.ns)
  {}

  lemma {:induction false} SyncReaches(api: Api, st: State, u: User)
    requires ErrorFree(api) && !RoleConflict(api, st, u)
    ensures Synced(api, st, u) == (Reconciled(st, u), true)
  {
    var got, want := Synced(api, st, u).0.bindings, Reconciled(st, u).bindings;
    var desired := Namespaces(u.allowedNamespaces);
    if NamespaceScoped(u.role) {
      UpsertAllAccepted(api, st, u, desired);
      UpsertAllStores(api, st, u, desired);
      UpsertAllFrame(api, st, u, desired);
    }
    forall key
      ensures key in got <==> key in want
      ensures key in got && key in want ==> got[key] == want[key]
    {
      TargetAt(u, st.namespaces, key);
      if NamespaceScoped(u.role) {
        ReachedAt(api, st, u, key);
      }
    }
    assert got == want;
  }

  /** SyncReaches at one key, for a namespace-scoped user. */
  lemma {:induction false} ReachedAt(api: Api, st: State, u: User, key: Key)
    requires ErrorFree(api) && NamespaceScoped(u.role)
    requires UpsertAll(api, st, u, Namespaces(u.allowedNamespaces)).1
    ensures var got, want := Synced(api, st, u).0.bindings, Reconciled(st, u).bindings;
      (key in got <==> key in want) && (key in got && key in want ==> got[key] == want[key])
  {
    var desired := Namespaces(u.allowedNamespaces);
    UpsertAllStores(api, st, u, desired);
    UpsertAllFrame(api, st, u, desired);
    TargetAt(u, st.namespaces, key);
    var mid := UpsertAll(api, st, u, desired).0.bindings;
    if key in Target(u, st.namespaces) {
      assert key in mid && mid[key] == WantedBinding(u, key.ns);
    } else if key in mid {
      assert key in st.bindings && mid[key] == st.bindings[key];
    }
  }

  /** With no API errors a sync succeeds, and reaches exactly the reconciled state, if and
      only if no binding the user keeps would have to change its role. */
  lemma {:induction false} SyncConvergesExactlyWhen(api: Api, st: State, u: User)
    requires ErrorFree(api)
    ensures Synced(api, st, u) == (Reconciled(st, u), true) <==> !RoleConflict(api, st, u)
    ensures Synced(api, st, u).1 <==> !RoleConflict(api, st, u)
  {
    if !RoleConflict(api, st, u) {
      SyncReaches(api, st, u);
    } else {
      UpsertAllAccepted(api, st, u, Namespaces(u.allowedNamespaces));
    }
  }

  /** A refused role change stops the sync before its cleanup: the kept binding still has its
      old role and no undesired binding is gone. */
  lemma {:induction false} RefusedRoleChangeKeepsEverything(api: Api, st: State, u: User)
    requires ErrorFree(api) && RoleConflict(api, st, u)
    ensures var st' := Synced(api, st, u).0;
      && Undesired(st', u) == Undesired(st, u)
      && exists ns :: ns in Desired(u) && ns in st'.namespaces && ConflictsIn(st', u, ns)
  {
    var desired := Namespaces(u.allowedNamespaces);
    UpsertAllAccepted(api, st, u, desired);
    UpsertAllFrame(api, st, u, desired);
    FailureRepeats(api, st, u, desired);
    UpsertAllAccepted(api, UpsertAll(api, st, u, desired).0, u, desired);
  }

  /** Every binding of `st1` that is not the user's is in `st2` too. */
  predicate OthersWithin(st1: State, st2: State, username: string) {
    forall key :: key in st1.bindings && !LabelledBy(st1.bindings[key], username) ==>
      key in st2.bindings && st2.bindings[key] == st1.bindings[key]
  }

  /** Two clusters that differ only in the user's own bindings are the same after an
      error-free sync: nothing of the user's history is left. */
  lemma {:induction false} SyncForgetsHistory(api: Api, st1: State, st2: State, u: User)
    requires ErrorFree(api) && !RoleConflict(api, st1, u) && !RoleConflict(api, st2, u)
    requires Canonical(st1) && Canonical(st2) && st1.namespaces == st2.namespaces
    requires OthersWithin(st1, st2, u.username) && OthersWithin(st2, st1, u.username)
    ensures Synced(api, st1, u) == Synced(api, st2, u)
  {
    SyncReaches(api, st1, u);
    SyncReaches(api, st2, u);
    var r1, r2 := Reconciled(st1, u).bindings, Reconciled(st2, u).bindings;
    forall key
      ensures key in r1 ==> key in r2 && r1[key] == r2[key]
      ensures key in r2 ==> key in r1 && r1[key] == r2[key]
    {
      ReconciledWithin(st1, st2, u, key);
      ReconciledWithin(st2, st1, u, key);
    }
    assert r1 == r2;
  }

  lemma {:induction false} ReconciledWithin(st1: State, st2: State, u: User, key: Key)
    requires Canonical(st1) && st1.namespaces == st2.namespaces
    requires OthersWithin(st1, st2, u.username)
    ensures var r1, r2 := Reconciled(st1, u).bindings, Reconciled(st2, u).bindings;
      key in r1 ==> key in r2 && r1[key] == r2[key]
  {
    TargetAt(u, st1.namespaces, key);
    if key in st1.bindings && LabelledBy(st1.bindings[key], u.username) {
      OnlyWantedPlaces(st1, u, key);
    }
  }

  lemma {:induction false} OnlyWantedPlaces(st: State, u: User, key: Key)
    requires Canonical(st) && key in st.bindings && LabelledBy(st.bindings[key], u.username)
    ensures key in Reconciled(st, u).bindings <==> key in Target(u, st.namespaces)
  {
    TargetAt(u, st.namespaces, key);
  }
}
