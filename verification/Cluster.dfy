/** The Kubernetes API as the RBAC syncer sees it: namespaces, and RoleBindings keyed by
    namespace and name.  Which calls fail is part of the API's description, so every theorem
    says which failures it allows. */
module Cluster {
  import opened Common

  datatype Key = Key(ns: string, name: string)

  /** `user` is the label k8ops.io/user, absent on bindings k8ops does not manage. */
  datatype Binding = Binding(user: Option<string>, group: string, role: string)

  datatype State = State(namespaces: set<string>, bindings: map<Key, Binding>)

  /** A real API server refuses to change the role of an existing binding
      (`immutableRoleRef`); the fake client of the tests does not. */
  datatype Api = Api(immutableRoleRef: bool,
                     createFails: set<Key>, updateFails: set<Key>, deleteFails: set<Key>,
                     listNamespacesFails: bool, listFails: set<string>)

  predicate ErrorFree(api: Api) {
    api.createFails == {} && api.updateFails == {} && api.deleteFails == {}
    && !api.listNamespacesFails && api.listFails == {}
  }

  datatype Reply = Accepted | AlreadyExists | NotFound | Refused

  predicate LabelledBy(b: Binding, username: string) { b.user == Some(username) }

  class Clientset {
    var state: State
    const api: Api

    constructor (api: Api, state: State)
      ensures this.api == api && this.state == state
    {
      this.api := api;
      this.state := state;
    }

    method Create(key: Key, b: Binding) returns (r: Reply)
      modifies this`state
      ensures r == if key in api.createFails then Refused
                   else if key.ns !in old(state).namespaces then NotFound
                   else if key in old(state).bindings then AlreadyExists
                   else Accepted
      ensures state == if r.Accepted? then old(state).(bindings := old(state).bindings[key := b]) else old(state)
    {
      if key in api.createFails { return Refused; }
      if key.ns !in state.namespaces { return NotFound; }
      if key in state.bindings { return AlreadyExists; }
      state := state.(bindings := state.bindings[key := b]);
      return Accepted;
    }

    method Update(key: Key, b: Binding) returns (r: Reply)
      modifies this`state
      ensures r == if key in api.updateFails then Refused
                   else if key !in old(state).bindings then NotFound
                   else if api.immutableRoleRef && old(state).bindings[key].role != b.role then Refused
                   else Accepted
      ensures state == if r.Accepted? then old(state).(bindings := old(state).bindings[key := b]) else old(state)
    {
      if key in api.updateFails { return Refused; }
      if key !in state.bindings { return NotFound; }
      if api.immutableRoleRef && state.bindings[key].role != b.role { return Refused; }
      state := state.(bindings := state.bindings[key := b]);
      return Accepted;
    }

    method ListNamespaces() returns (r: Option<set<string>>)
      ensures r == if api.listNamespacesFails then None else Some(state.namespaces)
    {
      r := if api.listNamespacesFails then None else Some(state.namespaces);
    }

    /** The names of the bindings in `ns` that carry the user's label. */
    method ListByUser(ns: string, username: string) returns (r: Option<set<string>>)
      ensures r.None? <==> ns in api.listFails
      ensures r.Some? ==> forall name :: name in r.value <==>
        Key(ns, name) in state.bindings && LabelledBy(state.bindings[Key(ns, name)], username)
    {
      if ns in api.listFails { return None; }
      r := Some(set key | key in state.bindings && key.ns == ns && LabelledBy(state.bindings[key], username) :: key.name);
    }

    method Delete(key: Key) returns (r: Reply)
      modifies this`state
      ensures r == if key in api.deleteFails then Refused else if key in old(state).bindings then Accepted else NotFound
      ensures state == if r.Accepted? then old(state).(bindings := old(state).bindings - {key}) else old(state)
    {
      if key in api.deleteFails { return Refused; }
      if key !in state.bindings { return NotFound; }
      state := state.(bindings := state.bindings - {key});
      return Accepted;
    }
  }
}
