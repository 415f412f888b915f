/** What a sync leaves in the cluster, in the names and roles a Kubernetes administrator sees:
    stated without the functions that compute it. */
module RbacResults {
  import opened Common
  import opened Cluster
  import opened RbacSync
  import opened Text

  // ----- the namespaces in a list -----

  /** s[i..j] lies between commas, or an end of the list. */
  predicate Segment(s: string, sep: char, i: nat, j: nat) {
    && i <= j <= |s| && sep !in s[i..j]
    && (i == 0 || s[i - 1] == sep) && (j == |s| || s[j] == sep)
  }

  lemma {:induction false} PieceIsSegment(s: string, sep: char, k: nat) returns (i: nat, j: nat)
    requires k < |Split(s, sep)|
    ensures Segment(s, sep, i, j) && s[i..j] == Split(s, sep)[k] && (i == 0 <==> k == 0)
    decreases s
  {
    if s == "" {
      i, j := 0, 0;
    } else if s[0] == sep {
      if k == 0 {
        i, j := 0, 0;
      } else {
        var i', j' := PieceIsSegment(s[1..], sep, k - 1);
        i, j := i' + 1, j' + 1;
        assert s[1..][i'..j'] == s[i..j];
      }
    } else {
      var i', j' := PieceIsSegment(s[1..], sep, k);
      i, j := if k == 0 then 0 else i' + 1, j' + 1;
      assert s[1..][i'..j'] == s[i' + 1..j];
      assert s[0..j'+1] == [s[0]] + s[1..j' + 1];
    }
  }

  lemma {:induction false} HeadIsIn(s: string, j: nat)
    requires 0 < j <= |s|
    ensures s[0] in s[0..j]
  {
    assert s[0..j][0] == s[0];
  }

  lemma {:induction false} SegmentIsPiece(s: string, sep: char, i: nat, j: nat) returns (k: nat)
    requires Segment(s, sep, i, j)
    ensures k < |Split(s, sep)| && Split(s, sep)[k] == s[i..j] && (i == 0 <==> k == 0)
    decreases s
  {
    if s == "" {
      k := 0;
    } else if s[0] == sep {
      if i == 0 {
        if j > 0 { HeadIsIn(s, j); }
        k := 0;
      } else {
        assert s[1..][i - 1..j - 1] == s[i..j];
        var k' := SegmentIsPiece(s[1..], sep, i - 1, j - 1);
        k := k' + 1;
      }
    } else if i == 0 {
      assert j > 0;
      assert s[0..j] == [s[0]] + s[1..j] && s[1..][0..j - 1] == s[1..j];
      k := SegmentIsPiece(s[1..], sep, 0, j - 1);
    } else {
      assert s[1..][i - 1..j - 1] == s[i..j];
      k := SegmentIsPiece(s[1..], sep, i - 1, j - 1);
    }
  }

  /** `p` is `q` without the white space at both ends. */
  predicate Trims(q: string, p: string) {
    Trimmed(p) && exists left: nat | left <= |q| :: Strips(q, p, left)
  }

  lemma {:induction false} SpaceAt(s: string, i: nat)
    requires AllSpace(s) && i < |s|
    ensures IsSpace(s[i])
  {}

  lemma {:induction false} TrimIsUnique(q: string, p: string, left: nat, t: string, left': nat)
    requires p != "" && Trimmed(p) && Strips(q, p, left) && Trimmed(t) && Strips(q, t, left')
    ensures p == t
  {
    hide AllSpace, IsSpace;
    assert q[left] == p[0] && q[left + |p| - 1] == p[|p| - 1];
    if left < left' {
      SpaceAt(q[..left'], left);
    } else if t == "" {
      SpaceAt(q[left'..], left - left');
    } else {
      assert q[left'] == t[0] && q[left' + |t| - 1] == t[|t| - 1];
      if left' < left {
        SpaceAt(q[..left], left');
      } else {
        var end, end' := left + |p|, left' + |t|;
        if end < end' {
          SpaceAt(q[end..], end' - 1 - end);
        } else if end' < end {
          SpaceAt(q[end'..], end - 1 - end');
        }
      }
    }
  }

  lemma {:induction false} TrimSpaceIs(q: string, p: string)
    requires p != ""
    ensures TrimSpace(q) == p <==> Trims(q, p)
  {
    var left' := TrimSpaceStrips(q);
    if Trims(q, p) {
      var left: nat :| left <= |q| && Strips(q, p, left);
      TrimIsUnique(q, p, left, TrimSpace(q), left');
    }
  }

  /** The name stands in the list between two commas, perhaps with white space around it. */
  predicate ListedIn(s: string, p: string) {
    p != "" && exists i: nat, j: nat | i <= |s| && j <= |s| :: Segment(s, ',', i, j) && Trims(s[i..j], p)
  }

  lemma {:induction false} CleanPartsHave(parts: seq<string>, p: string)
    ensures p in CleanParts(parts) <==> p != "" && exists k :: 0 <= k < |parts| && TrimSpace(parts[k]) == p
  {
    if parts != [] {
      CleanPartsHave(parts[1..], p);
      if k :| 0 <= k < |parts| && TrimSpace(parts[k]) == p {
        assert k > 0 ==> parts[1..][k - 1] == parts[k];
      }
    }
  }

  lemma {:induction false} NamespacesAreListed(s: string, p: string)
    ensures p in Namespaces(s) <==> ListedIn(s, p)
  {
    var parts := Split(s, ',');
    CleanPartsHave(parts, p);
    if p in Namespaces(s) {
      var k :| 0 <= k < |parts| && TrimSpace(parts[k]) == p;
      var i, j := PieceIsSegment(s, ',', k);
      TrimSpaceIs(parts[k], p);
    }
    if ListedIn(s, p) {
      var i: nat, j: nat :| i <= |s| && j <= |s| && Segment(s, ',', i, j) && Trims(s[i..j], p);
      var k := SegmentIsPiece(s, ',', i, j);
      TrimSpaceIs(parts[k], p);
    }
  }

  // ----- the bindings of a user -----

  /** Where the binding of a user in a namespace is. */
  function At(username: string, ns: string): Key { Key(ns, "k8ops:" + username + ":" + ns) }

  /** The binding gives that user that role, and no other. */
  predicate Grants(b: Binding, u: User, ns: string) {
    && b.user == Some(u.username)
    && b.group == "k8ops:" + u.role + ":" + ns
    && HasRole(b, u.role)
  }

  predicate HasRole(b: Binding, role: string) {
    || (role == "ns-admin" && b.role == "k8ops-role-ns-admin")
    || (role == "ns-viewer" && b.role == "k8ops-role-ns-viewer")
  }

  /** The user is to have a binding in the namespace. */
  predicate Entitled(u: User, st: State, ns: string) {
    (u.role == "ns-admin" || u.role == "ns-viewer") && ns in st.namespaces && ListedIn(u.allowedNamespaces, ns)
  }

  lemma {:induction false} EntitledIsDesired(u: User, st: State, ns: string)
    ensures Entitled(u, st, ns) <==> ns in Desired(u) && ns in st.namespaces
  {
    NamespacesAreListed(u.allowedNamespaces, ns);
  }

  lemma {:induction false} WantedIsGranted(u: User, ns: string, b: Binding)
    requires NamespaceScoped(u.role)
    ensures BindingKey(u.username, ns) == At(u.username, ns)
    ensures b == WantedBinding(u, ns) <==> Grants(b, u, ns)
  {}

  /** After an error-free sync a user of a namespace role has, in exactly the existing
      namespaces listed for it, a binding in its own place that grants exactly its role, and no
      other binding with its label; any other user has none. */
  lemma {:induction false} SyncGrantsExactly(api: Api, st: State, u: User)
    requires ErrorFree(api) && Canonical(st)
    requires api.immutableRoleRef ==>
      forall ns :: Entitled(u, st, ns) && At(u.username, ns) in st.bindings ==>
        HasRole(st.bindings[At(u.username, ns)], u.role)
    ensures var (st', ok) := Synced(api, st, u);
      && ok && st'.namespaces == st.namespaces
      && (forall ns :: Entitled(u, st, ns) ==>
            At(u.username, ns) in st'.bindings && Grants(st'.bindings[At(u.username, ns)], u, ns))
      && (forall key :: key in st'.bindings && st'.bindings[key].user == Some(u.username) ==>
            Entitled(u, st, key.ns) && key == At(u.username, key.ns))
  {
    if RoleConflict(api, st, u) {
      var ns :| ns in Desired(u) && ns in st.namespaces && ConflictsIn(st, u, ns);
      EntitledIsDesired(u, st, ns);
      assert false;
    }
    SyncReaches(api, st, u);
    var st' := Reconciled(st, u);
    forall ns | Entitled(u, st, ns)
      ensures At(u.username, ns) in st'.bindings && Grants(st'.bindings[At(u.username, ns)], u, ns)
    {
      EntitledIsDesired(u, st, ns);
      TargetAt(u, st.namespaces, At(u.username, ns));
      WantedIsGranted(u, ns, WantedBinding(u, ns));
    }
    forall key | key in st'.bindings && st'.bindings[key].user == Some(u.username)
      ensures Entitled(u, st, key.ns) && key == At(u.username, key.ns)
    {
      EntitledIsDesired(u, st, key.ns);
      TargetAt(u, st.namespaces, key);
    }
  }
}
