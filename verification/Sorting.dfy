/** Sorting by a comparison, as Go's sort.Slice does it: the result is a permutation with no
    element after one that comes before it.  Callers rely on these two facts only, never on
    the order of equal elements. */
module Sorting {
  ghost predicate StrictWeakOrder<T(!new)>(before: (T, T) -> bool) {
    && (forall a, b :: before(a, b) ==> !before(b, a))
    && (forall a, b, c :: before(a, b) ==> before(a, c) || before(c, b))
  }

  ghost predicate Sorted<T>(before: (T, T) -> bool, s: seq<T>) {
    forall i, j :: 0 <= i < j < |s| ==> !before(s[j], s[i])
  }

  function Insert<T>(before: (T, T) -> bool, x: T, s: seq<T>): seq<T> {
    if s == [] || before(x, s[0]) then [x] + s else [s[0]] + Insert(before, x, s[1..])
  }

  function Sort<T>(before: (T, T) -> bool, s: seq<T>): seq<T> {
    if s == [] then [] else Insert(before, s[0], Sort(before, s[1..]))
  }

  lemma {:induction false} InsertPermutes<T>(before: (T, T) -> bool, x: T, s: seq<T>)
    ensures multiset(Insert(before, x, s)) == multiset([x]) + multiset(s)
  {
    if s == [] {
    } else if before(x, s[0]) {
    } else {
      InsertPermutes(before, x, s[1..]);
      assert s == [s[0]] + s[1..];
    }
  }

  lemma {:induction false} SortPermutes<T>(before: (T, T) -> bool, s: seq<T>)
    ensures multiset(Sort(before, s)) == multiset(s)
    ensures |Sort(before, s)| == |s|
  {
    if s != [] {
      SortPermutes(before, s[1..]);
      InsertPermutes(before, s[0], Sort(before, s[1..]));
      assert s == [s[0]] + s[1..];
    }
    assert |multiset(Sort(before, s))| == |Sort(before, s)|;
    assert |multiset(s)| == |s|;
  }

  lemma {:induction false} InsertSorts<T(!new)>(before: (T, T) -> bool, x: T, s: seq<T>)
    requires StrictWeakOrder(before) && Sorted(before, s)
    ensures Sorted(before, Insert(before, x, s))
    ensures forall y :: y in Insert(before, x, s) <==> y == x || y in s
  {
    if s != [] {
      if before(x, s[0]) {
        forall i | 0 <= i < |s|
          ensures !before(s[i], x)
        {}
      } else {
        InsertSorts(before, x, s[1..]);
        var rest := Insert(before, x, s[1..]);
        forall i | 0 <= i < |rest|
          ensures !before(rest[i], s[0])
        {
          assert rest[i] in rest;
          if rest[i] != x {
            var k :| 0 <= k < |s[1..]| && s[1..][k] == rest[i];
            assert s[k + 1] == rest[i];
          }
        }
      }
    }
  }

  lemma {:induction false} SortSorts<T(!new)>(before: (T, T) -> bool, s: seq<T>)
    requires StrictWeakOrder(before)
    ensures Sorted(before, Sort(before, s))
  {
    if s != [] {
      SortSorts(before, s[1..]);
      InsertSorts(before, s[0], Sort(before, s[1..]));
    }
  }

  // ----- permutations -----

  ghost predicate Distinct<T>(s: seq<T>) {
    forall i, j :: 0 <= i < j < |s| ==> s[i] != s[j]
  }

  lemma {:induction false} DistinctCons<T>(s: seq<T>)
    requires s != []
    ensures Distinct(s) <==> s[0] !in s[1..] && Distinct(s[1..])
  {
    if Distinct(s) {
      forall i, j | 0 <= i < j < |s[1..]|
        ensures s[1..][i] != s[1..][j]
      {
        assert s[i + 1] != s[j + 1];
      }
    }
    if s[0] !in s[1..] && Distinct(s[1..]) {
      forall i, j | 0 <= i < j < |s|
        ensures s[i] != s[j]
      {
        assert s[j] == s[1..][j - 1];
        if i > 0 { assert s[i] == s[1..][i - 1]; }
      }
    }
  }

  lemma {:induction false} DistinctSnoc<T>(s: seq<T>, x: T)
    requires Distinct(s) && x !in s
    ensures Distinct(s + [x])
  {}

  lemma {:induction false} DistinctSize<T>(s: seq<T>)
    ensures |set x | x in s| <= |s|
    ensures |set x | x in s| == |s| <==> Distinct(s)
  {
    if s != [] {
      var rest := set x | x in s[1..];
      DistinctSize(s[1..]);
      DistinctCons(s);
      assert (set x | x in s) == rest + {s[0]};
    }
  }

  lemma {:induction false} CountSplit<T>(s: seq<T>, i: nat)
    requires i < |s|
    ensures multiset(s)[s[i]] == multiset(s[..i])[s[i]] + 1 + multiset(s[i + 1..])[s[i]]
  {
    assert s == s[..i] + [s[i]] + s[i + 1..];
  }

  lemma {:induction false} DistinctByCount<T>(s: seq<T>)
    ensures Distinct(s) <==> forall i :: 0 <= i < |s| ==> multiset(s)[s[i]] == 1
  {
    if Distinct(s) {
      forall i | 0 <= i < |s|
        ensures multiset(s)[s[i]] == 1
      {
        CountSplit(s, i);
        assert s[i] !in s[..i] && s[i] !in s[i + 1..];
      }
    } else {
      var i, j :| 0 <= i < j < |s| && s[i] == s[j];
      CountSplit(s, i);
      assert s[j] == s[i + 1..][j - i - 1];
      assert s[i] in s[i + 1..];
    }
  }

  lemma {:induction false} PermutationStaysDistinct<T>(s: seq<T>, t: seq<T>)
    requires multiset(s) == multiset(t) && Distinct(s)
    ensures Distinct(t) && |s| == |t| && forall x :: x in s <==> x in t
  {
    DistinctByCount(s);
    forall i | 0 <= i < |t|
      ensures multiset(t)[t[i]] == 1
    {
      assert t[i] in multiset(t);
      assert t[i] in s;
    }
    DistinctByCount(t);
    assert |multiset(s)| == |s| && |multiset(t)| == |t|;
    forall x
      ensures x in s <==> x in t
    {
      assert x in s <==> x in multiset(s);
      assert x in t <==> x in multiset(t);
    }
  }

  lemma {:induction false} TailCounts<T>(s: seq<T>)
    requires s != []
    ensures multiset(s[1..]) == multiset(s) - multiset{s[0]}
  {
    assert s == [s[0]] + s[1..];
  }

  ghost predicate Comparable<T(!new)>(before: (T, T) -> bool, s: seq<T>) {
    forall a, b :: a in s && b in s && a != b ==> before(a, b) || before(b, a)
  }

  lemma {:induction false} SameHead<T(!new)>(before: (T, T) -> bool, s: seq<T>, t: seq<T>)
    requires Sorted(before, s) && Sorted(before, t) && s != [] && t != [] && multiset(s) == multiset(t)
    requires Comparable(before, s)
    ensures s[0] == t[0]
  {
    assert s[0] in multiset(t) && t[0] in multiset(s);
    var j :| 0 <= j < |t| && t[j] == s[0];
    var i :| 0 <= i < |s| && s[i] == t[0];
  }

  lemma {:induction false} WithoutOne<T>(s: seq<T>, i: nat)
    requires i < |s|
    ensures multiset(s[..i] + s[i + 1..]) == multiset(s) - multiset{s[i]}
  {
    assert s == s[..i] + [s[i]] + s[i + 1..];
  }

  lemma {:induction false} TailStaysSorted<T(!new)>(before: (T, T) -> bool, s: seq<T>)
    requires s != [] && Sorted(before, s)
    ensures Sorted(before, s[1..]) && (Comparable(before, s) ==> Comparable(before, s[1..]))
  {
    assert forall i :: 0 <= i < |s[1..]| ==> s[1..][i] == s[i + 1];
    assert forall x :: x in s[1..] ==> x in s;
  }

  lemma {:induction false} SameLength<T>(s: seq<T>, t: seq<T>)
    requires multiset(s) == multiset(t)
    ensures |s| == |t|
  {
    assert |s| == |multiset(s)| && |t| == |multiset(t)|;
  }

  lemma {:induction false} TailsMatch<T>(s: seq<T>, t: seq<T>)
    requires s != [] && t != [] && s[0] == t[0] && multiset(s) == multiset(t)
    ensures multiset(s[1..]) == multiset(t[1..])
  {
    TailCounts(s);
    TailCounts(t);
  }

  /** Elements that are all comparable have only one sorted arrangement. */
  lemma {:induction false} SortedIsUnique<T(!new)>(before: (T, T) -> bool, s: seq<T>, t: seq<T>)
    requires Sorted(before, s) && Sorted(before, t) && multiset(s) == multiset(t) && Comparable(before, s)
    ensures s == t
    decreases s
  {
    hide Sorted, Comparable;
    SameLength(s, t);
    if s != [] {
      SameHead(before, s, t);
      TailStaysSorted(before, s);
      TailStaysSorted(before, t);
      TailsMatch(s, t);
      SortedIsUnique(before, s[1..], t[1..]);
      assert s == [s[0]] + s[1..] && t == [t[0]] + t[1..];
    }
  }
}
