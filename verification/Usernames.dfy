/** Finding a free user name for an account from an external provider. */
module Usernames {
  import opened Sorting
  import opened Text

  /** The store, from user name to the provider of its account. */
  type Store = map<string, string>

  const TRIES := 100

  /** The i-th name tried, counting from zero. */
  function Candidate(base: string, provider: string, i: nat): string {
    if i == 0 then base
    else if i == 1 then base + "_" + provider
    else base + "_" + provider + "_" + Decimal(i)
  }

  function Fallback(base: string, provider: string): string { base + "_" + provider + "_x" }

  /** The name belongs to the account being updated. */
  predicate OwnAccount(store: Store, base: string, provider: string) {
    base in store && store[base] == provider
  }

  predicate FirstFree(store: Store, base: string, provider: string, name: string, i: nat) {
    && name == Candidate(base, provider, i) && name !in store
    && forall j: nat | j < i :: Candidate(base, provider, j) in store
  }

  /** What UniqueUsername answers. */
  ghost predicate Answers(store: Store, base: string, provider: string, name: string) {
    if OwnAccount(store, base, provider) then name == base
    else
      || (exists i: nat :: i < TRIES && FirstFree(store, base, provider, name, i))
      || (name == Fallback(base, provider) && forall j: nat :: j < TRIES ==> Candidate(base, provider, j) in store)
  }

  method UniqueUsername(store: Store, base: string, provider: string) returns (name: string)
    ensures Answers(store, base, provider, name)
  {
    var candidate := base;
    for i := 0 to TRIES
      invariant candidate == Candidate(base, provider, i)
      invariant forall j: nat :: j < i ==> Candidate(base, provider, j) in store
      invariant OwnAccount(store, base, provider) ==> i == 0
    {
      assert i > 0 ==> |candidate| > |base|;
      if candidate !in store {
        assert FirstFree(store, base, provider, candidate, i);
        return candidate;
      }
      if store[candidate] == provider && candidate == base {
        return candidate;
      }
      if i == 0 {
        candidate := base + "_" + provider;
      } else {
        candidate := base + "_" + provider + "_" + Decimal(i + 1);
      }
    }
    name := base + "_" + provider + "_x";
  }

  // ----- when the name is free -----

  /** All the names that can be answered. */
  function Names(base: string, provider: string): seq<string> {
    seq(TRIES, i requires 0 <= i < TRIES => Candidate(base, provider, i)) + [Fallback(base, provider)]
  }

  /** They are the base name, the name with the provider, that with a number from 2 to 99, and
      the last resort. */
  lemma {:induction false} NamesAre(base: string, provider: string)
    ensures var names := Names(base, provider);
      && |names| == 101 && names[0] == base && names[1] == base + "_" + provider
      && (forall i: nat :: 2 <= i < 100 ==> names[i] == base + "_" + provider + "_" + Decimal(i))
      && names[100] == base + "_" + provider + "_x"
  {}

  /** The account's own name stays; otherwise the first free name is taken, in this order, or
      the last resort if none is. */
  lemma {:induction false} AnswerIsTheFirstFreeName(store: Store, base: string, provider: string, name: string)
      returns (k: nat)
    requires Answers(store, base, provider, name)
    ensures base in store && store[base] == provider ==> name == base
    ensures k < 101
    ensures !(base in store && store[base] == provider) ==>
      && name == Names(base, provider)[k] && (forall j: nat :: j < k ==> Names(base, provider)[j] in store)
      && (k < 100 ==> name !in store)
  {
    k := TRIES;
    if !OwnAccount(store, base, provider) {
      if i: nat :| i < TRIES && FirstFree(store, base, provider, name, i) {
        k := i;
      }
    }
    var names := Names(base, provider);
    assert forall j: nat :: j < TRIES ==> names[j] == Candidate(base, provider, j);
  }

  lemma {:induction false} CandidatesDiffer(base: string, provider: string, i: nat, j: nat)
    requires i < j
    ensures Candidate(base, provider, i) != Candidate(base, provider, j)
  {
    var a, b := Candidate(base, provider, i), Candidate(base, provider, j);
    if i >= 2 {
      var head := base + "_" + provider + "_";
      assert a[|head|..] == Decimal(i) && b[|head|..] == Decimal(j);
      DecimalIsInjective(i, j);
    }
  }

  lemma {:induction false} FallbackDiffers(base: string, provider: string, i: nat)
    ensures Candidate(base, provider, i) != Fallback(base, provider)
  {
    if i >= 2 {
      var head := base + "_" + provider + "_";
      assert Candidate(base, provider, i)[|head|..] == Decimal(i);
      assert Fallback(base, provider)[|head|..] == "x";
      DecimalIsInjective(i, i);
      assert 'x' in "x";
    }
  }

  lemma {:induction false} NamesAreDistinct(base: string, provider: string)
    ensures Distinct(Names(base, provider)) && |Names(base, provider)| == 101
  {
    var names := Names(base, provider);
    forall i, j | 0 <= i < j < |names|
      ensures names[i] != names[j]
    {
      if j < TRIES {
        CandidatesDiffer(base, provider, i, j);
      } else {
        FallbackDiffers(base, provider, i);
      }
    }
  }

  /** The answer is a free name if and only if the base name is not the account's own already
      and one of the 101 names is free. */
  lemma {:induction false} AnswerIsFreeExactlyWhen(store: Store, base: string, provider: string, name: string)
    requires Answers(store, base, provider, name)
    ensures name !in store <==>
      && !(base in store && store[base] == provider)
      && exists k :: 0 <= k < 101 && Names(base, provider)[k] !in store
  {
    var names := Names(base, provider);
    if !OwnAccount(store, base, provider) {
      if name !in store {
        if i: nat :| i < TRIES && FirstFree(store, base, provider, name, i) {
          assert names[i] == name;
        } else {
          assert names[TRIES] == name;
        }
      }
      if k :| 0 <= k < 101 && names[k] !in store {
        if k < TRIES {
          assert names[k] == Candidate(base, provider, k);
        }
      }
    }
  }

  /** Pigeonhole: with at most a hundred users, none of them the account itself, the answer is
      a free name. */
  lemma {:induction false} SmallStoreAlwaysHasAFreeName(store: Store, base: string, provider: string, name: string)
    requires Answers(store, base, provider, name) && !(base in store && store[base] == provider) && |store| <= 100
    ensures name !in store
  {
    var names := Names(base, provider);
    NamesAreDistinct(base, provider);
    DistinctSize(names);
    assert |store.Keys| == |store|;
    if forall k :: 0 <= k < 101 ==> names[k] in store {
      var taken := set x | x in names;
      assert taken <= store.Keys;
      Subsize(taken, store.Keys);
    }
    AnswerIsFreeExactlyWhen(store, base, provider, name);
  }

  lemma {:induction false} Subsize(a: set<string>, b: set<string>)
    requires a <= b
    ensures |a| <= |b|
    decreases a
  {
    if a != {} {
      var x :| x in a;
      Subsize(a - {x}, b - {x});
    }
  }
}
