/** Sums of keyed amounts, by key and altogether. */
module Grouping {
  import opened Sorting

  datatype Item = Item(key: string, amount: real)

  function SumFor(items: seq<Item>, key: string): real {
    if items == [] then 0.0 else (if items[0].key == key then items[0].amount else 0.0) + SumFor(items[1..], key)
  }

  /** The sum of the items whose key is listed. */
  function SumWithin(items: seq<Item>, keys: seq<string>): real {
    if items == [] then 0.0 else (if items[0].key in keys then items[0].amount else 0.0) + SumWithin(items[1..], keys)
  }

  function SumGroups(items: seq<Item>, keys: seq<string>): real {
    if keys == [] then 0.0 else SumFor(items, keys[0]) + SumGroups(items, keys[1..])
  }

  lemma {:induction false} SumGroupsEmpty(keys: seq<string>)
    ensures SumGroups([], keys) == 0.0
  {
    if keys != [] {
      SumGroupsEmpty(keys[1..]);
    }
  }

  lemma {:induction false} SumGroupsPeel(items: seq<Item>, keys: seq<string>)
    requires items != [] && Distinct(keys)
    ensures SumGroups(items, keys)
         == SumGroups(items[1..], keys) + if items[0].key in keys then items[0].amount else 0.0
    decreases keys
  {
    if keys != [] {
      DistinctCons(keys);
      SumGroupsPeel(items, keys[1..]);
    }
  }

  /** Grouping loses and repeats nothing: if no key is listed twice, the group sums add up to
      the sum of the listed items. */
  lemma {:induction false} GroupsAddUp(items: seq<Item>, keys: seq<string>)
    requires Distinct(keys)
    ensures SumGroups(items, keys) == SumWithin(items, keys)
  {
    if items == [] {
      SumGroupsEmpty(keys);
    } else {
      SumGroupsPeel(items, keys);
      GroupsAddUp(items[1..], keys);
    }
  }

  lemma {:induction false} SumGroupsSnoc(items: seq<Item>, keys: seq<string>, last: string)
    ensures SumGroups(items, keys + [last]) == SumGroups(items, keys) + SumFor(items, last)
  {
    if keys == [] {
      assert [last][1..] == [];
    } else {
      assert (keys + [last])[0] == keys[0] && (keys + [last])[1..] == keys[1..] + [last];
      SumGroupsSnoc(items, keys[1..], last);
    }
  }

  lemma {:induction false} SumForNonNegative(items: seq<Item>, key: string)
    requires forall i :: 0 <= i < |items| ==> items[i].amount >= 0.0
    ensures SumFor(items, key) >= 0.0
  {
    if items != [] {
      SumForNonNegative(items[1..], key);
    }
  }

  // ----- sums by position -----

  /** f(0) + ... + f(n - 1). */
  function SumTo(n: nat, f: nat -> real): real {
    if n == 0 then 0.0 else SumTo(n - 1, f) + f(n - 1)
  }

  lemma {:induction false} SumToSame(n: nat, f: nat -> real, g: nat -> real)
    requires forall i: nat :: i < n ==> f(i) == g(i)
    ensures SumTo(n, f) == SumTo(n, g)
  {
    if n > 0 {
      SumToSame(n - 1, f, g);
    }
  }

  /** The first term taken out, when `g` is `f` one place on. */
  lemma {:induction false} SumToFirst(n: nat, f: nat -> real, g: nat -> real)
    requires forall i: nat :: i < n ==> g(i) == f(i + 1)
    ensures SumTo(n + 1, f) == f(0) + SumTo(n, g)
  {
    if n > 0 {
      SumToFirst(n - 1, f, g);
    } else {
      assert SumTo(1, f) == SumTo(0, f) + f(0);
    }
  }

  /** How many of the first `n` places satisfy `f`. */
  ghost function HowMany(n: nat, f: nat -> bool): nat { |set i: nat | i < n && f(i)| }

  lemma {:induction false} HowManySnoc(n: nat, f: nat -> bool)
    ensures HowMany(n + 1, f) == HowMany(n, f) + if f(n) then 1 else 0
  {
    assert (set i: nat | i < n + 1 && f(i)) == (set i: nat | i < n && f(i)) + if f(n) then {n} else {};
  }

  lemma {:induction false} HowManySame(n: nat, f: nat -> bool, g: nat -> bool)
    requires forall i: nat :: i < n ==> f(i) == g(i)
    ensures HowMany(n, f) == HowMany(n, g)
  {
    assert (set i: nat | i < n && f(i)) == (set i: nat | i < n && g(i));
  }
}
