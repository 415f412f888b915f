/** What rounding does to the sums of the cost summary's columns. */
module CostShares {
  import opened Common
  import opened CostEstimator
  import opened Grouping

  lemma {:induction false} MulBound(d: real, bound: real, x: real)
    requires Abs(d) <= bound && x >= 0.0
    ensures Abs(d * x) <= bound * x
  {
    assert (bound - d) * x >= 0.0 && (bound + d) * x >= 0.0;
  }

  /** What n rows may be off by altogether, times the total: a twentieth of a percent and half
      a cent each. */
  function Tolerance(n: nat, total: real): real {
    n as real * (0.05 * total + 0.5)
  }

  /** The shares stand for the costs, but for the tolerance of n rows. */
  predicate Within(shares: real, costs: real, n: nat, total: real) {
    Abs(shares * total - costs * 100.0) <= Tolerance(n, total)
  }

  /** One row: its share is off by at most a twentieth for its own rounding, and by the half
      cent its cost was rounded by; both sides are multiplied by the total. */
  lemma {:induction false} ShareError(row: NamespaceCost, cost: real, total: real)
    requires total > 0.0 && cost >= 0.0 && row.monthlyCost == Rounded(cost, 2)
    ensures Within(Share(row.monthlyCost, total), cost, 1, total)
  {
    hide Rounded;
    var m := row.monthlyCost;
    CentError(cost);
    RoundedNonNegative(cost, 2);
    QuotientNonNegative(m, total);
    var exact := m / total * 100.0;
    TenthError(exact);
    PercentOfTotal(m, total);
    MulBound(Share(m, total) - exact, 0.05, total);
    SplitError(Share(m, total), exact, total, m, cost);
  }

  lemma {:induction false} CentError(val: real)
    requires val >= 0.0
    ensures Abs(Rounded(val, 2) - val) * 100.0 <= 0.5
  {
    TwoPlaces();
    RoundingError(val, 2);
  }

  lemma {:induction false} TenthError(val: real)
    requires val >= 0.0
    ensures Abs(Rounded(val, 1) - val) <= 0.05
  {
    TwoPlaces();
    RoundingError(val, 1);
  }

  lemma {:induction false} PercentOfTotal(m: real, total: real)
    requires total > 0.0
    ensures m / total * 100.0 * total == m * 100.0
  {
    var q := m / total;
    assert q * total == m;
  }

  lemma {:induction false} SplitError(share: real, exact: real, total: real, m: real, cost: real)
    requires exact * total == m * 100.0
    requires Abs((share - exact) * total) <= 0.05 * total && Abs(m - cost) * 100.0 <= 0.5
    ensures Within(share, cost, 1, total)
  {
    assert share * total - cost * 100.0 == (share - exact) * total + (m - cost) * 100.0;
  }

  lemma {:induction false} RoundedNonNegative(val: real, decimals: nat)
    requires val >= 0.0
    ensures Rounded(val, decimals) >= 0.0
  {
    var m := Power10(decimals);
    assert val * m >= 0.0;
    QuotientNonNegative(Trunc(val * m + 0.5) as real, m);
  }

  lemma {:induction false} QuotientNonNegative(a: real, b: real)
    requires a >= 0.0 && b > 0.0
    ensures a / b >= 0.0
  {
    var q := a / b;
    assert q * b == a;
  }

  lemma {:induction false} AddErrors(share: real, shares: real, cost: real, costs: real, n: nat, total: real)
    requires Within(share, cost, 1, total) && Within(shares, costs, n, total)
    ensures Within(share + shares, cost + costs, n + 1, total)
  {
    var e := 0.05 * total + 0.5;
    assert (n + 1) as real * e == n as real * e + e;
    assert (share + shares) * total == share * total + shares * total;
  }

  lemma {:induction false} SharesError(rows: seq<NamespaceCost>, items: seq<Item>, total: real)
    requires total > 0.0
    requires forall i :: 0 <= i < |items| ==> items[i].amount >= 0.0
    requires forall i :: 0 <= i < |rows| ==> rows[i].monthlyCost == Rounded(SumFor(items, rows[i].namespace), 2)
    requires forall i :: 0 <= i < |rows| ==> rows[i].percentage == Share(rows[i].monthlyCost, total)
    ensures Within(Column(rows, ShareColumn()), SumGroups(items, NamespacesOf(rows)), |rows|, total)
    decreases rows
  {
    if rows == [] {
      assert Within(0.0, 0.0, 0, total);
    } else {
      var ns := rows[0].namespace;
      SharesError(rows[1..], items, total);
      SumForNonNegative(items, ns);
      ShareError(rows[0], SumFor(items, ns), total);
      assert NamespacesOf(rows)[1..] == NamespacesOf(rows[1..]);
      AddErrors(rows[0].percentage, Column(rows[1..], ShareColumn()), SumFor(items, ns),
                SumGroups(items, NamespacesOf(rows[1..])), |rows[1..]|, total);
    }
  }

  predicate NonNegative(containers: seq<Container>) {
    forall c :: c in containers ==> c.cpuCores >= 0.0 && c.ramGB >= 0.0
  }

  lemma {:induction false} SumsNonNegative(containers: seq<Container>)
    requires NonNegative(containers)
    ensures Sums(containers).0 >= 0.0 && Sums(containers).1 >= 0.0
  {
    if containers != [] {
      assert containers[0] in containers;
      SumsNonNegative(containers[1..]);
    }
  }

  lemma {:induction false} PriceNonNegative(p: Pricing, cpu: real, ram: real)
    requires p.perCore >= 0.0 && p.perGB >= 0.0 && cpu >= 0.0 && ram >= 0.0
    ensures Price(p, cpu, ram) >= 0.0
  {}

  lemma {:induction false} CostsNonNegative(pods: seq<Pod>, p: Pricing)
    requires p.perCore >= 0.0 && p.perGB >= 0.0
    requires forall pod :: pod in pods ==> NonNegative(pod.containers)
    ensures forall i :: 0 <= i < |Items(pods, Cost(p))| ==> Items(pods, Cost(p))[i].amount >= 0.0
  {
    if pods != [] {
      assert pods[0] in pods;
      CostsNonNegative(pods[1..], p);
      var (cpu, ram) := Sums(pods[0].containers);
      SumsNonNegative(pods[0].containers);
      PriceNonNegative(p, cpu, ram);
    }
  }

  /** The shares of n rows are a hundred, but for a twentieth each and half a cent's share of
      the total each. */
  predicate NearHundred(shares: real, n: nat, total: real)
    requires total > 0.0
  {
    Abs(shares - 100.0) <= n as real * (0.05 + 0.5 / total)
  }

  /** From an error bound times the total to one relative to it. */
  lemma {:induction false} OffBy(shares: real, n: nat, total: real)
    requires total > 0.0 && Within(shares, total, n, total)
    ensures NearHundred(shares, n, total)
  {
    var d, slack := Abs(shares - 100.0), 0.05 + 0.5 / total;
    assert shares * total - total * 100.0 == (shares - 100.0) * total;
    assert d * total <= Tolerance(n, total) by {
      assert (shares - 100.0) * total >= 0.0 <==> shares - 100.0 >= 0.0;
    }
    assert slack * total == 0.05 * total + 0.5;
    assert (n as real * slack) * total == n as real * (slack * total);
    CancelTotal(d, n as real * slack, total);
  }

  lemma {:induction false} CancelTotal(a: real, b: real, total: real)
    requires total > 0.0 && a * total <= b * total
    ensures a <= b
  {}

  lemma {:induction false} OffByItems(rows: seq<NamespaceCost>, items: seq<Item>, total: real)
    requires total > 0.0 && SumGroups(items, NamespacesOf(rows)) == total
    requires forall i :: 0 <= i < |items| ==> items[i].amount >= 0.0
    requires forall i :: 0 <= i < |rows| ==> rows[i].monthlyCost == Rounded(SumFor(items, rows[i].namespace), 2)
    requires forall i :: 0 <= i < |rows| ==> rows[i].percentage == Share(rows[i].monthlyCost, total)
    ensures NearHundred(Column(rows, ShareColumn()), |rows|, total)
  {
    hide *;
    SharesError(rows, items, total);
    OffBy(Column(rows, ShareColumn()), |rows|, total);
  }

  lemma {:induction false} RowsOfCosts(rows: seq<NamespaceCost>, pods: seq<Pod>, p: Pricing)
    requires Rows(rows, pods, p)
    ensures SumGroups(Items(pods, Cost(p)), NamespacesOf(rows)) == Ungrouped(pods, Cost(p))
    ensures forall i :: 0 <= i < |rows| ==>
      rows[i].monthlyCost == Rounded(SumFor(Items(pods, Cost(p)), rows[i].namespace), 2)
  {
    RowsAreUngrouped(rows, pods, p);
    forall i | 0 <= i < |rows|
      ensures rows[i].monthlyCost == Rounded(SumFor(Items(pods, Cost(p)), rows[i].namespace), 2)
    {
      assert RowRight(rows[i], pods, p);
    }
  }

  /** With non-negative requests and prices, the percentages of the n namespaces add up to a
      hundred but for n times a twentieth and a half cent's share of the total. */
  lemma {:induction false} PercentagesAddUp(rows: seq<NamespaceCost>, pods: seq<Pod>, p: Pricing)
    requires Rows(rows, pods, p) && Ungrouped(pods, Cost(p)) > 0.0 && p.perCore >= 0.0 && p.perGB >= 0.0
    requires forall pod :: pod in pods ==> NonNegative(pod.containers)
    requires forall i :: 0 <= i < |rows| ==> rows[i].percentage == Share(rows[i].monthlyCost, Ungrouped(pods, Cost(p)))
    ensures NearHundred(Column(rows, ShareColumn()), |rows|, Ungrouped(pods, Cost(p)))
  {
    hide *;
    var total := Ungrouped(pods, Cost(p));
    CostsNonNegative(pods, p);
    RowsOfCosts(rows, pods, p);
    OffByItems(rows, Items(pods, Cost(p)), total);
  }

  // ----- the totals of rounded columns -----

  lemma {:induction false} ThousandthError(val: real)
    requires val >= 0.0
    ensures Abs(Rounded(val, 3) - val) * 1000.0 <= 0.5
  {
    TwoPlaces();
    assert Power10(3) == Power10(2) * 10.0;
    RoundingError(val, 3);
  }

  lemma {:induction false} ColumnError(rows: seq<NamespaceCost>, f: NamespaceCost -> real, items: seq<Item>)
    requires forall i :: 0 <= i < |items| ==> items[i].amount >= 0.0
    requires forall i :: 0 <= i < |rows| ==> f(rows[i]) == Rounded(SumFor(items, rows[i].namespace), 3)
    ensures Abs(Column(rows, f) - SumGroups(items, NamespacesOf(rows))) * 1000.0 <= |rows| as real * 0.5
    decreases rows
  {
    if rows != [] {
      hide Rounded;
      var ns := rows[0].namespace;
      ColumnError(rows[1..], f, items);
      SumForNonNegative(items, ns);
      ThousandthError(SumFor(items, ns));
      assert NamespacesOf(rows)[1..] == NamespacesOf(rows[1..]);
    }
  }

  lemma {:induction false} RequestsNonNegative(pods: seq<Pod>)
    requires forall pod :: pod in pods ==> NonNegative(pod.containers)
    ensures forall i :: 0 <= i < |Items(pods, Cpu())| ==> Items(pods, Cpu())[i].amount >= 0.0
    ensures forall i :: 0 <= i < |Items(pods, Ram())| ==> Items(pods, Ram())[i].amount >= 0.0
  {
    if pods != [] {
      assert pods[0] in pods;
      RequestsNonNegative(pods[1..]);
      SumsNonNegative(pods[0].containers);
    }
  }

  /** With non-negative requests, the CPU and RAM columns of n rows add up to what all pods of
      named namespaces request but for n half thousandths. */
  lemma {:induction false} ColumnsAddUp(rows: seq<NamespaceCost>, pods: seq<Pod>, p: Pricing)
    requires Rows(rows, pods, p) && forall pod :: pod in pods ==> NonNegative(pod.containers)
    ensures Abs(Column(rows, CpuColumn()) - Ungrouped(pods, Cpu())) * 1000.0 <= |rows| as real * 0.5
    ensures Abs(Column(rows, RamColumn()) - Ungrouped(pods, Ram())) * 1000.0 <= |rows| as real * 0.5
  {
    hide Rounded, IsTop;
    RequestsNonNegative(pods);
    assert forall i :: 0 <= i < |rows| ==> RowRight(rows[i], pods, p);
    ColumnError(rows, CpuColumn(), Items(pods, Cpu()));
    ColumnError(rows, RamColumn(), Items(pods, Ram()));
    GroupedIsUngrouped(NamespacesOf(rows), pods, Cpu());
    GroupedIsUngrouped(NamespacesOf(rows), pods, Ram());
  }
}
