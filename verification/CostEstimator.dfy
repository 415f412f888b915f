/** The cluster's monthly cost by namespace.  Prices and requests are reals. */
module CostEstimator {
  import opened Common
  import opened Grouping
  import opened Sorting
  import opened Text

  datatype Container = Container(cpuCores: real, ramGB: real)

  datatype Owner = Owner(kind: string, name: string)

  datatype Pod = Pod(namespace: string, owners: seq<Owner>, containers: seq<Container>)

  datatype Pricing = Pricing(perCore: real, perGB: real)

  datatype Agg = Agg(pods: nat, cpuCores: real, ramGB: real, workloads: set<string>)

  datatype NamespaceCost = NamespaceCost(namespace: string, pods: nat, cpuRequested: real, ramRequested: real,
                                         monthlyCost: real, percentage: real, topWorkloads: seq<string>)

  datatype Totals = Totals(monthlyCost: real, pods: nat, cpu: real, ram: real)

  const WORKLOAD_KINDS: set<string> := {"ReplicaSet", "Deployment", "StatefulSet", "DaemonSet", "Job"}

  // ----- rounding -----

  function Power10(decimals: nat): (r: real)
    ensures r >= 1.0
  {
    if decimals == 0 then 1.0 else Power10(decimals - 1) * 10.0
  }

  /** To the nearest multiple of 1/mult. */
  function RoundBy(val: real, mult: real): real
    requires mult >= 1.0
  {
    Trunc(val * mult + 0.5) as real / mult
  }

  function Rounded(val: real, decimals: nat): real { RoundBy(val, Power10(decimals)) }

  lemma {:induction false} TwoPlaces()
    ensures Power10(2) == 100.0 && Power10(1) == 10.0
  {
    assert Power10(0) == 1.0 && Power10(1) == 10.0;
  }

  method RoundTo(val: real, decimals: nat) returns (r: real)
    ensures r == Rounded(val, decimals)
  {
    var mult := 1.0;
    for i := 0 to decimals
      invariant mult == Power10(i)
    {
      mult := mult * 10.0;
    }
    r := RoundBy(val, mult);
  }

  function Abs(x: real): real { if x >= 0.0 then x else -x }

  lemma {:induction false} DivideBack(t: real, m: real)
    requires m != 0.0
    ensures t / m * m == t
  {}

  lemma {:induction false} RoundedBy(val: real, m: real)
    requires m >= 1.0
    ensures RoundBy(val, m) * m == Trunc(val * m + 0.5) as real
  {
    var x := val * m;
    var t := Trunc(x + 0.5) as real;
    DivideBack(t, m);
    var r := RoundBy(val, m);
    assert r == t / m;
  }

  lemma {:induction false} DifferenceTimes(a: real, b: real, m: real)
    ensures (a - b) * m == a * m - b * m
  {}

  lemma {:induction false} HalfAway(x: real)
    requires x >= 0.0
    ensures x - 0.5 <= Trunc(x + 0.5) as real <= x + 0.5
  {}

  lemma {:induction false} ProductIsNonNegative(a: real, b: real)
    requires a >= 0.0 && b >= 0.0
    ensures a * b >= 0.0
  {}

  lemma {:induction false} WithinHalf(val: real, r: real, m: real, x: real)
    requires val >= 0.0 && m >= 1.0 && x == val * m && r * m == Trunc(x + 0.5) as real
    ensures Abs(r - val) * m <= 0.5
  {
    ProductIsNonNegative(val, m);
    HalfAway(x);
    DifferenceTimes(r, val, m);
    DifferenceTimes(val, r, m);
  }

  lemma {:induction false} RoundByError(val: real, m: real)
    requires val >= 0.0 && m >= 1.0
    ensures Abs(RoundBy(val, m) - val) * m <= 0.5
  {
    RoundedBy(val, m);
    hide RoundBy;
    WithinHalf(val, RoundBy(val, m), m, val * m);
  }

  /** Rounding gives a whole number of units of the last place, */
  lemma {:induction false} RoundedIsWhole(val: real, decimals: nat) returns (units: int)
    ensures Rounded(val, decimals) == units as real / Power10(decimals)
  {
    units := Trunc(val * Power10(decimals) + 0.5);
  }

  /** and for a non-negative amount the nearest one: at most half a unit away. */
  lemma {:induction false} RoundingError(val: real, decimals: nat)
    requires val >= 0.0
    ensures Abs(Rounded(val, decimals) - val) * Power10(decimals) <= 0.5
  {
    hide Power10, RoundBy, Abs;
    var m := Power10(decimals);
    RoundByError(val, m);
  }

  // ----- what belongs to a namespace -----

  function Sums(containers: seq<Container>): (real, real) {
    if containers == [] then (0.0, 0.0)
    else var (cpu, ram) := Sums(containers[1..]); (containers[0].cpuCores + cpu, containers[0].ramGB + ram)
  }

  function Price(p: Pricing, cpu: real, ram: real): real { cpu * p.perCore + ram * p.perGB }

  function One(): Pod -> real { (pod: Pod) => 1.0 }
  function Cpu(): Pod -> real { (pod: Pod) => Sums(pod.containers).0 }
  function Ram(): Pod -> real { (pod: Pod) => Sums(pod.containers).1 }
  function Cost(p: Pricing): Pod -> real { (pod: Pod) => Price(p, Sums(pod.containers).0, Sums(pod.containers).1) }

  /** What each pod of a named namespace is worth. */
  function Items(pods: seq<Pod>, worth: Pod -> real): seq<Item> {
    if pods == [] then []
    else if pods[0].namespace == "" then Items(pods[1..], worth)
    else [Item(pods[0].namespace, worth(pods[0]))] + Items(pods[1..], worth)
  }

  /** The worth of all those pods, not grouped. */
  function Ungrouped(pods: seq<Pod>, worth: Pod -> real): real {
    if pods == [] then 0.0
    else (if pods[0].namespace == "" then 0.0 else worth(pods[0])) + Ungrouped(pods[1..], worth)
  }

  function Of(pods: seq<Pod>, worth: Pod -> real, ns: string): real { SumFor(Items(pods, worth), ns) }

  function PodsIn(pods: seq<Pod>, ns: string): nat {
    if pods == [] then 0 else (if pods[0].namespace == ns then 1 else 0) + PodsIn(pods[1..], ns)
  }

  function NamedPods(pods: seq<Pod>): nat {
    if pods == [] then 0 else (if pods[0].namespace == "" then 0 else 1) + NamedPods(pods[1..])
  }

  function OwnedBy(pod: Pod): set<string> {
    set owner | owner in pod.owners && owner.kind in WORKLOAD_KINDS :: owner.name
  }

  function WorkloadsIn(pods: seq<Pod>, ns: string): set<string> {
    if pods == [] then {} else (if pods[0].namespace == ns then OwnedBy(pods[0]) else {}) + WorkloadsIn(pods[1..], ns)
  }

  lemma {:induction false} OfSnoc(pods: seq<Pod>, pod: Pod, worth: Pod -> real, ns: string)
    requires ns != ""
    ensures Of(pods + [pod], worth, ns) == Of(pods, worth, ns) + if pod.namespace == ns then worth(pod) else 0.0
  {
    if pods == [] {
      assert [pod][1..] == [];
    } else {
      assert (pods + [pod])[0] == pods[0] && (pods + [pod])[1..] == pods[1..] + [pod];
      OfSnoc(pods[1..], pod, worth, ns);
      if pods[0].namespace != "" {
        assert Items(pods, worth)[1..] == Items(pods[1..], worth);
        assert Items(pods + [pod], worth)[1..] == Items(pods[1..] + [pod], worth);
      }
    }
  }

  lemma {:induction false} PodsSnoc(pods: seq<Pod>, pod: Pod, ns: string)
    ensures PodsIn(pods + [pod], ns) == PodsIn(pods, ns) + if pod.namespace == ns then 1 else 0
    ensures WorkloadsIn(pods + [pod], ns) == WorkloadsIn(pods, ns) + if pod.namespace == ns then OwnedBy(pod) else {}
  {
    if pods == [] {
      assert [pod][1..] == [];
    } else {
      assert (pods + [pod])[0] == pods[0] && (pods + [pod])[1..] == pods[1..] + [pod];
      PodsSnoc(pods[1..], pod, ns);
    }
  }

  lemma {:induction false} NothingForOthers(pods: seq<Pod>, worth: Pod -> real, ns: string)
    requires ns != "" && PodsIn(pods, ns) == 0
    ensures Of(pods, worth, ns) == 0.0 && WorkloadsIn(pods, ns) == {}
  {
    if pods != [] {
      NothingForOthers(pods[1..], worth, ns);
      if pods[0].namespace != "" {
        assert Items(pods, worth)[1..] == Items(pods[1..], worth);
      }
    }
  }

  lemma {:induction false} PriceAdds(p: Pricing, cpu: real, ram: real, cpu': real, ram': real)
    ensures Price(p, cpu + cpu', ram + ram') == Price(p, cpu, ram) + Price(p, cpu', ram')
  {}

  /** Pricing a namespace's requests prices its pods. */
  lemma {:induction false} PriceOfRequests(pods: seq<Pod>, p: Pricing, ns: string)
    ensures Of(pods, Cost(p), ns) == Price(p, Of(pods, Cpu(), ns), Of(pods, Ram(), ns))
  {
    if pods != [] {
      PriceOfRequests(pods[1..], p, ns);
      if pods[0].namespace != "" {
        forall worth: Pod -> real
          ensures Items(pods, worth)[1..] == Items(pods[1..], worth)
        {}
        var (cpu, ram) := Sums(pods[0].containers);
        PriceAdds(p, cpu, ram, Of(pods[1..], Cpu(), ns), Of(pods[1..], Ram(), ns));
      }
    }
  }

  // ----- aggregation -----

  /** The table holds exactly the named namespaces, with their pods, requests and workloads. */
  ghost predicate Aggregates(t: map<string, Agg>, pods: seq<Pod>) {
    && (forall ns :: ns in t <==> ns != "" && PodsIn(pods, ns) > 0)
    && (forall ns :: ns in t ==> AggRight(t[ns], pods, ns))
  }

  ghost predicate AggRight(a: Agg, pods: seq<Pod>, ns: string) {
    && a.pods == PodsIn(pods, ns) && a.workloads == WorkloadsIn(pods, ns)
    && a.cpuCores == Of(pods, Cpu(), ns) && a.ramGB == Of(pods, Ram(), ns)
  }

  const NO_AGG := Agg(0, 0.0, 0.0, {})

  function Added(a: Agg, pod: Pod): Agg {
    Agg(a.pods + 1, a.cpuCores + Sums(pod.containers).0, a.ramGB + Sums(pod.containers).1, a.workloads + OwnedBy(pod))
  }

  method SumContainers(containers: seq<Container>) returns (cpu: real, ram: real)
    ensures (cpu, ram) == Sums(containers)
  {
    cpu, ram := 0.0, 0.0;
    for i := 0 to |containers|
      invariant cpu + Sums(containers[i..]).0 == Sums(containers).0
      invariant ram + Sums(containers[i..]).1 == Sums(containers).1
    {
      assert containers[i..][0] == containers[i] && containers[i..][1..] == containers[i + 1..];
      cpu := cpu + containers[i].cpuCores;
      ram := ram + containers[i].ramGB;
    }
    assert containers[|containers|..] == [];
  }

  method AddWorkloads(workloads: set<string>, owners: seq<Owner>) returns (more: set<string>)
    ensures more == workloads + set owner | owner in owners && owner.kind in WORKLOAD_KINDS :: owner.name
  {
    more := workloads;
    for i := 0 to |owners|
      invariant more == workloads + set owner | owner in owners[..i] && owner.kind in WORKLOAD_KINDS :: owner.name
    {
      var owner := owners[i];
      assert owners[..i + 1] == owners[..i] + [owner];
      if owner.kind == "ReplicaSet" || owner.kind == "Deployment" || owner.kind == "StatefulSet" ||
         owner.kind == "DaemonSet" || owner.kind == "Job" {
        more := more + {owner.name};
      }
    }
    assert owners[..|owners|] == owners;
  }

  lemma {:induction false} AggRightSnoc(a: Agg, pods: seq<Pod>, pod: Pod, ns: string)
    requires AggRight(a, pods, ns) && ns != ""
    ensures AggRight(if pod.namespace == ns then Added(a, pod) else a, pods + [pod], ns)
  {
    PodsSnoc(pods, pod, ns);
    OfSnoc(pods, pod, Cpu(), ns);
    OfSnoc(pods, pod, Ram(), ns);
  }

  lemma {:induction false} AggregatesSnoc(t: map<string, Agg>, pods: seq<Pod>, pod: Pod)
    requires Aggregates(t, pods)
    ensures pod.namespace == "" ==> Aggregates(t, pods + [pod])
    ensures pod.namespace != "" ==>
      var a := if pod.namespace in t then t[pod.namespace] else NO_AGG;
      Aggregates(t[pod.namespace := Added(a, pod)], pods + [pod])
  {
    var a := if pod.namespace in t then t[pod.namespace] else NO_AGG;
    forall ns | ns != ""
      ensures PodsIn(pods + [pod], ns) == PodsIn(pods, ns) + if pod.namespace == ns then 1 else 0
    {
      PodsSnoc(pods, pod, ns);
    }
    forall ns | ns in t
      ensures AggRight(if pod.namespace == ns then Added(t[ns], pod) else t[ns], pods + [pod], ns)
    {
      AggRightSnoc(t[ns], pods, pod, ns);
    }
    if pod.namespace != "" && pod.namespace !in t {
      NothingForOthers(pods, Cpu(), pod.namespace);
      NothingForOthers(pods, Ram(), pod.namespace);
      AggRightSnoc(NO_AGG, pods, pod, pod.namespace);
    }
  }

  method Aggregate(pods: seq<Pod>) returns (byNS: map<string, Agg>)
    ensures Aggregates(byNS, pods)
  {
    hide AggRight;
    byNS := map[];
    for i := 0 to |pods|
      invariant Aggregates(byNS, pods[..i])
    {
      assert pods[..i + 1] == pods[..i] + [pods[i]];
      AggregatesSnoc(byNS, pods[..i], pods[i]);
      var ns := pods[i].namespace;
      if ns == "" {
        continue;
      }
      var agg := if ns in byNS then byNS[ns] else NO_AGG;
      var workloads := AddWorkloads(agg.workloads, pods[i].owners);
      var cpu, ram := SumContainers(pods[i].containers);
      byNS := byNS[ns := Agg(agg.pods + 1, agg.cpuCores + cpu, agg.ramGB + ram, workloads)];
    }
    assert pods[..|pods|] == pods;
  }

  // ----- the first workloads by name -----

  predicate Alphabetical(a: string, b: string) { Less(a, b) }

  lemma {:induction false} AlphabeticalIsStrictWeak()
    ensures StrictWeakOrder(Alphabetical)
  {
    forall a, b | Alphabetical(a, b)
      ensures !Alphabetical(b, a)
    {
      LessIsTotal(a, b);
    }
    forall a, b, c | Alphabetical(a, b)
      ensures Alphabetical(a, c) || Alphabetical(c, b)
    {
      LessIsTotal(a, c);
      if Less(c, a) {
        LessIsTransitive(c, a, b);
      }
    }
  }

  /** At most five of the workloads, in order, and before all the others. */
  predicate IsTop(top: seq<string>, workloads: set<string>) {
    && |top| == Min(5, |workloads|)
    && (forall i :: 0 <= i < |top| ==> top[i] in workloads)
    && (forall i, j :: 0 <= i < j < |top| ==> Less(top[i], top[j]))
    && (forall w, i :: w in workloads && w !in top && 0 <= i < |top| ==> Less(top[i], w))
  }

  lemma {:induction false} SortedNames(names: seq<string>, workloads: set<string>)
    requires Distinct(names) && forall w :: w in names <==> w in workloads
    ensures var sorted := Sort(Alphabetical, names);
      && |sorted| == |workloads| && (forall w :: w in sorted <==> w in workloads)
      && forall i, j :: 0 <= i < j < |sorted| ==> Less(sorted[i], sorted[j])
  {
    var sorted := Sort(Alphabetical, names);
    AlphabeticalIsStrictWeak();
    SortPermutes(Alphabetical, names);
    SortSorts(Alphabetical, names);
    PermutationStaysDistinct(names, sorted);
    DistinctSize(names);
    assert (set w | w in names) == workloads;
    forall i, j | 0 <= i < j < |sorted|
      ensures Less(sorted[i], sorted[j])
    {
      LessIsTotal(sorted[i], sorted[j]);
      assert !Alphabetical(sorted[j], sorted[i]);
    }
  }

  method TopWorkloads(workloads: set<string>) returns (top: seq<string>)
    ensures IsTop(top, workloads)
  {
    top := [];
    var pending := workloads;
    while pending != {}
      invariant pending <= workloads && Distinct(top)
      invariant forall w :: w in top <==> w in workloads && w !in pending
      decreases pending
    {
      var w :| w in pending;
      DistinctSnoc(top, w);
      top := top + [w];
      pending := pending - {w};
    }
    SortedNames(top, workloads);
    top := Sort(Alphabetical, top);
    if |top| > 5 {
      ghost var all := top;
      top := top[..5];
      forall w, i | w in workloads && w !in top && 0 <= i < |top|
        ensures Less(top[i], w)
      {
        var k :| 0 <= k < |all| && all[k] == w;
        assert k >= 5;
      }
    }
  }

  // ----- the summary -----

  predicate Dearer(a: NamespaceCost, b: NamespaceCost) { a.monthlyCost > b.monthlyCost }

  function NamespacesOf(costs: seq<NamespaceCost>): seq<string> {
    seq(|costs|, i requires 0 <= i < |costs| => costs[i].namespace)
  }

  /** The rows are right: one per namespace, with its pods, its requests and cost rounded, and
      its first workloads. */
  ghost predicate Rows(rows: seq<NamespaceCost>, pods: seq<Pod>, p: Pricing) {
    && Distinct(NamespacesOf(rows))
    && (forall ns :: ns in NamespacesOf(rows) <==> ns != "" && PodsIn(pods, ns) > 0)
    && (forall i :: 0 <= i < |rows| ==> RowRight(rows[i], pods, p))
  }

  ghost predicate RowRight(row: NamespaceCost, pods: seq<Pod>, p: Pricing) {
    && row.pods == PodsIn(pods, row.namespace)
    && row.cpuRequested == Rounded(Of(pods, Cpu(), row.namespace), 3)
    && row.ramRequested == Rounded(Of(pods, Ram(), row.namespace), 3)
    && row.monthlyCost == Rounded(Of(pods, Cost(p), row.namespace), 2)
    && IsTop(row.topWorkloads, WorkloadsIn(pods, row.namespace))
  }

  function Share(monthlyCost: real, total: real): real {
    if total > 0.0 then Rounded(monthlyCost / total * 100.0, 1) else 0.0
  }

  /** One namespace's row, before its share is known, and its unrounded cost. */
  method PriceOne(ns: string, agg: Agg, pods: seq<Pod>, p: Pricing) returns (row: NamespaceCost, c: real)
    requires AggRight(agg, pods, ns)
    ensures row.namespace == ns && RowRight(row, pods, p) && row.percentage == 0.0
    ensures c == Of(pods, Cost(p), ns)
  {
    PriceOfRequests(pods, p, ns);
    c := Price(p, agg.cpuCores, agg.ramGB);
    var top := TopWorkloads(agg.workloads);
    var cpu := RoundTo(agg.cpuCores, 3);
    var ram := RoundTo(agg.ramGB, 3);
    var monthly := RoundTo(c, 2);
    row := NamespaceCost(ns, agg.pods, cpu, ram, monthly, 0.0, top);
  }

  ghost predicate Unshared(rows: seq<NamespaceCost>) { forall i :: 0 <= i < |rows| ==> rows[i].percentage == 0.0 }

  /** The rows so far are those of the namespaces in `names`. */
  ghost predicate Partial(rows: seq<NamespaceCost>, names: set<string>, pods: seq<Pod>, p: Pricing) {
    && Distinct(NamespacesOf(rows)) && Unshared(rows)
    && (forall ns :: ns in NamespacesOf(rows) <==> ns in names)
    && (forall i :: 0 <= i < |rows| ==> RowRight(rows[i], pods, p))
  }

  lemma {:induction false} PartialSnoc(rows: seq<NamespaceCost>, row: NamespaceCost, names: set<string>,
      pods: seq<Pod>, p: Pricing)
    requires Partial(rows, names, pods, p) && row.namespace !in names
    requires RowRight(row, pods, p) && row.percentage == 0.0
    ensures Partial(rows + [row], names + {row.namespace}, pods, p)
    ensures SumGroups(Items(pods, Cost(p)), NamespacesOf(rows + [row]))
         == SumGroups(Items(pods, Cost(p)), NamespacesOf(rows)) + Of(pods, Cost(p), row.namespace)
  {
    assert NamespacesOf(rows + [row]) == NamespacesOf(rows) + [row.namespace];
    SumGroupsSnoc(Items(pods, Cost(p)), NamespacesOf(rows), row.namespace);
    DistinctSnoc(NamespacesOf(rows), row.namespace);
  }

  /** The rows in an arbitrary order, as the iteration over the map gives them, and the total
      of their unrounded costs. */
  method PriceAll(byNS: map<string, Agg>, pods: seq<Pod>, p: Pricing)
    returns (rows: seq<NamespaceCost>, totalCost: real)
    requires Aggregates(byNS, pods)
    ensures Rows(rows, pods, p) && Unshared(rows)
    ensures totalCost == SumGroups(Items(pods, Cost(p)), NamespacesOf(rows))
  {
    hide RowRight, AggRight, Of, Items;
    rows, totalCost := [], 0.0;
    var pending := byNS.Keys;
    while pending != {}
      invariant pending <= byNS.Keys
      invariant Partial(rows, byNS.Keys - pending, pods, p)
      invariant totalCost == SumGroups(Items(pods, Cost(p)), NamespacesOf(rows))
      decreases pending
    {
      var ns :| ns in pending;
      var row, c := PriceOne(ns, byNS[ns], pods, p);
      PartialSnoc(rows, row, byNS.Keys - pending, pods, p);
      assert byNS.Keys - pending + {ns} == byNS.Keys - (pending - {ns});
      totalCost := totalCost + c;
      rows := rows + [row];
      pending := pending - {ns};
    }
    assert byNS.Keys - pending == byNS.Keys;
  }

  // ----- the same, by position -----

  function CpuAt(cs: seq<Container>): nat -> real { (i: nat) => if i < |cs| then cs[i].cpuCores else 0.0 }
  function RamAt(cs: seq<Container>): nat -> real { (i: nat) => if i < |cs| then cs[i].ramGB else 0.0 }

  lemma {:induction false} SumsByPosition(cs: seq<Container>)
    ensures Sums(cs) == (SumTo(|cs|, CpuAt(cs)), SumTo(|cs|, RamAt(cs)))
  {
    if cs != [] {
      SumsByPosition(cs[1..]);
      SumToFirst(|cs| - 1, CpuAt(cs), CpuAt(cs[1..]));
      SumToFirst(|cs| - 1, RamAt(cs), RamAt(cs[1..]));
    }
  }

  /** What the `i`-th pod requests of each, if it belongs to one of the namespaces. */
  function CpuIn(pods: seq<Pod>, within: string -> bool): nat -> real {
    (i: nat) => if i < |pods| && within(pods[i].namespace)
                then SumTo(|pods[i].containers|, CpuAt(pods[i].containers)) else 0.0
  }
  function RamIn(pods: seq<Pod>, within: string -> bool): nat -> real {
    (i: nat) => if i < |pods| && within(pods[i].namespace)
                then SumTo(|pods[i].containers|, RamAt(pods[i].containers)) else 0.0
  }

  function Only(ns: string): string -> bool { (other: string) => other == ns }
  function Named(): string -> bool { (ns: string) => ns != "" }

  /** All that the containers of the namespaces' pods request. */
  function CpuRequests(pods: seq<Pod>, within: string -> bool): real { SumTo(|pods|, CpuIn(pods, within)) }
  function RamRequests(pods: seq<Pod>, within: string -> bool): real { SumTo(|pods|, RamIn(pods, within)) }

  lemma {:induction false} RequestsPeel(pods: seq<Pod>, within: string -> bool)
    requires pods != []
    ensures var first := if within(pods[0].namespace) then Sums(pods[0].containers) else (0.0, 0.0);
      && CpuRequests(pods, within) == first.0 + CpuRequests(pods[1..], within)
      && RamRequests(pods, within) == first.1 + RamRequests(pods[1..], within)
  {
    SumsByPosition(pods[0].containers);
    SumToFirst(|pods| - 1, CpuIn(pods, within), CpuIn(pods[1..], within));
    SumToFirst(|pods| - 1, RamIn(pods, within), RamIn(pods[1..], within));
  }

  lemma {:induction false} OfByPosition(pods: seq<Pod>, ns: string)
    requires ns != ""
    ensures Of(pods, Cpu(), ns) == CpuRequests(pods, Only(ns)) && Of(pods, Ram(), ns) == RamRequests(pods, Only(ns))
  {
    if pods != [] {
      OfByPosition(pods[1..], ns);
      RequestsPeel(pods, Only(ns));
      if pods[0].namespace != "" {
        assert Items(pods, Cpu())[1..] == Items(pods[1..], Cpu()) && Items(pods, Ram())[1..] == Items(pods[1..], Ram());
      }
    }
  }

  lemma {:induction false} UngroupedIsPriced(pods: seq<Pod>, p: Pricing)
    ensures Ungrouped(pods, Cost(p)) == Price(p, CpuRequests(pods, Named()), RamRequests(pods, Named()))
  {
    if pods != [] {
      UngroupedIsPriced(pods[1..], p);
      RequestsPeel(pods, Named());
      hide CpuRequests, RamRequests, Price;
      var (cpu, ram) := if pods[0].namespace != "" then Sums(pods[0].containers) else (0.0, 0.0);
      PriceAdds(p, cpu, ram, CpuRequests(pods[1..], Named()), RamRequests(pods[1..], Named()));
      PriceOfNothing(p);
    } else {
      PriceOfNothing(p);
    }
  }

  lemma {:induction false} PriceOfNothing(p: Pricing)
    ensures Price(p, 0.0, 0.0) == 0.0
  {}

  lemma {:induction false} UngroupedByPosition(pods: seq<Pod>, p: Pricing)
    ensures Ungrouped(pods, Cost(p)) == CpuRequests(pods, Named()) * p.perCore + RamRequests(pods, Named()) * p.perGB
  {
    hide Ungrouped, CpuRequests, RamRequests;
    UngroupedIsPriced(pods, p);
  }

  function Belongs(pods: seq<Pod>, within: string -> bool): nat -> bool {
    (i: nat) => i < |pods| && within(pods[i].namespace)
  }

  lemma {:induction false} CountsByPosition(pods: seq<Pod>, ns: string)
    ensures PodsIn(pods, ns) == HowMany(|pods|, Belongs(pods, Only(ns)))
    ensures NamedPods(pods) == HowMany(|pods|, Belongs(pods, Named()))
  {
    if pods == [] {
      assert HowMany(0, Belongs(pods, Only(ns))) == 0 && HowMany(0, Belongs(pods, Named())) == 0;
    } else {
      var n := |pods| - 1;
      var init, last := pods[..n], pods[n];
      assert pods == init + [last];
      CountsByPosition(init, ns);
      hide PodsIn, NamedPods, HowMany, WorkloadsIn, OwnedBy;
      PodsSnoc(init, last, ns);
      NamedSnoc(init, last);
      HowManySnoc(n, Belongs(pods, Only(ns)));
      HowManySnoc(n, Belongs(pods, Named()));
      HowManySame(n, Belongs(init, Only(ns)), Belongs(pods, Only(ns)));
      HowManySame(n, Belongs(init, Named()), Belongs(pods, Named()));
    }
  }

  lemma {:induction false} NamedSnoc(pods: seq<Pod>, pod: Pod)
    ensures NamedPods(pods + [pod]) == NamedPods(pods) + if pod.namespace == "" then 0 else 1
  {
    if pods == [] {
      assert [pod][1..] == [];
    } else {
      assert (pods + [pod])[0] == pods[0] && (pods + [pod])[1..] == pods[1..] + [pod];
      NamedSnoc(pods[1..], pod);
    }
  }

  /** The owner is a workload of that name. */
  predicate IsWorkload(owner: Owner, name: string) {
    && owner.name == name
    && (owner.kind == "ReplicaSet" || owner.kind == "Deployment" || owner.kind == "StatefulSet"
        || owner.kind == "DaemonSet" || owner.kind == "Job")
  }

  /** A pod of the namespace is owned by a workload of that name. */
  predicate RunsFor(pods: seq<Pod>, ns: string, name: string) {
    exists i: nat, k: nat | i < |pods| && k < |pods[i].owners| ::
      pods[i].namespace == ns && IsWorkload(pods[i].owners[k], name)
  }

  lemma {:induction false} OwnersByPosition(pod: Pod, name: string)
    ensures name in OwnedBy(pod) <==> exists k: nat | k < |pod.owners| :: IsWorkload(pod.owners[k], name)
  {
    if k: nat :| k < |pod.owners| && IsWorkload(pod.owners[k], name) {
      assert pod.owners[k] in pod.owners;
    }
  }

  lemma {:induction false} RunsForPeel(pods: seq<Pod>, ns: string, name: string)
    requires pods != []
    ensures RunsFor(pods, ns, name) <==>
      (pods[0].namespace == ns && name in OwnedBy(pods[0])) || RunsFor(pods[1..], ns, name)
  {
    OwnersByPosition(pods[0], name);
    if RunsFor(pods[1..], ns, name) {
      var i: nat, k: nat :| i < |pods[1..]| && k < |pods[1..][i].owners|
        && pods[1..][i].namespace == ns && IsWorkload(pods[1..][i].owners[k], name);
      assert pods[i + 1] == pods[1..][i];
    }
    if RunsFor(pods, ns, name) {
      var i: nat, k: nat :| i < |pods| && k < |pods[i].owners|
        && pods[i].namespace == ns && IsWorkload(pods[i].owners[k], name);
      assert i > 0 ==> pods[1..][i - 1] == pods[i];
    }
  }

  lemma {:induction false} WorkloadsByPosition(pods: seq<Pod>, ns: string, name: string)
    ensures name in WorkloadsIn(pods, ns) <==> RunsFor(pods, ns, name)
  {
    if pods != [] {
      WorkloadsByPosition(pods[1..], ns, name);
      RunsForPeel(pods, ns, name);
    }
  }

  predicate CostReads(row: NamespaceCost, cpu: real, ram: real, p: Pricing) {
    && row.cpuRequested == Rounded(cpu, 3) && row.ramRequested == Rounded(ram, 3)
    && row.monthlyCost == Rounded(cpu * p.perCore + ram * p.perGB, 2)
  }

  /** A row, read off the list of pods: it counts the pods of its namespace, adds up what their
      containers request, and prices cores and gigabytes. */
  ghost predicate RowReads(row: NamespaceCost, pods: seq<Pod>, p: Pricing) {
    && row.pods == HowMany(|pods|, Belongs(pods, Only(row.namespace)))
    && CostReads(row, CpuRequests(pods, Only(row.namespace)), RamRequests(pods, Only(row.namespace)), p)
    && ListsFirst(row.topWorkloads, pods, row.namespace)
  }

  /** The namespace's workloads by name, or the first five of them. */
  ghost predicate ListsFirst(top: seq<string>, pods: seq<Pod>, ns: string) {
    && |top| <= 5
    && (forall name :: name in top ==> RunsFor(pods, ns, name))
    && (forall i, j :: 0 <= i < j < |top| ==> Less(top[i], top[j]))
    && (forall name :: RunsFor(pods, ns, name) && name !in top ==>
          |top| == 5 && forall i :: 0 <= i < |top| ==> Less(top[i], name))
  }

  lemma {:induction false} TopIsRead(top: seq<string>, pods: seq<Pod>, ns: string)
    requires IsTop(top, WorkloadsIn(pods, ns))
    ensures ListsFirst(top, pods, ns)
  {
    hide WorkloadsIn, RunsFor;
    var workloads := WorkloadsIn(pods, ns);
    forall name
      ensures name in workloads <==> RunsFor(pods, ns, name)
    {
      WorkloadsByPosition(pods, ns, name);
    }
    forall name | name in workloads && name !in top
      ensures |top| == 5
    {
      FewAreAllListed(top, workloads, name);
    }
  }

  lemma {:induction false} FewAreAllListed(top: seq<string>, workloads: set<string>, name: string)
    requires IsTop(top, workloads) && name in workloads && name !in top
    ensures |top| == 5
  {
    var listed := set w | w in top;
    forall i, j | 0 <= i < j < |top|
      ensures top[i] != top[j]
    {
      LessIsTotal(top[i], top[j]);
    }
    DistinctSize(top);
    assert listed <= workloads;
    var rest := workloads - listed;
    assert name in rest && workloads == listed + rest;
    assert |workloads| == |listed| + |rest|;
  }

  lemma {:induction false} PricedReads(row: NamespaceCost, cpu: real, ram: real, p: Pricing)
    requires row.cpuRequested == Rounded(cpu, 3) && row.ramRequested == Rounded(ram, 3)
    requires row.monthlyCost == Rounded(Price(p, cpu, ram), 2)
    ensures CostReads(row, cpu, ram, p)
  {
    hide Rounded;
  }

  lemma {:induction false} RightCosts(row: NamespaceCost, pods: seq<Pod>, p: Pricing)
    requires RowRight(row, pods, p) && row.namespace != ""
    ensures CostReads(row, CpuRequests(pods, Only(row.namespace)), RamRequests(pods, Only(row.namespace)), p)
  {
    hide Of, CpuRequests, RamRequests, Rounded, Price, CostReads;
    PriceOfRequests(pods, p, row.namespace);
    OfByPosition(pods, row.namespace);
    PricedReads(row, CpuRequests(pods, Only(row.namespace)), RamRequests(pods, Only(row.namespace)), p);
  }

  lemma {:induction false} RightRowsRead(row: NamespaceCost, pods: seq<Pod>, p: Pricing)
    requires RowRight(row, pods, p) && row.namespace != ""
    ensures RowReads(row, pods, p)
  {
    RightCosts(row, pods, p);
    CountsByPosition(pods, row.namespace);
    TopIsRead(row.topWorkloads, pods, row.namespace);
    hide CostReads, CpuRequests, RamRequests, ListsFirst;
  }

  /** The whole summary, read off the list of pods. */
  lemma {:induction false} SummaryReads(rows: seq<NamespaceCost>, pods: seq<Pod>, p: Pricing)
    requires Rows(rows, pods, p)
    ensures forall i :: 0 <= i < |rows| ==> RowReads(rows[i], pods, p)
    ensures Ungrouped(pods, Cost(p)) == CpuRequests(pods, Named()) * p.perCore + RamRequests(pods, Named()) * p.perGB
    ensures NamedPods(pods) == HowMany(|pods|, Belongs(pods, Named()))
  {
    hide RowRight, RowReads;
    UngroupedByPosition(pods, p);
    CountsByPosition(pods, "");
    forall i | 0 <= i < |rows|
      ensures RowReads(rows[i], pods, p)
    {
      assert NamespacesOf(rows)[i] == rows[i].namespace;
      RightRowsRead(rows[i], pods, p);
    }
  }

  function Column(rows: seq<NamespaceCost>, f: NamespaceCost -> real): real {
    if rows == [] then 0.0 else f(rows[0]) + Column(rows[1..], f)
  }

  function PodColumn(): NamespaceCost -> real { (row: NamespaceCost) => row.pods as real }
  function CpuColumn(): NamespaceCost -> real { (row: NamespaceCost) => row.cpuRequested }
  function RamColumn(): NamespaceCost -> real { (row: NamespaceCost) => row.ramRequested }
  function ShareColumn(): NamespaceCost -> real { (row: NamespaceCost) => row.percentage }

  lemma {:induction false} ColumnSnoc(rows: seq<NamespaceCost>, row: NamespaceCost, f: NamespaceCost -> real)
    ensures Column(rows + [row], f) == Column(rows, f) + f(row)
  {
    if rows == [] {
      assert [row][1..] == [];
    } else {
      assert (rows + [row])[0] == rows[0] && (rows + [row])[1..] == rows[1..] + [row];
      ColumnSnoc(rows[1..], row, f);
    }
  }

  /** The cost breakdown.  The total cost is that of all containers of named namespaces, and
      the total number of pods counts each of their pods once. */
  method Summary(pods: seq<Pod>, p: Pricing) returns (rows: seq<NamespaceCost>, totals: Totals)
    ensures Rows(rows, pods, p) && Sorted(Dearer, rows)
    ensures forall i :: 0 <= i < |rows| ==>
      rows[i].percentage == Share(rows[i].monthlyCost, Ungrouped(pods, Cost(p)))
    ensures totals.monthlyCost == Rounded(Ungrouped(pods, Cost(p)), 2) && totals.pods == NamedPods(pods)
    ensures totals.cpu == Rounded(Column(rows, CpuColumn()), 3) && totals.ram == Rounded(Column(rows, RamColumn()), 3)
    ensures forall i :: 0 <= i < |rows| ==> RowReads(rows[i], pods, p)
    ensures totals.monthlyCost
         == Rounded(CpuRequests(pods, Named()) * p.perCore + RamRequests(pods, Named()) * p.perGB, 2)
    ensures totals.pods == HowMany(|pods|, Belongs(pods, Named()))
    ensures forall i, j :: 0 <= i < j < |rows| ==> rows[i].monthlyCost >= rows[j].monthlyCost
  {
    hide *;
    var byNS := Aggregate(pods);
    var unsorted, totalCost := PriceAll(byNS, pods, p);
    RowsAreUngrouped(unsorted, pods, p);
    var sorted := Sort(Dearer, unsorted);
    SortedRows(unsorted, sorted, pods, p);
    var totalPods, totalCpu, totalRam;
    rows, totalPods, totalCpu, totalRam := SetShares(sorted, totalCost);
    SharesChangeNothingElse(sorted, rows, pods, p);
    EveryPodIsCounted(rows, pods, p);
    SummaryReads(rows, pods, p);
    DearestFirst(rows);
    var monthly := RoundTo(totalCost, 2);
    var cpu := RoundTo(totalCpu, 3);
    var ram := RoundTo(totalRam, 3);
    totals := Totals(monthly, totalPods, cpu, ram);
  }

  lemma {:induction false} DearestFirst(rows: seq<NamespaceCost>)
    requires Sorted(Dearer, rows)
    ensures forall i, j :: 0 <= i < j < |rows| ==> rows[i].monthlyCost >= rows[j].monthlyCost
  {
    assert forall i, j :: 0 <= i < j < |rows| ==> !Dearer(rows[j], rows[i]);
  }

  lemma {:induction false} SharesChangeNothingElse(unshared: seq<NamespaceCost>, rows: seq<NamespaceCost>,
      pods: seq<Pod>, p: Pricing)
    requires Rows(unshared, pods, p) && Sorted(Dearer, unshared) && |rows| == |unshared|
    requires forall j :: 0 <= j < |rows| ==> rows[j] == unshared[j].(percentage := rows[j].percentage)
    ensures Rows(rows, pods, p) && Sorted(Dearer, rows)
  {
    assert NamespacesOf(rows) == NamespacesOf(unshared);
    forall i | 0 <= i < |rows|
      ensures RowRight(rows[i], pods, p)
    {
      assert RowRight(unshared[i], pods, p);
    }
  }

  /** Fills in each row's share of the total, in place, and adds up the other columns. */
  method SetShares(unshared: seq<NamespaceCost>, totalCost: real)
    returns (rows: seq<NamespaceCost>, pods: nat, cpu: real, ram: real)
    requires Unshared(unshared)
    ensures |rows| == |unshared|
    ensures forall j :: 0 <= j < |rows| ==>
      rows[j] == unshared[j].(percentage := Share(unshared[j].monthlyCost, totalCost))
    ensures pods as real == Column(rows, PodColumn())
    ensures cpu == Column(rows, CpuColumn()) && ram == Column(rows, RamColumn())
  {
    rows, pods, cpu, ram := unshared, 0, 0.0, 0.0;
    for i := 0 to |rows|
      invariant |rows| == |unshared|
      invariant forall j :: 0 <= j < i ==>
        rows[j] == unshared[j].(percentage := Share(unshared[j].monthlyCost, totalCost))
      invariant forall j :: i <= j < |rows| ==> rows[j] == unshared[j]
      invariant pods as real == Column(rows[..i], PodColumn())
      invariant cpu == Column(rows[..i], CpuColumn()) && ram == Column(rows[..i], RamColumn())
    {
      ghost var done := rows[..i];
      if totalCost > 0.0 {
        var share := RoundTo(rows[i].monthlyCost / totalCost * 100.0, 1);
        rows := rows[i := rows[i].(percentage := share)];
      }
      pods := pods + rows[i].pods;
      cpu := cpu + rows[i].cpuRequested;
      ram := ram + rows[i].ramRequested;
      assert rows[..i + 1] == done + [rows[i]];
      ColumnSnoc(done, rows[i], PodColumn());
      ColumnSnoc(done, rows[i], CpuColumn());
      ColumnSnoc(done, rows[i], RamColumn());
    }
    assert rows[..|rows|] == rows;
  }

  lemma {:induction false} SortedRows(unsorted: seq<NamespaceCost>, sorted: seq<NamespaceCost>, pods: seq<Pod>,
      p: Pricing)
    requires sorted == Sort(Dearer, unsorted) && Rows(unsorted, pods, p) && Unshared(unsorted)
    ensures Rows(sorted, pods, p) && Sorted(Dearer, sorted) && Unshared(sorted)
  {
    SortPermutes(Dearer, unsorted);
    SortSorts(Dearer, unsorted);
    SameRows(unsorted, sorted);
    forall i | 0 <= i < |sorted|
      ensures RowRight(sorted[i], pods, p) && sorted[i].percentage == 0.0
    {
      var k :| 0 <= k < |unsorted| && unsorted[k] == sorted[i];
    }
  }

  /** Rearranging rows with distinct namespaces keeps the namespaces, and keeps them distinct. */
  lemma {:induction false} SameRows(xs: seq<NamespaceCost>, ys: seq<NamespaceCost>)
    requires multiset(xs) == multiset(ys) && Distinct(NamespacesOf(xs))
    ensures Distinct(NamespacesOf(ys))
    ensures forall ns :: ns in NamespacesOf(xs) <==> ns in NamespacesOf(ys)
    ensures forall i :: 0 <= i < |ys| ==> ys[i] in xs
  {
    forall i, j | 0 <= i < j < |xs|
      ensures xs[i] != xs[j]
    {
      assert NamespacesOf(xs)[i] != NamespacesOf(xs)[j];
    }
    PermutationStaysDistinct(xs, ys);
    forall i, j | 0 <= i < j < |ys|
      ensures ys[i].namespace != ys[j].namespace
    {
      assert ys[i] in ys && ys[j] in ys;
      var a :| 0 <= a < |xs| && xs[a] == ys[i];
      var b :| 0 <= b < |xs| && xs[b] == ys[j];
      assert a != b;
      assert NamespacesOf(xs)[a] != NamespacesOf(xs)[b];
    }
    forall ns
      ensures ns in NamespacesOf(xs) <==> ns in NamespacesOf(ys)
    {
      if ns in NamespacesOf(xs) {
        var a :| 0 <= a < |xs| && NamespacesOf(xs)[a] == ns;
        assert xs[a] in ys;
        var b :| 0 <= b < |ys| && ys[b] == xs[a];
        assert NamespacesOf(ys)[b] == ns;
      }
      if ns in NamespacesOf(ys) {
        var b :| 0 <= b < |ys| && NamespacesOf(ys)[b] == ns;
        assert ys[b] in xs;
        var a :| 0 <= a < |xs| && xs[a] == ys[b];
        assert NamespacesOf(xs)[a] == ns;
      }
    }
  }

  // ----- grouping loses nothing -----

  lemma {:induction false} GroupedIsUngrouped(names: seq<string>, pods: seq<Pod>, worth: Pod -> real)
    requires Distinct(names) && forall ns :: ns in names <==> ns != "" && PodsIn(pods, ns) > 0
    ensures SumGroups(Items(pods, worth), names) == Ungrouped(pods, worth)
  {
    GroupsAddUp(Items(pods, worth), names);
    AllWithin(names, pods, worth);
  }

  lemma {:induction false} AllWithin(names: seq<string>, pods: seq<Pod>, worth: Pod -> real)
    requires forall ns :: ns != "" && PodsIn(pods, ns) > 0 ==> ns in names
    ensures SumWithin(Items(pods, worth), names) == Ungrouped(pods, worth)
  {
    if pods != [] {
      AllWithin(names, pods[1..], worth);
      if pods[0].namespace != "" {
        assert PodsIn(pods, pods[0].namespace) > 0;
        assert Items(pods, worth)[1..] == Items(pods[1..], worth);
      }
    }
  }

  lemma {:induction false} RowsAreUngrouped(rows: seq<NamespaceCost>, pods: seq<Pod>, p: Pricing)
    requires Rows(rows, pods, p)
    ensures SumGroups(Items(pods, Cost(p)), NamespacesOf(rows)) == Ungrouped(pods, Cost(p))
  {
    GroupedIsUngrouped(NamespacesOf(rows), pods, Cost(p));
  }

  /** A column that holds each namespace's exact sum adds up to the sum over all pods. */
  lemma {:induction false} ColumnIsGroups(rows: seq<NamespaceCost>, f: NamespaceCost -> real, items: seq<Item>)
    requires forall i :: 0 <= i < |rows| ==> f(rows[i]) == SumFor(items, rows[i].namespace)
    ensures Column(rows, f) == SumGroups(items, NamespacesOf(rows))
  {
    if rows != [] {
      assert NamespacesOf(rows)[1..] == NamespacesOf(rows[1..]);
      ColumnIsGroups(rows[1..], f, items);
    }
  }

  lemma {:induction false} PodsAreOnes(pods: seq<Pod>, ns: string)
    requires ns != ""
    ensures Of(pods, One(), ns) == PodsIn(pods, ns) as real
  {
    if pods != [] {
      PodsAreOnes(pods[1..], ns);
      if pods[0].namespace != "" {
        assert Items(pods, One())[1..] == Items(pods[1..], One());
      }
    }
  }

  lemma {:induction false} NamedAreOnes(pods: seq<Pod>)
    ensures Ungrouped(pods, One()) == NamedPods(pods) as real
  {
    if pods != [] {
      NamedAreOnes(pods[1..]);
    }
  }

  /** The rows count every pod of a named namespace once. */
  lemma {:induction false} EveryPodIsCounted(rows: seq<NamespaceCost>, pods: seq<Pod>, p: Pricing)
    requires Rows(rows, pods, p)
    ensures Column(rows, PodColumn()) == NamedPods(pods) as real
  {
    forall i | 0 <= i < |rows|
      ensures PodColumn()(rows[i]) == Of(pods, One(), rows[i].namespace)
    {
      assert RowRight(rows[i], pods, p) && NamespacesOf(rows)[i] in NamespacesOf(rows);
      PodsAreOnes(pods, rows[i].namespace);
    }
    ColumnIsGroups(rows, PodColumn(), Items(pods, One()));
    GroupedIsUngrouped(NamespacesOf(rows), pods, One());
    NamedAreOnes(pods);
  }
}
