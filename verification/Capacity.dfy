/** Capacity arithmetic: how many pods still fit, when a resource runs out at linear growth,
    and when at compound growth.  Quantities are reals; rounding is not modelled. */
module Capacity {
  import opened Common
  import opened Grouping
  import opened Sorting

  // ----- headroom -----

  datatype Container = Container(cpuMilli: real, memMB: real)

  datatype Pod = Pod(running: bool, node: string, containers: seq<Container>)

  datatype Node = Node(name: string, cpuMilli: real, memMB: real, maxPods: int)

  datatype Usage = Usage(cpuMilli: real, memMB: real, podCount: nat)

  function Requests(containers: seq<Container>): (real, real) {
    if containers == [] then (0.0, 0.0)
    else var (cpu, mem) := Requests(containers[1..]); (containers[0].cpuMilli + cpu, containers[0].memMB + mem)
  }

  predicate Counted(p: Pod) { p.running && p.node != "" }

  /** The pods that count, each with what it requests: CPU, memory and one slot. */
  function CpuItems(pods: seq<Pod>): seq<Item> {
    if pods == [] then []
    else if Counted(pods[0]) then [Item(pods[0].node, Requests(pods[0].containers).0)] + CpuItems(pods[1..])
    else CpuItems(pods[1..])
  }

  function MemItems(pods: seq<Pod>): seq<Item> {
    if pods == [] then []
    else if Counted(pods[0]) then [Item(pods[0].node, Requests(pods[0].containers).1)] + MemItems(pods[1..])
    else MemItems(pods[1..])
  }

  function PodsOn(pods: seq<Pod>, node: string): nat {
    if pods == [] then 0 else (if Counted(pods[0]) && pods[0].node == node then 1 else 0) + PodsOn(pods[1..], node)
  }

  function UsageOn(pods: seq<Pod>, node: string): Usage {
    Usage(SumFor(CpuItems(pods), node), SumFor(MemItems(pods), node), PodsOn(pods, node))
  }

  function Lookup(m: map<string, Usage>, node: string): Usage {
    if node in m then m[node] else Usage(0.0, 0.0, 0)
  }

  lemma {:induction false} UsageSnoc(pods: seq<Pod>, p: Pod, node: string)
    ensures var u, r := UsageOn(pods, node), Requests(p.containers);
      UsageOn(pods + [p], node) ==
        if Counted(p) && p.node == node then Usage(u.cpuMilli + r.0, u.memMB + r.1, u.podCount + 1) else u
  {
    if pods == [] {
      assert [p][1..] == [];
    } else {
      assert (pods + [p])[0] == pods[0] && (pods + [p])[1..] == pods[1..] + [p];
      UsageSnoc(pods[1..], p, node);
      if Counted(pods[0]) {
        assert CpuItems(pods)[1..] == CpuItems(pods[1..]) && MemItems(pods)[1..] == MemItems(pods[1..]);
        assert CpuItems(pods + [p])[1..] == CpuItems(pods[1..] + [p]);
        assert MemItems(pods + [p])[1..] == MemItems(pods[1..] + [p]);
      }
    }
  }

  method SumRequests(containers: seq<Container>) returns (cpu: real, mem: real)
    ensures (cpu, mem) == Requests(containers)
  {
    cpu, mem := 0.0, 0.0;
    for c := 0 to |containers|
      invariant cpu + Requests(containers[c..]).0 == Requests(containers).0
      invariant mem + Requests(containers[c..]).1 == Requests(containers).1
    {
      assert containers[c..][0] == containers[c] && containers[c..][1..] == containers[c + 1..];
      cpu := cpu + containers[c].cpuMilli;
      mem := mem + containers[c].memMB;
    }
    assert containers[|containers|..] == [];
  }

  /** Sums the requests of the running, assigned pods by node. */
  method NodeUsage(pods: seq<Pod>) returns (usage: map<string, Usage>)
    ensures forall node :: Lookup(usage, node) == UsageOn(pods, node)
  {
    usage := map[];
    for i := 0 to |pods|
      invariant forall node :: Lookup(usage, node) == UsageOn(pods[..i], node)
    {
      var pod := pods[i];
      assert pods[..i + 1] == pods[..i] + [pod];
      if !Counted(pod) {
        forall node
          ensures UsageOn(pods[..i + 1], node) == UsageOn(pods[..i], node)
        {
          UsageSnoc(pods[..i], pod, node);
        }
      }
      if !pod.running {
        continue;
      }
      if pod.node == "" {
        continue;
      }
      var u := Lookup(usage, pod.node);
      var cpu, mem := SumRequests(pod.containers);
      ghost var before := usage;
      usage := usage[pod.node := Usage(u.cpuMilli + cpu, u.memMB + mem, u.podCount + 1)];
      forall node
        ensures Lookup(usage, node) == UsageOn(pods[..i + 1], node)
      {
        assert Lookup(before, node) == UsageOn(pods[..i], node);
        UsageSnoc(pods[..i], pod, node);
      }
    }
    assert pods[..|pods|] == pods;
  }

  /** What the whole cluster has left. */
  datatype Free = Free(cpuMilli: real, memMB: real, podSlots: int)

  function NodeFree(pods: seq<Pod>, node: Node): Free {
    var u := UsageOn(pods, node.name);
    Free(node.cpuMilli - u.cpuMilli, node.memMB - u.memMB, node.maxPods - u.podCount)
  }

  function ClusterFree(pods: seq<Pod>, nodes: seq<Node>): Free {
    if nodes == [] then Free(0.0, 0.0, 0)
    else
      var first, rest := NodeFree(pods, nodes[0]), ClusterFree(pods, nodes[1..]);
      Free(first.cpuMilli + rest.cpuMilli, first.memMB + rest.memMB, first.podSlots + rest.podSlots)
  }

  lemma {:induction false} ClusterFreeSnoc(pods: seq<Pod>, nodes: seq<Node>, last: Node)
    ensures var all, one, before := ClusterFree(pods, nodes + [last]), NodeFree(pods, last), ClusterFree(pods, nodes);
      all == Free(before.cpuMilli + one.cpuMilli, before.memMB + one.memMB, before.podSlots + one.podSlots)
  {
    if nodes == [] {
      assert [last][1..] == [];
    } else {
      assert (nodes + [last])[0] == nodes[0] && (nodes + [last])[1..] == nodes[1..] + [last];
      ClusterFreeSnoc(pods, nodes[1..], last);
    }
  }

  method Summarize(pods: seq<Pod>, nodes: seq<Node>) returns (free: Free)
    ensures free == ClusterFree(pods, nodes)
  {
    var usage := NodeUsage(pods);
    var totalCpu, usedCpu, totalMem, usedMem, slots, usedSlots := 0.0, 0.0, 0.0, 0.0, 0, 0;
    for i := 0 to |nodes|
      invariant Free(totalCpu - usedCpu, totalMem - usedMem, slots - usedSlots) == ClusterFree(pods, nodes[..i])
    {
      var u := Lookup(usage, nodes[i].name);
      assert nodes[..i + 1] == nodes[..i] + [nodes[i]];
      ClusterFreeSnoc(pods, nodes[..i], nodes[i]);
      totalCpu, usedCpu := totalCpu + nodes[i].cpuMilli, usedCpu + u.cpuMilli;
      totalMem, usedMem := totalMem + nodes[i].memMB, usedMem + u.memMB;
      slots, usedSlots := slots + nodes[i].maxPods, usedSlots + u.podCount;
    }
    assert nodes[..|nodes|] == nodes;
    free := Free(totalCpu - usedCpu, totalMem - usedMem, slots - usedSlots);
  }

  function NodeNames(nodes: seq<Node>): seq<string> {
    if nodes == [] then [] else [nodes[0].name] + NodeNames(nodes[1..])
  }

  function Allocatable(nodes: seq<Node>): (real, real) {
    if nodes == [] then (0.0, 0.0)
    else var (cpu, mem) := Allocatable(nodes[1..]); (nodes[0].cpuMilli + cpu, nodes[0].memMB + mem)
  }

  lemma {:induction false} FreeByNode(pods: seq<Pod>, nodes: seq<Node>)
    ensures var free := ClusterFree(pods, nodes);
      && free.cpuMilli == Allocatable(nodes).0 - SumGroups(CpuItems(pods), NodeNames(nodes))
      && free.memMB == Allocatable(nodes).1 - SumGroups(MemItems(pods), NodeNames(nodes))
  {
    if nodes != [] {
      FreeByNode(pods, nodes[1..]);
      assert NodeNames(nodes)[1..] == NodeNames(nodes[1..]);
    }
  }

  /** When node names are unique, what is free is what is allocatable less the requests of the
      running pods on listed nodes, each counted once. */
  lemma {:induction false} FreeCountsEveryPodOnce(pods: seq<Pod>, nodes: seq<Node>)
    requires Distinct(NodeNames(nodes))
    ensures var free := ClusterFree(pods, nodes);
      && free.cpuMilli == Allocatable(nodes).0 - SumWithin(CpuItems(pods), NodeNames(nodes))
      && free.memMB == Allocatable(nodes).1 - SumWithin(MemItems(pods), NodeNames(nodes))
  {
    FreeByNode(pods, nodes);
    GroupsAddUp(CpuItems(pods), NodeNames(nodes));
    GroupsAddUp(MemItems(pods), NodeNames(nodes));
  }

  datatype Profile = Profile(cpuMilli: real, memMB: real)

  datatype Fit = Fit(byCpu: int, byMem: int, byPods: int, maxFit: int, limiting: string)

  function Min3(a: int, b: int, c: int): (m: int)
    ensures m <= a && m <= b && m <= c && (m == a || m == b || m == c)
  {
    var m := if b < a then b else a;
    if c < m then c else m
  }

  function FitOf(free: Free, p: Profile): (f: Fit)
    ensures f.maxFit == (if f.limiting == "cpu" then f.byCpu else if f.limiting == "memory" then f.byMem else f.byPods)
    ensures f.maxFit <= f.byCpu && f.maxFit <= f.byMem && f.maxFit <= f.byPods
  {
    var byCpu := if p.cpuMilli > 0.0 then Trunc(free.cpuMilli / p.cpuMilli) else 9999;
    var byMem := if p.memMB > 0.0 then Trunc(free.memMB / p.memMB) else 9999;
    var maxFit := Min3(byCpu, byMem, free.podSlots);
    Fit(byCpu, byMem, free.podSlots, maxFit,
        if maxFit == byCpu then "cpu" else if maxFit == byMem then "memory" else "pod-slots")
  }

  /** `count` pods of the profile fit into what is free. */
  predicate Fits(free: Free, p: Profile, count: nat) {
    && count as real * p.cpuMilli <= free.cpuMilli
    && count as real * p.memMB <= free.memMB
    && count <= free.podSlots
  }

  function Sum(counts: seq<nat>): nat { if counts == [] then 0 else counts[0] + Sum(counts[1..]) }

  lemma {:induction false} PlacementFitsCluster(pods: seq<Pod>, nodes: seq<Node>, p: Profile, placed: seq<nat>)
    requires |placed| == |nodes|
    requires forall i :: 0 <= i < |nodes| ==> Fits(NodeFree(pods, nodes[i]), p, placed[i])
    ensures Fits(ClusterFree(pods, nodes), p, Sum(placed))
  {
    if nodes != [] {
      PlacementFitsCluster(pods, nodes[1..], p, placed[1..]);
      var a, b := placed[0], Sum(placed[1..]);
      assert Fits(NodeFree(pods, nodes[0]), p, a);
      Distribute(a, b, p.cpuMilli);
      Distribute(a, b, p.memMB);
    }
  }

  lemma {:induction false} Distribute(a: nat, b: nat, x: real)
    ensures (a + b) as real * x == a as real * x + b as real * x
  {
    assert (a + b) as real == a as real + b as real;
  }

  lemma {:induction false} FitsMeansQuotient(count: nat, size: real, free: real)
    requires size > 0.0 && free >= 0.0
    ensures count as real * size <= free <==> count <= Trunc(free / size)
  {
    var q := free / size;
    assert q * size == free;
    if q < 0.0 { MulLess(q, 0.0, size); }
    if count as real * size <= free {
      if count as real > q { MulLess(q, count as real, size); }
    }
    if count as real <= q { MulLeq(count as real, q, size); }
  }

  lemma {:induction false} MulLess(a: real, b: real, x: real)
    requires a < b && x > 0.0
    ensures a * x < b * x
  {}

  lemma {:induction false} MulLeq(a: real, b: real, x: real)
    requires a <= b && x >= 0.0
    ensures a * x <= b * x
  {}

  /** MaxFit is the largest number of pods that would fit if the cluster were one node. */
  lemma {:induction false} MaxFitIsExactForThePool(free: Free, p: Profile, count: nat)
    requires p.cpuMilli > 0.0 && p.memMB > 0.0 && free.cpuMilli >= 0.0 && free.memMB >= 0.0
    ensures Fits(free, p, count) <==> count <= FitOf(free, p).maxFit
  {
    FitsMeansQuotient(count, p.cpuMilli, free.cpuMilli);
    FitsMeansQuotient(count, p.memMB, free.memMB);
  }

  predicate NotOvercommitted(free: Free) { free.cpuMilli >= 0.0 && free.memMB >= 0.0 && free.podSlots >= 0 }

  ghost predicate NoneOvercommitted(pods: seq<Pod>, nodes: seq<Node>) {
    forall node :: node in nodes ==> NotOvercommitted(NodeFree(pods, node))
  }

  lemma {:induction false} RoomIsNonNegative(pods: seq<Pod>, nodes: seq<Node>)
    requires NoneOvercommitted(pods, nodes)
    ensures NotOvercommitted(ClusterFree(pods, nodes))
  {
    if nodes != [] {
      assert nodes[0] in nodes;
      RoomIsNonNegative(pods, nodes[1..]);
    }
  }

  function MaxFit(pods: seq<Pod>, nodes: seq<Node>, p: Profile): int { FitOf(ClusterFree(pods, nodes), p).maxFit }

  /** Every node that gets pods has room for them. */
  predicate Respectful(pods: seq<Pod>, nodes: seq<Node>, p: Profile, placed: seq<nat>) {
    |placed| == |nodes|
    && forall i :: 0 <= i < |nodes| && placed[i] > 0 ==> Fits(NodeFree(pods, nodes[i]), p, placed[i])
  }

  /** How many pods each node has room for by itself. */
  function Rooms(pods: seq<Pod>, nodes: seq<Node>, p: Profile): (rooms: seq<nat>)
    ensures |rooms| == |nodes|
  {
    if nodes == [] then []
    else
      var fit := FitOf(NodeFree(pods, nodes[0]), p).maxFit;
      [if fit > 0 then fit else 0] + Rooms(pods, nodes[1..], p)
  }

  lemma {:induction false} QuotientIsExact(count: nat, size: real, free: real)
    requires size > 0.0 && count > 0
    ensures count as real * size <= free <==> count <= Trunc(free / size)
  {
    if free >= 0.0 {
      FitsMeansQuotient(count, size, free);
    } else {
      var q := free / size;
      assert q * size == free;
      if q >= 0.0 { MulLeq(0.0, q, size); }
      MulLess(0.0, count as real, size);
    }
  }

  lemma {:induction false} PodsFitExactly(free: Free, p: Profile, count: nat)
    requires p.cpuMilli > 0.0 && p.memMB > 0.0 && count > 0
    ensures Fits(free, p, count) <==> count <= FitOf(free, p).maxFit
  {
    QuotientIsExact(count, p.cpuMilli, free.cpuMilli);
    QuotientIsExact(count, p.memMB, free.memMB);
  }

  lemma {:induction false} RespectfulCons(pods: seq<Pod>, nodes: seq<Node>, p: Profile, placed: seq<nat>)
    requires |placed| == |nodes| && nodes != []
    ensures Respectful(pods, nodes, p, placed) <==>
      (placed[0] > 0 ==> Fits(NodeFree(pods, nodes[0]), p, placed[0])) && Respectful(pods, nodes[1..], p, placed[1..])
  {
    if Respectful(pods, nodes[1..], p, placed[1..]) {
      assert forall i :: 1 <= i < |nodes| ==> placed[i] == placed[1..][i - 1] && nodes[i] == nodes[1..][i - 1];
    }
  }

  /** Filling every node is a placement, and no placement is larger. */
  lemma {:induction false} RoomsAreTheMost(pods: seq<Pod>, nodes: seq<Node>, p: Profile, placed: seq<nat>)
    requires p.cpuMilli > 0.0 && p.memMB > 0.0 && |placed| == |nodes|
    ensures Respectful(pods, nodes, p, Rooms(pods, nodes, p))
    ensures Respectful(pods, nodes, p, placed) ==> Sum(placed) <= Sum(Rooms(pods, nodes, p))
  {
    if nodes != [] {
      var rooms := Rooms(pods, nodes, p);
      RespectfulCons(pods, nodes, p, placed);
      RespectfulCons(pods, nodes, p, rooms);
      RoomsAreTheMost(pods, nodes[1..], p, placed[1..]);
      if placed[0] > 0 { PodsFitExactly(NodeFree(pods, nodes[0]), p, placed[0]); }
      if rooms[0] > 0 { PodsFitExactly(NodeFree(pods, nodes[0]), p, rooms[0]); }
    }
  }

  /** No placement that respects the nodes has more than `limit` pods. */
  ghost predicate BoundsPlacements(pods: seq<Pod>, nodes: seq<Node>, p: Profile, limit: int) {
    forall placed {:induction false} :: Respectful(pods, nodes, p, placed) ==> Sum(placed) <= limit
  }

  /** MaxFit bounds every placement that respects the nodes if and only if it is no less than
      what the nodes have room for one by one. */
  lemma {:induction false} MaxFitBoundsPlacementsExactlyWhen(pods: seq<Pod>, nodes: seq<Node>, p: Profile)
    requires p.cpuMilli > 0.0 && p.memMB > 0.0
    ensures BoundsPlacements(pods, nodes, p, MaxFit(pods, nodes, p))
       <==> Sum(Rooms(pods, nodes, p)) <= MaxFit(pods, nodes, p)
  {
    RoomsAreTheMost(pods, nodes, p, Rooms(pods, nodes, p));
    forall placed | Respectful(pods, nodes, p, placed)
      ensures Sum(placed) <= Sum(Rooms(pods, nodes, p))
    {
      RoomsAreTheMost(pods, nodes, p, placed);
    }
  }

  lemma {:induction false} ZeroFits(free: Free, p: Profile)
    requires NotOvercommitted(free)
    ensures Fits(free, p, 0)
  {}

  lemma {:induction false} RoomsFitTheirNodes(pods: seq<Pod>, nodes: seq<Node>, p: Profile)
    requires p.cpuMilli > 0.0 && p.memMB > 0.0 && NoneOvercommitted(pods, nodes)
    ensures var rooms := Rooms(pods, nodes, p);
      forall i :: 0 <= i < |nodes| ==> Fits(NodeFree(pods, nodes[i]), p, rooms[i])
  {
    var rooms := Rooms(pods, nodes, p);
    RoomsAreTheMost(pods, nodes, p, rooms);
    hide Rooms, NodeFree, Fits;
    forall i | 0 <= i < |nodes|
      ensures Fits(NodeFree(pods, nodes[i]), p, rooms[i])
    {
      assert nodes[i] in nodes;
      ZeroFits(NodeFree(pods, nodes[i]), p);
    }
  }

  /** If no node is over-committed, any placement in which every node takes no more than it
      has room for totals at most MaxFit. */
  lemma {:induction false} PlacementsStayBelowMaxFit(pods: seq<Pod>, nodes: seq<Node>, p: Profile)
    requires p.cpuMilli > 0.0 && p.memMB > 0.0 && NoneOvercommitted(pods, nodes)
    ensures BoundsPlacements(pods, nodes, p, MaxFit(pods, nodes, p))
  {
    hide BoundsPlacements, Rooms, NodeFree;
    var rooms := Rooms(pods, nodes, p);
    RoomsFitTheirNodes(pods, nodes, p);
    PlacementFitsCluster(pods, nodes, p, rooms);
    RoomIsNonNegative(pods, nodes);
    MaxFitIsExactForThePool(ClusterFree(pods, nodes), p, Sum(rooms));
    MaxFitBoundsPlacementsExactlyWhen(pods, nodes, p);
  }

  /** Over-commitment on one node hides room on another: here one node could take two small
      pods, and MaxFit is zero. */
  lemma {:induction false} OvercommitmentHidesRoom(pods: seq<Pod>, a: Node, b: Node)
    requires NodeFree(pods, a) == Free(200.0, 1000.0, 10) && NodeFree(pods, b) == Free(-200.0, 1000.0, 9)
    ensures Fits(NodeFree(pods, a), Profile(100.0, 128.0), 2)
    ensures FitOf(ClusterFree(pods, [a, b]), Profile(100.0, 128.0)).maxFit == 0
  {
    assert [a, b][1..] == [b] && [b][1..] == [];
    assert ClusterFree(pods, [b]) == Free(-200.0, 1000.0, 9);
    assert ClusterFree(pods, [a, b]) == Free(0.0, 2000.0, 19);
    assert 0.0 / 100.0 == 0.0;
  }

  // ----- linear growth -----

  /** What is requested after `horizonDays`, growing by a fixed percentage a month. */
  function Projected(requested: real, growthPctPerMonth: real, horizonDays: int): real {
    requested * (1.0 + growthPctPerMonth / 100.0 * (horizonDays as real / 30.0))
  }

  /** Days until the resource is used up; 0 also stands for "no growth" and "already full". */
  function ExhaustionDays(requested: real, allocatable: real, growthPctPerMonth: real): int {
    if growthPctPerMonth > 0.0 && allocatable > requested then
      var monthlyGrowth := requested * (growthPctPerMonth / 100.0);
      if monthlyGrowth > 0.0 then Trunc((allocatable - requested) / monthlyGrowth * 30.0) else 0
    else 0
  }

  /** The projection, before any rounding, stays within what can be allocated up to exactly the
      exhaustion day. */
  lemma {:induction false} ProjectionFitsExactlyUntilExhaustion(requested: real, allocatable: real,
      growth: real, h: int)
    requires requested > 0.0 && growth > 0.0 && allocatable > requested
    ensures Projected(requested, growth, h) <= allocatable <==> h <= ExhaustionDays(requested, allocatable, growth)
  {
    var monthly := requested * (growth / 100.0);
    MulLess(0.0, growth / 100.0, requested);
    assert monthly > 0.0;
    var room, days := allocatable - requested, h as real;
    ProjectedIsLinear(requested, growth, h);
    var q := room / monthly;
    assert q * monthly == room && q > 0.0 by { QuotientPositive(room, monthly); }
    // days / 30 * monthly <= q * monthly  <==>  days <= q * 30
    if days / 30.0 <= q { MulLeq(days / 30.0, q, monthly); } else { MulLess(q, days / 30.0, monthly); }
    assert Projected(requested, growth, h) <= allocatable <==> days <= q * 30.0;
  }

  lemma {:induction false} TruncAtMost(x: real, n: int)
    requires x >= 0.0
    ensures Trunc(x) <= n <==> x < (n + 1) as real
  {}

  /** What `days` days of linear growth add stays below `room` for exactly this long. */
  lemma {:induction false} GrowthStaysBelow(days: real, monthly: real, room: real)
    requires monthly > 0.0 && room > 0.0
    ensures (days / 30.0) * monthly < room <==> days < room / monthly * 30.0
  {
    QuotientPositive(room, monthly);
    var d, q := days / 30.0, room / monthly;
    if d < q { MulLess(d, q, monthly); } else { MulLeq(q, d, monthly); }
    assert d < q <==> days < q * 30.0;
  }

  /** The projected number of pods is cut to an integer, the exhaustion day is not taken from that
      number: so the pods fit up to that day, but also until they reach the capacity plus one. */
  lemma {:induction false} PodsFitExactlyUntil(count: int, capacity: int, growth: real, h: nat)
    requires count > 0 && growth > 0.0 && capacity > count
    ensures var monthly := count as real * (growth / 100.0);
      && monthly > 0.0
      && (Trunc(Projected(count as real, growth, h)) <= capacity <==>
            h as real < (capacity + 1 - count) as real / monthly * 30.0)
    ensures h <= ExhaustionDays(count as real, capacity as real, growth) ==>
      Trunc(Projected(count as real, growth, h)) <= capacity
  {
    ProjectionFitsExactlyUntilExhaustion(count as real, capacity as real, growth, h);
    hide ExhaustionDays, Trunc;
    var monthly, x := count as real * (growth / 100.0), Projected(count as real, growth, h);
    MulLess(0.0, growth / 100.0, count as real);
    ProjectedIsLinear(count as real, growth, h);
    hide Projected;
    MulLeq(0.0, h as real / 30.0, monthly);
    TruncAtMost(x, capacity);
    GrowthStaysBelow(h as real, monthly, (capacity + 1 - count) as real);
    assert (capacity + 1) as real == count as real + (capacity + 1 - count) as real;
  }

  lemma {:induction false} ProjectedIsLinear(requested: real, growth: real, h: int)
    ensures Projected(requested, growth, h) == requested + (h as real / 30.0) * (requested * (growth / 100.0))
  {
    var g, d := growth / 100.0, h as real / 30.0;
    assert requested * (1.0 + g * d) == requested + requested * (g * d);
    assert requested * (g * d) == d * (requested * g);
  }

  lemma {:induction false} QuotientPositive(a: real, b: real)
    requires a > 0.0 && b > 0.0
    ensures a / b > 0.0 && (a / b) * b == a
  {
    var q := a / b;
    assert q * b == a;
    if q <= 0.0 { MulLeq(q, 0.0, b); }
  }

  datatype Bottleneck = Bottleneck(name: string, days: int)

  /** The earliest positive day count and the first item that has it; or, with -1, none. */
  ghost predicate IsFirstBottleneck(items: seq<Bottleneck>, first: string, minDays: int) {
    && (minDays < 0 ==> minDays == -1 && first == "none" && forall i :: 0 <= i < |items| ==> items[i].days <= 0)
    && (minDays >= 0 ==>
          && minDays > 0
          && (exists i :: 0 <= i < |items| && items[i] == Bottleneck(first, minDays)
                && forall j :: 0 <= j < i ==> items[j].days <= 0 || items[j].days > minDays)
          && (forall i :: 0 <= i < |items| && items[i].days > 0 ==> minDays <= items[i].days))
  }

  /** The first of the named resources to run out, among those with a positive day count. */
  method FirstBottleneck(items: seq<Bottleneck>) returns (first: string, minDays: int)
    ensures IsFirstBottleneck(items, first, minDays)
  {
    first, minDays := "none", -1;
    for i := 0 to |items|
      invariant minDays < 0 ==> minDays == -1 && first == "none" && forall j :: 0 <= j < i ==> items[j].days <= 0
      invariant minDays >= 0 ==>
        && minDays > 0
        && (exists k :: 0 <= k < i && items[k] == Bottleneck(first, minDays)
              && forall j :: 0 <= j < k ==> items[j].days <= 0 || items[j].days > minDays)
        && (forall j :: 0 <= j < i && items[j].days > 0 ==> minDays <= items[j].days)
    {
      if items[i].days > 0 && (minDays < 0 || items[i].days < minDays) {
        first, minDays := items[i].name, items[i].days;
        assert items[i] == Bottleneck(first, minDays);
      }
    }
  }

  datatype Resource = Resource(name: string, requested: real, allocatable: real, growth: real)

  predicate Growing(r: Resource) { r.requested > 0.0 && r.growth > 0.0 && r.allocatable > r.requested }

  predicate StillFits(r: Resource, day: int) { Projected(r.requested, r.growth, day) <= r.allocatable }

  predicate AllFit(rs: seq<Resource>, day: int) { forall r :: r in rs ==> StillFits(r, day) }

  function Days(r: Resource): Bottleneck {
    Bottleneck(r.name, ExhaustionDays(r.requested, r.allocatable, r.growth))
  }

  function AllDays(rs: seq<Resource>): seq<Bottleneck> {
    seq(|rs|, i requires 0 <= i < |rs| => Days(rs[i]))
  }

  /** A growing resource that runs out within a day has day count zero, like one that never
      runs out. */
  lemma {:induction false} DaysAreZeroExactlyWhen(r: Resource)
    requires Growing(r)
    ensures Days(r).days <= 0 <==> !StillFits(r, 1)
  {
    ProjectionFitsExactlyUntilExhaustion(r.requested, r.allocatable, r.growth, 1);
  }

  /** For growing resources, the reported day is the last one on which all of them, unrounded,
      still fit if and only if none runs out within a day. */
  lemma {:induction false} BottleneckIsTheLastDayExactlyWhen(rs: seq<Resource>, first: string, minDays: int)
    requires rs != [] && (forall r :: r in rs ==> Growing(r))
    requires IsFirstBottleneck(AllDays(rs), first, minDays)
    ensures (minDays >= 0 && forall h: nat {:induction false} :: AllFit(rs, h) <==> h <= minDays) <==> AllFit(rs, 1)
  {
    var items := AllDays(rs);
    forall r, h: int | r in rs
      ensures StillFits(r, h) <==> h <= Days(r).days
    {
      ProjectionFitsExactlyUntilExhaustion(r.requested, r.allocatable, r.growth, h);
    }
    assert forall i :: 0 <= i < |rs| ==> rs[i] in rs && items[i] == Days(rs[i]);
    if AllFit(rs, 1) {
      forall r | r in rs
        ensures 0 < minDays <= Days(r).days
      {
        var i :| 0 <= i < |rs| && rs[i] == r;
        assert items[i].days > 0;
      }
      var k :| 0 <= k < |items| && items[k] == Bottleneck(first, minDays);
      assert Days(rs[k]).days == minDays;
    } else if minDays >= 0 {
      var r :| r in rs && !StillFits(r, 1);
      assert !StillFits(r, minDays);
      assert !AllFit(rs, minDays);
    }
  }

  // ----- compound growth -----

  /** `used` after `months` months at five percent a month. */
  function Grown(used: real, months: nat): real {
    if months == 0 then used else Grown(used, months - 1) * 1.05
  }

  datatype Estimate = Unknown | Beyond36 | Months(m: nat)

  lemma {:induction false} GrowthIncreases(used: real, m: nat, n: nat)
    requires used > 0.0 && m <= n
    ensures 0.0 < Grown(used, m) <= Grown(used, n)
    decreases n
  {
    if m < n {
      GrowthIncreases(used, m, n - 1);
    } else if m > 0 {
      GrowthIncreases(used, m - 1, m - 1);
    }
  }

  /** The least number of months, below 36, after which the growing use reaches the total. */
  method EstimateExhaustion(used: real, total: real) returns (e: Estimate)
    ensures e.Unknown? <==> used <= 0.0 || total <= 0.0 || used >= total
    ensures !e.Unknown? ==> (e.Beyond36? <==> Grown(used, 35) < total)
    ensures e.Months? ==> 0 < e.m < 36 && forall m: nat {:induction false} :: Grown(used, m) >= total <==> m >= e.m
  {
    if used <= 0.0 || total <= 0.0 || used >= total {
      return Unknown;
    }
    var months, current := 0, used;
    while current < total && months < 36
      invariant 0 <= months <= 36 && current == Grown(used, months)
      invariant forall m: nat {:induction false} :: m < months ==> Grown(used, m) < total
      decreases 36 - months
    {
      current := current * 1.05;
      months := months + 1;
    }
    if months >= 36 {
      return Beyond36;
    }
    forall m: nat | m >= months
      ensures Grown(used, m) >= total
    {
      GrowthIncreases(used, months, m);
    }
    return Months(months);
  }
}
