/** The capacity arithmetic read off the lists of pods and nodes, position by position. */
module CapacityByPosition {
  import opened Common
  import opened Grouping
  import opened Sorting
  import opened Capacity

  // ----- what pods request -----

  function CpuAt(cs: seq<Container>): nat -> real { (i: nat) => if i < |cs| then cs[i].cpuMilli else 0.0 }
  function MemAt(cs: seq<Container>): nat -> real { (i: nat) => if i < |cs| then cs[i].memMB else 0.0 }

  lemma {:induction false} RequestsByPosition(cs: seq<Container>)
    ensures Requests(cs) == (SumTo(|cs|, CpuAt(cs)), SumTo(|cs|, MemAt(cs)))
  {
    if cs != [] {
      RequestsByPosition(cs[1..]);
      SumToFirst(|cs| - 1, CpuAt(cs), CpuAt(cs[1..]));
      SumToFirst(|cs| - 1, MemAt(cs), MemAt(cs[1..]));
    }
  }

  /** The `i`-th pod runs on one of the nodes. */
  function RunsOn(pods: seq<Pod>, names: seq<string>): nat -> bool {
    (i: nat) => i < |pods| && pods[i].running && pods[i].node != "" && pods[i].node in names
  }

  function CpuOn(pods: seq<Pod>, names: seq<string>): nat -> real {
    (i: nat) => if RunsOn(pods, names)(i) then SumTo(|pods[i].containers|, CpuAt(pods[i].containers)) else 0.0
  }

  function MemOn(pods: seq<Pod>, names: seq<string>): nat -> real {
    (i: nat) => if RunsOn(pods, names)(i) then SumTo(|pods[i].containers|, MemAt(pods[i].containers)) else 0.0
  }

  /** One slot for each such pod. */
  function PodItems(pods: seq<Pod>): seq<Item> {
    if pods == [] then []
    else if Counted(pods[0]) then [Item(pods[0].node, 1.0)] + PodItems(pods[1..])
    else PodItems(pods[1..])
  }

  lemma {:induction false} OneLater(pods: seq<Pod>, names: seq<string>, i: nat)
    requires pods != [] && i < |pods| - 1
    ensures RunsOn(pods[1..], names)(i) == RunsOn(pods, names)(i + 1)
    ensures CpuOn(pods[1..], names)(i) == CpuOn(pods, names)(i + 1)
    ensures MemOn(pods[1..], names)(i) == MemOn(pods, names)(i + 1)
  {
    assert pods[1..][i] == pods[i + 1];
  }

  lemma {:induction false} OnPeel(pods: seq<Pod>, names: seq<string>)
    requires pods != []
    ensures SumTo(|pods|, CpuOn(pods, names)) == CpuOn(pods, names)(0) + SumTo(|pods| - 1, CpuOn(pods[1..], names))
    ensures SumTo(|pods|, MemOn(pods, names)) == MemOn(pods, names)(0) + SumTo(|pods| - 1, MemOn(pods[1..], names))
  {
    hide CpuOn, MemOn, SumTo;
    forall i: nat | i < |pods| - 1
      ensures CpuOn(pods[1..], names)(i) == CpuOn(pods, names)(i + 1)
      ensures MemOn(pods[1..], names)(i) == MemOn(pods, names)(i + 1)
    {
      OneLater(pods, names, i);
    }
    SumToFirst(|pods| - 1, CpuOn(pods, names), CpuOn(pods[1..], names));
    SumToFirst(|pods| - 1, MemOn(pods, names), MemOn(pods[1..], names));
  }

  lemma {:induction false} ItemsByPosition(pods: seq<Pod>, names: seq<string>)
    ensures SumWithin(CpuItems(pods), names) == SumTo(|pods|, CpuOn(pods, names))
    ensures SumWithin(MemItems(pods), names) == SumTo(|pods|, MemOn(pods, names))
  {
    if pods != [] {
      ItemsByPosition(pods[1..], names);
      RequestsByPosition(pods[0].containers);
      assert RunsOn(pods, names)(0) == (Counted(pods[0]) && pods[0].node in names);
      OnPeel(pods, names);
      ItemsPeel(pods, names);
      hide SumWithin, CpuItems, MemItems, SumTo, Requests;
    }
  }

  lemma {:induction false} ItemsPeel(pods: seq<Pod>, names: seq<string>)
    requires pods != []
    ensures var first := if Counted(pods[0]) && pods[0].node in names then Requests(pods[0].containers) else (0.0, 0.0);
      && SumWithin(CpuItems(pods), names) == first.0 + SumWithin(CpuItems(pods[1..]), names)
      && SumWithin(MemItems(pods), names) == first.1 + SumWithin(MemItems(pods[1..]), names)
  {
    if Counted(pods[0]) {
      assert CpuItems(pods)[1..] == CpuItems(pods[1..]) && MemItems(pods)[1..] == MemItems(pods[1..]);
    }
  }

  lemma {:induction false} PodItemsConcat(xs: seq<Pod>, ys: seq<Pod>, names: seq<string>)
    ensures SumWithin(PodItems(xs + ys), names) == SumWithin(PodItems(xs), names) + SumWithin(PodItems(ys), names)
    decreases xs
  {
    if xs == [] {
      assert xs + ys == ys;
    } else {
      assert (xs + ys)[0] == xs[0] && (xs + ys)[1..] == xs[1..] + ys;
      PodItemsConcat(xs[1..], ys, names);
      if Counted(xs[0]) {
        assert PodItems(xs)[1..] == PodItems(xs[1..]) && PodItems(xs + ys)[1..] == PodItems(xs[1..] + ys);
      }
    }
  }

  lemma {:induction false} SlotsByPosition(pods: seq<Pod>, names: seq<string>)
    ensures SumWithin(PodItems(pods), names) == HowMany(|pods|, RunsOn(pods, names)) as real
  {
    if pods == [] {
      assert HowMany(0, RunsOn(pods, names)) == 0;
    } else {
      var n := |pods| - 1;
      var init, last := pods[..n], pods[n];
      assert pods == init + [last];
      SlotsByPosition(init, names);
      PodItemsConcat(init, [last], names);
      HowManySnoc(n, RunsOn(pods, names));
      HowManySame(n, RunsOn(init, names), RunsOn(pods, names));
      assert [last][1..] == [] && PodItems([last]) == if Counted(last) then [Item(last.node, 1.0)] + [] else [];
    }
  }

  lemma {:induction false} PodsOnAre(pods: seq<Pod>, node: string)
    ensures SumFor(PodItems(pods), node) == PodsOn(pods, node) as real
  {
    if pods != [] {
      PodsOnAre(pods[1..], node);
      if Counted(pods[0]) {
        assert PodItems(pods)[1..] == PodItems(pods[1..]);
      }
    }
  }

  // ----- what is free -----

  function NodeCpu(nodes: seq<Node>): nat -> real { (i: nat) => if i < |nodes| then nodes[i].cpuMilli else 0.0 }
  function NodeMem(nodes: seq<Node>): nat -> real { (i: nat) => if i < |nodes| then nodes[i].memMB else 0.0 }
  function NodeSlots(nodes: seq<Node>): nat -> real {
    (i: nat) => if i < |nodes| then nodes[i].maxPods as real else 0.0
  }

  lemma {:induction false} AllocatableByPosition(nodes: seq<Node>)
    ensures Allocatable(nodes) == (SumTo(|nodes|, NodeCpu(nodes)), SumTo(|nodes|, NodeMem(nodes)))
  {
    if nodes != [] {
      AllocatableByPosition(nodes[1..]);
      SumToFirst(|nodes| - 1, NodeCpu(nodes), NodeCpu(nodes[1..]));
      SumToFirst(|nodes| - 1, NodeMem(nodes), NodeMem(nodes[1..]));
    }
  }

  lemma {:induction false} FreeSlotsByNode(pods: seq<Pod>, nodes: seq<Node>)
    ensures ClusterFree(pods, nodes).podSlots as real
         == SumTo(|nodes|, NodeSlots(nodes)) - SumGroups(PodItems(pods), NodeNames(nodes))
  {
    if nodes != [] {
      FreeSlotsByNode(pods, nodes[1..]);
      SumToFirst(|nodes| - 1, NodeSlots(nodes), NodeSlots(nodes[1..]));
      assert NodeNames(nodes)[1..] == NodeNames(nodes[1..]);
      PodsOnAre(pods, nodes[0].name);
    }
  }

  /** When node names are unique: what all nodes can allocate, less what the containers of the
      running pods on them request, and less one slot for each of these pods. */
  lemma {:induction false} FreeIsRead(pods: seq<Pod>, nodes: seq<Node>)
    requires Distinct(NodeNames(nodes))
    ensures var free, names := ClusterFree(pods, nodes), NodeNames(nodes);
      && free.cpuMilli == SumTo(|nodes|, NodeCpu(nodes)) - SumTo(|pods|, CpuOn(pods, names))
      && free.memMB == SumTo(|nodes|, NodeMem(nodes)) - SumTo(|pods|, MemOn(pods, names))
      && free.podSlots as real == SumTo(|nodes|, NodeSlots(nodes)) - HowMany(|pods|, RunsOn(pods, names)) as real
  {
    FreeCountsEveryPodOnce(pods, nodes);
    AllocatableByPosition(nodes);
    ItemsByPosition(pods, NodeNames(nodes));
    FreeSlotsByNode(pods, nodes);
    GroupsAddUp(PodItems(pods), NodeNames(nodes));
    SlotsByPosition(pods, NodeNames(nodes));
  }

  /** The usage of one node, in the same way. */
  lemma {:induction false} UsageIsRead(pods: seq<Pod>, node: string)
    ensures var u := UsageOn(pods, node);
      && u.cpuMilli == SumTo(|pods|, CpuOn(pods, [node])) && u.memMB == SumTo(|pods|, MemOn(pods, [node]))
      && u.podCount == HowMany(|pods|, RunsOn(pods, [node]))
  {
    assert [node][1..] == [];
    GroupsAddUp(CpuItems(pods), [node]);
    GroupsAddUp(MemItems(pods), [node]);
    GroupsAddUp(PodItems(pods), [node]);
    ItemsByPosition(pods, [node]);
    SlotsByPosition(pods, [node]);
    PodsOnAre(pods, node);
  }

  // ----- what limits a profile -----

  /** Each of the three fits is the largest number of pods its resource has room for, or 9999
      if the profile needs none of it.  MaxFit is the smallest of the three; the resource named
      has it, and comes before any other that has it. */
  lemma {:induction false} FitIsRead(free: Free, p: Profile, count: nat)
    requires count > 0
    ensures var f := FitOf(free, p);
      && (if p.cpuMilli > 0.0 then count as real * p.cpuMilli <= free.cpuMilli <==> count <= f.byCpu
          else f.byCpu == 9999)
      && (if p.memMB > 0.0 then count as real * p.memMB <= free.memMB <==> count <= f.byMem
          else f.byMem == 9999)
      && f.byPods == free.podSlots && f.maxFit <= f.byCpu && f.maxFit <= f.byMem && f.maxFit <= f.byPods
      && (|| (f.limiting == "cpu" && f.maxFit == f.byCpu)
          || (f.limiting == "memory" && f.maxFit == f.byMem < f.byCpu)
          || (f.limiting == "pod-slots" && f.maxFit == f.byPods < f.byCpu && f.byPods < f.byMem))
  {
    if p.cpuMilli > 0.0 { QuotientIsExact(count, p.cpuMilli, free.cpuMilli); }
    if p.memMB > 0.0 { QuotientIsExact(count, p.memMB, free.memMB); }
  }

  /** Use grows by five percent a month. */
  lemma {:induction false} GrowthIsFivePercent(used: real, months: nat)
    ensures Grown(used, 0) == used && Grown(used, months + 1) - Grown(used, months) == Grown(used, months) / 20.0
  {}
}
