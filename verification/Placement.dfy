/** The placement experiment of scripts/run_evidence_simulations.py: pods arrive one by one and a
    scheduler puts each on one of the nodes it fits, ties broken at random. */
module Placement {
  import opened Scoring
  import opened ScorerPorts

  const NODE_CPU := 2000
  const NODE_MEM := 4096
  const AKIL_PLUGIN_WEIGHT := 25.0

  function Cpu(w: Workload): int {
    if w.BatchWorker? then 200 else 100
  }

  function Mem(w: Workload): int {
    if w.BatchWorker? then 256 else 128
  }

  type Pods = seq<Workload>

  function CpuUsed(pods: Pods): int {
    if pods == [] then 0 else CpuUsed(pods[..|pods| - 1]) + Cpu(pods[|pods| - 1])
  }

  function MemUsed(pods: Pods): int {
    if pods == [] then 0 else MemUsed(pods[..|pods| - 1]) + Mem(pods[|pods| - 1])
  }

  predicate Fits(pods: Pods, pod: Workload) {
    CpuUsed(pods) + Cpu(pod) <= NODE_CPU && MemUsed(pods) + Mem(pod) <= NODE_MEM
  }

  function LeastAllocated(pods: Pods, pod: Workload): real {
    (NODE_CPU - CpuUsed(pods) - Cpu(pod)) as real / NODE_CPU as real * 100.0
  }

  function Utilisation(pods: Pods): real {
    CpuUsed(pods) as real / NODE_CPU as real
  }

  /** Closeness to half use after placement. */
  function TargetLoad(pods: Pods, pod: Workload): real {
    var u := (CpuUsed(pods) + Cpu(pod)) as real / NODE_CPU as real;
    if u <= 0.5 then u / 0.5 * 100.0
    else
      var x := 100.0 - (u - 0.5) / (1.0 - 0.5) * 100.0;
      if x > 0.0 then x else 0.0
  }

  datatype Scheduler = DefaultK8s | BinPacking | TrimaranTLP | Akil

  /** What the scheduler maximises over the nodes the pod fits. */
  function Key(s: Scheduler, pods: Pods, pod: Workload): real {
    match s
    case DefaultK8s => LeastAllocated(pods, pod)
    case BinPacking => Utilisation(pods)
    case TrimaranTLP => TargetLoad(pods, pod)
    case Akil => AKIL_PLUGIN_WEIGHT * AkilScore(DefaultScorer(), pod, pods) as real + LeastAllocated(pods, pod)
  }

  datatype Choice = Nowhere | On(node: nat)

  /** Any node of the greatest key among those the pod fits, and nowhere only if it fits none. */
  ghost predicate Picks(s: Scheduler, pod: Workload, nodes: seq<Pods>, c: Choice) {
    match c
    case Nowhere => forall j :: 0 <= j < |nodes| ==> !Fits(nodes[j], pod)
    case On(i) =>
      && i < |nodes| && Fits(nodes[i], pod)
      && forall j :: 0 <= j < |nodes| && Fits(nodes[j], pod) ==> Key(s, nodes[j], pod) <= Key(s, nodes[i], pod)
  }

  datatype Cluster = Cluster(nodes: seq<Pods>, rejected: seq<Workload>)

  function Start(n: nat): Cluster {
    Cluster(seq(n, _ => []), [])
  }

  function Placed(c: Cluster, pod: Workload, at: Choice): Cluster
    requires at.On? ==> at.node < |c.nodes|
  {
    match at
    case Nowhere => c.(rejected := c.rejected + [pod])
    case On(i) => c.(nodes := c.nodes[i := c.nodes[i] + [pod]])
  }

  /** Each pod goes where the scheduler may put it at that moment. */
  ghost predicate Follows(s: Scheduler, c: Cluster, arrivals: seq<Workload>, choices: seq<Choice>)
    decreases |arrivals|
  {
    && |choices| == |arrivals|
    && (arrivals != [] ==>
          && Picks(s, arrivals[0], c.nodes, choices[0])
          && Follows(s, Placed(c, arrivals[0], choices[0]), arrivals[1..], choices[1..]))
  }

  ghost function Final(s: Scheduler, c: Cluster, arrivals: seq<Workload>, choices: seq<Choice>): Cluster
    requires Follows(s, c, arrivals, choices)
    decreases |arrivals|
  {
    if arrivals == [] then c
    else Final(s, Placed(c, arrivals[0], choices[0]), arrivals[1..], choices[1..])
  }

  // ---------------------------------------------------------------- the experiment as coded

  class Node {
    var pods: seq<Workload>

    constructor ()
      ensures pods == []
    {
      pods := [];
    }
  }

  ghost function Loads(nodes: seq<Node>): seq<Pods>
    reads nodes
  {
    seq(|nodes|, i requires 0 <= i < |nodes| reads nodes => nodes[i].pods)
  }

  ghost predicate Distinct(nodes: seq<Node>) {
    forall i, j :: 0 <= i < j < |nodes| ==> nodes[i] != nodes[j]
  }

  method Pick(s: Scheduler, pod: Workload, nodes: seq<Node>) returns (c: Choice)
    ensures Picks(s, pod, Loads(nodes), c)
    ensures c.Nowhere? <==> forall i :: 0 <= i < |nodes| ==> !Fits(nodes[i].pods, pod)
  {
    c := Nowhere;
    var best := 0.0;
    var i := 0;
    while i < |nodes|
      invariant 0 <= i <= |nodes|
      invariant c.Nowhere? ==> forall j :: 0 <= j < i ==> !Fits(nodes[j].pods, pod)
      invariant c.On? ==> c.node < i && Fits(nodes[c.node].pods, pod) && best == Key(s, nodes[c.node].pods, pod)
      invariant c.On? ==> forall j :: 0 <= j < i && Fits(nodes[j].pods, pod) ==> Key(s, nodes[j].pods, pod) <= best
    {
      if Fits(nodes[i].pods, pod) {
        var key := Key(s, nodes[i].pods, pod);
        var tie: bool := *;
        if c.Nowhere? || key > best || (key == best && tie) {
          c, best := On(i), key;
        }
      }
      i := i + 1;
    }
  }

  /** The nodes hold the final loads of a run the scheduler may take; `rejected` are the unplaced. */
  method Place(arrivals: seq<Workload>, s: Scheduler, n: nat)
    returns (nodes: seq<Node>, unplaced: int, ghost choices: seq<Choice>)
    ensures Distinct(nodes) && |nodes| == n
    ensures Follows(s, Start(n), arrivals, choices)
    ensures var c := Final(s, Start(n), arrivals, choices); Loads(nodes) == c.nodes && unplaced == |c.rejected|
  {
    hide Picks, Follows, Final;
    nodes := [];
    while |nodes| < n
      invariant |nodes| <= n && Distinct(nodes) && fresh(nodes)
      invariant forall i :: 0 <= i < |nodes| ==> nodes[i].pods == []
    {
      var node := new Node();
      nodes := nodes + [node];
    }
    unplaced := 0;
    choices := [];
    ghost var rejected: seq<Workload> := [];
    var i := 0;
    assert Loads(nodes) == Start(n).nodes;
    assert arrivals[..0] == [];
    ReachesStart(s, n);
    while i < |arrivals|
      invariant 0 <= i <= |arrivals| && |nodes| == n && Distinct(nodes) && fresh(nodes)
      invariant Reaches(s, n, arrivals[..i], choices, Cluster(Loads(nodes), rejected))
      invariant unplaced == |rejected|
    {
      var pod := arrivals[i];
      ghost var before := Cluster(Loads(nodes), rejected);
      var c := Pick(s, pod, nodes);
      match c {
        case Nowhere =>
          unplaced := unplaced + 1;
          rejected := rejected + [pod];
        case On(j) =>
          nodes[j].pods := nodes[j].pods + [pod];
      }
      assert Cluster(Loads(nodes), rejected) == Placed(before, pod, c);
      assert arrivals[..i + 1] == arrivals[..i] + [pod];
      ReachesNext(s, n, arrivals[..i], choices, before, pod, c);
      choices := choices + [c];
      i := i + 1;
    }
    assert arrivals[..i] == arrivals;
  }

  ghost predicate Reaches(s: Scheduler, n: nat, arrivals: seq<Workload>, choices: seq<Choice>, c: Cluster) {
    Follows(s, Start(n), arrivals, choices) && Final(s, Start(n), arrivals, choices) == c
  }

  lemma ReachesStart(s: Scheduler, n: nat)
    ensures Reaches(s, n, [], [], Start(n))
  {
  }

  lemma ReachesNext(s: Scheduler, n: nat, arrivals: seq<Workload>, choices: seq<Choice>, c: Cluster,
                    pod: Workload, at: Choice)
    requires Reaches(s, n, arrivals, choices, c) && Picks(s, pod, c.nodes, at)
    ensures Reaches(s, n, arrivals + [pod], choices + [at], Placed(c, pod, at))
  {
    FollowsNext(s, Start(n), arrivals, choices, pod, at);
  }

  lemma {:induction false} FollowsNext(s: Scheduler, c: Cluster, arrivals: seq<Workload>, choices: seq<Choice>,
                                       pod: Workload, at: Choice)
    requires Follows(s, c, arrivals, choices) && Picks(s, pod, Final(s, c, arrivals, choices).nodes, at)
    ensures Follows(s, c, arrivals + [pod], choices + [at])
    ensures Final(s, c, arrivals + [pod], choices + [at]) == Placed(Final(s, c, arrivals, choices), pod, at)
    decreases |arrivals|
  {
    if arrivals == [] {
      assert (arrivals + [pod])[1..] == [] && (choices + [at])[1..] == [];
      var d := Placed(c, pod, at);
      assert Follows(s, d, [], []) && Final(s, d, [], []) == d;
    } else {
      FollowsNext(s, Placed(c, arrivals[0], choices[0]), arrivals[1..], choices[1..], pod, at);
      assert (arrivals + [pod])[1..] == arrivals[1..] + [pod];
      assert (choices + [at])[1..] == choices[1..] + [at];
    }
  }

  // ---------------------------------------------------------------- capacity

  lemma UsedSnoc(pods: Pods, pod: Workload)
    ensures CpuUsed(pods + [pod]) == CpuUsed(pods) + Cpu(pod)
    ensures MemUsed(pods + [pod]) == MemUsed(pods) + Mem(pod)
  {
    assert (pods + [pod])[..|pods|] == pods;
  }

  lemma {:induction false} Proportion(pods: Pods)
    ensures 100 * MemUsed(pods) == 128 * CpuUsed(pods)
    ensures CpuUsed(pods) >= 0 && CpuUsed(pods) % 100 == 0
    ensures pods != [] ==> CpuUsed(pods) >= 100
  {
    if pods != [] {
      Proportion(pods[..|pods| - 1]);
    }
  }

  /** Memory never binds before CPU: whether a pod fits is decided by CPU alone. */
  lemma MemoryNeverBinds(pods: Pods, pod: Workload)
    ensures Fits(pods, pod) <==> CpuUsed(pods) + Cpu(pod) <= NODE_CPU
  {
    Proportion(pods);
  }

  ghost predicate WithinCapacity(c: Cluster) {
    forall i :: 0 <= i < |c.nodes| ==> CpuUsed(c.nodes[i]) <= NODE_CPU && MemUsed(c.nodes[i]) <= NODE_MEM
  }

  function AllPods(nodes: seq<Pods>): multiset<Workload> {
    if nodes == [] then multiset{} else AllPods(nodes[..|nodes| - 1]) + multiset(nodes[|nodes| - 1])
  }

  lemma {:induction false} AllPodsAdd(nodes: seq<Pods>, i: nat, pod: Workload)
    requires i < |nodes|
    ensures AllPods(nodes[i := nodes[i] + [pod]]) == AllPods(nodes) + multiset{pod}
  {
    var n := |nodes| - 1;
    var after := nodes[i := nodes[i] + [pod]];
    if i < n {
      AllPodsAdd(nodes[..n], i, pod);
      assert after[..n] == nodes[..n][i := nodes[..n][i] + [pod]];
    } else {
      assert after[..n] == nodes[..n];
    }
  }

  lemma {:induction false} StartEmpty(n: nat)
    ensures AllPods(Start(n).nodes) == multiset{}
  {
    if n > 0 {
      StartEmpty(n - 1);
      assert Start(n).nodes[..n - 1] == Start(n - 1).nodes;
    }
  }

  /** Every pod there is, placed or not. */
  function Everything(c: Cluster): multiset<Workload> {
    AllPods(c.nodes) + multiset(c.rejected)
  }

  lemma PlacedWithin(s: Scheduler, c: Cluster, pod: Workload, at: Choice)
    requires WithinCapacity(c) && Picks(s, pod, c.nodes, at)
    ensures WithinCapacity(Placed(c, pod, at)) && |Placed(c, pod, at).nodes| == |c.nodes|
    ensures Everything(Placed(c, pod, at)) == Everything(c) + multiset{pod}
  {
    hide AllPods, CpuUsed, MemUsed, Key;
    if at.On? {
      UsedSnoc(c.nodes[at.node], pod);
      AllPodsAdd(c.nodes, at.node, pod);
    }
  }

  lemma FirstAndRest(pods: seq<Workload>, before: multiset<Workload>)
    requires pods != []
    ensures before + multiset{pods[0]} + multiset(pods[1..]) == before + multiset(pods)
  {
    assert pods == [pods[0]] + pods[1..];
  }

  lemma {:induction false} RunSound(s: Scheduler, c: Cluster, arrivals: seq<Workload>, choices: seq<Choice>)
    requires WithinCapacity(c) && Follows(s, c, arrivals, choices)
    ensures var f := Final(s, c, arrivals, choices);
            && WithinCapacity(f) && |f.nodes| == |c.nodes|
            && Everything(f) == Everything(c) + multiset(arrivals)
    decreases |arrivals|
  {
    if arrivals != [] {
      hide Picks, WithinCapacity, Everything, Placed;
      var d := Placed(c, arrivals[0], choices[0]);
      PlacedWithin(s, c, arrivals[0], choices[0]);
      RunSound(s, d, arrivals[1..], choices[1..]);
      FirstAndRest(arrivals, Everything(c));
    }
  }

  /** Whatever the scheduler and the arrivals, no node is over its CPU or memory, and every arrival is
      on one node or counted unplaced. */
  lemma PlacementSound(s: Scheduler, n: nat, arrivals: seq<Workload>, choices: seq<Choice>)
    requires Follows(s, Start(n), arrivals, choices)
    ensures var f := Final(s, Start(n), arrivals, choices);
            WithinCapacity(f) && Everything(f) == multiset(arrivals)
  {
    StartEmpty(n);
    RunSound(s, Start(n), arrivals, choices);
  }

  /** The batch workers among the pods. */
  function Batches(pods: Pods): nat {
    if pods == [] then 0 else Batches(pods[..|pods| - 1]) + (if pods[|pods| - 1].BatchWorker? then 1 else 0)
  }

  lemma {:induction false} UsedInUnits(pods: Pods)
    ensures CpuUsed(pods) == 100 * (|pods| + Batches(pods)) && MemUsed(pods) == 128 * (|pods| + Batches(pods))
  {
    if pods != [] {
      UsedInUnits(pods[..|pods| - 1]);
    }
  }

  /** A node has room for twenty pods, a batch worker counting twice. */
  lemma TwentyFit(pods: Pods, pod: Workload)
    ensures Fits(pods, pod) <==> |pods| + Batches(pods) + (if pod.BatchWorker? then 2 else 1) <= 20
  {
    UsedInUnits(pods);
  }

  // ---------------------------------------------------------------- the choices in whole numbers

  /** What each scheduler prefers more of: room, use, closeness to half use after placement, or score
      and room, where a point of score outweighs 500 CPU. */
  function Rank(s: Scheduler, pods: Pods, pod: Workload): int {
    var used, cpu := 100 * (|pods| + Batches(pods)), if pod.BatchWorker? then 200 else 100;
    match s
    case DefaultK8s => -used
    case BinPacking => used
    case TrimaranTLP => if used + cpu <= 1000 then used + cpu - 1000 else 1000 - used - cpu
    case Akil => 500 * AkilScore(DefaultScorer(), pod, pods) - used
  }

  lemma KeyIsRank(s: Scheduler, pods: Pods, pod: Workload)
    requires Fits(pods, pod)
    ensures var used, cpu := CpuUsed(pods), Cpu(pod);
            match s
            case DefaultK8s => 20.0 * Key(s, pods, pod) == (Rank(s, pods, pod) + 2000 - cpu) as real
            case BinPacking => 2000.0 * Key(s, pods, pod) == Rank(s, pods, pod) as real
            case TrimaranTLP => 10.0 * Key(s, pods, pod) == (Rank(s, pods, pod) + 1000) as real
            case Akil => 20.0 * Key(s, pods, pod) == (Rank(s, pods, pod) + 2000 - cpu) as real
  {
    UsedInUnits(pods);
    TwentyFit(pods, pod);
    hide AkilScore, Fits;
  }

  lemma SameOrder(s: Scheduler, a: Pods, b: Pods, pod: Workload)
    requires Fits(a, pod) && Fits(b, pod)
    ensures Key(s, a, pod) <= Key(s, b, pod) <==> Rank(s, a, pod) <= Rank(s, b, pod)
  {
    KeyIsRank(s, a, pod);
    KeyIsRank(s, b, pod);
    hide Key, Rank, Fits;
  }

  /** Each picker may return exactly the nodes of the greatest rank among those the pod fits. */
  lemma PicksByRank(s: Scheduler, pod: Workload, nodes: seq<Pods>, i: nat)
    ensures Picks(s, pod, nodes, On(i)) <==>
            && i < |nodes| && Fits(nodes[i], pod)
            && forall j :: 0 <= j < |nodes| && Fits(nodes[j], pod) ==> Rank(s, nodes[j], pod) <= Rank(s, nodes[i], pod)
  {
    hide Key, Rank, Fits;
    if i < |nodes| && Fits(nodes[i], pod) {
      forall j | 0 <= j < |nodes| && Fits(nodes[j], pod)
        ensures Key(s, nodes[j], pod) <= Key(s, nodes[i], pod) <==> Rank(s, nodes[j], pod) <= Rank(s, nodes[i], pod)
      {
        SameOrder(s, nodes[j], nodes[i], pod);
      }
    }
  }

  // ---------------------------------------------------------------- balance

  /** No two nodes differ by more than the largest pod. */
  ghost predicate Balanced(c: Cluster) {
    forall i, j :: 0 <= i < |c.nodes| && 0 <= j < |c.nodes| ==> CpuUsed(c.nodes[i]) - CpuUsed(c.nodes[j]) <= 200
  }

  lemma LeastUsedChosen(pod: Workload, nodes: seq<Pods>, i: nat, j: nat)
    requires Picks(DefaultK8s, pod, nodes, On(i)) && j < |nodes|
    ensures CpuUsed(nodes[i]) <= CpuUsed(nodes[j])
  {
    MemoryNeverBinds(nodes[i], pod);
    MemoryNeverBinds(nodes[j], pod);
    if Fits(nodes[j], pod) {
      assert LeastAllocated(nodes[j], pod) <= LeastAllocated(nodes[i], pod);
    }
  }

  lemma {:induction false} DefaultBalances(c: Cluster, arrivals: seq<Workload>, choices: seq<Choice>)
    requires Balanced(c) && Follows(DefaultK8s, c, arrivals, choices)
    ensures Balanced(Final(DefaultK8s, c, arrivals, choices))
    decreases |arrivals|
  {
    if arrivals != [] {
      var pod, at := arrivals[0], choices[0];
      var d := Placed(c, pod, at);
      if at.On? {
        UsedSnoc(c.nodes[at.node], pod);
        forall j | 0 <= j < |c.nodes| ensures CpuUsed(c.nodes[at.node]) <= CpuUsed(c.nodes[j]) {
          LeastUsedChosen(pod, c.nodes, at.node, j);
        }
      }
      assert Balanced(d);
      DefaultBalances(d, arrivals[1..], choices[1..]);
    }
  }

  // ---------------------------------------------------------------- density

  /** At most one non-empty node has room for another largest pod. */
  ghost predicate Packed(c: Cluster) {
    forall i, j :: 0 <= i < j < |c.nodes| && c.nodes[i] != [] && c.nodes[j] != [] ==>
      CpuUsed(c.nodes[i]) > 1800 || CpuUsed(c.nodes[j]) > 1800
  }

  lemma EmptyNodeLast(pod: Workload, nodes: seq<Pods>, i: nat, j: nat)
    requires Picks(BinPacking, pod, nodes, On(i)) && j < |nodes| && nodes[j] != [] && CpuUsed(nodes[j]) <= 1800
    ensures nodes[i] != [] && CpuUsed(nodes[j]) <= CpuUsed(nodes[i])
  {
    MemoryNeverBinds(nodes[j], pod);
    Proportion(nodes[j]);
    assert Utilisation(nodes[j]) <= Utilisation(nodes[i]);
  }

  lemma {:induction false} BinPackingPacks(c: Cluster, arrivals: seq<Workload>, choices: seq<Choice>)
    requires Packed(c) && Follows(BinPacking, c, arrivals, choices)
    ensures Packed(Final(BinPacking, c, arrivals, choices))
    decreases |arrivals|
  {
    if arrivals != [] {
      var pod, at := arrivals[0], choices[0];
      var d := Placed(c, pod, at);
      PackedStep(c, pod, at);
      BinPackingPacks(d, arrivals[1..], choices[1..]);
    }
  }

  lemma PackedStep(c: Cluster, pod: Workload, at: Choice)
    requires Packed(c) && Picks(BinPacking, pod, c.nodes, at)
    ensures Packed(Placed(c, pod, at))
  {
    if at.On? {
      var i, d := at.node, Placed(c, pod, at);
      UsedSnoc(c.nodes[i], pod);
      forall j | 0 <= j < |c.nodes| && j != i && c.nodes[j] != [] && CpuUsed(c.nodes[j]) <= 1800
        ensures CpuUsed(d.nodes[i]) > 1800
      {
        EmptyNodeLast(pod, c.nodes, i, j);
      }
    }
  }

  function TotalCpu(nodes: seq<Pods>): int {
    if nodes == [] then 0 else TotalCpu(nodes[..|nodes| - 1]) + CpuUsed(nodes[|nodes| - 1])
  }

  function Occupied(nodes: seq<Pods>): nat {
    if nodes == [] then 0 else Occupied(nodes[..|nodes| - 1]) + (if nodes[|nodes| - 1] == [] then 0 else 1)
  }

  /** So a packed cluster occupies few nodes: all but one of them carry at least 1900. */
  lemma {:induction false} PackedIsDense(c: Cluster)
    requires Packed(c)
    ensures TotalCpu(c.nodes) >= 1900 * (Occupied(c.nodes) - 1) + (if Occupied(c.nodes) > 0 then 100 else 1900)
    ensures (forall i :: 0 <= i < |c.nodes| && c.nodes[i] != [] ==> CpuUsed(c.nodes[i]) > 1800) ==>
              TotalCpu(c.nodes) >= 1900 * Occupied(c.nodes)
    decreases |c.nodes|
  {
    if c.nodes != [] {
      var n := |c.nodes| - 1;
      var d := c.(nodes := c.nodes[..n]);
      assert forall i :: 0 <= i < n ==> d.nodes[i] == c.nodes[i];
      PackedIsDense(d);
      Proportion(c.nodes[n]);
      if c.nodes[n] != [] && CpuUsed(c.nodes[n]) <= 1800 {
        assert forall i :: 0 <= i < n && d.nodes[i] != [] ==> CpuUsed(d.nodes[i]) > 1800;
      }
    }
  }

  /** From empty nodes and over every arrival sequence: the default scheduler stays balanced, and
      bin packing occupies few nodes. */
  lemma FromEmptyNodes(s: Scheduler, n: nat, arrivals: seq<Workload>, choices: seq<Choice>)
    requires Follows(s, Start(n), arrivals, choices)
    ensures var f := Final(s, Start(n), arrivals, choices);
            && (s.DefaultK8s? ==> Balanced(f))
            && (s.BinPacking? ==> Packed(f) && TotalCpu(f.nodes) >= 1900 * (Occupied(f.nodes) - 1))
  {
    if s.DefaultK8s? {
      DefaultBalances(Start(n), arrivals, choices);
    } else if s.BinPacking? {
      BinPackingPacks(Start(n), arrivals, choices);
      PackedIsDense(Final(s, Start(n), arrivals, choices));
    }
  }

  // ---------------------------------------------------------------- interference comes first

  /** The AKIL scheduler never takes a node that scores 4 or more points below another the pod fits. */
  lemma AkilNeverTradesFourPoints(pod: Workload, nodes: seq<Pods>, i: nat, j: nat)
    requires Picks(Akil, pod, nodes, On(i)) && j < |nodes| && Fits(nodes[j], pod)
    ensures AkilScore(DefaultScorer(), pod, nodes[j]) - AkilScore(DefaultScorer(), pod, nodes[i]) < 4
  {
    Proportion(nodes[i]);
    Proportion(nodes[j]);
    assert 0.0 <= LeastAllocated(nodes[j], pod);
    assert LeastAllocated(nodes[i], pod) <= 95.0;
    assert Key(Akil, nodes[j], pod) <= Key(Akil, nodes[i], pod);
  }
}
