/** Greedy placement of workload replicas on cluster nodes. */
module Reconciler {
  import opened Common
  import opened Sorting

  datatype Phase = Waiting | Ready | Draining | Stalled

  datatype Node = Node(name: string, zone: string, capacity: int, used: int, labels: map<string, string>)
  {
    function Free(): int { capacity - used }

    function Charge(weight: int): Node { this.(used := used + weight) }
  }

  datatype Workload = Workload(name: string, replicas: int, weight: int, selector: map<string, string>)

  datatype Placement = Placement(workload: string, node: string, ordinal: nat)

  /** The message of a snapshot; a time stands for its formatted text. */
  datatype Message = Blank | Mismatch | PlannedAt(time: int)

  const TWO64: nat := 0x1_0000_0000_0000_0000

  datatype Snapshot = Snapshot(
    revision: nat,
    nodes: seq<Node>,
    workloads: seq<Workload>,
    placements: seq<Placement>,
    phase: Phase,
    message: Message)

  /** A label that is not present reads as the empty text. */
  function LabelOf(labels: map<string, string>, k: string): string
  {
    if k in labels then labels[k] else ""
  }

  predicate Matches(labels: map<string, string>, selector: map<string, string>)
  {
    forall k :: k in selector ==> LabelOf(labels, k) == selector[k]
  }

  // ----- orders

  /** More free capacity first, then by name. */
  predicate NodeBefore(a: Node, b: Node)
  {
    if a.Free() == b.Free() then TextBefore(a.name, b.name) else a.Free() > b.Free()
  }

  predicate WorkloadBefore(a: Workload, b: Workload) { TextBefore(a.name, b.name) }

  lemma OrdersAreWeak()
    ensures WeakOrder(NodeBefore) && WeakOrder(WorkloadBefore)
  {
    forall a: Node, b: Node ensures NodeBefore(a, b) ==> !NodeBefore(b, a) { TextTrichotomy(a.name, b.name); }
    forall a: Node, b: Node, c: Node | NodeBefore(a, b) && NodeBefore(b, c) ensures NodeBefore(a, c) {
      if TextBefore(a.name, b.name) && TextBefore(b.name, c.name) { TextTransitive(a.name, b.name, c.name); }
    }
    forall a: Node, b: Node, c: Node | !NodeBefore(a, b) && !NodeBefore(b, c) ensures !NodeBefore(a, c) {
      NotBeforeTransitive(a.name, b.name, c.name);
    }
    forall a: Workload, b: Workload ensures WorkloadBefore(a, b) ==> !WorkloadBefore(b, a) {
      TextTrichotomy(a.name, b.name);
    }
    forall a: Workload, b: Workload, c: Workload | WorkloadBefore(a, b) && WorkloadBefore(b, c)
      ensures WorkloadBefore(a, c) { TextTransitive(a.name, b.name, c.name); }
    forall a: Workload, b: Workload, c: Workload | !WorkloadBefore(a, b) && !WorkloadBefore(b, c)
      ensures !WorkloadBefore(a, c) { NotBeforeTransitive(a.name, b.name, c.name); }
  }

  lemma NotBeforeTransitive(a: string, b: string, c: string)
    ensures !TextBefore(a, b) && !TextBefore(b, c) ==> !TextBefore(a, c)
  {
    TextTrichotomy(a, b);
    TextTrichotomy(b, c);
    TextTrichotomy(a, c);
    if TextBefore(b, a) && TextBefore(c, b) {
      TextTransitive(c, b, a);
    }
  }

  ghost predicate DistinctNodes(nodes: seq<Node>) { DistinctKeys(nodes, (n: Node) => n.name) }

  ghost predicate DistinctWorkloads(ws: seq<Workload>) { DistinctKeys(ws, (w: Workload) => w.name) }

  lemma OrdersAreTotal(nodes: seq<Node>, ws: seq<Workload>)
    ensures DistinctNodes(nodes) ==> TotalOn(nodes, NodeBefore)
    ensures DistinctWorkloads(ws) ==> TotalOn(ws, WorkloadBefore)
  {
    forall a, b | DistinctNodes(nodes) && a in nodes && b in nodes && a != b
      ensures NodeBefore(a, b) || NodeBefore(b, a) {
      TextTrichotomy(a.name, b.name);
    }
    forall a, b | DistinctWorkloads(ws) && a in ws && b in ws && a != b
      ensures WorkloadBefore(a, b) || WorkloadBefore(b, a) {
      TextTrichotomy(a.name, b.name);
    }
  }

  // ----- one replica, one workload, all workloads

  predicate Fits(n: Node, w: Workload) { n.Free() >= w.weight && Matches(n.labels, w.selector) }

  /** A node fits when it has room for the weight and carries every label the selector asks for, an absent one being
      as good as an empty one. */
  lemma FitsIff(n: Node, w: Workload)
    ensures Fits(n, w) <==>
      && n.capacity - n.used >= w.weight
      && forall k :: k in w.selector ==> w.selector[k] == if k in n.labels then n.labels[k] else ""
  {
  }

  /** The freest node is first. */
  predicate ByFree(s: seq<Node>)
  {
    forall i, j :: 0 <= i < j < |s| ==> s[i].capacity - s[i].used >= s[j].capacity - s[j].used
  }

  /** Nodes are tried from the freest to the fullest, equally free ones by name. */
  lemma FreestFirst(nodes: seq<Node>, i: nat, j: nat)
    requires i < j < |nodes|
    ensures var s := Sort(nodes, NodeBefore);
      var a, b := s[i].capacity - s[i].used, s[j].capacity - s[j].used;
      a > b || (a == b && (s[i].name == s[j].name || TextBefore(s[i].name, s[j].name)))
  {
    OrdersAreWeak();
    SortSorted(nodes, NodeBefore);
    var s := Sort(nodes, NodeBefore);
    TextTrichotomy(s[i].name, s[j].name);
  }

  /** Workloads have their turns by name. */
  lemma TurnsGoByName(ws: seq<Workload>, i: nat, j: nat)
    requires i < j < |ws|
    ensures var s := Sort(ws, WorkloadBefore);
      s[i].name == s[j].name || TextBefore(s[i].name, s[j].name)
  {
    OrdersAreWeak();
    SortSorted(ws, WorkloadBefore);
    var s := Sort(ws, WorkloadBefore);
    TextTrichotomy(s[i].name, s[j].name);
  }

  /** The first node that fits. */
  function FirstFit(nodes: seq<Node>, w: Workload): (i: Option<nat>)
    ensures i.Some? ==> i.value < |nodes| && Fits(nodes[i.value], w)
                        && forall j :: 0 <= j < i.value ==> !Fits(nodes[j], w)
    ensures i.None? ==> forall n :: n in nodes ==> !Fits(n, w)
  {
    if nodes == [] then None
    else if Fits(nodes[0], w) then Some(0)
    else match FirstFit(nodes[1..], w) case Some(i) => Some(i + 1) case None => None
  }

  /** The working nodes and the placements made so far. */
  datatype Work = Work(nodes: seq<Node>, placed: seq<Placement>)

  function PlaceOne(work: Work, w: Workload, ordinal: nat): Work
  {
    match FirstFit(work.nodes, w)
    case None => work
    case Some(i) =>
      var n := work.nodes[i];
      Work(work.nodes[i := n.Charge(w.weight)], work.placed + [Placement(w.name, n.name, ordinal)])
  }

  /** Ordinals `0..count` of a workload. */
  function PlaceReplicas(work: Work, w: Workload, count: nat): Work
  {
    if count == 0 then work else PlaceOne(PlaceReplicas(work, w, count - 1), w, count - 1)
  }

  function Replicas(w: Workload): nat { if w.replicas < 0 then 0 else w.replicas }

  function PlaceWorkload(work: Work, w: Workload): Work
  {
    var done := PlaceReplicas(work, w, Replicas(w));
    Work(Sort(done.nodes, NodeBefore), done.placed)
  }

  /** The state just before the workload with index `j` in the sorted list has its turn. */
  function Turn(in_: Snapshot, j: nat): Work
    requires j <= |in_.workloads|
  {
    if j == 0 then Work(Sort(in_.nodes, NodeBefore), [])
    else PlaceWorkload(Turn(in_, j - 1), Sort(in_.workloads, WorkloadBefore)[j - 1])
  }

  function PlanOf(in_: Snapshot, now: int): Snapshot
  {
    var placed := Turn(in_, |in_.workloads|).placed;
    in_.(placements := placed,
         phase := if placed == [] && in_.workloads != [] then Waiting else Ready,
         message := PlannedAt(now))
  }

  // ----- the program

  method SortNodes(nodes: array<Node>)
    modifies nodes
    ensures nodes[..] == Sort(old(nodes[..]), NodeBefore)
    ensures multiset(nodes[..]) == multiset(old(nodes[..])) && ByFree(nodes[..])
  {
    SortElements(nodes[..], NodeBefore);
    SortedByFree(nodes[..]);
    var sorted := Sort(nodes[..], NodeBefore);
    forall i | 0 <= i < nodes.Length {
      nodes[i] := sorted[i];
    }
    assert nodes[..] == sorted;
  }

  method Choose(nodes: array<Node>, w: Workload) returns (chosen: int)
    ensures match FirstFit(nodes[..], w) case Some(i) => chosen == i case None => chosen == -1
  {
    chosen := -1;
    for i := 0 to nodes.Length
      invariant chosen == -1
      invariant forall j :: 0 <= j < i ==> !Fits(nodes[j], w)
    {
      if nodes[i].Free() >= w.weight && Matches(nodes[i].labels, w.selector) {
        chosen := i;
        assert Fits(nodes[..][i], w);
        break;
      }
    }
    if chosen < 0 {
      assert forall n :: n in nodes[..] ==> !Fits(n, w);
    } else {
      assert Fits(nodes[..][chosen], w) && forall j :: 0 <= j < chosen ==> !Fits(nodes[..][j], w);
      assert nodes[..][chosen] in nodes[..];
    }
  }

  method PlaceAll(nodes: array<Node>, workload: Workload, snapshot: Snapshot) returns (next: Snapshot)
    modifies nodes
    ensures Work(nodes[..], next.placements)
         == PlaceReplicas(Work(old(nodes[..]), snapshot.placements), workload, Replicas(workload))
    ensures next.nodes == snapshot.nodes && next.workloads == snapshot.workloads && next.revision == snapshot.revision
  {
    next := snapshot;
    var ordinal := 0;
    while ordinal < workload.replicas
      invariant ordinal <= Replicas(workload)
      invariant Work(nodes[..], next.placements)
             == PlaceReplicas(Work(old(nodes[..]), snapshot.placements), workload, ordinal)
      invariant next.nodes == snapshot.nodes && next.workloads == snapshot.workloads
          && next.revision == snapshot.revision
    {
      ghost var before := nodes[..];
      var chosen := Choose(nodes, workload);
      if chosen < 0 {
        next := next.(phase := Stalled, message := Mismatch);
      } else {
        nodes[chosen] := nodes[chosen].Charge(workload.weight);
        next := next.(placements := next.placements + [Placement(workload.name, nodes[chosen].name, ordinal)]);
        assert nodes[..] == before[chosen := before[chosen].Charge(workload.weight)];
      }
      ordinal := ordinal + 1;
    }
  }

  /** The turn of one workload. */
  method TakeTurn(nodes: array<Node>, workload: Workload, snapshot: Snapshot) returns (next: Snapshot)
    modifies nodes
    ensures Work(nodes[..], next.placements) == PlaceWorkload(Work(old(nodes[..]), snapshot.placements), workload)
    ensures next.nodes == snapshot.nodes && next.workloads == snapshot.workloads && next.revision == snapshot.revision
  {
    next := PlaceAll(nodes, workload, snapshot);
    SortNodes(nodes);
  }

  lemma NextTurn(in_: Snapshot, k: nat)
    requires k < |in_.workloads|
    ensures Turn(in_, k + 1) == PlaceWorkload(Turn(in_, k), Sort(in_.workloads, WorkloadBefore)[k])
  {
  }

  /** A sorted working copy of the nodes. */
  method WorkingNodes(in_: Snapshot) returns (nodes: array<Node>)
    ensures fresh(nodes) && nodes[..] == Sort(in_.nodes, NodeBefore)
  {
    nodes := new Node[|in_.nodes|](i requires 0 <= i < |in_.nodes| => in_.nodes[i]);
    assert nodes[..] == in_.nodes;
    SortNodes(nodes);
  }

  method Plan(in_: Snapshot, now: int) returns (next: Snapshot)
    ensures next == PlanOf(in_, now)
  {
    next := in_.(placements := []);
    var nodes := WorkingNodes(in_);
    var workloads := Sort(in_.workloads, WorkloadBefore);
    for k := 0 to |workloads|
      invariant Work(nodes[..], next.placements) == Turn(in_, k)
      invariant next.nodes == in_.nodes && next.workloads == in_.workloads && next.revision == in_.revision
    {
      next := TakeTurn(nodes, workloads[k], next);
      NextTurn(in_, k);
    }
    if |next.placements| == 0 && |workloads| != 0 {
      next := next.(phase := Waiting);
    } else {
      next := next.(phase := Ready);
    }
    next := next.(message := PlannedAt(now));
  }

  // ----- how many replicas are placed

  /** How many replicas of `w` a node can still take. */
  function Slots(n: Node, w: Workload): nat
    requires w.weight > 0
  {
    if Matches(n.labels, w.selector) then Max(0, n.Free()) / w.weight else 0
  }

  function TotalSlots(nodes: seq<Node>, w: Workload): nat
    requires w.weight > 0
  {
    Sum(nodes, (n: Node) => Slots(n, w))
  }

  lemma ChargeTakesOneSlot(n: Node, w: Workload)
    requires w.weight > 0
    ensures Fits(n, w) ==> Slots(n.Charge(w.weight), w) == Slots(n, w) - 1
    ensures !Fits(n, w) ==> Slots(n, w) == 0
  {
    if Fits(n, w) {
      DivideStep(n.Free(), w.weight);
    } else if Matches(n.labels, w.selector) {
      DivideSmall(Max(0, n.Free()), w.weight);
    }
  }

  lemma DivideStep(a: int, d: int)
    requires a >= d > 0
    ensures (a - d) / d == a / d - 1
  {
    DivideUnique(a - d, d, a / d - 1, a % d);
  }

  lemma DivideSmall(a: int, d: int)
    requires 0 <= a < d
    ensures a / d == 0
  {
    DivideUnique(a, d, 0, a);
  }

  lemma DivideUnique(a: int, d: int, q: int, r: int)
    requires d > 0 && a == d * q + r && 0 <= r < d
    ensures a / d == q
  {
    var x := q - a / d;
    assert d * x == a % d - r by {
      assert d * x == d * q - d * (a / d);
    }
    MultipleIsFar(d, x);
  }

  lemma MultipleIsFar(d: int, x: int)
    requires d > 0
    ensures x > 0 ==> d * x >= d
    ensures x < 0 ==> d * x <= -d
  {
    if x > 0 {
      ProductIsNatural(d, x - 1);
      assert d * x == d + d * (x - 1);
    } else if x < 0 {
      ProductIsNatural(d, -x - 1);
      assert d * x == -d - d * (-x - 1);
    }
  }

  lemma ProductIsNatural(a: nat, b: nat)
    ensures a * b >= 0
  {
  }

  lemma {:induction false} NoSlots(nodes: seq<Node>, w: Workload)
    requires w.weight > 0 && forall n :: n in nodes ==> !Fits(n, w)
    ensures TotalSlots(nodes, w) == 0
  {
    if nodes != [] {
      ChargeTakesOneSlot(nodes[0], w);
      NoSlots(nodes[1..], w);
    }
  }

  /** The placements that `w` adds: `count` ordinals are tried from 0 on. */
  lemma {:induction false} PlacedSoFar(work: Work, w: Workload, count: nat)
    requires w.weight > 0
    ensures var done := PlaceReplicas(work, w, count);
      var k := Min(count, TotalSlots(work.nodes, w));
      && |done.placed| == |work.placed| + k
      && TotalSlots(done.nodes, w) == TotalSlots(work.nodes, w) - k
  {
    if count > 0 {
      PlacedSoFar(work, w, count - 1);
      var prev := PlaceReplicas(work, w, count - 1);
      match FirstFit(prev.nodes, w)
      case None => NoSlots(prev.nodes, w);
      case Some(i) =>
        var n := prev.nodes[i];
        ChargeTakesOneSlot(n, w);
        SumUpdate(prev.nodes, i, n.Charge(w.weight), (m: Node) => Slots(m, w));
    }
  }

  /** With a weight of zero or less, a node that fits once fits for ever. */
  lemma {:induction false} WeightlessPlacedSoFar(work: Work, w: Workload, count: nat)
    requires w.weight <= 0
    ensures var done := PlaceReplicas(work, w, count);
      && ((exists n :: n in work.nodes && Fits(n, w)) <==> (exists n :: n in done.nodes && Fits(n, w)))
      && |done.placed| == |work.placed| + (if exists n :: n in work.nodes && Fits(n, w) then count else 0)
  {
    if count > 0 {
      WeightlessPlacedSoFar(work, w, count - 1);
      var prev := PlaceReplicas(work, w, count - 1);
      match FirstFit(prev.nodes, w)
      case None =>
      case Some(i) =>
        var n := prev.nodes[i];
        var nodes := prev.nodes[i := n.Charge(w.weight)];
        assert Fits(n.Charge(w.weight), w) && nodes[i] in nodes;
        assert n in prev.nodes;
    }
  }

  /** What never changes about a node. */
  function Identity(n: Node): Node { n.(used := 0) }

  function Identities(nodes: seq<Node>): seq<Node> { seq(|nodes|, i requires 0 <= i < |nodes| => Identity(nodes[i])) }

  /** Every working node is a listed node, up to its load. */
  ghost predicate Covers(nodes: seq<Node>, listed: seq<Node>)
  {
    forall n :: n in nodes ==> Identity(n) in Identities(listed)
  }

  lemma SortCovers(nodes: seq<Node>, listed: seq<Node>)
    requires Covers(nodes, listed)
    ensures Covers(Sort(nodes, NodeBefore), listed)
  {
    SortElements(nodes, NodeBefore);
    SameElements(nodes, Sort(nodes, NodeBefore));
  }

  lemma ListedCovers(listed: seq<Node>)
    ensures Covers(listed, listed)
  {
    forall n | n in listed ensures Identity(n) in Identities(listed) {
      var i :| 0 <= i < |listed| && listed[i] == n;
      assert Identities(listed)[i] == Identity(n);
    }
  }

  lemma ChargeCovers(nodes: seq<Node>, listed: seq<Node>, i: nat, weight: int)
    requires Covers(nodes, listed) && i < |nodes|
    ensures Covers(nodes[i := nodes[i].Charge(weight)], listed)
  {
    assert nodes[i] in nodes;
    assert Identity(nodes[i].Charge(weight)) == Identity(nodes[i]);
    assert forall n :: n in nodes[i := nodes[i].Charge(weight)] ==> n in nodes || n == nodes[i].Charge(weight);
  }

  /** A listed node of that name matches the selector. */
  predicate OnMatchingNode(node: string, w: Workload, listed: seq<Node>)
  {
    exists m :: m in listed && m.name == node && Matches(m.labels, w.selector)
  }

  lemma CoveredNodeMatches(n: Node, w: Workload, nodes: seq<Node>, listed: seq<Node>)
    requires Covers(nodes, listed) && n in nodes && Matches(n.labels, w.selector)
    ensures OnMatchingNode(n.name, w, listed)
  {
    var i :| 0 <= i < |Identities(listed)| && Identities(listed)[i] == Identity(n);
    assert listed[i] in listed && listed[i].name == n.name && listed[i].labels == n.labels;
  }

  /** The placements `w` adds are its ordinals 0, 1, 2, ... on listed nodes that match its selector. */
  ghost predicate GoodSegment(seg: seq<Placement>, w: Workload, listed: seq<Node>)
  {
    forall k {:trigger seg[k]} :: 0 <= k < |seg| ==>
      && seg[k].workload == w.name && seg[k].ordinal == k
      && OnMatchingNode(seg[k].node, w, listed)
  }

  /** `done` extends `base` by placements of `w` for the first ordinals, up to `count` of them, and stops short of that
      only when no node fits any more. */
  ghost predicate GoodSoFar(base: seq<Placement>, done: Work, w: Workload, count: nat, listed: seq<Node>)
  {
    && Covers(done.nodes, listed)
    && |base| <= |done.placed| && done.placed[..|base|] == base
    && GoodSegment(done.placed[|base|..], w, listed)
    && (|done.placed| - |base| < count ==> FirstFit(done.nodes, w).None?)
    && |done.placed| - |base| <= count
  }

  lemma OneMoreIsGood(base: seq<Placement>, prev: Work, w: Workload, count: nat, listed: seq<Node>)
    requires GoodSoFar(base, prev, w, count, listed)
    ensures GoodSoFar(base, PlaceOne(prev, w, count), w, count + 1, listed)
  {
    match FirstFit(prev.nodes, w)
    case None =>
    case Some(i) =>
      var n := prev.nodes[i];
      ChargeCovers(prev.nodes, listed, i, w.weight);
      CoveredNodeMatches(n, w, prev.nodes, listed);
      var p := Placement(w.name, n.name, count);
      assert (prev.placed + [p])[|base|..] == prev.placed[|base|..] + [p];
  }

  lemma {:induction false} ReplicasMakeGoodSegment(work: Work, w: Workload, count: nat, listed: seq<Node>)
    requires Covers(work.nodes, listed)
    ensures GoodSoFar(work.placed, PlaceReplicas(work, w, count), w, count, listed)
  {
    if count > 0 {
      ReplicasMakeGoodSegment(work, w, count - 1, listed);
      OneMoreIsGood(work.placed, PlaceReplicas(work, w, count - 1), w, count - 1, listed);
    }
  }

  /** The placements made for the workload with index `j` of the sorted list. */
  function Segment(in_: Snapshot, j: nat): seq<Placement>
    requires j < |in_.workloads|
  {
    var before, after := Turn(in_, j).placed, Turn(in_, j + 1).placed;
    if |before| <= |after| then after[|before|..] else []
  }

  lemma {:induction false} TurnCovers(in_: Snapshot, j: nat)
    requires j <= |in_.workloads|
    ensures Covers(Turn(in_, j).nodes, in_.nodes)
  {
    if j == 0 {
      ListedCovers(in_.nodes);
      SortCovers(in_.nodes, in_.nodes);
    } else {
      TurnCovers(in_, j - 1);
      var w := Sort(in_.workloads, WorkloadBefore)[j - 1];
      ReplicasMakeGoodSegment(Turn(in_, j - 1), w, Replicas(w), in_.nodes);
      SortCovers(PlaceReplicas(Turn(in_, j - 1), w, Replicas(w)).nodes, in_.nodes);
    }
  }

  lemma TurnExtends(in_: Snapshot, j: nat)
    requires j < |in_.workloads|
    ensures Turn(in_, j + 1).placed == Turn(in_, j).placed + Segment(in_, j)
    ensures GoodSegment(Segment(in_, j), Sort(in_.workloads, WorkloadBefore)[j], in_.nodes)
  {
    var w := Sort(in_.workloads, WorkloadBefore)[j];
    TurnCovers(in_, j);
    ReplicasMakeGoodSegment(Turn(in_, j), w, Replicas(w), in_.nodes);
  }

  /** The placements of the plan that belong to one workload name. */
  function Of(ps: seq<Placement>, name: string): seq<Placement>
  {
    if ps == [] then []
    else Of(ps[..|ps| - 1], name) + (if ps[|ps| - 1].workload == name then [ps[|ps| - 1]] else [])
  }

  lemma {:induction false} OfConcat(a: seq<Placement>, b: seq<Placement>, name: string)
    ensures Of(a + b, name) == Of(a, name) + Of(b, name)
  {
    if b == [] {
      assert a + b == a;
    } else {
      assert (a + b)[..|a + b| - 1] == a + b[..|b| - 1];
      OfConcat(a, b[..|b| - 1], name);
    }
  }

  lemma {:induction false} OfUniform(ps: seq<Placement>, name: string, own: bool)
    requires forall p :: p in ps ==> (p.workload == name) == own
    ensures Of(ps, name) == if own then ps else []
  {
    if ps != [] {
      assert ps == ps[..|ps| - 1] + [ps[|ps| - 1]];
      OfUniform(ps[..|ps| - 1], name, own);
    }
  }

  lemma SortedWorkloadsAreDistinct(ws: seq<Workload>, i: nat, j: nat)
    requires DistinctWorkloads(ws) && i < |ws| && j < |ws| && i != j
    ensures Sort(ws, WorkloadBefore)[i].name != Sort(ws, WorkloadBefore)[j].name
  {
    var name := (w: Workload) => w.name;
    var sorted := Sort(ws, WorkloadBefore);
    SortElements(ws, WorkloadBefore);
    DistinctIsPermutable(ws, sorted, name);
    assert name(sorted[i]) != name(sorted[j]);
  }

  lemma SegmentIsUniform(in_: Snapshot, i: nat, j: nat)
    requires i < |in_.workloads| && j < |in_.workloads| && DistinctWorkloads(in_.workloads)
    ensures forall p :: p in Segment(in_, i) ==> (p.workload == Sort(in_.workloads, WorkloadBefore)[j].name) == (i == j)
  {
    TurnExtends(in_, i);
    if i != j {
      SortedWorkloadsAreDistinct(in_.workloads, i, j);
    }
  }

  /** A turn's placements are its own workload's only. */
  lemma OfSegment(in_: Snapshot, t: nat, j: nat)
    requires j < |in_.workloads| && t < |in_.workloads| && DistinctWorkloads(in_.workloads)
    ensures Of(Segment(in_, t), Sort(in_.workloads, WorkloadBefore)[j].name) == if t == j then Segment(in_, t) else []
  {
    SegmentIsUniform(in_, t, j);
    OfUniform(Segment(in_, t), Sort(in_.workloads, WorkloadBefore)[j].name, t == j);
  }

  lemma AddedOnce(before: seq<Placement>, added: seq<Placement>, seg: seq<Placement>, j: nat, t: nat)
    requires before == if j < t then seg else []
    requires added == if t == j then seg else []
    ensures before + added == if j < t + 1 then seg else []
  {
  }

  /** The placements of a name among segments put together, when only segment `j` has any. */
  lemma {:induction false} OfJoined(turns: seq<seq<Placement>>, segs: seq<seq<Placement>>, name: string, j: nat, t: nat)
    requires |turns| == |segs| + 1 && turns[0] == [] && t <= |segs| && j < |segs|
    requires forall u :: 0 <= u < |segs| ==> turns[u + 1] == turns[u] + segs[u]
    requires forall u :: 0 <= u < |segs| ==> Of(segs[u], name) == if u == j then segs[j] else []
    ensures Of(turns[t], name) == if j < t then segs[j] else []
  {
    if t > 0 {
      OfJoined(turns, segs, name, j, t - 1);
      OfConcat(turns[t - 1], segs[t - 1], name);
      assert turns[t - 1 + 1] == turns[t - 1] + segs[t - 1];
      AddedOnce(Of(turns[t - 1], name), Of(segs[t - 1], name), segs[j], j, t - 1);
    }
  }

  /** The placements made in each turn. */
  function Segments(in_: Snapshot): (segs: seq<seq<Placement>>)
    ensures |segs| == |in_.workloads|
  {
    seq(|in_.workloads|, u requires 0 <= u < |in_.workloads| => Segment(in_, u))
  }

  /** The placements made before each turn, and at the end. */
  function Placings(in_: Snapshot): (turns: seq<seq<Placement>>)
    ensures |turns| == |in_.workloads| + 1
  {
    seq(|in_.workloads| + 1, u requires 0 <= u <= |in_.workloads| => Turn(in_, u).placed)
  }

  lemma PlacingsGrow(in_: Snapshot)
    ensures Placings(in_)[0] == []
    ensures forall u :: 0 <= u < |in_.workloads| ==> Placings(in_)[u + 1] == Placings(in_)[u] + Segments(in_)[u]
  {
    forall u | 0 <= u < |in_.workloads| ensures Placings(in_)[u + 1] == Placings(in_)[u] + Segments(in_)[u] {
      TurnExtends(in_, u);
    }
  }

  lemma OfTurns(in_: Snapshot, j: nat, t: nat, name: string)
    requires j < |in_.workloads| && t <= |in_.workloads|
    requires forall u :: 0 <= u < |in_.workloads| ==>
               Of(Segments(in_)[u], name) == if u == j then Segments(in_)[j] else []
    ensures Of(Turn(in_, t).placed, name) == if j < t then Segments(in_)[j] else []
  {
    PlacingsGrow(in_);
    OfJoined(Placings(in_), Segments(in_), name, j, t);
    assert Placings(in_)[t] == Turn(in_, t).placed;
  }

  lemma OfTurn(in_: Snapshot, j: nat, t: nat)
    requires j < |in_.workloads| && t <= |in_.workloads| && DistinctWorkloads(in_.workloads)
    ensures Of(Turn(in_, t).placed, Sort(in_.workloads, WorkloadBefore)[j].name)
         == if j < t then Segment(in_, j) else []
  {
    forall u | 0 <= u < |in_.workloads|
      ensures Of(Segments(in_)[u], Sort(in_.workloads, WorkloadBefore)[j].name)
           == if u == j then Segments(in_)[j] else [] {
      OfSegment(in_, u, j);
    }
    OfTurns(in_, j, t, Sort(in_.workloads, WorkloadBefore)[j].name);
  }

  // ----- the phase

  /** Nothing is asked for, or no listed node fits. */
  predicate Unplaceable(w: Workload, nodes: seq<Node>)
  {
    w.replicas <= 0 || forall n :: n in nodes ==> !Fits(n, w)
  }

  lemma {:induction false} PlacesNothingIff(work: Work, w: Workload, count: nat)
    ensures |PlaceReplicas(work, w, count).placed| >= |work.placed|
    ensures PlaceReplicas(work, w, count) == work <==> count == 0 || FirstFit(work.nodes, w).None?
    ensures PlaceReplicas(work, w, count) != work ==> |PlaceReplicas(work, w, count).placed| > |work.placed|
  {
    if count > 0 {
      PlacesNothingIff(work, w, count - 1);
    }
  }

  /** A workload whose turn finds the listed nodes gets nothing if and only if it cannot be placed. */
  lemma TurnPlacesNothingIff(work: Work, w: Workload, listed: seq<Node>)
    requires work.placed == [] && multiset(work.nodes) == multiset(listed)
    ensures PlaceWorkload(work, w).placed == [] <==> Unplaceable(w, listed)
    ensures Unplaceable(w, listed) ==> multiset(PlaceWorkload(work, w).nodes) == multiset(listed)
  {
    SameElements(work.nodes, listed);
    PlacesNothingIff(work, w, Replicas(w));
    SortElements(PlaceReplicas(work, w, Replicas(w)).nodes, NodeBefore);
  }

  predicate NonePlaceable(ws: seq<Workload>, j: nat, nodes: seq<Node>)
    requires j <= |ws|
  {
    forall k :: 0 <= k < j ==> Unplaceable(ws[k], nodes)
  }

  lemma NonePlaceableOneMore(ws: seq<Workload>, j: nat, nodes: seq<Node>)
    requires j < |ws|
    ensures NonePlaceable(ws, j + 1, nodes) <==> NonePlaceable(ws, j, nodes) && Unplaceable(ws[j], nodes)
  {
  }

  lemma {:induction false} NothingPlacedIff(in_: Snapshot, j: nat)
    requires j <= |in_.workloads|
    ensures Turn(in_, j).placed == [] <==> NonePlaceable(Sort(in_.workloads, WorkloadBefore), j, in_.nodes)
    ensures Turn(in_, j).placed == [] ==> multiset(Turn(in_, j).nodes) == multiset(in_.nodes)
  {
    if j == 0 {
      SortElements(in_.nodes, NodeBefore);
    } else {
      var ws, before := Sort(in_.workloads, WorkloadBefore), Turn(in_, j - 1);
      NothingPlacedIff(in_, j - 1);
      NonePlaceableOneMore(ws, j - 1, in_.nodes);
      NextTurn(in_, j - 1);
      if before.placed == [] {
        TurnPlacesNothingIff(before, ws[j - 1], in_.nodes);
      } else {
        PlacesNothingIff(before, ws[j - 1], Replicas(ws[j - 1]));
      }
    }
  }

  /** No plan is ever stalled, however many replicas found no node: a plan waits if and only if there are workloads
      and none of them can be placed on the listed nodes, and is ready otherwise. */
  lemma PlanWaitsIff(in_: Snapshot, now: int)
    ensures PlanOf(in_, now).phase != Stalled
    ensures PlanOf(in_, now).phase == Waiting
       <==> in_.workloads != [] && forall w :: w in in_.workloads ==> Unplaceable(w, in_.nodes)
  {
    var ws := Sort(in_.workloads, WorkloadBefore);
    NothingPlacedIff(in_, |in_.workloads|);
    SortElements(in_.workloads, WorkloadBefore);
    SameElements(in_.workloads, ws);
    assert forall k :: 0 <= k < |ws| ==> ws[k] in ws;
    assert NonePlaceable(ws, |ws|, in_.nodes) <==> forall w :: w in in_.workloads ==> Unplaceable(w, in_.nodes);
  }

  /** A plan that leaves a replica without a node is ready all the same. */
  lemma ShortPlanIsReady(n: string, w: string, now: int)
    ensures var in_ := Snapshot(0, [Node(n, "", 1, 0, map[])], [Workload(w, 2, 1, map[])], [], Waiting, Blank);
      PlanOf(in_, now).placements == [Placement(w, n, 0)] && PlanOf(in_, now).phase == Ready
  {
    var node, load := Node(n, "", 1, 0, map[]), Workload(w, 2, 1, map[]);
    var in_ := Snapshot(0, [node], [load], [], Waiting, Blank);
    SortOfOne(node, NodeBefore);
    SortOfOne(load, WorkloadBefore);
    var start := Work([node], []);
    assert Turn(in_, 0) == start;
    assert FirstFit([node], load) == Some(0);
    assert PlaceReplicas(start, load, 0) == start;
    var one := PlaceReplicas(start, load, 1);
    assert one == Work([node.Charge(1)], [Placement(w, n, 0)]);
    assert FirstFit(one.nodes, load) == None;
    assert PlaceReplicas(start, load, 2) == one;
    NextTurn(in_, 0);
  }

  /** How many replicas of `w` there is room for, given the loads at its turn. */
  ghost function Room(nodes: seq<Node>, w: Workload): nat
  {
    if w.weight > 0 then TotalSlots(nodes, w)
    else if exists n :: n in nodes && Fits(n, w) then Max(0, w.replicas)
    else 0
  }

  /** The plan places every workload as often as there is room at its turn, up to its replica count, with
      the ordinals 0, 1, 2, ... on listed nodes that match its selector. */
  lemma PlanPlacesAsManyAsFit(in_: Snapshot, now: int, j: nat)
    requires DistinctWorkloads(in_.workloads) && j < |in_.workloads|
    ensures var w := Sort(in_.workloads, WorkloadBefore)[j];
      var own := Of(PlanOf(in_, now).placements, w.name);
      && |own| == Min(Max(0, w.replicas), Room(Turn(in_, j).nodes, w))
      && GoodSegment(own, w, in_.nodes)
  {
    var w := Sort(in_.workloads, WorkloadBefore)[j];
    OfTurn(in_, j, |in_.workloads|);
    TurnExtends(in_, j);
    if w.weight > 0 {
      PlacedSoFar(Turn(in_, j), w, Replicas(w));
    } else {
      WeightlessPlacedSoFar(Turn(in_, j), w, Replicas(w));
    }
  }

  /** A turn that begins with the nodes sorted gives its first replica to a node that fits. */
  lemma {:induction false} FirstReplica(work: Work, w: Workload, count: nat)
    requires count > 0
    ensures var done := PlaceReplicas(work, w, count);
      match FirstFit(work.nodes, w)
      case None => done == work
      case Some(i) => |done.placed| > |work.placed| && done.placed[|work.placed|].node == work.nodes[i].name
  {
    if count > 1 {
      FirstReplica(work, w, count - 1);
    }
  }

  lemma SortedByFree(nodes: seq<Node>)
    ensures ByFree(Sort(nodes, NodeBefore))
  {
    forall i, j | 0 <= i < j < |nodes|
      ensures var s := Sort(nodes, NodeBefore); s[i].capacity - s[i].used >= s[j].capacity - s[j].used {
      FreestFirst(nodes, i, j);
    }
  }

  lemma TurnIsSorted(in_: Snapshot, j: nat)
    requires j <= |in_.workloads|
    ensures ByFree(Turn(in_, j).nodes)
  {
    if j == 0 {
      SortedByFree(in_.nodes);
    } else {
      NextTurn(in_, j - 1);
      var w := Sort(in_.workloads, WorkloadBefore)[j - 1];
      SortedByFree(PlaceReplicas(Turn(in_, j - 1), w, Replicas(w)).nodes);
    }
  }

  /** With the freest node first, the first one that fits is the freest that fits. */
  lemma FirstFitIsFreest(nodes: seq<Node>, w: Workload, m: Node)
    requires ByFree(nodes) && m in nodes && Fits(m, w)
    ensures FirstFit(nodes, w).Some?
    ensures var n := nodes[FirstFit(nodes, w).value]; m.capacity - m.used <= n.capacity - n.used
  {
    var b :| 0 <= b < |nodes| && nodes[b] == m;
  }

  /** At every turn, the first replica goes to a node that fits and has the most free capacity of those that fit at that
      turn. */
  lemma FirstGoesToTheFreest(in_: Snapshot, j: nat) returns (n: Node)
    requires j < |in_.workloads| && Segment(in_, j) != []
    ensures var w := Sort(in_.workloads, WorkloadBefore)[j];
      && n in Turn(in_, j).nodes && Fits(n, w) && Segment(in_, j)[0].node == n.name
      && forall m :: m in Turn(in_, j).nodes && Fits(m, w) ==> m.capacity - m.used <= n.capacity - n.used
  {
    var w, work := Sort(in_.workloads, WorkloadBefore)[j], Turn(in_, j);
    NextTurn(in_, j);
    TurnExtends(in_, j);
    if Replicas(w) > 0 {
      FirstReplica(work, w, Replicas(w));
    }
    n := work.nodes[FirstFit(work.nodes, w).value];
    TurnIsSorted(in_, j);
    forall m | m in work.nodes && Fits(m, w) ensures m.capacity - m.used <= n.capacity - n.used {
      FirstFitIsFreest(work.nodes, w, m);
    }
  }

  // ----- no overload

  /** The weight of the first workload with a name. */
  function WeightOf(ws: seq<Workload>, name: string): int
  {
    if ws == [] then 0 else if ws[0].name == name then ws[0].weight else WeightOf(ws[1..], name)
  }

  lemma {:induction false} WeightOfMember(ws: seq<Workload>, w: Workload)
    requires DistinctWorkloads(ws) && w in ws
    ensures WeightOf(ws, w.name) == w.weight
  {
    if w != ws[0] {
      var j :| 0 <= j < |ws| && ws[j] == w;
      assert ws[0].name != ws[j].name;
      WeightOfMember(ws[1..], w);
    }
  }

  /** The weight that placements put on a node. */
  function LoadOn(ps: seq<Placement>, node: string, ws: seq<Workload>): int
  {
    if ps == [] then 0
    else
      var p := ps[|ps| - 1];
      LoadOn(ps[..|ps| - 1], node, ws) + (if p.node == node then WeightOf(ws, p.workload) else 0)
  }

  predicate PlacedOn(ps: seq<Placement>, node: string) { exists p :: p in ps && p.node == node }

  /** A listed node with what the placements put on it. */
  function Carrying(m: Node, ps: seq<Placement>, ws: seq<Workload>): Node
  {
    m.Charge(LoadOn(ps, m.name, ws))
  }

  /** Working node names are distinct, every listed node carries what was placed on it, and no node with a
      placement is overloaded. */
  ghost predicate Charged(work: Work, in_: Snapshot)
  {
    && (forall i, j :: 0 <= i < j < |work.nodes| ==> work.nodes[i].name != work.nodes[j].name)
    && (forall m :: m in in_.nodes ==> Carrying(m, work.placed, in_.workloads) in work.nodes)
    && (forall n :: n in work.nodes && PlacedOn(work.placed, n.name) ==> n.Free() >= 0)
  }

  lemma CarryingMore(m: Node, ps: seq<Placement>, p: Placement, ws: seq<Workload>)
    ensures Carrying(m, ps + [p], ws)
         == if p.node == m.name then Carrying(m, ps, ws).Charge(WeightOf(ws, p.workload)) else Carrying(m, ps, ws)
  {
    assert (ps + [p])[..|ps|] == ps;
  }

  lemma ChargeKeepsCarrying(work: Work, in_: Snapshot, w: Workload, i: nat, p: Placement, m: Node)
    requires Charged(work, in_) && i < |work.nodes|
    requires WeightOf(in_.workloads, w.name) == w.weight
    requires p.workload == w.name && p.node == work.nodes[i].name
    requires m in in_.nodes
    ensures Carrying(m, work.placed + [p], in_.workloads) in work.nodes[i := work.nodes[i].Charge(w.weight)]
  {
    CarryingMore(m, work.placed, p, in_.workloads);
    var c := Carrying(m, work.placed, in_.workloads);
    var nodes := work.nodes[i := work.nodes[i].Charge(w.weight)];
    var j :| 0 <= j < |work.nodes| && work.nodes[j] == c;
    assert nodes[j] in nodes;
    if j != i {
      assert work.nodes[j].name != work.nodes[i].name;
    }
  }

  lemma ChargeKeepsCharged(work: Work, in_: Snapshot, w: Workload, i: nat, p: Placement)
    requires Charged(work, in_)
    requires i < |work.nodes| && Fits(work.nodes[i], w)
    requires WeightOf(in_.workloads, w.name) == w.weight
    requires p.workload == w.name && p.node == work.nodes[i].name
    ensures Charged(Work(work.nodes[i := work.nodes[i].Charge(w.weight)], work.placed + [p]), in_)
  {
    var nodes, placed := work.nodes[i := work.nodes[i].Charge(w.weight)], work.placed + [p];
    forall m | m in in_.nodes ensures Carrying(m, placed, in_.workloads) in nodes {
      ChargeKeepsCarrying(work, in_, w, i, p, m);
    }
    forall x | x in nodes && PlacedOn(placed, x.name) ensures x.Free() >= 0 {
      var j :| 0 <= j < |nodes| && nodes[j] == x;
      if j != i {
        assert x.name != work.nodes[i].name && x in work.nodes;
        var q :| q in placed && q.node == x.name;
        assert q in work.placed;
      }
    }
  }

  lemma SortKeepsCharged(work: Work, in_: Snapshot)
    requires Charged(work, in_)
    ensures Charged(Work(Sort(work.nodes, NodeBefore), work.placed), in_)
  {
    var sorted := Sort(work.nodes, NodeBefore);
    SortElements(work.nodes, NodeBefore);
    SameElements(work.nodes, sorted);
    var name := (n: Node) => n.name;
    assert DistinctKeys(work.nodes, name);
    DistinctIsPermutable(work.nodes, sorted, name);
    assert forall i, j :: 0 <= i < j < |sorted| ==> name(sorted[i]) != name(sorted[j]);
  }

  lemma {:induction false} ReplicasKeepCharged(work: Work, in_: Snapshot, w: Workload, count: nat)
    requires Charged(work, in_)
    requires WeightOf(in_.workloads, w.name) == w.weight
    ensures Charged(PlaceReplicas(work, w, count), in_)
  {
    if count > 0 {
      ReplicasKeepCharged(work, in_, w, count - 1);
      var prev := PlaceReplicas(work, w, count - 1);
      match FirstFit(prev.nodes, w)
      case None =>
      case Some(i) => ChargeKeepsCharged(prev, in_, w, i, Placement(w.name, prev.nodes[i].name, count - 1));
    }
  }

  lemma {:induction false} TurnIsCharged(in_: Snapshot, j: nat)
    requires DistinctNodes(in_.nodes) && DistinctWorkloads(in_.workloads)
    requires j <= |in_.workloads|
    ensures Charged(Turn(in_, j), in_)
  {
    if j == 0 {
      assert forall m :: m in in_.nodes ==> Carrying(m, [], in_.workloads) == m;
      assert Charged(Work(in_.nodes, []), in_);
      SortKeepsCharged(Work(in_.nodes, []), in_);
    } else {
      TurnIsCharged(in_, j - 1);
      var ws := Sort(in_.workloads, WorkloadBefore);
      SortElements(in_.workloads, WorkloadBefore);
      SameElements(in_.workloads, ws);
      assert ws[j - 1] in ws;
      WeightOfMember(in_.workloads, ws[j - 1]);
      ReplicasKeepCharged(Turn(in_, j - 1), in_, ws[j - 1], Replicas(ws[j - 1]));
      SortKeepsCharged(PlaceReplicas(Turn(in_, j - 1), ws[j - 1], Replicas(ws[j - 1])), in_);
    }
  }

  /** Over the whole plan, whatever the weights, no node that receives a placement ends above its capacity. */
  lemma PlanNeverOverloads(in_: Snapshot, now: int, m: Node)
    requires DistinctNodes(in_.nodes) && DistinctWorkloads(in_.workloads)
    requires m in in_.nodes && PlacedOn(PlanOf(in_, now).placements, m.name)
    ensures m.used + LoadOn(PlanOf(in_, now).placements, m.name, in_.workloads) <= m.capacity
  {
    TurnIsCharged(in_, |in_.workloads|);
    var done := Turn(in_, |in_.workloads|);
    var n := Carrying(m, done.placed, in_.workloads);
    assert n in done.nodes && n.Free() >= 0;
  }

  // ----- the plan as a function of the cluster

  lemma ListsForgetOrder(a: Snapshot, b: Snapshot)
    requires DistinctNodes(a.nodes) && DistinctWorkloads(a.workloads)
    requires multiset(a.nodes) == multiset(b.nodes) && multiset(a.workloads) == multiset(b.workloads)
    ensures Sort(a.nodes, NodeBefore) == Sort(b.nodes, NodeBefore)
    ensures Sort(a.workloads, WorkloadBefore) == Sort(b.workloads, WorkloadBefore)
  {
    OrdersAreWeak();
    OrdersAreTotal(a.nodes, a.workloads);
    SortForgetsOrder(a.nodes, b.nodes, NodeBefore);
    SortForgetsOrder(a.workloads, b.workloads, WorkloadBefore);
  }

  lemma {:induction false} TurnForgetsOrder(a: Snapshot, b: Snapshot, j: nat)
    requires DistinctNodes(a.nodes) && DistinctWorkloads(a.workloads)
    requires multiset(a.nodes) == multiset(b.nodes) && multiset(a.workloads) == multiset(b.workloads)
    requires j <= |a.workloads| == |b.workloads|
    ensures Turn(a, j) == Turn(b, j)
  {
    ListsForgetOrder(a, b);
    if j > 0 {
      TurnForgetsOrder(a, b, j - 1);
    }
  }

  /** The placements do not depend on the order in which nodes or workloads are listed, nor on the old
      placements, phase, message, revision or time. */
  lemma PlanForgetsOrder(a: Snapshot, b: Snapshot, now: int, later: int)
    requires DistinctNodes(a.nodes) && DistinctWorkloads(a.workloads)
    requires multiset(a.nodes) == multiset(b.nodes) && multiset(a.workloads) == multiset(b.workloads)
    ensures PlanOf(a, now).placements == PlanOf(b, later).placements
    ensures PlanOf(a, now).phase == PlanOf(b, later).phase
  {
    SameElements(a.workloads, b.workloads);
    TurnForgetsOrder(a, b, |a.workloads|);
  }

  /** Planning again from the produced snapshot changes nothing but the time. */
  lemma {:induction false} PlanIsIdempotent(in_: Snapshot, now: int, later: int)
    ensures PlanOf(PlanOf(in_, now), later) == PlanOf(in_, now).(message := PlannedAt(later))
  {
    TurnIgnoresOutputs(in_, PlanOf(in_, now), |in_.workloads|);
  }

  lemma {:induction false} TurnIgnoresOutputs(a: Snapshot, b: Snapshot, j: nat)
    requires a.nodes == b.nodes && a.workloads == b.workloads && j <= |a.workloads|
    ensures Turn(a, j) == Turn(b, j)
  {
    if j > 0 {
      TurnIgnoresOutputs(a, b, j - 1);
    }
  }
}
