/** The coordinator object: shared node objects updated in place, and the two halves of a dispatch as two
    methods, each proved against one step of the state machine. */
module Coordinator {
  import opened Common
  import opened Sorting
  import opened CoordinatorSpec

  class NodeState {
    ghost const serial: nat      // the number of node objects made before this one
    const nodeId: string
    const role: Role
    const capabilities: set<string>
    var status: Status
    var load: nat

    constructor (ghost serial: nat, nodeId: string, role: Role, capabilities: set<string>)
      ensures this.serial == serial && this.nodeId == nodeId
      ensures View() == Node(nodeId, role, capabilities, Ready, 0)
    {
      this.serial := serial;
      this.nodeId := nodeId;
      this.role := role;
      this.capabilities := capabilities;
      status := Ready;
      load := 0;
    }

    function View(): Node
      reads this
    {
      Node(nodeId, role, capabilities, status, load)
    }
  }

  /** A suspended dispatch and the node object it captured. */
  datatype Pending = Pending(command: string, actions: seq<string>, target: NodeState)

  datatype Receipt = Accepted(command: string, node: string, acknowledged: nat) | Denied(command: string)

  /** What the first half of a dispatch gives: an answer, or a suspended dispatch. */
  datatype Started = Answered(receipt: Receipt) | Suspended(flight: nat)

  ghost function Views(objects: seq<NodeState>): (vs: seq<Node>)
    reads objects
    ensures |vs| == |objects| && forall i :: 0 <= i < |objects| ==> vs[i] == objects[i].View()
  {
    seq(|objects|, i requires 0 <= i < |objects| reads objects => objects[i].View())
  }

  ghost function Serials(nodes: map<string, NodeState>): (m: map<string, nat>)
    ensures m.Keys == nodes.Keys && forall n :: n in nodes ==> m[n] == nodes[n].serial
  {
    map n | n in nodes :: nodes[n].serial
  }

  ghost function FlightView(p: Option<Pending>): Option<Flight>
  {
    match p case Some(x) => Some(Flight(x.command, x.actions, x.target.serial)) case None => None
  }

  ghost function FlightViews(flights: seq<Option<Pending>>): (fs: seq<Option<Flight>>)
    ensures |fs| == |flights| && forall f :: 0 <= f < |fs| ==> fs[f] == FlightView(flights[f])
  {
    seq(|flights|, f requires 0 <= f < |flights| => FlightView(flights[f]))
  }

  class CommandCoordinator {
    var nodes: map<string, NodeState>
    var leases: map<string, Lease>
    var journal: seq<Event>
    var sequence: nat
    var flights: seq<Option<Pending>>
    ghost var objects: seq<NodeState>   // every node object made so far

    ghost predicate Valid()
      reads this
    {
      && (forall i :: 0 <= i < |objects| ==> objects[i].serial == i)
      && (forall n :: n in nodes ==>
            nodes[n].serial < |objects| && objects[nodes[n].serial] == nodes[n] && nodes[n].nodeId == n)
      && (forall f :: 0 <= f < |flights| && flights[f].Some? ==>
            && flights[f].value.target.serial < |objects|
            && objects[flights[f].value.target.serial] == flights[f].value.target)
    }

    ghost function View(): State
      reads this, objects
    {
      State(Views(objects), Serials(nodes), leases, journal, sequence, FlightViews(flights))
    }

    constructor ()
      ensures Valid() && View() == INITIAL
    {
      nodes := map[];
      leases := map[];
      journal := [];
      sequence := 0;
      flights := [];
      objects := [];
    }

    method Log(kind: string, subject: string)
      requires Valid()
      modifies this`journal, this`sequence
      ensures Valid() && View() == CoordinatorSpec.Log(old(View()), kind, subject)
    {
      sequence := sequence + 1;
      journal := journal + [Event(sequence, kind, subject)];
      if |journal| > JOURNAL_LIMIT {
        journal := journal[1..];
      }
    }

    /** Register a new object under a new name. */
    method Register(id: string, role: Role, capabilities: set<string>)
      requires Valid() && id !in nodes
      modifies this`nodes, this`objects
      ensures Valid()
      ensures View() == old(View()).(
                objs := old(View()).objs + [Node(id, role, capabilities, Ready, 0)],
                nodes := old(View()).nodes[id := |old(objects)|])
    {
      var node := new NodeState(|objects|, id, role, capabilities);
      nodes := nodes[id := node];
      objects := objects + [node];
      assert Views(objects) == old(Views(objects)) + [node.View()];
      assert Serials(nodes) == old(Serials(nodes))[id := |old(objects)|];
    }

    method AddNode(id: string, role: Role, capabilities: set<string>) returns (ok: bool)
      requires Valid()
      modifies this
      ensures Valid() && View() == Step(old(View()), CoordinatorSpec.AddNode(id, role, capabilities))
      ensures ok == (ProtocolId(id) && id !in old(nodes))
    {
      if !ProtocolId(id) || id in nodes {
        return false;
      }
      Register(id, role, capabilities);
      Log("node.joined", id);
      return true;
    }

    method RemoveNode(id: string)
      requires Valid()
      modifies this
      ensures Valid() && View() == Step(old(View()), CoordinatorSpec.RemoveNode(id))
    {
      if id !in nodes {
        return;
      }
      nodes := nodes - {id};
      assert Serials(nodes) == old(Serials(nodes)) - {id};
      leases := map c | c in leases && leases[c].node != id :: leases[c];
      assert Views(objects) == old(Views(objects));
      assert View() == old(View()).(nodes := old(View()).nodes - {id}, leases := LeasesElsewhere(old(leases), id));
      Log("node.left", id);
    }

    /** One candidate against the request. */
    predicate Fits(r: Request, n: NodeState)
      reads n
    {
      n.status == Ready && (r.role.Some? ==> n.role == r.role.value) && r.capabilities <= n.capabilities
    }

    lemma FitsIsEligible(r: Request, n: string)
      requires Valid() && n in nodes
      ensures Fits(r, nodes[n]) <==> Eligible(View(), r, n)
      ensures Registered(View(), n) && NodeAt(View(), n) == nodes[n].View()
    {
    }

    /** The first of the eligible nodes by load and name, whatever order the dictionary lists them in. */
    method SelectNode(r: Request) returns (best: Option<NodeState>)
      requires Valid()
      ensures match best
              case Some(n) => n.nodeId in nodes && nodes[n.nodeId] == n && Select(View(), r) == Some(n.nodeId)
              case None => Select(View(), r) == None
    {
      best := None;
      var rest := nodes.Keys;
      ghost var order: seq<string> := [];
      ghost var s := View();
      while rest != {}
        invariant forall n :: n in order || n in rest <==> n in nodes
        invariant best.Some? ==> best.value.nodeId in nodes && nodes[best.value.nodeId] == best.value
        invariant NameOf(best) == BestOf(s, r, order)
        decreases |rest|
      {
        var id :| id in rest;
        OneMoreCompared(s, r, order, id);
        best := Compare(s, r, best, id);
        rest := rest - {id};
        order := order + [id];
      }
      ComparingSelects(s, r, order);
    }

    static lemma OneMoreCompared(s: State, r: Request, order: seq<string>, id: string)
      ensures BestOf(s, r, order + [id]) == Better(s, r, BestOf(s, r, order), id)
    {
      assert (order + [id])[..|order|] == order;
    }

    static function NameOf(n: Option<NodeState>): Option<string>
    {
      match n case Some(x) => Some(x.nodeId) case None => None
    }

    /** The better of the best node so far and one more. */
    method Compare(ghost s: State, r: Request, best: Option<NodeState>, id: string) returns (next: Option<NodeState>)
      requires Valid() && s == View() && id in nodes
      requires best.Some? ==> best.value.nodeId in nodes && nodes[best.value.nodeId] == best.value
      ensures next.Some? ==> next.value.nodeId in nodes && nodes[next.value.nodeId] == next.value
      ensures NameOf(next) == Better(s, r, NameOf(best), id)
    {
      FitsIsEligible(r, id);
      var n := nodes[id];
      if !Fits(r, n) {
        return best;
      }
      if best.None? {
        return Some(n);
      }
      var b := best.value;
      FitsIsEligible(r, b.nodeId);
      if n.load < b.load || (n.load == b.load && TextBefore(id, b.nodeId)) {
        return Some(n);
      }
      return best;
    }

    /** The coordinator is as before but for the state of one node object. */
    twostate lemma OneNodeChanged(n: NodeState)
      requires old(Valid()) && unchanged(this) && n.serial < |objects| && objects[n.serial] == n
      requires forall m :: m in objects && m != n ==> unchanged(m)
      ensures View() == old(View()).(objs := old(View()).objs[n.serial := n.View()])
    {
      forall i | 0 <= i < |objects| ensures Views(objects)[i] == old(Views(objects))[n.serial := n.View()][i] {
        if i != n.serial {
          assert objects[i] in objects && objects[i] != n;
        }
      }
    }

    /** Mark a node as reserved with one more command. */
    method Hold(n: NodeState)
      requires Valid() && n.serial < |objects| && objects[n.serial] == n
      modifies n
      ensures Valid()
      ensures View() == old(View()).(
                objs := old(View()).objs[n.serial := old(n.View()).(status := Reserved, load := old(n.load) + 1)])
    {
      n.status := Reserved;
      n.load := n.load + 1;
      OneNodeChanged(n);
    }

    /** Mark a node as ready with one command less, down to none. */
    method Free(n: NodeState)
      requires Valid() && n.serial < |objects| && objects[n.serial] == n
      modifies n
      ensures Valid()
      ensures View() == old(View()).(objs := old(View()).objs[n.serial := Unload(old(n.View()))])
    {
      n.status := Ready;
      n.load := if n.load > 0 then n.load - 1 else 0;
      OneNodeChanged(n);
    }

    /** The status reset and the `finally` block. */
    method Finish(target: NodeState, command: string)
      requires Valid() && target.serial < |objects| && objects[target.serial] == target
      modifies this`leases, target
      ensures Valid() && View() == Settle(old(View()), target.serial, command)
    {
      Free(target);
      leases := leases - {command};
    }

    method AddLease(command: string, lease: Lease)
      requires Valid()
      modifies this`leases
      ensures Valid() && View() == old(View()).(leases := old(leases)[command := lease])
    {
      leases := leases[command := lease];
    }

    /** A reservation is a held node, then a lease. */
    static lemma AssignIs(s: State, r: Request, n: string, now: int, held: State)
      requires Registered(s, n)
      requires held == s.(
                 objs := s.objs[s.nodes[n] := NodeAt(s, n).(status := Reserved, load := NodeAt(s, n).load + 1)])
      ensures held.(leases := held.leases[r.command := Lease(n, now + r.ttl)]) == Assign(s, r, n, now)
    {
    }

    /** Reserve the node and add the lease. */
    method AssignTo(r: Request, target: NodeState, now: int)
      requires Valid() && target.nodeId in nodes && nodes[target.nodeId] == target
      modifies this`leases, target
      ensures Valid() && View() == Assign(old(View()), r, target.nodeId, now)
    {
      ghost var s, i := View(), target.serial;
      assert s.nodes[target.nodeId] == i && s.objs[i] == target.View();
      Hold(target);
      ghost var held := View();
      AssignIs(s, r, target.nodeId, now, held);
      AddLease(r.command, Lease(target.nodeId, now + r.ttl));
    }

    method ReserveFor(r: Request, target: NodeState, now: int)
      requires Valid() && target.nodeId in nodes && nodes[target.nodeId] == target
      modifies this`leases, this`journal, this`sequence, target
      ensures Valid() && View() == Reserve(old(View()), r, target.nodeId, now)
    {
      AssignTo(r, target, now);
      Log("command.leased", r.command);
    }

    /** The checks in front of a reservation, and the choice of a node. */
    method Admit(r: Request) returns (a: Result<NodeState, Denial>)
      requires Valid()
      ensures match a
              case Success(n) => n.nodeId in nodes && nodes[n.nodeId] == n && Admission(View(), r) == Success(n.nodeId)
              case Failure(e) => Admission(View(), r) == Failure(e)
    {
      if !ProtocolId(r.command) {
        return Failure(BadId);
      }
      if r.actions == [] {
        return Failure(EmptyPlan);
      }
      if !SafeActions(r.actions) {
        return Failure(UnsafeAction);
      }
      if r.command in leases {
        return Failure(DuplicateCommand);
      }
      var target := SelectNode(r);
      if target.None? {
        return Failure(NoCapableNode);
      }
      return Success(target.value);
    }

    /** Suspend a dispatch after its reservation. */
    method Suspend(r: Request, target: NodeState) returns (f: nat)
      requires Valid() && target.serial < |objects| && objects[target.serial] == target
      modifies this`flights
      ensures Valid() && f == |old(flights)|
      ensures View() == old(View()).(flights := old(View()).flights
          + [Some(Flight(r.command, r.actions, target.serial))])
    {
      f := |flights|;
      flights := flights + [Some(Pending(r.command, r.actions, target))];
      assert FlightViews(flights) == old(FlightViews(flights)) + [FlightView(flights[f])];
    }

    /** A dispatch up to its `await`. */
    method DispatchStart(r: Request, now: int, cancelled: bool) returns (started: Result<Started, Denial>)
      requires Valid()
      modifies this, objects
      ensures Valid() && View() == DoStart(old(View()), r, now, cancelled)
      ensures match Admission(old(View()), r)
              case Failure(e) => started == Failure(e)
              case Success(_) =>
                started == Success(if cancelled then Answered(Denied(r.command)) else Suspended(|old(flights)|))
    {
      var admitted := Admit(r);
      if admitted.Failure? {
        return Failure(admitted.error);
      }
      var target := admitted.value;
      ReserveFor(r, target, now);
      if cancelled {
        Log("command.cancelled", r.command);
        Finish(target, r.command);
        return Success(Answered(Denied(r.command)));
      }
      var f := Suspend(r, target);
      return Success(Suspended(f));
    }

    /** Take a suspended dispatch off the list. */
    method Wake(f: nat) returns (x: Pending)
      requires Valid() && f < |flights| && flights[f].Some?
      modifies this`flights
      ensures Valid() && x == old(flights)[f].value
      ensures x.target.serial < |objects| && objects[x.target.serial] == x.target
      ensures View() == old(View()).(flights := old(View()).flights[f := None])
    {
      x := flights[f].value;
      flights := flights[f := None];
      assert FlightViews(flights) == old(FlightViews(flights))[f := None];
    }

    /** Acknowledge actions until the token is found cancelled. */
    method Acknowledge(command: string, actions: seq<string>, cancelledAfter: Option<nat>) returns (done: bool)
      requires Valid()
      modifies this`journal, this`sequence
      ensures Valid()
      ensures done == !(cancelledAfter.Some? && cancelledAfter.value < |actions|)
      ensures View() == LogMany(old(View()), "action.acknowledged", command,
                                if done then |actions| else cancelledAfter.value)
    {
      for i := 0 to |actions|
        invariant Valid() && View() == LogMany(old(View()), "action.acknowledged", command, i)
        invariant cancelledAfter.Some? ==> i <= cancelledAfter.value
      {
        if cancelledAfter == Some(i) {
          return false;
        }
        Log("action.acknowledged", command);
      }
      return true;
    }

    /** The rest of a dispatch; the token may be found cancelled before some action. */
    method DispatchResume(f: nat, cancelledAfter: Option<nat>) returns (receipt: Receipt)
      requires Valid() && f < |flights| && flights[f].Some?
      modifies this, objects
      ensures Valid() && View() == DoResume(old(View()), f, cancelledAfter)
      ensures var x := old(flights)[f].value;
        receipt == if cancelledAfter.Some? && cancelledAfter.value < |x.actions| then Denied(x.command)
                   else Accepted(x.command, x.target.nodeId, |x.actions|)
    {
      var x := Wake(f);
      var done := Acknowledge(x.command, x.actions, cancelledAfter);
      if !done {
        Log("command.cancelled", x.command);
      }
      Finish(x.target, x.command);
      receipt := if done then Accepted(x.command, x.target.nodeId, |x.actions|) else Denied(x.command);
    }

    /** Release the node of a lease, if it is still registered, and drop the lease. */
    method ReturnLease(command: string)
      requires Valid() && command in leases
      modifies this`leases, objects
      ensures Valid() && leases == old(leases) - {command}
      ensures var s, n := old(View()), old(leases)[command].node;
        View() == s.(objs := if Registered(s, n) then s.objs[s.nodes[n] := Unload(NodeAt(s, n))] else s.objs,
                     leases := s.leases - {command})
    {
      var n := leases[command].node;
      ghost var s := View();
      if n in nodes {
        assert Registered(s, n) && NodeAt(s, n) == nodes[n].View();
        Free(nodes[n]);
      }
      leases := leases - {command};
    }

    /** The reaping of one lease. */
    method ReapLease(command: string, ghost now: int)
      requires Valid() && command in leases && leases[command].expiresAt <= now
      modifies this`leases, this`journal, this`sequence, objects
      ensures Valid() && View() == DoReap(old(View()), command, now)
      ensures leases == old(leases) - {command}
    {
      ReturnLease(command);
      Log("lease.expired", command);
    }

    /** Reap one of the leases still to be reaped. */
    method ReapNext(ghost before: State, ghost order: seq<string>, command: string, now: int)
      returns (ghost longer: seq<string>)
      requires Valid() && command in leases && leases[command].expiresAt <= now
      requires View() == ReapAll(before, order, now) && command !in order
      requires forall i, j :: 0 <= i < j < |order| ==> order[i] != order[j]
      modifies this`leases, this`journal, this`sequence, objects
      ensures Valid() && View() == ReapAll(before, longer, now)
      ensures longer == order + [command] && leases == old(leases) - {command}
      ensures forall i, j :: 0 <= i < j < |longer| ==> longer[i] != longer[j]
    {
      ReapOneMore(before, order, command, now);
      ReapLease(command, now);
      longer := order + [command];
    }

    /** Reap every expired lease; `order` is the order in which they were reaped. */
    method ReapExpiredLeases(now: int) returns (count: nat, ghost order: seq<string>)
      requires Valid()
      modifies this`leases, this`journal, this`sequence, objects
      ensures Valid() && View() == ReapAll(old(View()), order, now)
      ensures forall c :: c in order <==> c in old(leases) && old(leases)[c].expiresAt <= now
      ensures forall i, j :: 0 <= i < j < |order| ==> order[i] != order[j]
      ensures count == |order|
      ensures leases == map c | c in old(leases) && old(leases)[c].expiresAt > now :: old(leases)[c]
    {
      ghost var before, all := View(), leases;
      var expired := set c | c in leases && leases[c].expiresAt <= now;
      var rest := expired;
      order := [];
      count := 0;
      while rest != {}
        invariant Valid() && objects == old(objects) && View() == ReapAll(before, order, now)
        invariant rest <= expired && leases == all - (expired - rest)
        invariant (forall c :: c in order <==> c in expired - rest) && count == |order|
        invariant forall i, j :: 0 <= i < j < |order| ==> order[i] != order[j]
        decreases rest
      {
        var c :| c in rest;
        order := ReapNext(before, order, c, now);
        rest := rest - {c};
        count := count + 1;
      }
    }
  }

  ghost function ReapAll(s: State, order: seq<string>, now: int): State
  {
    if order == [] then s else Step(ReapAll(s, order[..|order| - 1], now), Reap(order[|order| - 1], now))
  }

  lemma ReapOneMore(s: State, order: seq<string>, command: string, now: int)
    ensures ReapAll(s, order + [command], now) == Step(ReapAll(s, order, now), Reap(command, now))
  {
    assert (order + [command])[..|order|] == order;
  }
}
