/** The pipeline object with its partitions and lanes, each operation proved against one step of the
    state machine. */
module EventPipeline {
  import opened Common
  import opened Sorting
  import opened PipelineSpec

  // ----- partitions

  function LaneSize(lane: seq<Signal>): nat { |lane| }

  function Depth(lanes: seq<seq<Signal>>): nat { Sum(lanes, LaneSize) }

  ghost predicate AllEmpty(lanes: seq<seq<Signal>>) { forall i :: 0 <= i < |lanes| ==> lanes[i] == [] }

  /** Lane `i` of a flush: a crowded lane, or any non-empty one while the partition is shallow, gives up its head. */
  predicate GivesUp(lanes: seq<seq<Signal>>, i: nat)
    requires i < |lanes|
  {
    |lanes[i]| >= 2 || (lanes[i] != [] && Depth(lanes) < 3)
  }

  /** The lanes and the ready signals after a flush has visited the lanes from `i` on. */
  function FlushFrom(lanes: seq<seq<Signal>>, i: nat): (seq<seq<Signal>>, seq<Signal>)
    requires i <= |lanes|
    decreases |lanes| - i
  {
    if i == |lanes| then (lanes, [])
    else if GivesUp(lanes, i) && lanes[i] != [] then
      var rest := FlushFrom(lanes[i := lanes[i][1..]], i + 1);
      (rest.0, [lanes[i][0]] + rest.1)
    else FlushFrom(lanes, i + 1)
  }

  /** A lane gives up its head when it holds two signals, or when it holds one and all lanes together hold less than
      three. */
  lemma GivesUpSays(lanes: seq<seq<Signal>>, i: nat)
    requires i < |lanes|
    ensures GivesUp(lanes, i) <==> |lanes[i]| >= 2 || (|lanes[i]| == 1 && Depth(lanes) < 3)
  {
  }

  class Partition {
    const name: string
    var lanes: seq<seq<Signal>>
    var cursor: nat

    constructor (name: string, count: nat)
      requires count >= 1
      ensures this.name == name && lanes != [] && AllEmpty(lanes)
    {
      this.name := name;
      lanes := seq(count, _ => []);
      cursor := 0;
    }

    method Stage(signal: Signal)
      requires lanes != []
      modifies this
      ensures var j := old(cursor) % |old(lanes)|;
        lanes == old(lanes)[j := old(lanes)[j] + [signal]] && cursor == old(cursor) + 1
    {
      var j := cursor % |lanes|;
      cursor := cursor + 1;
      lanes := lanes[j := lanes[j] + [signal]];
    }

    method FlushReady() returns (ready: seq<Signal>)
      modifies this`lanes
      ensures lanes == FlushFrom(old(lanes), 0).0 && ready == FlushFrom(old(lanes), 0).1
    {
      ready := [];
      for i := 0 to |lanes|
        invariant |lanes| == |old(lanes)|
        invariant FlushFrom(lanes, i).0 == FlushFrom(old(lanes), 0).0
        invariant ready + FlushFrom(lanes, i).1 == FlushFrom(old(lanes), 0).1
      {
        var lane := lanes[i];
        if |lane| >= 2 {
          ready := ready + [lane[0]];
          lanes := lanes[i := lane[1..]];
        } else if lane != [] && Depth(lanes) < 3 {
          ready := ready + [lane[0]];
          lanes := lanes[i := lane[1..]];
        }
      }
    }
  }

  lemma {:induction false} EmptyDepth(lanes: seq<seq<Signal>>)
    requires AllEmpty(lanes)
    ensures Depth(lanes) == 0
  {
    if lanes != [] {
      EmptyDepth(lanes[1..]);
    }
  }

  lemma {:induction false} FlushEmpty(lanes: seq<seq<Signal>>, i: nat)
    requires AllEmpty(lanes) && i <= |lanes|
    ensures FlushFrom(lanes, i) == (lanes, [])
    decreases |lanes| - i
  {
    if i < |lanes| {
      FlushEmpty(lanes, i + 1);
    }
  }

  lemma {:induction false} FlushFinds(lanes: seq<seq<Signal>>, j: nat, signal: Signal, i: nat)
    requires AllEmpty(lanes) && i <= j < |lanes|
    ensures FlushFrom(lanes[j := [signal]], i).0 == lanes && FlushFrom(lanes[j := [signal]], i).1 == [signal]
    decreases j - i
  {
    var staged := lanes[j := [signal]];
    if i < j {
      FlushFinds(lanes, j, signal, i + 1);
    } else {
      EmptyDepth(lanes);
      SumUpdate(lanes, j, [signal], LaneSize);
      assert staged[j][1..] == [] == lanes[j];
      assert staged[j := []] == lanes;
      FlushEmpty(lanes, j + 1);
    }
  }

  /** Whatever the number of lanes and the cursor, a signal staged into an empty partition is flushed at once and
      leaves it empty. */
  lemma StagedIsFlushedAtOnce(lanes: seq<seq<Signal>>, cursor: nat, signal: Signal)
    requires lanes != [] && AllEmpty(lanes)
    ensures var staged := lanes[cursor % |lanes| := lanes[cursor % |lanes|] + [signal]];
      FlushFrom(staged, 0).0 == lanes && FlushFrom(staged, 0).1 == [signal]
  {
    assert [] + [signal] == [signal];
    FlushFinds(lanes, cursor % |lanes|, signal, 0);
  }

  // ----- the pipeline

  datatype Candidate = Candidate(name: string, depth: nat)

  predicate Shallower(a: Candidate, b: Candidate) { a.depth < b.depth }

  /** Sorting partitions by depth does nothing when all are equally deep. */
  lemma EqualDepthsStay(cs: seq<Candidate>)
    requires forall i, j :: 0 <= i < j < |cs| ==> cs[i].depth == cs[j].depth
    ensures Sort(cs, Shallower) == cs
  {
    SortOfSorted(cs, Shallower);
  }

  /** What a flush emits and what it filters out. */
  function Emissions(ready: seq<Signal>, subscribers: set<string>): seq<Emission>
  {
    if ready == [] then []
    else
      var x := ready[|ready| - 1];
      Emissions(ready[..|ready| - 1], subscribers)
      + (if Discarded(x) then [] else [Emission(Normalized(x), x.topic in subscribers)])
  }

  function Dropped(ready: seq<Signal>): seq<Signal>
  {
    if ready == [] then []
    else Dropped(ready[..|ready| - 1]) + (if Discarded(ready[|ready| - 1]) then [ready[|ready| - 1]] else [])
  }

  /** One turn of the drain loop, with what the flush of its one signal emits and drops. */
  lemma DrainOneIs(s: State, x: Signal)
    requires s.inbox != [] && s.inbox[0].signal == x
    ensures DrainOne(s) ==
      if x.timestamp < s.watermark then s.(inbox := s.inbox[1..], late := s.late + [x])
      else s.(inbox := s.inbox[1..], watermark := x.timestamp,
              emitted := s.emitted + |Emissions([x], s.subscribers)|,
              filtered := s.filtered + Dropped([x]),
              out := s.out + Emissions([x], s.subscribers))
  {
    assert [x][..0] == [];
    assert s.filtered + [] == s.filtered && s.out + [] == s.out;
  }

  datatype DrainReport = DrainReport(visited: nat, delivered: nat, remaining: nat, watermark: Instant)

  class EventPipeline {
    var names: seq<string>
    var partitions: map<string, Partition>
    var subscribers: set<string>
    var inbox: seq<Envelope>
    var watermark: Instant
    var accepted: nat
    var rejected: nat
    var emitted: nat
    ghost var arrivals: seq<Signal>
    ghost var late: seq<Signal>
    ghost var filtered: seq<Signal>
    ghost var out: seq<Emission>

    /** Between operations every partition is empty. */
    ghost predicate Valid()
      reads this, partitions.Values
    {
      && names != []
      && (forall n :: n in names ==> n in partitions)
      && (forall n :: n in partitions ==> partitions[n] in partitions.Values)
      && (forall p :: p in partitions.Values ==> p.lanes != [] && AllEmpty(p.lanes))
      && (forall i :: 0 <= i < |inbox| ==> inbox[i].partition in names)
    }

    ghost function View(): State
      reads this
    {
      State(names, subscribers, inbox, watermark, accepted, rejected, emitted, arrivals, late, filtered, out)
    }

    constructor ()
      ensures Valid() && View() == INITIAL
    {
      var north := new Partition("north", 3);
      var south := new Partition("south", 3);
      var quiet := new Partition("quiet", 1);
      names := ["north", "south", "quiet"];
      partitions := map["north" := north, "south" := south, "quiet" := quiet];
      subscribers := {};
      inbox := [];
      watermark := 0;
      accepted, rejected, emitted := 0, 0, 0;
      arrivals, late, filtered, out := [], [], [], [];
    }

    /** Registering a known name replaces the partition and keeps its place. */
    method RegisterPartition(name: string, lanes: int) returns (ok: bool)
      requires Valid()
      modifies this`names, this`partitions
      ensures Valid() && View() == Step(old(View()), Register(name, lanes))
      ensures ok == (!IsBlank(name) && lanes >= 1)
    {
      if IsBlank(name) || lanes < 1 {
        return false;
      }
      var p := new Partition(name, lanes);
      partitions := partitions[name := p];
      if name !in names {
        names := names + [name];
      }
      return true;
    }

    method SubscribeTo(topic: string) returns (ok: bool)
      requires Valid()
      modifies this`subscribers
      ensures Valid() && View() == Step(old(View()), Subscribe(topic))
      ensures ok == !IsBlank(topic)
    {
      if IsBlank(topic) {
        return false;
      }
      subscribers := subscribers + {topic};
      return true;
    }

    /** The partition for a key; none stands for the exception of an index below zero. */
    method ChoosePartition(key: string) returns (r: Option<string>)
      requires Valid()
      ensures r == RouteOf(names, key)
    {
      var hash := Abs32(HashCode(key));
      var candidates: seq<Candidate> := [];
      for i := 0 to |names|
        invariant |candidates| == i
        invariant forall j :: 0 <= j < i ==> candidates[j] == Candidate(names[j], 0)
      {
        var p := partitions[names[i]];
        EmptyDepth(p.lanes);
        candidates := candidates + [Candidate(names[i], Depth(p.lanes))];
      }
      EqualDepthsStay(candidates);
      candidates := Sort(candidates, Shallower);
      var index := Remainder(hash, |candidates|);
      if index < 0 {
        return None;
      }
      return Some(candidates[index].name);
    }

    /** Put an accepted signal at the end of the inbox. */
    method Enqueue(e: Envelope)
      requires Valid() && e.partition in names
      modifies this`inbox, this`accepted, this`arrivals
      ensures Valid()
      ensures View() == old(View()).(inbox := old(inbox) + [e], accepted := old(accepted) + 1,
                                     arrivals := old(arrivals) + [e.signal])
    {
      inbox := inbox + [e];
      accepted := accepted + 1;
      arrivals := arrivals + [e.signal];
    }

    method Accept(signal: Signal, receivedAt: Instant) returns (r: Result<string, Rejection>)
      requires Valid()
      modifies this`inbox, this`accepted, this`rejected, this`arrivals
      ensures Valid() && View() == Step(old(View()), PipelineSpec.Accept(signal, receivedAt))
      ensures r == Verdict(old(View()), signal)
    {
      var reason := Validate(signal);
      if reason.Some? {
        rejected := rejected + 1;
        return Failure(reason.value);
      }
      var partition := ChoosePartition(signal.key);
      if partition.None? {
        return Failure(IndexOutOfBounds);
      }
      Enqueue(Envelope(signal, partition.value, receivedAt));
      return Success(partition.value);
    }

    /** Stage into a partition and take what is ready: the signal itself, and nothing stays behind. */
    method PassThrough(name: string, signal: Signal) returns (ready: seq<Signal>)
      requires Valid() && name in names
      modifies partitions.Values
      ensures Valid() && ready == [signal]
    {
      var p := partitions[name];
      StagedIsFlushedAtOnce(p.lanes, p.cursor, signal);
      p.Stage(signal);
      ready := p.FlushReady();
    }

    /** Normalize, filter and route the signals of one flush. */
    method Deliver(ready: seq<Signal>) returns (delivered: nat)
      modifies this`emitted, this`out, this`filtered
      ensures out == old(out) + Emissions(ready, subscribers)
      ensures filtered == old(filtered) + Dropped(ready)
      ensures delivered == |Emissions(ready, subscribers)| && emitted == old(emitted) + delivered
    {
      delivered := 0;
      for i := 0 to |ready|
        invariant out == old(out) + Emissions(ready[..i], subscribers)
        invariant filtered == old(filtered) + Dropped(ready[..i])
        invariant delivered == |Emissions(ready[..i], subscribers)| && emitted == old(emitted) + delivered
      {
        assert ready[..i + 1][..i] == ready[..i];
        if Discarded(ready[i]) {
          filtered := filtered + [ready[i]];
          continue;
        }
        out := out + [Emission(Normalized(ready[i]), ready[i].topic in subscribers)];
        delivered := delivered + 1;
        emitted := emitted + 1;
      }
      assert ready[..|ready|] == ready;
    }

    /** Take the head of the inbox. */
    method Take() returns (signal: Signal, partition: string)
      requires Valid() && inbox != []
      modifies this`inbox
      ensures Valid() && View() == old(View()).(inbox := old(inbox)[1..])
      ensures signal == old(inbox)[0].signal && partition in names
    {
      signal, partition := inbox[0].signal, inbox[0].partition;
      assert forall i :: 0 <= i < |inbox[1..]| ==> inbox[1..][i] == inbox[i + 1];
      inbox := inbox[1..];
    }

    /** Advance the watermark and pass an on-time signal through its partition. */
    method Handle(signal: Signal, partition: string) returns (delivered: nat)
      requires Valid() && partition in names && signal.timestamp >= watermark
      modifies this`watermark, this`emitted, this`filtered, this`out, partitions.Values
      ensures Valid()
      ensures View() == old(View()).(
                watermark := signal.timestamp,
                emitted := old(emitted) + delivered,
                filtered := old(filtered) + Dropped([signal]),
                out := old(out) + Emissions([signal], subscribers))
      ensures delivered == |Emissions([signal], subscribers)|
    {
      if signal.timestamp > watermark {
        watermark := signal.timestamp;
      }
      var ready := PassThrough(partition, signal);
      delivered := Deliver(ready);
    }

    /** One turn of the drain loop; the number of signals it routed. */
    method Visit() returns (delivered: nat)
      requires Valid() && inbox != []
      modifies this`inbox, this`late, this`watermark, this`emitted, this`filtered, this`out, partitions.Values
      ensures Valid() && View() == DrainOne(old(View()))
      ensures emitted == old(emitted) + delivered
    {
      DrainOneIs(View(), inbox[0].signal);
      var signal, partition := Take();
      if signal.timestamp < watermark {
        late := late + [signal];
        return 0;
      }
      delivered := Handle(signal, partition);
    }

    /** The loop of a drain. */
    method DrainUpTo(budget: nat) returns (visited: nat, delivered: nat)
      requires Valid()
      modifies this, partitions.Values
      ensures Valid() && View() == DrainMany(old(View()), budget)
      ensures visited == |old(inbox)| - |inbox| && delivered == emitted - old(emitted)
    {
      ghost var before := View();
      visited, delivered := 0, 0;
      while inbox != [] && visited < budget
        invariant Valid() && partitions == old(partitions)
        invariant visited <= budget && visited + |inbox| == |old(inbox)|
        invariant View() == DrainMany(before, visited)
        invariant emitted == old(emitted) + delivered
        decreases |inbox|
      {
        var n := Visit();
        visited := visited + 1;
        delivered := delivered + n;
      }
      DrainEmpty(before, visited, budget);
    }

    method Drain(budget: int) returns (report: DrainReport)
      requires Valid()
      modifies this, partitions.Values
      ensures Valid() && View() == Step(old(View()), PipelineSpec.Drain(budget))
      ensures report.remaining == |inbox| && report.watermark == watermark
      ensures report.visited == |old(inbox)| - |inbox| && report.delivered == emitted - old(emitted)
      ensures budget == 1 && old(inbox) != [] && old(inbox)[0].signal.timestamp >= old(watermark) ==>
                var x := old(inbox)[0].signal;
                report.delivered == if "discard" in x.fields && x.fields["discard"] == "true" then 0 else 1
    {
      if old(inbox) != [] {
        DrainOneSays(View());
        assert DrainMany(View(), 1) == DrainOne(DrainMany(View(), 0));
      }
      if budget < 1 {
        return DrainReport(0, 0, |inbox|, watermark);
      }
      var visited, delivered := DrainUpTo(budget);
      return DrainReport(visited, delivered, |inbox|, watermark);
    }
  }

  /** Draining on from an empty inbox changes nothing. */
  lemma {:induction false} DrainEmpty(s: State, n: nat, m: nat)
    requires n <= m && (n == m || DrainMany(s, n).inbox == [])
    ensures DrainMany(s, m) == DrainMany(s, n)
    decreases m - n
  {
    if n < m {
      DrainEmpty(s, n, m - 1);
    }
  }
}
