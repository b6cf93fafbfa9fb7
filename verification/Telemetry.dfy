/** The telemetry engine: a bounded ring that overwrites its oldest samples, and every interleaving of
    publishers, workers and the owner that starts and stops them. */
module Telemetry {
  import opened Common

  datatype Sample = Sample(sequence: nat, name: string, value: real, labels: map<string, string>)

  const BATCH: nat := 32

  // ----- the ring

  /** The ring after a push to it. */
  function AfterPush(items: seq<Sample>, capacity: nat, sample: Sample): seq<Sample>
  {
    if capacity == 0 then items
    else (if |items| == capacity then items[1..] else items) + [sample]
  }

  function Taken(items: seq<Sample>, limit: nat): seq<Sample> { items[..Min(limit, |items|)] }

  function Left(items: seq<Sample>, limit: nat): seq<Sample> { items[Min(limit, |items|)..] }

  class SampleRing {
    const capacity: nat
    var items: seq<Sample>

    constructor (capacity: nat)
      ensures this.capacity == capacity && items == []
    {
      this.capacity := capacity;
      items := [];
    }

    method Push(sample: Sample) returns (stored: bool)
      requires |items| <= capacity
      modifies this
      ensures |items| <= capacity
      ensures stored == (capacity > 0)
      ensures items == AfterPush(old(items), capacity, sample)
    {
      if capacity == 0 {
        return false;
      }
      if |items| == capacity {
        items := items[1..];
      }
      items := items + [sample];
      return true;
    }

    method Drain(limit: nat) returns (result: seq<Sample>)
      modifies this
      ensures result == Taken(old(items), limit) && items == Left(old(items), limit)
    {
      result := [];
      while items != [] && |result| < limit
        invariant result + items == old(items) && |result| <= limit
        decreases |items|
      {
        result := result + [items[0]];
        items := items[1..];
      }
      assert old(items)[..|result|] == result && old(items)[|result|..] == items;
    }
  }

  /** A ring always keeps the most recent pushes. */
  function PushAll(items: seq<Sample>, capacity: nat, pushed: seq<Sample>): seq<Sample>
  {
    if pushed == [] then items
    else AfterPush(PushAll(items, capacity, pushed[..|pushed| - 1]), capacity, pushed[|pushed| - 1])
  }

  function Latest(all: seq<Sample>, capacity: nat): seq<Sample>
  {
    if |all| <= capacity then all else all[|all| - capacity..]
  }

  lemma LastOnes(all: seq<Sample>, x: Sample, capacity: nat)
    ensures AfterPush(Latest(all, capacity), capacity, x) == Latest(all + [x], capacity)
  {
  }

  lemma {:induction false} RingKeepsTheLatest(items: seq<Sample>, capacity: nat, pushed: seq<Sample>)
    requires |items| <= capacity
    ensures PushAll(items, capacity, pushed) == Latest(items + pushed, capacity)
  {
    if pushed != [] {
      var init, last := pushed[..|pushed| - 1], pushed[|pushed| - 1];
      RingKeepsTheLatest(items, capacity, init);
      assert items + pushed == items + init + [last];
      LastOnes(items + init, last, capacity);
    } else {
      assert items + pushed == items;
    }
  }

  // ----- the engine as interleaved steps

  /** A publish call: not inside, past its running check, holding a numbered sample, or between its push and
      the increment of the published counter. */
  datatype Publisher = Outside | Checked(request: Request) | Holding(sample: Sample) | PushedOne

  /** The arguments of a publish call. */
  datatype Request = Request(name: string, value: real, labels: map<string, string>)

  /** A worker thread. `Delivering` holds the samples not yet given to the sink, `Counting` has just given one. */
  datatype Worker =
    | AtLoop | SawStopped | AboutToDrain | Idling
    | Delivering(batch: seq<Sample>)
    | Counting(batch: seq<Sample>)
    | Exited

  /** The one owner: idle, starting workers, started, or in `stop` waiting for them; `clean` says that no publisher was
      past its running check when `stop` cleared the flag. */
  datatype Owner = Stopped | Spawning | Started | Stopping(clean: bool)

  datatype Engine = Engine(
    capacity: nat,
    workerCount: nat,
    running: bool,
    ring: seq<Sample>,
    nextSequence: nat,
    published: nat,
    delivered: nat,
    publishers: seq<Publisher>,
    workers: seq<Worker>,
    owner: Owner,
    // what has happened so far
    requests: seq<Request>,
    pushed: seq<Sample>,
    evicted: seq<Sample>,
    sunk: seq<Sample>)

  datatype Step =
    | StartFlag
    | Spawn
    | StopFlag
    | Join
    | Check(p: nat, request: Request)
    | TakeNumber(p: nat)
    | PushSample(p: nat)
    | CountPublished(p: nat)
    | WorkerStep(i: nat)

  predicate Finished(workers: seq<Worker>) { forall i :: 0 <= i < |workers| ==> workers[i] == Exited }

  predicate NobodyInside(publishers: seq<Publisher>) { forall p :: 0 <= p < |publishers| ==> publishers[p] == Outside }

  function ApplyWorker(w: Engine, i: nat): Engine
    requires i < |w.workers|
  {
    match w.workers[i]
    case AtLoop => w.(workers := w.workers[i := if w.running then AboutToDrain else SawStopped])
    case SawStopped => w.(workers := w.workers[i := if w.ring != [] then AboutToDrain else Exited])
    case AboutToDrain =>
      var batch := Taken(w.ring, BATCH);
      w.(ring := Left(w.ring, BATCH), workers := w.workers[i := if batch == [] then Idling else Delivering(batch)])
    case Idling => w.(workers := w.workers[i := AtLoop])
    case Delivering(batch) =>
      if batch == [] then w.(workers := w.workers[i := AtLoop])
      else w.(sunk := w.sunk + [batch[0]], workers := w.workers[i := Counting(batch[1..])])
    case Counting(rest) =>
      w.(delivered := w.delivered + 1, workers := w.workers[i := if rest == [] then AtLoop else Delivering(rest)])
    case Exited => w
  }

  function ApplyPush(w: Engine, p: nat, sample: Sample): Engine
    requires p < |w.publishers|
  {
    if w.capacity == 0 then w.(publishers := w.publishers[p := Outside])
    else
      w.(ring := AfterPush(w.ring, w.capacity, sample),
         evicted := if |w.ring| == w.capacity then w.evicted + [w.ring[0]] else w.evicted,
         pushed := w.pushed + [sample],
         publishers := w.publishers[p := PushedOne])
  }

  /** A step that is not enabled leaves the engine as it is. */
  function Apply(w: Engine, step: Step): Engine
  {
    match step
    case StartFlag =>
      if w.owner == Stopped && !w.running then w.(running := true, owner := Spawning) else w
    case Spawn =>
      if w.owner != Spawning then w
      else if |w.workers| < w.workerCount then w.(workers := w.workers + [AtLoop])
      else w.(owner := Started)
    case StopFlag =>
      if w.owner == Started && w.running then w.(running := false, owner := Stopping(NobodyInside(w.publishers))) else w
    case Join =>
      if w.owner.Stopping? && Finished(w.workers) then w.(owner := Stopped, workers := []) else w
    case Check(p, request) =>
      if p < |w.publishers| && w.publishers[p] == Outside && w.running then
        w.(publishers := w.publishers[p := Checked(request)], requests := w.requests + [request])
      else w
    case TakeNumber(p) =>
      if p < |w.publishers| && w.publishers[p].Checked? then
        var r := w.publishers[p].request;
        var sample := Sample(w.nextSequence, r.name, r.value, r.labels);
        w.(nextSequence := w.nextSequence + 1, publishers := w.publishers[p := Holding(sample)])
      else w
    case PushSample(p) =>
      if p < |w.publishers| && w.publishers[p].Holding? then ApplyPush(w, p, w.publishers[p].sample) else w
    case CountPublished(p) =>
      if p < |w.publishers| && w.publishers[p] == PushedOne then
        w.(published := w.published + 1, publishers := w.publishers[p := Outside])
      else w
    case WorkerStep(i) => if i < |w.workers| then ApplyWorker(w, i) else w
  }

  function Initial(capacity: nat, workerCount: nat, publishers: nat): Engine
  {
    Engine(capacity, workerCount, false, [], 1, 0, 0, seq(publishers, _ => Outside), [], Stopped, [], [], [], [])
  }

  function Run(w: Engine, steps: seq<Step>): Engine
  {
    if steps == [] then w else Apply(Run(w, steps[..|steps| - 1]), steps[|steps| - 1])
  }

  // ----- where the samples are

  function BatchOf(x: Worker): seq<Sample>
  {
    match x case Delivering(b) => b case Counting(b) => b case _ => []
  }

  function BatchSize(x: Worker): nat { |BatchOf(x)| }
  function JustSunk(x: Worker): nat { if x.Counting? then 1 else 0 }
  function JustPushed(x: Publisher): nat { if x.PushedOne? then 1 else 0 }

  predicate Conserved(w: Engine)
  {
    && |w.ring| <= w.capacity
    && |w.pushed| == |w.evicted| + |w.ring| + Sum(w.workers, BatchSize) + |w.sunk|
    && w.delivered + Sum(w.workers, JustSunk) == |w.sunk|
    && w.published + Sum(w.publishers, JustPushed) == |w.pushed|
  }

  lemma WorkerSums(workers: seq<Worker>, i: nat, x: Worker)
    requires i < |workers|
    ensures Sum(workers[i := x], BatchSize) + BatchSize(workers[i]) == Sum(workers, BatchSize) + BatchSize(x)
    ensures Sum(workers[i := x], JustSunk) + JustSunk(workers[i]) == Sum(workers, JustSunk) + JustSunk(x)
  {
    SumUpdate(workers, i, x, BatchSize);
    SumUpdate(workers, i, x, JustSunk);
  }

  /** One worker step: what leaves the ring is in its batch, what leaves its batch is in the sink. */
  lemma WorkerBalance(w: Engine, i: nat)
    requires i < |w.workers|
    ensures var w' := ApplyWorker(w, i);
      && w'.workers == w.workers[i := w'.workers[i]] && |w'.workers| == |w.workers|
      && |w'.ring| + BatchSize(w'.workers[i]) + |w'.sunk| == |w.ring| + BatchSize(w.workers[i]) + |w.sunk|
      && w'.delivered + JustSunk(w'.workers[i]) + |w.sunk| == w.delivered + JustSunk(w.workers[i]) + |w'.sunk|
      && |w'.ring| <= |w.ring|
  {
    var x := w.workers[i];
    if x.Delivering? && x.batch != [] {
      assert |x.batch[1..]| == |x.batch| - 1;
    }
  }

  lemma WorkerConserves(w: Engine, i: nat)
    requires Conserved(w) && i < |w.workers|
    ensures Conserved(ApplyWorker(w, i))
  {
    WorkerBalance(w, i);
    WorkerSums(w.workers, i, ApplyWorker(w, i).workers[i]);
  }

  lemma {:induction false} AllExited(workers: seq<Worker>)
    requires Finished(workers)
    ensures Sum(workers, BatchSize) == 0 && Sum(workers, JustSunk) == 0
  {
    if workers != [] {
      AllExited(workers[1..]);
    }
  }

  lemma {:induction false} AllOutside(publishers: seq<Publisher>)
    requires NobodyInside(publishers)
    ensures Sum(publishers, JustPushed) == 0
  {
    if publishers != [] {
      AllOutside(publishers[1..]);
    }
  }

  lemma ThreadsConserve(w: Engine, step: Step)
    requires Conserved(w) && (step.Spawn? || step.Join? || step.StartFlag? || step.StopFlag?)
    ensures Conserved(Apply(w, step))
  {
    if step.Spawn? {
      SumConcat(w.workers, [AtLoop], BatchSize);
      SumConcat(w.workers, [AtLoop], JustSunk);
      SumSingle(AtLoop, BatchSize);
      SumSingle(AtLoop, JustSunk);
    } else if step.Join? && Finished(w.workers) {
      AllExited(w.workers);
    }
  }

  lemma PublishersConserve(w: Engine, step: Step)
    requires Conserved(w) && (step.Check? || step.TakeNumber? || step.PushSample? || step.CountPublished?)
    ensures Conserved(Apply(w, step))
  {
    PublisherMoved(w, Apply(w, step), step.p);
  }

  lemma ApplyConserves(w: Engine, step: Step)
    requires Conserved(w)
    ensures Conserved(Apply(w, step))
  {
    if step.WorkerStep? {
      if step.i < |w.workers| {
        WorkerConserves(w, step.i);
      }
    } else if step.Spawn? || step.Join? || step.StartFlag? || step.StopFlag? {
      ThreadsConserve(w, step);
    } else {
      PublishersConserve(w, step);
    }
  }

  lemma PublisherMoved(w: Engine, w': Engine, p: nat)
    requires |w'.publishers| == |w.publishers|
    requires p < |w.publishers| ==> w'.publishers == w.publishers[p := w'.publishers[p]]
    ensures p < |w.publishers| ==>
      Sum(w'.publishers, JustPushed) + JustPushed(w.publishers[p])
          == Sum(w.publishers, JustPushed) + JustPushed(w'.publishers[p])
  {
    if p < |w.publishers| {
      SumUpdate(w.publishers, p, w'.publishers[p], JustPushed);
    }
  }

  // ----- no sample twice

  /** How often sequence number `q` occurs in `s`. */
  function Times(s: seq<Sample>, q: nat): nat { Sum(s, (x: Sample) => if x.sequence == q then 1 else 0) }

  function InBatch(q: nat): Worker -> nat { (x: Worker) => Times(BatchOf(x), q) }
  function InHand(q: nat): Publisher -> nat { (x: Publisher) => if x.Holding? && x.sample.sequence == q then 1 else 0 }

  /** How often `q` occurs anywhere: in a publisher's hand, in the ring, evicted, in a batch or in the sink. */
  function Everywhere(w: Engine, q: nat): nat
  {
    Sum(w.publishers, InHand(q)) + Times(w.ring, q) + Times(w.evicted, q) + Sum(w.workers, InBatch(q))
        + Times(w.sunk, q)
  }

  lemma TimesConcat(a: seq<Sample>, b: seq<Sample>, q: nat)
    ensures Times(a + b, q) == Times(a, q) + Times(b, q)
  {
    SumConcat(a, b, (x: Sample) => if x.sequence == q then 1 else 0);
  }

  lemma TimesOne(x: Sample, q: nat)
    ensures Times([x], q) == if x.sequence == q then 1 else 0
  {
    SumSingle(x, (y: Sample) => if y.sequence == q then 1 else 0);
  }

  lemma TimesHead(s: seq<Sample>, q: nat)
    requires s != []
    ensures Times(s, q) == Times([s[0]], q) + Times(s[1..], q)
  {
    assert s == [s[0]] + s[1..];
    TimesConcat([s[0]], s[1..], q);
  }

  /** Each step of a worker moves samples between its batch, the ring and the sink. */
  lemma StepMovesSamples(w: Engine, i: nat, q: nat)
    requires i < |w.workers|
    ensures var w' := ApplyWorker(w, i);
      && |w'.workers| == |w.workers| && w'.publishers == w.publishers && w'.evicted == w.evicted
      && w'.workers == w.workers[i := w'.workers[i]]
      && Times(w'.ring, q) + Times(BatchOf(w'.workers[i]), q) + Times(w'.sunk, q)
         == Times(w.ring, q) + Times(BatchOf(w.workers[i]), q) + Times(w.sunk, q)
  {
    match w.workers[i]
    case AboutToDrain =>
      assert w.ring == Taken(w.ring, BATCH) + Left(w.ring, BATCH);
      TimesConcat(Taken(w.ring, BATCH), Left(w.ring, BATCH), q);
    case Delivering(b) =>
      if b != [] {
        TimesHead(b, q);
        TimesConcat(w.sunk, [b[0]], q);
      }
    case _ =>
  }

  lemma WorkerMovesSamples(w: Engine, i: nat, q: nat)
    requires i < |w.workers|
    ensures Everywhere(ApplyWorker(w, i), q) == Everywhere(w, q)
  {
    StepMovesSamples(w, i, q);
    SumUpdate(w.workers, i, ApplyWorker(w, i).workers[i], InBatch(q));
  }

  lemma PushMovesSamples(w: Engine, p: nat, q: nat)
    requires p < |w.publishers| && w.publishers[p].Holding? && w.capacity > 0
    ensures Everywhere(ApplyPush(w, p, w.publishers[p].sample), q) == Everywhere(w, q)
  {
    var x := w.publishers[p].sample;
    SumUpdate(w.publishers, p, PushedOne, InHand(q));
    TimesOne(x, q);
    if |w.ring| == w.capacity {
      TimesHead(w.ring, q);
      TimesConcat(w.evicted, [w.ring[0]], q);
      TimesConcat(w.ring[1..], [x], q);
    } else {
      TimesConcat(w.ring, [x], q);
    }
  }

  lemma {:induction false} ExitedHoldNothing(workers: seq<Worker>, q: nat)
    requires Finished(workers)
    ensures Sum(workers, InBatch(q)) == 0
  {
    if workers != [] {
      assert InBatch(q)(workers[0]) == Times([], q) == 0;
      ExitedHoldNothing(workers[1..], q);
    }
  }

  /** The only number that may appear is the next one, when it is handed out; with room in the ring none is lost. */
  ghost predicate AddsAtMost(w: Engine, w': Engine, q: nat)
  {
    var added := if q == w.nextSequence < w'.nextSequence then 1 else 0;
    && w.nextSequence <= w'.nextSequence <= w.nextSequence + 1 && w'.capacity == w.capacity
    && Everywhere(w', q) <= Everywhere(w, q) + added
    && (w.capacity > 0 ==> Everywhere(w', q) == Everywhere(w, q) + added)
  }

  lemma PublisherMovesSamples(w: Engine, step: Step, q: nat)
    requires step.Check? || step.TakeNumber? || step.PushSample? || step.CountPublished?
    ensures AddsAtMost(w, Apply(w, step), q)
  {
    if step.p < |w.publishers| {
      if step.PushSample? && w.publishers[step.p].Holding? && w.capacity > 0 {
        PushMovesSamples(w, step.p, q);
      } else {
        SumUpdate(w.publishers, step.p, Apply(w, step).publishers[step.p], InHand(q));
      }
    }
  }

  /** The owner moves no sample. */
  lemma OwnerMovesSamples(w: Engine, step: Step, q: nat)
    requires step.StartFlag? || step.StopFlag? || step.Spawn? || step.Join?
    ensures Everywhere(Apply(w, step), q) == Everywhere(w, q) && Apply(w, step).nextSequence == w.nextSequence
  {
    SumConcat(w.workers, [AtLoop], InBatch(q));
    SumSingle(AtLoop, InBatch(q));
    if step.Join? && Finished(w.workers) {
      ExitedHoldNothing(w.workers, q);
    }
  }

  lemma ApplyMovesSamples(w: Engine, step: Step, q: nat)
    ensures AddsAtMost(w, Apply(w, step), q)
  {
    match step
    case WorkerStep(i) =>
      if i < |w.workers| {
        WorkerMovesSamples(w, i, q);
      }
    case Check(_, _) => PublisherMovesSamples(w, step, q);
    case TakeNumber(_) => PublisherMovesSamples(w, step, q);
    case PushSample(_) => PublisherMovesSamples(w, step, q);
    case CountPublished(_) => PublisherMovesSamples(w, step, q);
    case _ => OwnerMovesSamples(w, step, q);
  }

  lemma {:induction false} InitialHasNone(n: nat, q: nat)
    ensures Sum(seq(n, _ => Outside), InHand(q)) == 0
    ensures Sum(seq(n, _ => Outside), JustPushed) == 0
  {
    if n > 0 {
      assert seq(n, _ => Outside)[1..] == seq(n - 1, _ => Outside);
      InitialHasNone(n - 1, q);
    }
  }

  lemma {:induction false} RunNeverDuplicates(capacity: nat, workerCount: nat, publishers: nat, steps: seq<Step>,
                                             q: nat)
    ensures var w := Run(Initial(capacity, workerCount, publishers), steps);
      && w.nextSequence >= 1 && w.capacity == capacity
      && Everywhere(w, q) <= (if 0 < q < w.nextSequence then 1 else 0)
      && (capacity > 0 ==> Everywhere(w, q) == if 0 < q < w.nextSequence then 1 else 0)
  {
    if steps == [] {
      InitialHasNone(publishers, q);
    } else {
      var prefix := steps[..|steps| - 1];
      RunNeverDuplicates(capacity, workerCount, publishers, prefix, q);
      ApplyMovesSamples(Run(Initial(capacity, workerCount, publishers), prefix), steps[|steps| - 1], q);
    }
  }

  lemma {:induction false} TwiceCounts(s: seq<Sample>, i: nat, j: nat)
    requires i < j < |s| && s[i].sequence == s[j].sequence
    ensures Times(s, s[i].sequence) >= 2
  {
    var q := s[i].sequence;
    assert s == s[..j] + s[j..];
    TimesConcat(s[..j], s[j..], q);
    OnceCounts(s[..j], i);
    OnceCounts(s[j..], 0);
  }

  lemma {:induction false} OnceCounts(s: seq<Sample>, i: nat)
    requires i < |s|
    ensures Times(s, s[i].sequence) >= 1
  {
    SumUpdate(s, i, s[i], (x: Sample) => if x.sequence == s[i].sequence then 1 else 0);
  }

  /** In every run with room in the ring, every number handed out is in exactly one place, and no other is anywhere. */
  lemma EveryNumberHasItsPlace(capacity: nat, workerCount: nat, publishers: nat, steps: seq<Step>, q: nat)
    requires capacity > 0
    ensures var w := Run(Initial(capacity, workerCount, publishers), steps);
      Sum(w.publishers, InHand(q)) + Times(w.ring, q) + Times(w.evicted, q) + Sum(w.workers, InBatch(q))
          + Times(w.sunk, q)
      == if 1 <= q < w.nextSequence then 1 else 0
  {
    RunNeverDuplicates(capacity, workerCount, publishers, steps, q);
  }

  /** In every run, what reached the sink is in no batch, not in the ring, not in a publisher's hand and was not
      evicted. */
  lemma DeliveredIsNowhereElse(capacity: nat, workerCount: nat, publishers: nat, steps: seq<Step>, i: nat)
    requires i < |Run(Initial(capacity, workerCount, publishers), steps).sunk|
    ensures var w := Run(Initial(capacity, workerCount, publishers), steps);
      var q := w.sunk[i].sequence;
      && Times(w.ring, q) == Times(w.evicted, q) == Sum(w.workers, InBatch(q)) == Sum(w.publishers, InHand(q)) == 0
      && Times(w.sunk, q) == 1
  {
    var w := Run(Initial(capacity, workerCount, publishers), steps);
    RunNeverDuplicates(capacity, workerCount, publishers, steps, w.sunk[i].sequence);
    OnceCounts(w.sunk, i);
  }

  /** In every run, no sample reaches the sink twice. */
  lemma NothingIsDeliveredTwice(capacity: nat, workerCount: nat, publishers: nat, steps: seq<Step>, i: nat, j: nat)
    requires i < j < |Run(Initial(capacity, workerCount, publishers), steps).sunk|
    ensures var w := Run(Initial(capacity, workerCount, publishers), steps);
      w.sunk[i].sequence != w.sunk[j].sequence
  {
    var w := Run(Initial(capacity, workerCount, publishers), steps);
    DeliveredIsNowhereElse(capacity, workerCount, publishers, steps, i);
    if w.sunk[i].sequence == w.sunk[j].sequence {
      TwiceCounts(w.sunk, i, j);
    }
  }

  // ----- what a sample says

  /** The sample carries the arguments of a publish call that went past its running check. */
  predicate Asked(requests: seq<Request>, x: Sample) { Request(x.name, x.value, x.labels) in requests }

  predicate AllAsked(requests: seq<Request>, samples: seq<Sample>) { forall x :: x in samples ==> Asked(requests, x) }

  ghost predicate EverythingAsked(w: Engine)
  {
    && AllAsked(w.requests, w.ring) && AllAsked(w.requests, w.evicted) && AllAsked(w.requests, w.sunk)
    && (forall i :: 0 <= i < |w.workers| ==> AllAsked(w.requests, BatchOf(w.workers[i])))
    && (forall p :: 0 <= p < |w.publishers| ==>
          match w.publishers[p]
          case Checked(r) => r in w.requests
          case Holding(x) => Asked(w.requests, x)
          case _ => true)
  }

  lemma WorkerKeepsAsked(w: Engine, i: nat)
    requires EverythingAsked(w) && i < |w.workers|
    ensures EverythingAsked(ApplyWorker(w, i))
  {
    var w' := ApplyWorker(w, i);
    assert AllAsked(w.requests, BatchOf(w.workers[i]));
    assert AllAsked(w.requests, BatchOf(w'.workers[i])) && AllAsked(w.requests, w'.ring);
    assert AllAsked(w.requests, w'.sunk);
  }

  lemma ApplyKeepsAsked(w: Engine, step: Step)
    requires EverythingAsked(w)
    ensures EverythingAsked(Apply(w, step))
  {
    match step
    case WorkerStep(i) =>
      if i < |w.workers| {
        WorkerKeepsAsked(w, i);
      }
    case Spawn => assert BatchOf(AtLoop) == [];
    case _ =>
  }

  lemma {:induction false} RunKeepsAsked(capacity: nat, workerCount: nat, publishers: nat, steps: seq<Step>)
    ensures EverythingAsked(Run(Initial(capacity, workerCount, publishers), steps))
  {
    if steps != [] {
      var prefix := steps[..|steps| - 1];
      RunKeepsAsked(capacity, workerCount, publishers, prefix);
      ApplyKeepsAsked(Run(Initial(capacity, workerCount, publishers), prefix), steps[|steps| - 1]);
    }
  }

  /** In every run, a sample that reaches the sink has the name, value and labels of a publish call. */
  lemma DeliveredAsPublished(capacity: nat, workerCount: nat, publishers: nat, steps: seq<Step>, i: nat)
    requires i < |Run(Initial(capacity, workerCount, publishers), steps).sunk|
    ensures var w := Run(Initial(capacity, workerCount, publishers), steps);
      Request(w.sunk[i].name, w.sunk[i].value, w.sunk[i].labels) in w.requests
  {
    RunKeepsAsked(capacity, workerCount, publishers, steps);
    var w := Run(Initial(capacity, workerCount, publishers), steps);
    assert w.sunk[i] in w.sunk;
  }

  /** A worker takes the oldest samples of the ring, up to 32 at a time. */
  lemma BatchesOfThirtyTwo(w: Engine, i: nat)
    requires i < |w.workers| && w.workers[i] == AboutToDrain
    ensures var n := if |w.ring| < 32 then |w.ring| else 32;
      var w' := Apply(w, WorkerStep(i));
      && w'.ring == w.ring[n..] && |w'.workers| == |w.workers|
      && w'.workers[i] == if n == 0 then Idling else Delivering(w.ring[..n])
  {
  }

  // ----- the order of delivery

  /** `a` is `b` without some of its samples. */
  predicate Sub(a: seq<Sample>, b: seq<Sample>)
  {
    a == [] || (b != [] && (Sub(a, b[1..]) || (a[0] == b[0] && Sub(a[1..], b[1..]))))
  }

  lemma {:induction false} SubAppend(a: seq<Sample>, b: seq<Sample>, x: Sample)
    requires Sub(a, b)
    ensures Sub(a + [x], b + [x]) && Sub(a, b + [x])
  {
    if b == [] {
      assert a + [x] == [x] && b + [x] == [x];
    } else {
      assert (b + [x])[1..] == b[1..] + [x];
      if a == [] {
        SubAppend([], b[1..], x);
        assert a + [x] == [] + [x];
      } else if Sub(a, b[1..]) {
        SubAppend(a, b[1..], x);
      } else {
        assert (a + [x])[1..] == a[1..] + [x];
        SubAppend(a[1..], b[1..], x);
      }
    }
  }

  /** Leaving out one more. */
  lemma {:induction false} SubDrop(a: seq<Sample>, y: Sample, c: seq<Sample>, b: seq<Sample>)
    requires Sub(a + [y] + c, b)
    ensures Sub(a + c, b)
  {
    var s := a + [y] + c;
    if Sub(s, b[1..]) {
      SubDrop(a, y, c, b[1..]);
    } else if a == [] {
      assert s[1..] == c && a + c == c;
    } else {
      assert s[1..] == a[1..] + [y] + c && (a + c)[1..] == a[1..] + c;
      SubDrop(a[1..], y, c, b[1..]);
    }
  }

  function OnlyBatch(w: Engine): seq<Sample> { if w.workers == [] then [] else BatchOf(w.workers[0]) }

  /** With one worker: what is delivered, what it holds and what the ring holds are in the order of the pushes. */
  ghost predicate InPushOrder(w: Engine)
  {
    w.workerCount == 1 && |w.workers| <= 1 && Sub(w.sunk + OnlyBatch(w) + w.ring, w.pushed)
  }

  lemma OneWorkerKeepsOrder(w: Engine)
    requires InPushOrder(w) && |w.workers| == 1
    ensures InPushOrder(ApplyWorker(w, 0))
  {
    var w' := ApplyWorker(w, 0);
    assert w'.sunk + OnlyBatch(w') + w'.ring == w.sunk + OnlyBatch(w) + w.ring;
  }

  lemma PushKeepsOrder(w: Engine, p: nat, x: Sample)
    requires InPushOrder(w) && p < |w.publishers| && |w.ring| <= w.capacity
    ensures InPushOrder(ApplyPush(w, p, x))
  {
    if w.capacity > 0 {
      var before, w' := w.sunk + OnlyBatch(w), ApplyPush(w, p, x);
      if |w.ring| == w.capacity {
        assert before + w.ring == before + [w.ring[0]] + w.ring[1..];
        SubDrop(before, w.ring[0], w.ring[1..], w.pushed);
        SubAppend(before + w.ring[1..], w.pushed, x);
        assert before + w.ring[1..] + [x] == before + w'.ring;
      } else {
        SubAppend(before + w.ring, w.pushed, x);
        assert before + w.ring + [x] == before + w'.ring;
      }
    }
  }

  lemma ApplyKeepsOrder(w: Engine, step: Step)
    requires InPushOrder(w) && |w.ring| <= w.capacity
    ensures InPushOrder(Apply(w, step))
  {
    match step
    case WorkerStep(i) =>
      if i < |w.workers| {
        OneWorkerKeepsOrder(w);
      }
    case PushSample(p) =>
      if p < |w.publishers| && w.publishers[p].Holding? {
        PushKeepsOrder(w, p, w.publishers[p].sample);
      }
    case _ => assert OnlyBatch(Apply(w, step)) == OnlyBatch(w);
  }

  lemma {:induction false} SubFront(a: seq<Sample>, c: seq<Sample>, b: seq<Sample>)
    requires Sub(a + c, b)
    ensures Sub(a, b)
  {
    if c == [] {
      assert a + c == a;
    } else {
      assert a + c == a + [c[0]] + c[1..];
      SubDrop(a, c[0], c[1..], b);
      SubFront(a, c[1..], b);
    }
  }

  lemma {:induction false} RunKeepsPushOrder(capacity: nat, publishers: nat, steps: seq<Step>)
    ensures InPushOrder(Run(Initial(capacity, 1, publishers), steps))
    ensures Conserved(Run(Initial(capacity, 1, publishers), steps))
  {
    if steps == [] {
      InitialHasNone(publishers, 0);
    } else {
      var prefix := steps[..|steps| - 1];
      RunKeepsPushOrder(capacity, publishers, prefix);
      ApplyKeepsOrder(Run(Initial(capacity, 1, publishers), prefix), steps[|steps| - 1]);
      ApplyConserves(Run(Initial(capacity, 1, publishers), prefix), steps[|steps| - 1]);
    }
  }

  /** With one worker, samples reach the sink in the order in which they were pushed, however many publishers there are
      and whatever was evicted. */
  lemma OneWorkerDeliversInOrder(capacity: nat, publishers: nat, steps: seq<Step>)
    ensures var w := Run(Initial(capacity, 1, publishers), steps);
      Sub(w.sunk, w.pushed)
  {
    RunKeepsPushOrder(capacity, publishers, steps);
    var w := Run(Initial(capacity, 1, publishers), steps);
    assert w.sunk + OnlyBatch(w) + w.ring == w.sunk + (OnlyBatch(w) + w.ring);
    SubFront(w.sunk, OnlyBatch(w) + w.ring, w.pushed);
  }

  lemma {:induction false} RunAppend(w: Engine, a: seq<Step>, b: seq<Step>)
    ensures Run(w, a + b) == Run(Run(w, a), b)
  {
    if b == [] {
      assert a + b == a;
    } else {
      var init, last := b[..|b| - 1], b[|b| - 1];
      assert (a + b)[..|a + b| - 1] == a + init && (a + b)[|a + b| - 1] == last;
      RunAppend(w, a, init);
    }
  }

  lemma RunTwo(w: Engine, a: Step, b: Step)
    ensures Run(w, [a, b]) == Apply(Apply(w, a), b)
  {
    assert [a, b][..1] == [a] && Run(w, [a]) == Apply(Run(w, []), a);
  }

  lemma RunFour(w: Engine, a: Step, b: Step, c: Step, d: Step)
    ensures Run(w, [a, b, c, d]) == Apply(Apply(Apply(Apply(w, a), b), c), d)
  {
    assert [a, b, c, d] == [a, b] + [c, d];
    RunAppend(w, [a, b], [c, d]);
    RunTwo(w, a, b);
    RunTwo(Run(w, [a, b]), c, d);
  }

  const TWO_START: seq<Step> := [StartFlag, Spawn, Spawn, Spawn]

  function Publish(r: Request): seq<Step> { [Check(0, r), TakeNumber(0), PushSample(0), CountPublished(0)] }

  /** Both workers take one sample each, and the second one is the first to deliver. */
  function Overtaking(r: Request): seq<Step>
  {
    TWO_START + Publish(r) + [WorkerStep(0), WorkerStep(0)] + Publish(r) + [WorkerStep(1), WorkerStep(1)]
        + [WorkerStep(1), WorkerStep(0)]
  }

  lemma TwoStart(capacity: nat)
    ensures var w0 := Initial(capacity, 2, 1);
      Run(w0, TWO_START) == w0.(running := true, owner := Started, workers := [AtLoop, AtLoop])
  {
    var w0 := Initial(capacity, 2, 1);
    RunFour(w0, StartFlag, Spawn, Spawn, Spawn);
    var w1 := w0.(running := true, owner := Spawning);
    assert Apply(Apply(Apply(Apply(w0, StartFlag), Spawn), Spawn), Spawn)
        == Apply(w1.(workers := [AtLoop, AtLoop]), Spawn);
  }

  lemma NumberOne(w: Engine, r: Request)
    requires w.running && w.publishers == [Outside]
    ensures var x := Sample(w.nextSequence, r.name, r.value, r.labels);
      Run(w, [Check(0, r), TakeNumber(0)])
      == w.(publishers := [Holding(x)], nextSequence := w.nextSequence + 1, requests := w.requests + [r])
  {
    RunTwo(w, Check(0, r), TakeNumber(0));
    assert Apply(w, Check(0, r)) == w.(publishers := [Checked(r)], requests := w.requests + [r]);
  }

  lemma PushOne(w: Engine, x: Sample)
    requires w.publishers == [Holding(x)] && w.ring == [] && w.capacity > 0
    ensures Run(w, [PushSample(0), CountPublished(0)])
         == w.(publishers := [Outside], ring := [x], pushed := w.pushed + [x], published := w.published + 1)
  {
    RunTwo(w, PushSample(0), CountPublished(0));
    assert Apply(w, PushSample(0)) == w.(publishers := [PushedOne], ring := [x], pushed := w.pushed + [x]);
  }

  lemma PublishOne(w: Engine, r: Request)
    requires w.running && w.publishers == [Outside] && w.ring == [] && w.capacity > 0
    ensures var x := Sample(w.nextSequence, r.name, r.value, r.labels);
      Run(w, Publish(r)) == w.(ring := [x], pushed := w.pushed + [x], nextSequence := w.nextSequence + 1,
                               published := w.published + 1, requests := w.requests + [r])
  {
    NumberOne(w, r);
    assert Publish(r) == [Check(0, r), TakeNumber(0)] + [PushSample(0), CountPublished(0)];
    RunAppend(w, [Check(0, r), TakeNumber(0)], [PushSample(0), CountPublished(0)]);
    PushOne(Run(w, [Check(0, r), TakeNumber(0)]), Sample(w.nextSequence, r.name, r.value, r.labels));
  }

  lemma TakeOne(w: Engine, i: nat, x: Sample)
    requires w.running && i < |w.workers| && w.workers[i] == AtLoop && w.ring == [x]
    ensures Run(w, [WorkerStep(i), WorkerStep(i)]) == w.(ring := [], workers := w.workers[i := Delivering([x])])
  {
    RunTwo(w, WorkerStep(i), WorkerStep(i));
    var w1 := w.(workers := w.workers[i := AboutToDrain]);
    assert Apply(w, WorkerStep(i)) == w1;
    BatchesOfThirtyTwo(w1, i);
    assert Taken(w.ring, BATCH) == [x] && w1.workers[i := Delivering([x])] == w.workers[i := Delivering([x])];
  }

  lemma DeliverOne(w: Engine, i: nat, x: Sample)
    requires i < |w.workers| && w.workers[i] == Delivering([x])
    ensures Apply(w, WorkerStep(i)) == w.(sunk := w.sunk + [x], workers := w.workers[i := Counting([])])
  {
    assert [x][1..] == [];
  }

  /** A sample is published and taken by an idle worker. */
  lemma PublishAndTake(w: Engine, before: seq<Step>, r: Request, i: nat)
    requires var v := Run(w, before);
      && v.running && v.publishers == [Outside] && v.ring == [] && v.capacity > 0
      && i < |v.workers| && v.workers[i] == AtLoop
    ensures var v, v' := Run(w, before), Run(w, before + Publish(r) + [WorkerStep(i), WorkerStep(i)]);
      var x := Sample(v.nextSequence, r.name, r.value, r.labels);
      v' == v.(workers := v.workers[i := Delivering([x])], pushed := v.pushed + [x],
               nextSequence := v.nextSequence + 1, published := v.published + 1, requests := v.requests + [r])
  {
    var v := Run(w, before);
    var x := Sample(v.nextSequence, r.name, r.value, r.labels);
    RunAppend(w, before, Publish(r));
    PublishOne(v, r);
    RunAppend(w, before + Publish(r), [WorkerStep(i), WorkerStep(i)]);
    TakeOne(Run(w, before + Publish(r)), i, x);
  }

  lemma BothDeliver(w: Engine, x: Sample, y: Sample)
    requires w.workers == [Delivering([x]), Delivering([y])] && w.sunk == []
    ensures var w' := Run(w, [WorkerStep(1), WorkerStep(0)]);
      w'.sunk == [y, x] && w'.pushed == w.pushed
  {
    RunTwo(w, WorkerStep(1), WorkerStep(0));
    DeliverOne(w, 1, y);
    DeliverOne(Apply(w, WorkerStep(1)), 0, x);
  }

  lemma NotSub(x: Sample, y: Sample)
    requires x != y
    ensures !Sub([y, x], [x, y])
  {
    assert [x, y][1..] == [y] && [y, x][1..] == [x] && [y][1..] == [] && [x][1..] == [];
    assert !Sub([x], []) && !Sub([y, x], []);
    assert !Sub([y, x], [y]);
  }

  /** Two workers may turn two samples round. */
  lemma TwoWorkersMayOvertake(capacity: nat, r: Request)
    requires capacity >= 1
    ensures var w := Run(Initial(capacity, 2, 1), Overtaking(r));
      && |w.sunk| == 2 && w.pushed == [w.sunk[1], w.sunk[0]] && !Sub(w.sunk, w.pushed)
  {
    var w0 := Initial(capacity, 2, 1);
    var x, y := Sample(1, r.name, r.value, r.labels), Sample(2, r.name, r.value, r.labels);
    TwoStart(capacity);
    PublishAndTake(w0, TWO_START, r, 0);
    var half := TWO_START + Publish(r) + [WorkerStep(0), WorkerStep(0)];
    PublishAndTake(w0, half, r, 1);
    var most := half + Publish(r) + [WorkerStep(1), WorkerStep(1)];
    RunAppend(w0, most, [WorkerStep(1), WorkerStep(0)]);
    BothDeliver(Run(w0, most), x, y);
    NotSub(x, y);
  }

  // ----- the stop protocol

  /** While the flag is up no worker has seen it down; after a clean stop nobody pushes, and a worker leaves only
      an empty ring behind. */
  ghost predicate StopInv(w: Engine)
  {
    && (w.running <==> w.owner == Spawning || w.owner == Started)
    && (w.owner == Stopped ==> w.workers == [])
    && (w.running ==> forall i :: 0 <= i < |w.workers| ==> w.workers[i] != SawStopped && w.workers[i] != Exited)
    && (w.owner == Started || w.owner.Stopping? ==> |w.workers| >= w.workerCount)
    && (w.owner == Stopping(true) ==>
          && NobodyInside(w.publishers)
          && forall i :: 0 <= i < |w.workers| && w.workers[i] == Exited ==> w.ring == [])
  }

  lemma ApplyKeepsStopInv(w: Engine, step: Step)
    requires StopInv(w)
    ensures StopInv(Apply(w, step))
  {
  }

  lemma {:induction false} RunKeeps(capacity: nat, workerCount: nat, publishers: nat, steps: seq<Step>)
    ensures Conserved(Run(Initial(capacity, workerCount, publishers), steps))
    ensures StopInv(Run(Initial(capacity, workerCount, publishers), steps))
    ensures Run(Initial(capacity, workerCount, publishers), steps).workerCount == workerCount
    ensures Run(Initial(capacity, workerCount, publishers), steps).capacity == capacity
  {
    if steps == [] {
      InitialHasNone(publishers, 0);
    } else {
      var prefix := steps[..|steps| - 1];
      RunKeeps(capacity, workerCount, publishers, prefix);
      ApplyKeeps(Run(Initial(capacity, workerCount, publishers), prefix), steps[|steps| - 1]);
    }
  }

  lemma ApplyKeeps(w: Engine, step: Step)
    requires Conserved(w) && StopInv(w)
    ensures Conserved(Apply(w, step)) && StopInv(Apply(w, step)) && Apply(w, step).workerCount == w.workerCount
    ensures Apply(w, step).capacity == w.capacity
  {
    ApplyConserves(w, step);
    ApplyKeepsStopInv(w, step);
  }

  /** In every run: successful pushes are evicted, in the ring, in a worker's batch or delivered to the sink; the
      delivered counter lags by the workers between sink and increment, the published counter by the publishers
      between push and increment. */
  lemma SamplesAreConserved(capacity: nat, workerCount: nat, publishers: nat, steps: seq<Step>)
    ensures var w := Run(Initial(capacity, workerCount, publishers), steps);
      && |w.pushed| == |w.evicted| + |w.ring| + Sum(w.workers, BatchSize) + |w.sunk|
      && |w.sunk| == w.delivered + Sum(w.workers, JustSunk)
      && |w.pushed| == w.published + Sum(w.publishers, JustPushed)
  {
    RunKeeps(capacity, workerCount, publishers, steps);
  }

  /** When a clean `stop` with at least one worker returns, the ring is empty, no batch is left, and every
      published sample was evicted or delivered. */
  lemma CleanStopDeliversEverything(capacity: nat, workerCount: nat, publishers: nat, steps: seq<Step>)
    requires workerCount >= 1
    requires Run(Initial(capacity, workerCount, publishers), steps).owner == Stopping(true)
    requires Apply(Run(Initial(capacity, workerCount, publishers), steps), Join).owner == Stopped
    ensures var w := Apply(Run(Initial(capacity, workerCount, publishers), steps), Join);
      && w.ring == [] && w.workers == [] && NobodyInside(w.publishers)
      && w.published == |w.pushed| == |w.evicted| + w.delivered
      && w.delivered == |w.sunk|
  {
    var w := Run(Initial(capacity, workerCount, publishers), steps);
    RunKeeps(capacity, workerCount, publishers, steps);
    assert w.workers[0] == Exited;
    AllExited(w.workers);
    AllOutside(w.publishers);
  }

  /** How far a worker is from leaving, when the flag is down and the ring stays as it is. */
  function Rank(empty: bool): Worker -> nat
  {
    (x: Worker) =>
      match x
      case Exited => 0
      case SawStopped => if empty then 1 else 2
      case AtLoop => if empty then 2 else 3
      case Idling => if empty then 3 else 4
      case AboutToDrain => if empty then 4 else 1
      case Delivering(b) => 5 + 2 * |b|
      case Counting(b) => 6 + 2 * |b|
  }

  function WorkLeft(w: Engine): nat { Sum(w.workers, Rank(w.ring == [])) }

  /** Once the flag is down, a step of a worker that is still there shortens the ring or, with the ring as it is, brings
      the workers closer to leaving. */
  lemma WorkerStepHelps(w: Engine, i: nat)
    requires !w.running && i < |w.workers| && w.workers[i] != Exited
    ensures var w' := ApplyWorker(w, i);
      |w'.ring| < |w.ring| || (w'.ring == w.ring && WorkLeft(w') < WorkLeft(w))
  {
    SumUpdate(w.workers, i, ApplyWorker(w, i).workers[i], Rank(w.ring == []));
  }

  /** A clean `stop` cannot be held up: as long as some worker is still there, every step any of them takes
      shortens the ring or, with the ring as it is, brings the workers closer to leaving; publishers change
      nothing any more; and when all have left, `stop` returns. */
  lemma CleanStopTerminates(capacity: nat, workerCount: nat, publishers: nat, steps: seq<Step>, step: Step)
    requires Run(Initial(capacity, workerCount, publishers), steps).owner == Stopping(true)
    ensures var w := Run(Initial(capacity, workerCount, publishers), steps);
      var w' := Apply(w, step);
      && (step.WorkerStep? && step.i < |w.workers| && w.workers[step.i] != Exited ==>
            |w'.ring| < |w.ring| || (w'.ring == w.ring && WorkLeft(w') < WorkLeft(w)))
      && (!step.WorkerStep? && !step.Join? ==> w' == w)
      && (Finished(w.workers) <==> Apply(w, Join).owner == Stopped)
  {
    var w := Run(Initial(capacity, workerCount, publishers), steps);
    RunKeeps(capacity, workerCount, publishers, steps);
    if step.WorkerStep? && step.i < |w.workers| && w.workers[step.i] != Exited {
      WorkerStepHelps(w, step.i);
    }
  }

  // ----- a publisher that is late for the stop

  /** Some publisher is past its running check and has not pushed yet. */
  predicate SomeonePending(publishers: seq<Publisher>)
  {
    exists p :: 0 <= p < |publishers| && (publishers[p].Checked? || publishers[p].Holding?)
  }

  /** What may happen until `stop` returns. */
  predicate BeforeReturn(more: seq<Step>) { forall step :: step in more ==> !step.Join? }

  /** `stop` can return now, and then a sample stays in the ring. */
  predicate LeavesASample(w: Engine)
  {
    w.owner.Stopping? && Apply(w, Join).owner == Stopped && Apply(w, Join).ring != []
  }

  ghost predicate MayLeaveASample(w: Engine) { exists more :: BeforeReturn(more) && LeavesASample(Run(w, more)) }

  /** With the flag down and nobody about to push, a worker leaves only an empty ring behind. */
  predicate Quiescent(w: Engine)
  {
    && !w.running && w.owner.Stopping? && !SomeonePending(w.publishers) && |w.workers| >= 1
    && forall i :: 0 <= i < |w.workers| && w.workers[i] == Exited ==> w.ring == []
  }

  lemma QuiescenceStays(w: Engine, step: Step)
    requires Quiescent(w) && !step.Join?
    ensures Quiescent(Apply(w, step))
  {
    match step
    case CountPublished(p) =>
      assert forall q :: 0 <= q < |w.publishers| && q != p ==> Apply(w, step).publishers[q] == w.publishers[q];
    case _ =>
  }

  lemma {:induction false} QuiescentLeavesNothing(w: Engine, more: seq<Step>)
    requires Quiescent(w) && BeforeReturn(more)
    ensures Quiescent(Run(w, more)) && !LeavesASample(Run(w, more))
  {
    if more != [] {
      var init := more[..|more| - 1];
      QuiescentLeavesNothing(w, init);
      QuiescenceStays(Run(w, init), more[|more| - 1]);
    }
    assert Finished(Run(w, more).workers) ==> Run(w, more).workers[0] == Exited;
  }

  lemma RunOneMore(w: Engine, steps: seq<Step>, step: Step)
    ensures Run(w, steps + [step]) == Apply(Run(w, steps), step)
  {
    assert (steps + [step])[..|steps|] == steps;
  }

  /** Workers that are told to stop can all leave, whatever the publishers do later. */
  lemma {:induction false} WorkersCanLeave(w: Engine, more: seq<Step>) returns (all: seq<Step>)
    requires !Run(w, more).running && BeforeReturn(more)
    ensures BeforeReturn(all) && Finished(Run(w, all).workers)
    ensures var u, v := Run(w, more), Run(w, all);
      !v.running && v.owner == u.owner && v.publishers == u.publishers && v.capacity == u.capacity
    decreases |Run(w, more).ring|, WorkLeft(Run(w, more))
  {
    var u := Run(w, more);
    if Finished(u.workers) {
      all := more;
    } else {
      var i: nat :| i < |u.workers| && u.workers[i] != Exited;
      RunOneMore(w, more, WorkerStep(i));
      WorkerStepHelps(u, i);
      all := WorkersCanLeave(w, more + [WorkerStep(i)]);
    }
  }

  /** A publisher with a sample in hand pushes it after the workers have left. */
  lemma HolderLeavesASample(w: Engine, more: seq<Step>, p: nat)
    requires BeforeReturn(more) && Finished(Run(w, more).workers)
    requires Run(w, more).capacity >= 1 && Run(w, more).owner.Stopping?
    requires p < |Run(w, more).publishers| && Run(w, more).publishers[p].Holding?
    ensures MayLeaveASample(w)
  {
    RunOneMore(w, more, PushSample(p));
    LastPushStays(Run(w, more), p);
    assert BeforeReturn(more + [PushSample(p)]);
  }

  /** A publisher that is about to push does so after the workers have left. */
  lemma PendingLeavesASample(w: Engine)
    requires w.capacity >= 1 && !w.running && w.owner.Stopping? && SomeonePending(w.publishers)
    ensures MayLeaveASample(w)
  {
    var p :| 0 <= p < |w.publishers| && (w.publishers[p].Checked? || w.publishers[p].Holding?);
    var more := WorkersCanLeave(w, []);
    if w.publishers[p].Checked? {
      RunOneMore(w, more, TakeNumber(p));
      HolderLeavesASample(w, more + [TakeNumber(p)], p);
    } else {
      HolderLeavesASample(w, more, p);
    }
  }

  lemma LastPushStays(w: Engine, p: nat)
    requires w.capacity >= 1 && w.owner.Stopping? && Finished(w.workers)
    requires p < |w.publishers| && w.publishers[p].Holding?
    ensures LeavesASample(Apply(w, PushSample(p)))
  {
  }

  /** In every run with at least one worker and room in the ring: `stop` may return with a sample left in the ring
      if and only if some publisher was past its running check, and had not pushed, when the flag was cleared. */
  lemma StopMayLeaveASampleIff(capacity: nat, workerCount: nat, publishers: nat, steps: seq<Step>)
    requires capacity >= 1 && workerCount >= 1
    requires Run(Initial(capacity, workerCount, publishers), steps).owner == Started
    ensures var w := Apply(Run(Initial(capacity, workerCount, publishers), steps), StopFlag);
      MayLeaveASample(w) <==> SomeonePending(w.publishers)
  {
    var w := Apply(Run(Initial(capacity, workerCount, publishers), steps), StopFlag);
    RunKeeps(capacity, workerCount, publishers, steps);
    if SomeonePending(w.publishers) {
      PendingLeavesASample(w);
    } else if MayLeaveASample(w) {
      var more :| BeforeReturn(more) && LeavesASample(Run(w, more));
      QuiescentLeavesNothing(w, more);
      assert false;
    }
  }

  /** One worker is started, step by step. */
  lemma StartOfOne(capacity: nat)
    ensures var w0 := Initial(capacity, 1, 1);
      var w := Run(w0, [StartFlag, Spawn, Spawn]);
      w == w0.(running := true, owner := Started, workers := [AtLoop])
  {
    var w0 := Initial(capacity, 1, 1);
    RunOneMore(w0, [], StartFlag);
    RunOneMore(w0, [StartFlag], Spawn);
    RunOneMore(w0, [StartFlag, Spawn], Spawn);
    assert [] + [StartFlag] == [StartFlag] && [StartFlag] + [Spawn] == [StartFlag, Spawn];
    assert [StartFlag, Spawn] + [Spawn] == [StartFlag, Spawn, Spawn];
  }

  /** There is such a run: one worker, and a publisher that has only checked. */
  lemma LatePublisherRun(capacity: nat, request: Request)
    requires capacity >= 1
    ensures var w := Run(Initial(capacity, 1, 1), [StartFlag, Spawn, Spawn, Check(0, request)]);
      w.owner == Started && w.publishers == [Checked(request)] && MayLeaveASample(Apply(w, StopFlag))
  {
    var w0, steps := Initial(capacity, 1, 1), [StartFlag, Spawn, Spawn, Check(0, request)];
    StartOfOne(capacity);
    RunOneMore(w0, [StartFlag, Spawn, Spawn], Check(0, request));
    assert [StartFlag, Spawn, Spawn] + [Check(0, request)] == steps;
    StopMayLeaveASampleIff(capacity, 1, 1, steps);
    assert Run(w0, steps).publishers[0].Checked?;
  }
}
