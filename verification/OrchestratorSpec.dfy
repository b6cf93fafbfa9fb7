/** Task orchestration as a state machine: tasks with leases and retries, priority queues and worker
    loads, and what holds after every sequence of operations. */
module OrchestratorSpec {
  import opened Common
  import opened Sorting

  type WorkerId = string

  datatype QueueName = Render | Index | Notify | Archive

  datatype TaskState = Queued | Leased | Running | Succeeded | Retrying | Failed

  datatype TraceEntry = LeaseBy(worker: WorkerId) | RunMark | OkMark | RetryMark | DeadLetterMark | ReclaimedMark

  datatype Task = Task(
    kind: QueueName,
    priority: int,
    createdAt: int,
    maxAttempts: nat,
    attempt: nat,
    trace: seq<TraceEntry>,
    state: TaskState,
    owner: Option<WorkerId>,
    until: Option<int>,
    startedAt: Option<int>,
    finishedAt: Option<int>,
    lastError: Option<string>)
  {
    predicate Waiting() { state == Queued || state == Retrying }

    predicate Live() { state == Leased || state == Running }

    predicate Terminal() { state == Succeeded || state == Failed }
  }

  datatype Worker = Worker(queues: seq<QueueName>, capacity: int, active: int, lastSeen: int, draining: bool)

  /** A queue entry: the task's index, its sort keys, and the number of pushes before its own. */
  datatype Entry = Entry(id: nat, priority: int, createdAt: int, stamp: nat)

  type Queues = map<QueueName, seq<Entry>>

  /** Task number `n` is `tasks[n]`, in creation order. */
  datatype State = State(
    accepting: bool,
    tasks: seq<Task>,
    queues: Queues,
    workers: map<WorkerId, Worker>,
    pushes: nat)

  const NO_ENTRIES: Queues := map[Render := [], Index := [], Notify := [], Archive := []]
  const NAMES: seq<QueueName> := [Render, Index, Notify, Archive]
  const INITIAL := State(true, [], NO_ENTRIES, map[], 0)
  const MAX_ATTEMPTS: nat := 4
  const LEASE_MS := 25_000

  function QueueOf(queues: Queues, k: QueueName): seq<Entry> { if k in queues then queues[k] else [] }

  // ----- queues

  /** Higher priority first, then older. */
  predicate EntryBefore(a: Entry, b: Entry)
  {
    a.priority > b.priority || (a.priority == b.priority && a.createdAt < b.createdAt)
  }

  /** The stable sort after every push. */
  function Pushed(q: seq<Entry>, e: Entry): seq<Entry> { Sort(q + [e], EntryBefore) }

  function Push(s: State, id: nat): State
    requires id < |s.tasks|
  {
    var t := s.tasks[id];
    var e := Entry(id, t.priority, t.createdAt, s.pushes);
    s.(queues := s.queues[t.kind := Pushed(QueueOf(s.queues, t.kind), e)], pushes := s.pushes + 1)
  }

  // ----- operations

  datatype Op =
    | Submit(kind: QueueName, priority: int, createdAt: int)
    | Register(worker: WorkerId, queues: seq<QueueName>, capacity: int, now: int)
    | Heartbeat(worker: WorkerId, active: int, now: int)
    | Lease(worker: WorkerId, now: int)
    | Begin(id: nat, worker: WorkerId, now: int)
    | Complete(id: nat, worker: WorkerId, now: int)
    | Fail(id: nat, worker: WorkerId, reason: string)
    | ReclaimOne(id: nat, now: int)
    | Drain

  function NewTask(kind: QueueName, priority: int, createdAt: int): Task
  {
    Task(kind, priority, createdAt, MAX_ATTEMPTS, 0, [], Queued, None, None, None, None, None)
  }

  function DoSubmit(s: State, kind: QueueName, priority: int, createdAt: int): State
  {
    if !s.accepting then s
    else Push(s.(tasks := s.tasks + [NewTask(kind, priority, createdAt)]), |s.tasks|)
  }

  /** The first queue of a worker with an entry. */
  function FirstNonEmpty(queues: Queues, names: seq<QueueName>): (k: Option<QueueName>)
    ensures k.Some? ==> k.value in names && QueueOf(queues, k.value) != []
    ensures k.None? ==> forall n :: n in names ==> QueueOf(queues, n) == []
  {
    if names == [] then None
    else if QueueOf(queues, names[0]) != [] then Some(names[0])
    else FirstNonEmpty(queues, names[1..])
  }

  /** The queue a lease by `w` takes from. */
  function LeaseFrom(s: State, w: WorkerId): Option<QueueName>
  {
    if w !in s.workers || s.workers[w].draining || s.workers[w].active >= s.workers[w].capacity then None
    else FirstNonEmpty(s.queues, s.workers[w].queues)
  }

  /** Whether `begin` goes through. */
  predicate MayBegin(s: State, id: nat, w: WorkerId)
  {
    id < |s.tasks| && s.tasks[id].owner == Some(w) && s.tasks[id].state == Leased
  }

  /** Whether `complete` and `fail` go through. */
  predicate Owns(s: State, id: nat, w: WorkerId)
  {
    id < |s.tasks| && s.tasks[id].owner == Some(w) && s.tasks[id].Live()
  }

  predicate Expired(t: Task, now: int) { t.Live() && t.until.Some? && t.until.value <= now }

  /** The task that an operation updates, if it goes through. */
  function Target(s: State, op: Op): (id: Option<nat>)
    ensures id.Some? ==> id.value < |s.tasks|
  {
    match op
    case Lease(w, _) =>
      (match LeaseFrom(s, w)
       case None => None
       case Some(k) => var id := QueueOf(s.queues, k)[0].id; if id < |s.tasks| then Some(id) else None)
    case Begin(id, w, _) => if MayBegin(s, id, w) then Some(id) else None
    case Complete(id, w, _) => if Owns(s, id, w) then Some(id) else None
    case Fail(id, w, _) => if Owns(s, id, w) then Some(id) else None
    case ReclaimOne(id, now) => if id < |s.tasks| && Expired(s.tasks[id], now) then Some(id) else None
    case _ => None
  }

  /** The updated record. */
  function Patch(t: Task, op: Op): Task
  {
    match op
    case Lease(w, now) =>
      t.(state := Leased, owner := Some(w), until := Some(now + LEASE_MS), attempt := t.attempt + 1,
         trace := t.trace + [LeaseBy(w)])
    case Begin(_, _, now) => t.(state := Running, startedAt := Some(now), trace := t.trace + [RunMark])
    case Complete(_, _, now) =>
      t.(state := Succeeded, finishedAt := Some(now), until := None, trace := t.trace + [OkMark])
    case Fail(_, _, reason) =>
      var terminal := t.attempt >= t.maxAttempts;
      t.(state := if terminal then Failed else Retrying, lastError := Some(reason), until := None,
         trace := t.trace + [if terminal then DeadLetterMark else RetryMark])
    case ReclaimOne(_, _) =>
      t.(state := Retrying, owner := None, until := None, lastError := Some("lease expired"),
         trace := t.trace + [ReclaimedMark])
    case _ => t
  }

  function Release(workers: map<WorkerId, Worker>, w: WorkerId): map<WorkerId, Worker>
  {
    if w !in workers then workers else workers[w := workers[w].(active := Max(0, workers[w].active - 1))]
  }

  /** Whether an owner counts as one: the empty name does not. */
  predicate Truthy(owner: Option<WorkerId>) { owner.Some? && owner.value != "" }

  function WorkersAfter(s: State, op: Op, t: Task): map<WorkerId, Worker>
  {
    match op
    case Lease(w, _) =>
      if w in s.workers then s.workers[w := s.workers[w].(active := s.workers[w].active + 1)] else s.workers
    case Complete(_, w, _) => Release(s.workers, w)
    case Fail(_, w, _) => Release(s.workers, w)
    case ReclaimOne(_, _) => if Truthy(t.owner) then Release(s.workers, t.owner.value) else s.workers
    case _ => s.workers
  }

  function QueuesAfter(s: State, op: Op): Queues
  {
    if op.Lease? && LeaseFrom(s, op.worker).Some? then
      var k := LeaseFrom(s, op.worker).value;
      s.queues[k := QueueOf(s.queues, k)[1..]]
    else s.queues
  }

  /** Update the record, the worker's load and the queues; a task that waits again is pushed. */
  function Settle(s: State, op: Op, id: nat): State
    requires id < |s.tasks|
  {
    var t := Patch(s.tasks[id], op);
    var s1 := s.(tasks := s.tasks[id := t], queues := QueuesAfter(s, op), workers := WorkersAfter(s, op, s.tasks[id]));
    if t.Waiting() then Push(s1, id) else s1
  }

  function Step(s: State, op: Op): State
  {
    match op
    case Submit(kind, priority, createdAt) => DoSubmit(s, kind, priority, createdAt)
    case Register(w, queues, capacity, now) => s.(workers := s.workers[w := Worker(queues, capacity, 0, now, false)])
    case Heartbeat(w, active, now) =>
      if w !in s.workers then s
      else s.(workers := s.workers[w := s.workers[w].(active := Max(0, active), lastSeen := now)])
    case Drain =>
      s.(accepting := false, workers := map w | w in s.workers :: s.workers[w].(draining := true))
    case _ =>
      match Target(s, op)
      case None => s
      case Some(id) => Settle(s, op, id)
  }

  function Run(s: State, ops: seq<Op>): State
  {
    if ops == [] then s else Step(Run(s, ops[..|ops| - 1]), ops[|ops| - 1])
  }

  /** The first `n` reclaims of a sweep. */
  function ReclaimOps(n: nat, now: int): seq<Op> { seq(n, i requires 0 <= i < n => ReclaimOne(i, now)) }

  /** `reclaimExpired` visits the tasks in creation order; this is the state after the first `n`. A sweep is a
      run of single reclaims, so what every run keeps, it keeps. */
  function ReclaimUpTo(s: State, n: nat, now: int): State { Run(s, ReclaimOps(n, now)) }

  lemma ReclaimNext(s: State, n: nat, now: int)
    ensures ReclaimUpTo(s, n + 1, now) == Step(ReclaimUpTo(s, n, now), ReclaimOne(n, now))
  {
    assert ReclaimOps(n + 1, now) == ReclaimOps(n, now) + [ReclaimOne(n, now)];
    RunOneMore(s, ReclaimOps(n, now), ReclaimOne(n, now));
  }

  lemma RunOneMore(s: State, ops: seq<Op>, op: Op)
    ensures Run(s, ops + [op]) == Step(Run(s, ops), op)
  {
    assert (ops + [op])[..|ops|] == ops;
  }

  // ----- the queues hold exactly the waiting tasks

  /** Strict order of a queue: higher priority first, then the older task, then the earlier push. */
  predicate Precedes(a: Entry, b: Entry)
  {
    || a.priority > b.priority
    || (a.priority == b.priority && a.createdAt < b.createdAt)
    || (a.priority == b.priority && a.createdAt == b.createdAt && a.stamp < b.stamp)
  }

  ghost predicate Ordered(q: seq<Entry>) { forall i, j :: 0 <= i < j < |q| ==> Precedes(q[i], q[j]) }

  predicate Describes(e: Entry, t: Task, k: QueueName)
  {
    t.Waiting() && t.kind == k && e.priority == t.priority && e.createdAt == t.createdAt
  }

  ghost predicate QueueInv(q: seq<Entry>, tasks: seq<Task>, k: QueueName, pushes: nat)
  {
    && Ordered(q)
    && (forall i :: 0 <= i < |q| ==>
          q[i].id < |tasks| && Describes(q[i], tasks[q[i].id], k) && q[i].stamp < pushes)
    && (forall i, j :: 0 <= i < j < |q| ==> q[i].id != q[j].id)
  }

  predicate Holds(q: seq<Entry>, id: nat) { exists i :: 0 <= i < |q| && q[i].id == id }

  ghost predicate QueuesInv(s: State)
  {
    && s.queues.Keys == NO_ENTRIES.Keys
    && (forall k :: QueueInv(QueueOf(s.queues, k), s.tasks, k, s.pushes))
    && (forall id :: 0 <= id < |s.tasks| && s.tasks[id].Waiting() ==> Holds(QueueOf(s.queues, s.tasks[id].kind), id))
  }

  lemma {:induction false} InsertKeepsOrdered(e: Entry, q: seq<Entry>)
    requires Ordered(q) && forall x :: x in q ==> x.stamp < e.stamp
    ensures Ordered(Insert(e, q, EntryBefore))
    ensures forall x :: x in Insert(e, q, EntryBefore) <==> x == e || x in q
  {
    if q != [] && !EntryBefore(e, q[0]) {
      InsertKeepsOrdered(e, q[1..]);
      var r := Insert(e, q[1..], EntryBefore);
      forall j | 0 <= j < |r| ensures Precedes(q[0], r[j]) {
        assert r[j] in r;
      }
    }
  }

  lemma PushedIsInsert(q: seq<Entry>, e: Entry)
    requires Ordered(q)
    ensures Pushed(q, e) == Insert(e, q, EntryBefore)
  {
    assert (q + [e])[..|q|] == q;
    SortOfSorted(q, EntryBefore);
  }

  lemma {:induction false} InsertKeepsIds(e: Entry, q: seq<Entry>)
    requires forall i, j :: 0 <= i < j < |q| ==> q[i].id != q[j].id
    requires forall x :: x in q ==> x.id != e.id
    ensures forall i, j :: 0 <= i < j < |q| + 1 ==> Insert(e, q, EntryBefore)[i].id != Insert(e, q, EntryBefore)[j].id
    ensures forall x :: x in Insert(e, q, EntryBefore) <==> x == e || x in q
  {
    if q != [] && !EntryBefore(e, q[0]) {
      InsertKeepsIds(e, q[1..]);
      var r := Insert(e, q[1..], EntryBefore);
      forall j | 0 <= j < |r| ensures r[j].id != q[0].id {
        assert r[j] in r;
        if r[j] != e {
          var i :| 0 <= i < |q[1..]| && q[1..][i] == r[j];
          assert q[i + 1].id != q[0].id;
        }
      }
    }
  }

  lemma HoldsIn(q: seq<Entry>, e: Entry)
    requires e in q
    ensures Holds(q, e.id)
  {
    var i :| 0 <= i < |q| && q[i] == e;
  }

  lemma PushKeepsQueue(q: seq<Entry>, e: Entry, tasks: seq<Task>, k: QueueName)
    requires QueueInv(q, tasks, k, e.stamp) && !Holds(q, e.id)
    requires e.id < |tasks| && Describes(e, tasks[e.id], k)
    ensures QueueInv(Pushed(q, e), tasks, k, e.stamp + 1)
    ensures Holds(Pushed(q, e), e.id)
    ensures forall j :: Holds(q, j) ==> Holds(Pushed(q, e), j)
  {
    PushedIsInsert(q, e);
    forall x | x in q ensures x.stamp < e.stamp && x.id != e.id {
      HoldsIn(q, x);
    }
    InsertKeepsOrdered(e, q);
    InsertKeepsIds(e, q);
    var r := Pushed(q, e);
    forall i | 0 <= i < |r| ensures r[i].id < |tasks| && Describes(r[i], tasks[r[i].id], k)
        && r[i].stamp < e.stamp + 1 {
      assert r[i] in r;
    }
    assert e in r;
    HoldsIn(r, e);
    forall j | Holds(q, j) ensures Holds(r, j) {
      var i :| 0 <= i < |q| && q[i].id == j;
      assert q[i] in r;
      HoldsIn(r, q[i]);
    }
  }

  /** Everything is in order but for one task, which is in no queue. */
  ghost predicate AlmostInv(s: State, id: nat)
  {
    && id < |s.tasks|
    && s.queues.Keys == NO_ENTRIES.Keys
    && (forall k :: QueueInv(QueueOf(s.queues, k), s.tasks, k, s.pushes) && !Holds(QueueOf(s.queues, k), id))
    && (forall j :: 0 <= j < |s.tasks| && j != id && s.tasks[j].Waiting()
          ==> Holds(QueueOf(s.queues, s.tasks[j].kind), j))
  }

  lemma PushCompletes(s: State, id: nat)
    requires AlmostInv(s, id)
    ensures s.tasks[id].Waiting() ==> QueuesInv(Push(s, id))
    ensures !s.tasks[id].Waiting() ==> QueuesInv(s)
  {
    if s.tasks[id].Waiting() {
      var t := s.tasks[id];
      var q := QueueOf(s.queues, t.kind);
      PushKeepsQueue(q, Entry(id, t.priority, t.createdAt, s.pushes), s.tasks, t.kind);
      var s' := Push(s, id);
      forall k ensures QueueInv(QueueOf(s'.queues, k), s.tasks, k, s'.pushes) {
        if k != t.kind {
          assert QueueOf(s'.queues, k) == QueueOf(s.queues, k);
          assert QueueInv(QueueOf(s.queues, k), s.tasks, k, s.pushes);
        }
      }
    }
  }

  lemma SubmitKeepsQueues(s: State, kind: QueueName, priority: int, createdAt: int)
    requires QueuesInv(s)
    ensures QueuesInv(DoSubmit(s, kind, priority, createdAt))
  {
    if s.accepting {
      var s1 := s.(tasks := s.tasks + [NewTask(kind, priority, createdAt)]);
      forall k ensures QueueInv(QueueOf(s1.queues, k), s1.tasks, k, s1.pushes)
          && !Holds(QueueOf(s1.queues, k), |s.tasks|) {
        assert QueueInv(QueueOf(s.queues, k), s.tasks, k, s.pushes);
      }
      PushCompletes(s1, |s.tasks|);
    }
  }

  /** The task a lease takes waits, and is the head of the queue of its kind. */
  lemma LeaseTakesTheHead(s: State, w: WorkerId, now: int)
    requires QueuesInv(s) && LeaseFrom(s, w).Some?
    ensures var k := LeaseFrom(s, w).value;
      var q := QueueOf(s.queues, k);
      && k in s.queues && Target(s, Lease(w, now)) == Some(q[0].id)
      && s.tasks[q[0].id].Waiting() && s.tasks[q[0].id].kind == k
  {
    var k := LeaseFrom(s, w).value;
    assert QueueInv(QueueOf(s.queues, k), s.tasks, k, s.pushes);
    assert Describes(QueueOf(s.queues, k)[0], s.tasks[QueueOf(s.queues, k)[0].id], k);
  }

  /** Without its head, a queue is in order for every change of the head's task. */
  lemma TailKeepsQueue(q: seq<Entry>, tasks: seq<Task>, k: QueueName, pushes: nat, t: Task)
    requires QueueInv(q, tasks, k, pushes) && q != []
    ensures q[0].id < |tasks| && QueueInv(q[1..], tasks[q[0].id := t], k, pushes)
    ensures !Holds(q[1..], q[0].id)
    ensures forall j :: j != q[0].id && Holds(q, j) ==> Holds(q[1..], j)
  {
    forall j | j != q[0].id && Holds(q, j) ensures Holds(q[1..], j) {
      var i :| 0 <= i < |q| && q[i].id == j;
      assert q[1..][i - 1].id == j;
    }
  }

  /** A queue of another kind, or of a task that does not wait, does not hold it. */
  lemma OtherQueue(q: seq<Entry>, tasks: seq<Task>, k: QueueName, pushes: nat, id: nat, t: Task)
    requires QueueInv(q, tasks, k, pushes) && id < |tasks|
    requires !tasks[id].Waiting() || tasks[id].kind != k
    ensures QueueInv(q, tasks[id := t], k, pushes) && !Holds(q, id)
  {
    forall i | 0 <= i < |q| ensures q[i].id != id {
      assert Describes(q[i], tasks[q[i].id], k);
    }
  }

  lemma SettleKeepsQueues(s: State, op: Op, id: nat)
    requires QueuesInv(s) && Target(s, op) == Some(id)
    ensures QueuesInv(Settle(s, op, id))
  {
    var t := Patch(s.tasks[id], op);
    var s1 := s.(tasks := s.tasks[id := t], queues := QueuesAfter(s, op), workers := WorkersAfter(s, op, s.tasks[id]));
    if op.Lease? {
      LeaseTakesTheHead(s, op.worker, op.now);
    }
    forall k ensures QueueInv(QueueOf(s1.queues, k), s1.tasks, k, s1.pushes) && !Holds(QueueOf(s1.queues, k), id) {
      var q := QueueOf(s.queues, k);
      assert QueueInv(q, s.tasks, k, s.pushes);
      if op.Lease? && k == s.tasks[id].kind {
        TailKeepsQueue(q, s.tasks, k, s.pushes, t);
      } else {
        OtherQueue(q, s.tasks, k, s.pushes, id, t);
      }
    }
    forall j | 0 <= j < |s1.tasks| && j != id && s1.tasks[j].Waiting()
      ensures Holds(QueueOf(s1.queues, s1.tasks[j].kind), j) {
      var q := QueueOf(s.queues, s.tasks[j].kind);
      assert Holds(q, j) && QueueInv(q, s.tasks, s.tasks[j].kind, s.pushes);
      if op.Lease? && s.tasks[j].kind == s.tasks[id].kind {
        TailKeepsQueue(q, s.tasks, s.tasks[j].kind, s.pushes, t);
      }
    }
    PushCompletes(s1, id);
  }

  lemma StepKeepsQueues(s: State, op: Op)
    requires QueuesInv(s)
    ensures QueuesInv(Step(s, op))
  {
    if op.Submit? {
      SubmitKeepsQueues(s, op.kind, op.priority, op.createdAt);
    } else if Target(s, op).Some? {
      SettleKeepsQueues(s, op, Target(s, op).value);
    } else {
      var s' := Step(s, op);
      forall k ensures QueueInv(QueueOf(s'.queues, k), s'.tasks, k, s'.pushes) {
        assert QueueInv(QueueOf(s.queues, k), s.tasks, k, s.pushes);
      }
    }
  }

  lemma {:induction false} RunKeepsQueues(ops: seq<Op>)
    ensures QueuesInv(Run(INITIAL, ops))
  {
    if ops == [] {
      forall k ensures QueueInv(QueueOf(NO_ENTRIES, k), [], k, 0) {
      }
    } else {
      RunKeepsQueues(ops[..|ops| - 1]);
      StepKeepsQueues(Run(INITIAL, ops[..|ops| - 1]), ops[|ops| - 1]);
    }
  }

  /** After every run: a task is in a queue exactly when it is queued or retrying, then exactly once and only
      in the queue of its kind; and each queue is strictly ordered by priority, creation time and push order. */
  lemma QueuesHoldExactlyTheWaiting(ops: seq<Op>, id: nat, k: QueueName)
    requires id < |Run(INITIAL, ops).tasks|
    ensures var s := Run(INITIAL, ops);
      var q := QueueOf(s.queues, k);
      && (Holds(q, id) <==> (s.tasks[id].state == Queued || s.tasks[id].state == Retrying) && s.tasks[id].kind == k)
      && (forall i, j :: 0 <= i < j < |q| ==> q[i].id != q[j].id && Precedes(q[i], q[j]))
      && (forall i :: 0 <= i < |q| && q[i].id == id ==>
            q[i].priority == s.tasks[id].priority && q[i].createdAt == s.tasks[id].createdAt)
  {
    RunKeepsQueues(ops);
    var s := Run(INITIAL, ops);
    assert QueueInv(QueueOf(s.queues, k), s.tasks, k, s.pushes);
  }

  /** What a lease does, when it is granted: the task is leased to the worker for 25 seconds, and the worker carries one
      more. */
  predicate LeasedNow(s: State, s': State, w: WorkerId, now: int, id: nat)
  {
    && id < |s.tasks| == |s'.tasks| && w in s.workers && w in s'.workers
    && s'.tasks[id] == s.tasks[id].(
         state := Leased, owner := Some(w), until := Some(now + 25_000), attempt := s.tasks[id].attempt + 1,
         trace := s.tasks[id].trace + [LeaseBy(w)])
    && (forall j :: 0 <= j < |s.tasks| && j != id ==> s'.tasks[j] == s.tasks[j])
    && s'.workers == s.workers[w := s.workers[w].(active := s.workers[w].active + 1)]
  }

  /** The task is queued, or queued again, in the queue `k`. */
  predicate Awaits(t: Task, k: QueueName) { t.kind == k && (t.state == Queued || t.state == Retrying) }

  /** No other waiting task of the kind has a higher priority, nor the same and an earlier creation. */
  predicate Foremost(tasks: seq<Task>, id: nat)
    requires id < |tasks|
  {
    forall j :: 0 <= j < |tasks| && Awaits(tasks[j], tasks[id].kind) ==>
      || tasks[j].priority < tasks[id].priority
      || (tasks[j].priority == tasks[id].priority && tasks[j].createdAt >= tasks[id].createdAt)
  }

  predicate SomeWaiting(tasks: seq<Task>, k: QueueName)
  {
    exists j :: 0 <= j < |tasks| && Awaits(tasks[j], k)
  }

  lemma QueueHasWaitingIff(s: State, k: QueueName)
    requires QueuesInv(s)
    ensures QueueOf(s.queues, k) != [] <==> SomeWaiting(s.tasks, k)
  {
    var q := QueueOf(s.queues, k);
    assert QueueInv(q, s.tasks, k, s.pushes);
    if q != [] {
      assert Describes(q[0], s.tasks[q[0].id], k);
    }
    if SomeWaiting(s.tasks, k) {
      var j :| 0 <= j < |s.tasks| && Awaits(s.tasks[j], k);
      assert s.tasks[j].Waiting() && Holds(QueueOf(s.queues, k), j);
    }
  }

  lemma HeadIsForemost(s: State, k: QueueName)
    requires QueuesInv(s) && QueueOf(s.queues, k) != []
    ensures var id := QueueOf(s.queues, k)[0].id;
      && id < |s.tasks| && s.tasks[id].kind == k && s.tasks[id].Waiting() && Foremost(s.tasks, id)
  {
    var q := QueueOf(s.queues, k);
    assert QueueInv(q, s.tasks, k, s.pushes) && Describes(q[0], s.tasks[q[0].id], k);
    forall j | 0 <= j < |s.tasks| && Awaits(s.tasks[j], k)
      ensures s.tasks[j].priority < q[0].priority
              || (s.tasks[j].priority == q[0].priority && s.tasks[j].createdAt >= q[0].createdAt) {
      assert s.tasks[j].Waiting() && Holds(QueueOf(s.queues, k), j);
      var i :| 0 <= i < |q| && q[i].id == j;
      assert Describes(q[i], s.tasks[j], k) && (i > 0 ==> Precedes(q[0], q[i]));
    }
  }

  /** The worker may take a task. */
  predicate MayLease(s: State, w: WorkerId)
  {
    w in s.workers && !s.workers[w].draining && s.workers[w].active < s.workers[w].capacity
  }

  /** The lease takes the foremost waiting task `id` of the worker's queue number `n`, the first one that has any. */
  predicate TakesForemost(s: State, s': State, w: WorkerId, now: int, n: nat, id: nat)
    requires w in s.workers
  {
    && n < |s.workers[w].queues| && id < |s.tasks|
    && (forall m :: 0 <= m < n ==> !SomeWaiting(s.tasks, s.workers[w].queues[m]))
    && Awaits(s.tasks[id], s.workers[w].queues[n]) && Foremost(s.tasks, id) && LeasedNow(s, s', w, now, id)
  }

  lemma ForemostIsLeased(s: State, w: WorkerId, now: int) returns (n: nat, id: nat)
    requires QueuesInv(s) && MayLease(s, w)
    requires exists k :: k in s.workers[w].queues && QueueOf(s.queues, k) != []
    ensures TakesForemost(s, Step(s, Lease(w, now)), w, now, n, id)
  {
    n := FirstIndex(s.queues, s.workers[w].queues);
    var k := s.workers[w].queues[n];
    id := QueueOf(s.queues, k)[0].id;
    HeadIsForemost(s, k);
    GrantedLease(s, w, now, k);
    forall m | 0 <= m < n ensures !SomeWaiting(s.tasks, s.workers[w].queues[m]) {
      QueueHasWaitingIff(s, s.workers[w].queues[m]);
    }
  }

  /** After every run, a lease is granted exactly when the worker is registered, not draining, below its capacity, and a
      task waits in one of its queues; it takes the foremost waiting task of the first of them that has any. */
  lemma LeaseTakesTheForemost(ops: seq<Op>, w: WorkerId, now: int)
    ensures var s := Run(INITIAL, ops);
      var s' := Step(s, Lease(w, now));
      if MayLease(s, w) && exists k :: k in s.workers[w].queues && SomeWaiting(s.tasks, k) then
        exists n: nat, id: nat :: TakesForemost(s, s', w, now, n, id)
      else s' == s
  {
    RunKeepsQueues(ops);
    var s := Run(INITIAL, ops);
    forall k ensures QueueOf(s.queues, k) != [] <==> SomeWaiting(s.tasks, k) {
      QueueHasWaitingIff(s, k);
    }
    if MayLease(s, w) && exists k :: k in s.workers[w].queues && SomeWaiting(s.tasks, k) {
      var n, id := ForemostIsLeased(s, w, now);
    }
  }

  lemma {:induction false} FirstIndex(queues: Queues, names: seq<QueueName>) returns (n: nat)
    requires exists k :: k in names && QueueOf(queues, k) != []
    ensures n < |names| && QueueOf(queues, names[n]) != [] && FirstNonEmpty(queues, names) == Some(names[n])
    ensures forall m :: 0 <= m < n ==> QueueOf(queues, names[m]) == []
  {
    if QueueOf(queues, names[0]) != [] {
      n := 0;
    } else {
      var m := FirstIndex(queues, names[1..]);
      n := m + 1;
    }
  }

  lemma GrantedLease(s: State, w: WorkerId, now: int, k: QueueName)
    requires QueuesInv(s) && LeaseFrom(s, w) == Some(k)
    ensures LeasedNow(s, Step(s, Lease(w, now)), w, now, QueueOf(s.queues, k)[0].id)
  {
    LeaseTakesTheHead(s, w, now);
  }

  // ----- what the other operations do

  lemma BeginEffect(s: State, id: nat, w: WorkerId, now: int)
    ensures Step(s, Begin(id, w, now)) ==
      if id < |s.tasks| && s.tasks[id].owner == Some(w) && s.tasks[id].state == Leased then
        var t := s.tasks[id];
        s.(tasks := s.tasks[id := t.(state := Running, startedAt := Some(now), trace := t.trace + [RunMark])])
      else s
  {
  }

  /** An update leaves the workers as its own rule says. */
  lemma WorkersOfStep(s: State, op: Op, id: nat)
    requires Target(s, op) == Some(id)
    ensures Step(s, op).workers == WorkersAfter(s, op, s.tasks[id])
  {
    assert Step(s, op) == Settle(s, op, id);
  }

  /** One task less for a worker that is registered. */
  predicate OneLess(before: map<WorkerId, Worker>, after: map<WorkerId, Worker>, w: WorkerId)
  {
    if w in before then after == before[w := before[w].(active := Max(0, before[w].active - 1))] else after == before
  }

  /** The worker owns the task, and it is leased or running. */
  predicate InHands(s: State, id: nat, w: WorkerId)
  {
    id < |s.tasks| && s.tasks[id].owner == Some(w) && (s.tasks[id].state == Leased || s.tasks[id].state == Running)
  }

  /** A live task of the worker is done: it has succeeded, and the worker carries one less. */
  lemma CompleteEffect(s: State, id: nat, w: WorkerId, now: int)
    ensures !InHands(s, id, w) ==> Step(s, Complete(id, w, now)) == s
    ensures InHands(s, id, w) ==>
              var t, s' := s.tasks[id], Step(s, Complete(id, w, now));
              && s'.tasks == s.tasks[id := t.(state := Succeeded, finishedAt := Some(now), until := None,
                                              trace := t.trace + [OkMark])]
              && OneLess(s.workers, s'.workers, w)
  {
    StepTasks(s, Complete(id, w, now));
    if InHands(s, id, w) {
      WorkersOfStep(s, Complete(id, w, now), id);
    }
  }

  /** A live task of the worker has failed: for good if its attempts are used up, else it waits again. */
  lemma FailEffect(s: State, id: nat, w: WorkerId, reason: string)
    ensures !InHands(s, id, w) ==> Step(s, Fail(id, w, reason)) == s
    ensures InHands(s, id, w) ==>
              var t, s' := s.tasks[id], Step(s, Fail(id, w, reason));
              var dead := t.attempt >= t.maxAttempts;
              && s'.tasks == s.tasks[id := t.(state := if dead then Failed else Retrying, lastError := Some(reason),
                                              until := None,
                                              trace := t.trace + [if dead then DeadLetterMark else RetryMark])]
              && OneLess(s.workers, s'.workers, w)
  {
    StepTasks(s, Fail(id, w, reason));
    if InHands(s, id, w) {
      WorkersOfStep(s, Fail(id, w, reason), id);
    }
  }

  /** The lease of the task has run out. */
  predicate RanOut(s: State, id: nat, now: int)
  {
    && id < |s.tasks| && (s.tasks[id].state == Leased || s.tasks[id].state == Running)
    && s.tasks[id].until.Some? && s.tasks[id].until.value <= now
  }

  /** A lease that ran out is taken back: the task waits again without an owner, and a worker with a name carries one
      less. */
  lemma ReclaimEffect(s: State, id: nat, now: int)
    ensures !RanOut(s, id, now) ==> Step(s, ReclaimOne(id, now)) == s
    ensures RanOut(s, id, now) ==>
              var t, s' := s.tasks[id], Step(s, ReclaimOne(id, now));
              && s'.tasks == s.tasks[id := t.(state := Retrying, owner := None, until := None,
                                              lastError := Some("lease expired"), trace := t.trace + [ReclaimedMark])]
              && (if t.owner == None || t.owner == Some("") then s'.workers == s.workers
                  else OneLess(s.workers, s'.workers, t.owner.value))
  {
    StepTasks(s, ReclaimOne(id, now));
    if RanOut(s, id, now) {
      WorkersOfStep(s, ReclaimOne(id, now), id);
    }
  }

  /** Draining stops intake and new leases, and touches nothing else. */
  lemma DrainEffect(s: State, w: WorkerId, kind: QueueName, priority: int, createdAt: int, now: int)
    ensures var s' := Step(s, Drain);
      && s'.tasks == s.tasks && s'.queues == s.queues && s'.workers.Keys == s.workers.Keys
      && (w in s.workers ==> s'.workers[w] == s.workers[w].(draining := true))
      && Step(s', Submit(kind, priority, createdAt)) == s' && Step(s', Lease(w, now)) == s'
  {
  }

  /** A submitted task is queued with no attempt made and four allowed, and a registered worker starts with no load. */
  lemma FreshTaskAndWorker(s: State, kind: QueueName, priority: int, createdAt: int, w: WorkerId,
                           queues: seq<QueueName>, capacity: int, now: int)
    ensures var fresh_ := Task(kind, priority, createdAt, 4, 0, [], Queued, None, None, None, None, None);
      s.accepting ==> Step(s, Submit(kind, priority, createdAt)).tasks == s.tasks + [fresh_]
    ensures Step(s, Register(w, queues, capacity, now))
         == s.(workers := s.workers[w := Worker(queues, capacity, 0, now, false)])
  {
  }

  /** A heartbeat overwrites the load of a known worker with what it reports, at least zero. */
  lemma HeartbeatEffect(s: State, w: WorkerId, active: int, now: int)
    ensures w !in s.workers ==> Step(s, Heartbeat(w, active, now)) == s
    ensures w in s.workers ==>
              var x := s.workers[w].(active := if active < 0 then 0 else active, lastSeen := now);
              Step(s, Heartbeat(w, active, now)) == s.(workers := s.workers[w := x])
  {
  }

  // ----- the pending count

  function One(t: Task): nat { if t.Waiting() then 1 else 0 }

  function WaitingCount(s: State): nat { Sum(s.tasks, One) }

  /** `pendingCount`: the sizes of the four queues. */
  function PendingCount(s: State): nat { Sum(NAMES, (k: QueueName) => |QueueOf(s.queues, k)|) }

  lemma PendingIsFourSizes(s: State)
    ensures PendingCount(s) == |QueueOf(s.queues, Render)| + |QueueOf(s.queues, Index)|
                             + |QueueOf(s.queues, Notify)| + |QueueOf(s.queues, Archive)|
  {
    var f := (k: QueueName) => |QueueOf(s.queues, k)|;
    assert NAMES[1..] == [Index, Notify, Archive];
    assert NAMES[1..][1..] == [Notify, Archive];
    assert NAMES[1..][1..][1..] == [Archive];
    assert Sum([Archive], f) == f(Archive) + Sum([Archive][1..], f);
  }

  /** Replacing one queue moves the count by the difference of the sizes. */
  lemma PendingAfter(s: State, s': State, k: QueueName, q: seq<Entry>)
    requires s'.queues == s.queues[k := q]
    ensures PendingCount(s') + |QueueOf(s.queues, k)| == PendingCount(s) + |q|
  {
    PendingIsFourSizes(s);
    PendingIsFourSizes(s');
    match k
    case Render =>
    case Index =>
    case Notify =>
    case Archive =>
  }

  lemma PushCounts(s: State, id: nat)
    requires id < |s.tasks|
    ensures PendingCount(Push(s, id)) == PendingCount(s) + 1
  {
    var t := s.tasks[id];
    var e := Entry(id, t.priority, t.createdAt, s.pushes);
    PendingAfter(s, Push(s, id), t.kind, Pushed(QueueOf(s.queues, t.kind), e));
  }

  lemma SameQueuesCount(s: State, s': State)
    requires s'.queues == s.queues
    ensures PendingCount(s') == PendingCount(s)
  {
    PendingIsFourSizes(s);
    PendingIsFourSizes(s');
  }

  lemma SubmitCounts(s: State, kind: QueueName, priority: int, createdAt: int)
    requires PendingCount(s) == WaitingCount(s)
    ensures PendingCount(DoSubmit(s, kind, priority, createdAt)) == WaitingCount(DoSubmit(s, kind, priority, createdAt))
  {
    if s.accepting {
      var t := NewTask(kind, priority, createdAt);
      SumConcat(s.tasks, [t], One);
      SumSingle(t, One);
      SameQueuesCount(s, s.(tasks := s.tasks + [t]));
      PushCounts(s.(tasks := s.tasks + [t]), |s.tasks|);
    }
  }

  /** A lease takes one waiting task off the queues; the other updates are of tasks that do not wait. */
  lemma QueuesAfterCounts(s: State, s1: State, op: Op, id: nat)
    requires QueuesInv(s) && Target(s, op) == Some(id) && s1.queues == QueuesAfter(s, op)
    ensures PendingCount(s1) + One(s.tasks[id]) == PendingCount(s)
  {
    if op.Lease? {
      LeaseTakesTheHead(s, op.worker, op.now);
      var k := LeaseFrom(s, op.worker).value;
      PendingAfter(s, s1, k, QueueOf(s.queues, k)[1..]);
    } else {
      SameQueuesCount(s, s1);
    }
  }

  lemma SettleCounts(s: State, op: Op, id: nat)
    requires QueuesInv(s) && Target(s, op) == Some(id) && PendingCount(s) == WaitingCount(s)
    ensures PendingCount(Settle(s, op, id)) == WaitingCount(Settle(s, op, id))
  {
    var t := Patch(s.tasks[id], op);
    var s1 := s.(tasks := s.tasks[id := t], queues := QueuesAfter(s, op), workers := WorkersAfter(s, op, s.tasks[id]));
    SumUpdate(s.tasks, id, t, One);
    QueuesAfterCounts(s, s1, op, id);
    if t.Waiting() {
      PushCounts(s1, id);
    }
  }

  lemma StepCounts(s: State, op: Op)
    requires QueuesInv(s) && PendingCount(s) == WaitingCount(s)
    ensures PendingCount(Step(s, op)) == WaitingCount(Step(s, op))
  {
    if op.Submit? {
      SubmitCounts(s, op.kind, op.priority, op.createdAt);
    } else if Target(s, op).Some? {
      SettleCounts(s, op, Target(s, op).value);
    } else {
      SameQueuesCount(s, Step(s, op));
    }
  }

  /** After every run, the pending count is the number of queued or retrying tasks. */
  lemma {:induction false} PendingCountsTheWaiting(ops: seq<Op>)
    ensures PendingCount(Run(INITIAL, ops)) == WaitingCount(Run(INITIAL, ops))
  {
    if ops == [] {
      PendingIsFourSizes(INITIAL);
    } else {
      PendingCountsTheWaiting(ops[..|ops| - 1]);
      RunKeepsQueues(ops[..|ops| - 1]);
      StepCounts(Run(INITIAL, ops[..|ops| - 1]), ops[|ops| - 1]);
    }
  }

  // ----- terminal states

  lemma StepKeepsTerminal(s: State, op: Op, id: nat)
    requires QueuesInv(s) && id < |s.tasks| && s.tasks[id].Terminal()
    ensures id < |Step(s, op).tasks| && Step(s, op).tasks[id] == s.tasks[id]
  {
    StepTasks(s, op);
    if Target(s, op) == Some(id) {
      TargetIsPatchable(s, op);
    }
  }

  /** Once succeeded or failed, a task record never changes again. */
  lemma {:induction false} TerminalIsFinal(ops: seq<Op>, more: seq<Op>, id: nat)
    requires id < |Run(INITIAL, ops).tasks| && Run(INITIAL, ops).tasks[id].Terminal()
    ensures id < |Run(INITIAL, ops + more).tasks|
    ensures Run(INITIAL, ops + more).tasks[id] == Run(INITIAL, ops).tasks[id]
  {
    if more == [] {
      assert ops + more == ops;
    } else {
      var init, last := more[..|more| - 1], more[|more| - 1];
      assert ops + more == ops + init + [last];
      RunOneMore(INITIAL, ops + init, last);
      TerminalIsFinal(ops, init, id);
      RunKeepsQueues(ops + init);
      StepKeepsTerminal(Run(INITIAL, ops + init), last, id);
    }
  }

  // ----- the retry ledger

  function LeaseMark(e: TraceEntry): nat { if e.LeaseBy? then 1 else 0 }
  function RetryCount(e: TraceEntry): nat { if e == RetryMark then 1 else 0 }
  function ReclaimCount(e: TraceEntry): nat { if e == ReclaimedMark then 1 else 0 }

  function Leases(t: Task): nat { Sum(t.trace, LeaseMark) }
  function Retries(t: Task): nat { Sum(t.trace, RetryCount) }
  function Reclaims(t: Task): nat { Sum(t.trace, ReclaimCount) }

  /** The state that the last trace entry stands for. */
  function TracedState(trace: seq<TraceEntry>): TaskState
  {
    if trace == [] then Queued
    else
      match trace[|trace| - 1]
      case LeaseBy(_) => Leased
      case RunMark => Running
      case OkMark => Succeeded
      case RetryMark => Retrying
      case DeadLetterMark => Failed
      case ReclaimedMark => Retrying
  }

  predicate Ledger(t: Task)
  {
    && t.maxAttempts == MAX_ATTEMPTS
    && t.state == TracedState(t.trace)
    && t.attempt == Leases(t)
    && t.attempt == Retries(t) + Reclaims(t) + (if t.Waiting() then 0 else 1)
    && Retries(t) <= t.maxAttempts - 1
    && (t.state == Failed ==> t.attempt >= t.maxAttempts)
    && (t.Live() ==> t.owner.Some? && t.until.Some?)
  }

  lemma Traced(t: Task, e: TraceEntry)
    ensures var t' := t.(trace := t.trace + [e]);
      && Leases(t') == Leases(t) + LeaseMark(e)
      && Retries(t') == Retries(t) + RetryCount(e)
      && Reclaims(t') == Reclaims(t) + ReclaimCount(e)
  {
    SumConcat(t.trace, [e], LeaseMark);
    SumConcat(t.trace, [e], RetryCount);
    SumConcat(t.trace, [e], ReclaimCount);
    SumSingle(e, LeaseMark);
    SumSingle(e, RetryCount);
    SumSingle(e, ReclaimCount);
  }

  /** The record an operation may update, by its state. */
  predicate Patchable(t: Task, op: Op)
  {
    match op
    case Lease(_, _) => t.Waiting()
    case Begin(_, w, _) => t.state == Leased && t.owner == Some(w)
    case Complete(_, w, _) => t.Live() && t.owner == Some(w)
    case Fail(_, w, _) => t.Live() && t.owner == Some(w)
    case ReclaimOne(_, now) => Expired(t, now)
    case _ => false
  }

  lemma PatchKeepsLedger(t: Task, op: Op)
    requires Ledger(t) && Patchable(t, op)
    ensures Ledger(Patch(t, op))
  {
    var t' := Patch(t, op);
    assert t'.trace == t.trace + [t'.trace[|t.trace|]];
    Traced(t, t'.trace[|t.trace|]);
  }

  lemma TargetIsPatchable(s: State, op: Op)
    requires QueuesInv(s) && Target(s, op).Some?
    ensures Patchable(s.tasks[Target(s, op).value], op)
  {
    if op.Lease? {
      LeaseTakesTheHead(s, op.worker, op.now);
    }
  }

  /** An operation updates its target, may add one new task, and leaves every other record alone. */
  lemma StepTasks(s: State, op: Op)
    ensures var tasks := Step(s, op).tasks;
      match Target(s, op)
      case Some(id) => tasks == s.tasks[id := Patch(s.tasks[id], op)]
      case None =>
        tasks == s.tasks || (op.Submit? && tasks == s.tasks + [NewTask(op.kind, op.priority, op.createdAt)])
  {
  }

  lemma StepKeepsLedger(s: State, op: Op, id: nat)
    requires QueuesInv(s) && forall j :: 0 <= j < |s.tasks| ==> Ledger(s.tasks[j])
    requires id < |Step(s, op).tasks|
    ensures Ledger(Step(s, op).tasks[id])
  {
    StepTasks(s, op);
    if Target(s, op) == Some(id) {
      TargetIsPatchable(s, op);
      PatchKeepsLedger(s.tasks[id], op);
    }
  }

  lemma {:induction false} RunKeepsLedger(ops: seq<Op>, id: nat)
    requires id < |Run(INITIAL, ops).tasks|
    ensures Ledger(Run(INITIAL, ops).tasks[id])
  {
    if ops != [] {
      var before := Run(INITIAL, ops[..|ops| - 1]);
      forall j | 0 <= j < |before.tasks| ensures Ledger(before.tasks[j]) {
        RunKeepsLedger(ops[..|ops| - 1], j);
      }
      RunKeepsQueues(ops[..|ops| - 1]);
      StepKeepsLedger(before, ops[|ops| - 1], id);
    }
  }

  /** After every run: a task's attempt counts its leases, which are its retries and reclaims, plus the
      one it still holds or ended with; there are at most three retries, and only reclaims take the attempt
      beyond the maximum. */
  lemma RetryLedger(ops: seq<Op>, id: nat)
    requires id < |Run(INITIAL, ops).tasks|
    ensures var t := Run(INITIAL, ops).tasks[id];
      && t.attempt == Leases(t)
      && t.attempt == Retries(t) + Reclaims(t) + (if t.Waiting() then 0 else 1)
      && Retries(t) <= 3
      && t.attempt <= 4 + Reclaims(t)
      && t.state == TracedState(t.trace)
  {
    RunKeepsLedger(ops, id);
  }

  /** The operation leases the task out although its attempts are used up. */
  predicate LeasesBeyond(s: State, op: Op, id: nat)
    requires id < |s.tasks|
  {
    op.Lease? && Target(s, op) == Some(id) && s.tasks[id].attempt == MAX_ATTEMPTS
  }

  /** An operation takes a task beyond its attempts if and only if it leases it out with none left. */
  lemma AttemptKeptIff(s: State, op: Op, id: nat)
    requires id < |s.tasks| && s.tasks[id].attempt <= MAX_ATTEMPTS
    ensures id < |Step(s, op).tasks|
    ensures Step(s, op).tasks[id].attempt <= MAX_ATTEMPTS <==> !LeasesBeyond(s, op, id)
  {
    StepTasks(s, op);
  }

  /** The operation that follows the run does not take the task beyond its attempts. */
  predicate NotLeasedBeyond(ops: seq<Op>, op: Op, id: nat)
  {
    id < |Run(INITIAL, ops).tasks| ==> !LeasesBeyond(Run(INITIAL, ops), op, id)
  }

  predicate NeverLeasedBeyond(ops: seq<Op>, id: nat)
  {
    forall j :: 0 <= j < |ops| ==> NotLeasedBeyond(ops[..j], ops[j], id)
  }

  /** At most the allowed attempts after the run. */
  predicate AttemptBounded(ops: seq<Op>, id: nat)
  {
    id < |Run(INITIAL, ops).tasks| ==> Run(INITIAL, ops).tasks[id].attempt <= MAX_ATTEMPTS
  }

  predicate AlwaysBounded(ops: seq<Op>, id: nat)
  {
    forall j :: 0 <= j <= |ops| ==> AttemptBounded(ops[..j], id)
  }

  lemma BoundedOneMore(ops: seq<Op>, op: Op, id: nat)
    ensures AlwaysBounded(ops + [op], id) <==> AlwaysBounded(ops, id) && AttemptBounded(ops + [op], id)
  {
    var all := ops + [op];
    assert all[..|all|] == all;
    assert forall j :: 0 <= j <= |ops| ==> all[..j] == ops[..j];
  }

  lemma LeasedOneMore(ops: seq<Op>, op: Op, id: nat)
    ensures NeverLeasedBeyond(ops + [op], id) <==> NeverLeasedBeyond(ops, id) && NotLeasedBeyond(ops, op, id)
  {
    var all := ops + [op];
    assert all[..|ops|] == ops && all[|ops|] == op;
    assert forall j :: 0 <= j < |ops| ==> all[..j] == ops[..j] && all[j] == ops[j];
  }

  lemma BoundedAfterStep(ops: seq<Op>, op: Op, id: nat)
    requires AttemptBounded(ops, id)
    ensures AttemptBounded(ops + [op], id) <==> NotLeasedBeyond(ops, op, id)
  {
    RunOneMore(INITIAL, ops, op);
    StepTasks(Run(INITIAL, ops), op);
    if id < |Run(INITIAL, ops).tasks| {
      AttemptKeptIff(Run(INITIAL, ops), op, id);
    }
  }

  /** Over all runs: a task's attempt never passes the maximum if and only if no lease is granted on it while its
      attempt is at the maximum. */
  lemma {:induction false} AttemptLimitIff(ops: seq<Op>, id: nat)
    ensures AlwaysBounded(ops, id) <==> NeverLeasedBeyond(ops, id)
  {
    if ops == [] {
      assert AttemptBounded([], id);
    } else {
      var init, op := ops[..|ops| - 1], ops[|ops| - 1];
      assert ops == init + [op] && init[..|init|] == init;
      AttemptLimitIff(init, id);
      BoundedOneMore(init, op, id);
      LeasedOneMore(init, op, id);
      if AlwaysBounded(init, id) {
        assert AttemptBounded(init[..|init|], id);
        BoundedAfterStep(init, op, id);
      }
    }
  }

  /** No more attempts than allowed, and one left for a task that waits for its next lease. */
  predicate WithinLimit(t: Task) { t.attempt <= MAX_ATTEMPTS && (t.Waiting() ==> t.attempt < MAX_ATTEMPTS) }

  /** The operation does not reclaim the task on its last attempt. */
  predicate SparesTheLast(s: State, op: Op, id: nat)
    requires id < |s.tasks|
  {
    op.ReclaimOne? && op.id == id && Expired(s.tasks[id], op.now) ==> s.tasks[id].attempt < MAX_ATTEMPTS
  }

  /** A waiting task keeps an attempt to spare exactly under the operations that do not reclaim a last attempt. */
  lemma SpareKeptIff(s: State, op: Op, id: nat)
    requires QueuesInv(s) && id < |s.tasks| && Ledger(s.tasks[id]) && WithinLimit(s.tasks[id])
    ensures id < |Step(s, op).tasks|
    ensures WithinLimit(Step(s, op).tasks[id]) <==> SparesTheLast(s, op, id)
  {
    StepTasks(s, op);
    if Target(s, op) == Some(id) {
      TargetIsPatchable(s, op);
    }
  }

  predicate SparingRun(ops: seq<Op>, id: nat)
  {
    ops == [] ||
    (var s := Run(INITIAL, ops[..|ops| - 1]);
     SparingRun(ops[..|ops| - 1], id) && (id < |s.tasks| ==> SparesTheLast(s, ops[|ops| - 1], id)))
  }

  predicate WithinLimitThroughout(ops: seq<Op>, id: nat)
  {
    && (id < |Run(INITIAL, ops).tasks| ==> WithinLimit(Run(INITIAL, ops).tasks[id]))
    && (ops == [] || WithinLimitThroughout(ops[..|ops| - 1], id))
  }

  /** A task never waits with its attempts used up if and only if it is never reclaimed on its last attempt. */
  lemma {:induction false} SpareAttemptIff(ops: seq<Op>, id: nat)
    ensures SparingRun(ops, id) <==> WithinLimitThroughout(ops, id)
  {
    if ops != [] {
      var init := ops[..|ops| - 1];
      var s := Run(INITIAL, init);
      SpareAttemptIff(init, id);
      RunKeepsQueues(init);
      StepTasks(s, ops[|ops| - 1]);
      if id < |s.tasks| && WithinLimit(s.tasks[id]) {
        RunKeepsLedger(init, id);
        SpareKeptIff(s, ops[|ops| - 1], id);
      }
    }
  }

  lemma RunTwoMore(ops: seq<Op>, a: Op, b: Op)
    ensures Run(INITIAL, ops + [a, b]) == Step(Step(Run(INITIAL, ops), a), b)
  {
    var one := ops + [a];
    assert ops + [a, b] == one + [b];
    RunOneMore(INITIAL, ops, a);
    RunOneMore(INITIAL, one, b);
  }

  lemma RunOfTwo(a: Op, b: Op)
    ensures Run(INITIAL, [a, b]) == Step(Step(INITIAL, a), b)
  {
    RunTwoMore([], a, b);
    assert [] + [a, b] == [a, b];
  }

  lemma PushedOnEmpty(e: Entry)
    ensures Pushed([], e) == [e]
  {
    assert [] + [e] == [e] && [e][..0] == [];
    assert Sort([e][..0], EntryBefore) == [];
  }

  /** A worker takes the only task and lets every lease expire, `n` times. */
  function ExpiringRun(w: WorkerId, n: nat): seq<Op>
  {
    if n == 0 then [Register(w, [Render], 1, 0), Submit(Render, 0, 0)]
    else ExpiringRun(w, n - 1) + [Lease(w, 0), ReclaimOne(0, LEASE_MS)]
  }

  /** The task waits after `n` expired leases, and nothing is held. */
  predicate WaitsAfter(s: State, w: WorkerId, n: nat)
  {
    && |s.tasks| == 1 && s.tasks[0].Waiting() && s.tasks[0].attempt == n && s.tasks[0].owner == None
    && s.tasks[0].kind == Render && Render in s.queues && |s.queues[Render]| == 1 && s.queues[Render][0].id == 0
    && s.workers == map[w := Worker([Render], 1, 0, 0, false)]
  }

  lemma LeaseOfWaiting(s: State, w: WorkerId, n: nat)
    requires WaitsAfter(s, w, n)
    ensures var s' := Step(s, Lease(w, 0));
      && s'.tasks == [Patch(s.tasks[0], Lease(w, 0))] && s'.tasks[0].attempt == n + 1
      && Render in s'.queues && s'.queues[Render] == []
      && s'.workers == map[w := Worker([Render], 1, 1, 0, false)]
      && Held(s', w) == 1
  {
    assert FirstNonEmpty(s.queues, [Render]) == Some(Render);
    assert Target(s, Lease(w, 0)) == Some(0);
    SumSingle(Patch(s.tasks[0], Lease(w, 0)), (t: Task) => HeldBy(t, w));
  }

  lemma ReclaimOfLeased(s: State, w: WorkerId, n: nat)
    requires WaitsAfter(s, w, n)
    ensures var s' := Step(Step(s, Lease(w, 0)), ReclaimOne(0, LEASE_MS));
      if w == "" then s'.workers == map[w := Worker([Render], 1, 1, 0, false)] && Held(s', w) == 0
      else WaitsAfter(s', w, n + 1)
  {
    LeaseOfWaiting(s, w, n);
    var s1 := Step(s, Lease(w, 0));
    var s2 := Step(s1, ReclaimOne(0, LEASE_MS));
    assert Target(s1, ReclaimOne(0, LEASE_MS)) == Some(0);
    PushedOnEmpty(Entry(0, s.tasks[0].priority, s.tasks[0].createdAt, s1.pushes));
    assert s2.tasks == [Patch(s1.tasks[0], ReclaimOne(0, LEASE_MS))];
    SumSingle(s2.tasks[0], (t: Task) => HeldBy(t, w));
  }

  lemma OneTaskWaits(w: WorkerId)
    ensures WaitsAfter(Run(INITIAL, ExpiringRun(w, 0)), w, 0)
  {
    RunOfTwo(Register(w, [Render], 1, 0), Submit(Render, 0, 0));
    PushedOnEmpty(Entry(0, 0, 0, 0));
  }

  lemma {:induction false} ExpiringRunWaits(w: WorkerId, n: nat)
    requires w != ""
    ensures WaitsAfter(Run(INITIAL, ExpiringRun(w, n)), w, n)
  {
    if n == 0 {
      OneTaskWaits(w);
    } else {
      ExpiringRunWaits(w, n - 1);
      RunTwoMore(ExpiringRun(w, n - 1), Lease(w, 0), ReclaimOne(0, LEASE_MS));
      ReclaimOfLeased(Run(INITIAL, ExpiringRun(w, n - 1)), w, n - 1);
    }
  }

  /** The attempt of a task has no bound: `n` expired leases and one more lease give attempt n + 1. With n = 4 that
      passes the maximum. */
  lemma AttemptsAreUnbounded(w: WorkerId, n: nat)
    requires w != ""
    ensures var s := Run(INITIAL, ExpiringRun(w, n) + [Lease(w, 0)]);
      |s.tasks| == 1 && s.tasks[0].attempt == n + 1 && s.tasks[0].state == Leased
  {
    ExpiringRunWaits(w, n);
    RunOneMore(INITIAL, ExpiringRun(w, n), Lease(w, 0));
    LeaseOfWaiting(Run(INITIAL, ExpiringRun(w, n)), w, n);
  }

  // ----- worker load

  function HeldBy(t: Task, w: WorkerId): nat { if t.Live() && t.owner == Some(w) then 1 else 0 }

  /** The leased or running tasks a worker owns. */
  function Held(s: State, w: WorkerId): nat { Sum(s.tasks, (t: Task) => HeldBy(t, w)) }

  ghost predicate WorkerAccounted(s: State, w: WorkerId)
  {
    if w in s.workers then s.workers[w].active == Held(s, w) <= Max(0, s.workers[w].capacity) else Held(s, w) == 0
  }

  ghost predicate Accounted(s: State) { forall w :: WorkerAccounted(s, w) }

  /** A worker registers while it holds nothing, heartbeats report the held count, and no expired lease of a worker with
      the empty name is reclaimed. */
  predicate Disciplined(s: State, op: Op)
  {
    match op
    case Register(w, _, _, _) => Held(s, w) == 0
    case Heartbeat(w, active, _) => w in s.workers ==> Max(0, active) == Held(s, w)
    case ReclaimOne(id, now) => id < |s.tasks| && Expired(s.tasks[id], now) ==> s.tasks[id].owner != Some("")
    case _ => true
  }

  lemma HeldAfter(tasks: seq<Task>, id: nat, t: Task, w: WorkerId)
    requires id < |tasks|
    ensures Sum(tasks[id := t], (x: Task) => HeldBy(x, w)) + HeldBy(tasks[id], w)
         == Sum(tasks, (x: Task) => HeldBy(x, w)) + HeldBy(t, w)
    ensures HeldBy(tasks[id], w) <= Sum(tasks, (x: Task) => HeldBy(x, w))
  {
    SumUpdate(tasks, id, t, (x: Task) => HeldBy(x, w));
  }

  /** The worker's count moves with what it holds of the updated task. */
  lemma ActiveAfter(s: State, op: Op, t: Task, w: WorkerId)
    requires Patchable(t, op) && (op.Lease? ==> op.worker in s.workers)
    requires t.Live() ==> t.owner.Some?
    requires op.ReclaimOne? ==> t.owner != Some("")
    requires w in s.workers ==> s.workers[w].active >= HeldBy(t, w)
    ensures w in WorkersAfter(s, op, t) <==> w in s.workers
    ensures w in s.workers ==>
      var x, x' := s.workers[w], WorkersAfter(s, op, t)[w];
      x'.active + HeldBy(t, w) == x.active + HeldBy(Patch(t, op), w) && x'.capacity == x.capacity
  {
  }

  /** Only a lease by the worker itself adds to what it holds. */
  lemma OnlyLeaseAdds(t: Task, op: Op, w: WorkerId)
    requires Patchable(t, op) && (t.Live() ==> t.owner.Some?)
    ensures HeldBy(Patch(t, op), w) > HeldBy(t, w) ==> op.Lease? && op.worker == w
  {
  }

  /** An update that an operation may make to a task keeps a worker's count right. */
  lemma PatchAccountsFor(s: State, s': State, op: Op, id: nat, w: WorkerId)
    requires id < |s.tasks| && Patchable(s.tasks[id], op) && Ledger(s.tasks[id]) && WorkerAccounted(s, w)
    requires op.Lease? ==> op.worker in s.workers && s.workers[op.worker].active < s.workers[op.worker].capacity
    requires op.ReclaimOne? ==> s.tasks[id].owner != Some("")
    requires s'.workers == WorkersAfter(s, op, s.tasks[id]) && s'.tasks == s.tasks[id := Patch(s.tasks[id], op)]
    ensures WorkerAccounted(s', w)
  {
    var t := s.tasks[id];
    HeldAfter(s.tasks, id, Patch(t, op), w);
    assert Held(s', w) + HeldBy(t, w) == Held(s, w) + HeldBy(Patch(t, op), w);
    ActiveAfter(s, op, t, w);
    OnlyLeaseAdds(t, op, w);
  }

  lemma SettleAccountsFor(s: State, op: Op, id: nat, w: WorkerId)
    requires QueuesInv(s) && Accounted(s) && Target(s, op) == Some(id) && Ledger(s.tasks[id]) && Disciplined(s, op)
    ensures WorkerAccounted(Settle(s, op, id), w)
  {
    assert WorkerAccounted(s, w);
    TargetIsPatchable(s, op);
    PatchAccountsFor(s, Settle(s, op, id), op, id, w);
  }

  lemma StepAccountsFor(s: State, op: Op, w: WorkerId)
    requires QueuesInv(s) && Accounted(s) && forall j :: 0 <= j < |s.tasks| ==> Ledger(s.tasks[j])
    requires !op.Register? && !op.Heartbeat? && Disciplined(s, op)
    ensures WorkerAccounted(Step(s, op), w)
  {
    assert WorkerAccounted(s, w);
    if op.Submit? {
      var t := NewTask(op.kind, op.priority, op.createdAt);
      var held := (x: Task) => HeldBy(x, w);
      SumConcat(s.tasks, [t], held);
      SumSingle(t, held);
    } else if Target(s, op).Some? {
      SettleAccountsFor(s, op, Target(s, op).value, w);
    }
  }

  /** Load accounting survives an operation exactly when that is disciplined. */
  lemma AccountingKeptIffDisciplined(s: State, op: Op)
    requires QueuesInv(s) && Accounted(s) && forall j :: 0 <= j < |s.tasks| ==> Ledger(s.tasks[j])
    ensures Accounted(Step(s, op)) <==> Disciplined(s, op)
  {
    var s' := Step(s, op);
    match op
    case Register(v, _, _, _) =>
      assert s'.workers[v].active == 0 && Held(s', v) == Held(s, v);
      forall w ensures (w != v || Held(s, v) == 0) ==> WorkerAccounted(s', w) {
        assert WorkerAccounted(s, w) && Held(s', w) == Held(s, w);
      }
      assert WorkerAccounted(s', v) ==> Held(s, v) == 0;
    case Heartbeat(v, _, _) =>
      assert WorkerAccounted(s, v) && Held(s', v) == Held(s, v);
      forall w ensures (w != v || Disciplined(s, op)) ==> WorkerAccounted(s', w) {
        assert WorkerAccounted(s, w) && Held(s', w) == Held(s, w);
      }
      assert WorkerAccounted(s', v) ==> Disciplined(s, op);
    case ReclaimOne(id, now) =>
      if Disciplined(s, op) {
        StepAccounts(s, op);
      } else {
        NamelessIsNotReleased(s, id, now);
      }
    case _ => StepAccounts(s, op);
  }

  lemma StepAccounts(s: State, op: Op)
    requires QueuesInv(s) && Accounted(s) && forall j :: 0 <= j < |s.tasks| ==> Ledger(s.tasks[j])
    requires !op.Register? && !op.Heartbeat? && Disciplined(s, op)
    ensures Accounted(Step(s, op))
  {
    forall w ensures WorkerAccounted(Step(s, op), w) {
      StepAccountsFor(s, op, w);
    }
  }

  /** The reclaim of a lease of the worker with the empty name leaves its load as it was. */
  lemma NamelessIsNotReleased(s: State, id: nat, now: int)
    requires Accounted(s) && id < |s.tasks| && Expired(s.tasks[id], now) && s.tasks[id].owner == Some("")
    ensures !WorkerAccounted(Step(s, ReclaimOne(id, now)), "")
  {
    var s' := Step(s, ReclaimOne(id, now));
    assert WorkerAccounted(s, "");
    HeldAfter(s.tasks, id, Patch(s.tasks[id], ReclaimOne(id, now)), "");
    assert Held(s', "") + 1 == Held(s, "") && s'.workers == s.workers;
  }

  /** Every operation was disciplined when it was issued. */
  predicate DisciplinedRun(ops: seq<Op>)
  {
    ops == [] || (DisciplinedRun(ops[..|ops| - 1]) && Disciplined(Run(INITIAL, ops[..|ops| - 1]), ops[|ops| - 1]))
  }

  /** Accounting holds after every operation of the run. */
  ghost predicate AccountedThroughout(ops: seq<Op>)
  {
    Accounted(Run(INITIAL, ops)) && (ops == [] || AccountedThroughout(ops[..|ops| - 1]))
  }

  /** Load accounting holds all the way through a run if and only if each of its operations was disciplined. */
  lemma {:induction false} AccountedThroughoutIff(ops: seq<Op>)
    ensures DisciplinedRun(ops) <==> AccountedThroughout(ops)
  {
    if ops == [] {
      forall w ensures WorkerAccounted(INITIAL, w) {
      }
    } else {
      var prefix := ops[..|ops| - 1];
      AccountedThroughoutIff(prefix);
      RunKeepsQueues(prefix);
      forall j | 0 <= j < |Run(INITIAL, prefix).tasks| ensures Ledger(Run(INITIAL, prefix).tasks[j]) {
        RunKeepsLedger(prefix, j);
      }
      if AccountedThroughout(prefix) {
        AccountingKeptIffDisciplined(Run(INITIAL, prefix), ops[|ops| - 1]);
      }
    }
  }

  /** A heartbeat that reports nothing while a lease is held, and a second registration, both take a held task out of
      the count. */
  lemma UndisciplinedRunsMiscount(w: WorkerId, op: Op, now: int)
    requires op == Heartbeat(w, 0, now) || op == Register(w, [Render], 1, now)
    ensures var s := Run(INITIAL, ExpiringRun(w, 0) + [Lease(w, 0), op]);
      w in s.workers && s.workers[w].active == 0 && Held(s, w) == 1
  {
    OneTaskWaits(w);
    LeaseOfWaiting(Run(INITIAL, ExpiringRun(w, 0)), w, 0);
    RunTwoMore(ExpiringRun(w, 0), Lease(w, 0), op);
  }

  /** The worker with the empty name keeps its load when its only lease is reclaimed. */
  lemma NamelessWorkerMiscounts()
    ensures var s := Run(INITIAL, ExpiringRun("", 1));
      "" in s.workers && s.workers[""].active == 1 && Held(s, "") == 0
  {
    OneTaskWaits("");
    RunTwoMore(ExpiringRun("", 0), Lease("", 0), ReclaimOne(0, LEASE_MS));
    ReclaimOfLeased(Run(INITIAL, ExpiringRun("", 0)), "", 0);
  }

  /** After every disciplined run, `active` is the number of live tasks the worker owns and at most its
      capacity, every live task is owned by a registered worker, and releasing it would not clip at zero. */
  lemma ActiveCountsHeldTasks(ops: seq<Op>, w: WorkerId, id: nat)
    requires DisciplinedRun(ops)
    ensures var s := Run(INITIAL, ops);
      && (w in s.workers ==> s.workers[w].active == Held(s, w) <= Max(0, s.workers[w].capacity))
      && (id < |s.tasks| && s.tasks[id].Live() ==>
            match s.tasks[id].owner
            case Some(v) => v in s.workers && s.workers[v].active >= 1
            case None => false)
  {
    var s := Run(INITIAL, ops);
    AccountedThroughoutIff(ops);
    assert WorkerAccounted(s, w);
    if id < |s.tasks| && s.tasks[id].Live() {
      RunKeepsLedger(ops, id);
      var v := s.tasks[id].owner.value;
      assert WorkerAccounted(s, v);
      HeldAfter(s.tasks, id, s.tasks[id], v);
    }
  }

  // ----- expiry

  lemma ReclaimStep(s: State, id: nat, now: int)
    ensures Step(s, ReclaimOne(id, now)).tasks
         == if id < |s.tasks| && Expired(s.tasks[id], now) then s.tasks[id := Patch(s.tasks[id], ReclaimOne(id, now))]
            else s.tasks
  {
  }

  lemma {:induction false} ReclaimedUpTo(s: State, n: nat, now: int, j: nat)
    requires n <= |s.tasks| && j < |s.tasks|
    ensures |ReclaimUpTo(s, n, now).tasks| == |s.tasks|
    ensures ReclaimUpTo(s, n, now).tasks[j]
         == if j < n && Expired(s.tasks[j], now) then Patch(s.tasks[j], ReclaimOne(j, now)) else s.tasks[j]
  {
    if n > 0 {
      ReclaimedUpTo(s, n - 1, now, j);
      ReclaimedUpTo(s, n - 1, now, n - 1);
      ReclaimNext(s, n - 1, now);
      ReclaimStep(ReclaimUpTo(s, n - 1, now), n - 1, now);
    }
  }

  /** A sweep at one time leaves no live task whose lease has expired, takes every expired task from
      its owner, and touches no other task. */
  lemma ReclaimLeavesNoneExpired(s: State, now: int, id: nat)
    requires id < |s.tasks|
    ensures |ReclaimUpTo(s, |s.tasks|, now).tasks| == |s.tasks|
    ensures var t, t' := s.tasks[id], ReclaimUpTo(s, |s.tasks|, now).tasks[id];
      && ((t'.state == Leased || t'.state == Running) && t'.until.Some? ==> t'.until.value > now)
      && (Expired(t, now) ==> t'.owner == None && t'.state == Retrying && Reclaims(t') == Reclaims(t) + 1)
      && (!Expired(t, now) ==> t' == t)
  {
    ReclaimedUpTo(s, |s.tasks|, now, id);
    Traced(s.tasks[id], ReclaimedMark);
  }

  lemma OnlyLeaseMakesOwner(s: State, op: Op, id: nat, w: WorkerId)
    requires id < |s.tasks| && s.tasks[id].owner != Some(w)
    requires !(op.Lease? && op.worker == w && Target(s, op) == Some(id))
    ensures id < |Step(s, op).tasks| && Step(s, op).tasks[id].owner != Some(w)
  {
    StepTasks(s, op);
  }

  /** In the run that follows `ops`, no lease by the worker takes the task. */
  predicate NeverLeasedTo(ops: seq<Op>, more: seq<Op>, id: nat, w: WorkerId)
  {
    forall j :: 0 <= j < |more| && more[j].Lease? && more[j].worker == w ==>
      Target(Run(INITIAL, ops + more[..j]), more[j]) != Some(id)
  }

  /** A worker that does not own a task, as after a reclaim, cannot begin, complete or fail it until it leases that
      task again, whatever else happens in between, other leases of its own included. */
  lemma {:induction false} LostOwnerIsRefused(ops: seq<Op>, more: seq<Op>, id: nat, w: WorkerId)
    requires id < |Run(INITIAL, ops).tasks| && Run(INITIAL, ops).tasks[id].owner != Some(w)
    requires NeverLeasedTo(ops, more, id, w)
    ensures var s := Run(INITIAL, ops + more);
      id < |s.tasks| && s.tasks[id].owner != Some(w) && !MayBegin(s, id, w) && !Owns(s, id, w)
  {
    if more == [] {
      assert ops + more == ops;
    } else {
      var init, last := more[..|more| - 1], more[|more| - 1];
      assert ops + more == ops + init + [last];
      assert forall j :: 0 <= j < |init| ==> init[j] == more[j] && init[..j] == more[..j];
      RunOneMore(INITIAL, ops + init, last);
      LostOwnerIsRefused(ops, init, id, w);
      OnlyLeaseMakesOwner(Run(INITIAL, ops + init), last, id, w);
    }
  }
}
