/** The orchestrator object: task records shared between the table and the queues and updated in place,
    each method proved against one step of the state machine. */
module Orchestrator {
  import opened Common
  import opened Sorting
  import opened OrchestratorSpec

  datatype Error = OrchestratorDraining | MissingTask | InvalidLeaseTransition | WorkerDoesNotOwnTask

  /** A record of the task table; the sort keys never change. */
  class TaskRecord {
    const taskId: nat
    const kind: QueueName
    const priority: int
    const createdAt: int
    const maxAttempts: nat
    var attempt: nat
    var trace: seq<TraceEntry>
    var state: TaskState
    var leaseOwner: Option<WorkerId>
    var leaseUntil: Option<int>
    var startedAt: Option<int>
    var finishedAt: Option<int>
    var lastError: Option<string>

    constructor (id: nat, kind: QueueName, priority: int, createdAt: int)
      ensures taskId == id && View() == NewTask(kind, priority, createdAt)
    {
      this.taskId := id;
      this.kind := kind;
      this.priority := priority;
      this.createdAt := createdAt;
      maxAttempts := MAX_ATTEMPTS;
      attempt := 0;
      trace := [];
      state := Queued;
      leaseOwner := None;
      leaseUntil := None;
      startedAt := None;
      finishedAt := None;
      lastError := None;
    }

    function View(): Task
      reads this
    {
      Task(kind, priority, createdAt, maxAttempts, attempt, trace, state, leaseOwner, leaseUntil, startedAt,
           finishedAt, lastError)
    }
  }

  predicate RecordBefore(a: TaskRecord, b: TaskRecord)
  {
    a.priority > b.priority || (a.priority == b.priority && a.createdAt < b.createdAt)
  }

  predicate SameKeys(r: TaskRecord, e: Entry)
  {
    e.id == r.taskId && e.priority == r.priority && e.createdAt == r.createdAt
  }

  ghost predicate Corresponds(s: seq<TaskRecord>, q: seq<Entry>)
  {
    |s| == |q| && forall i :: 0 <= i < |s| ==> SameKeys(s[i], q[i])
  }

  lemma {:induction false} InsertCorresponds(r: TaskRecord, s: seq<TaskRecord>, e: Entry, q: seq<Entry>)
    requires Corresponds(s, q) && SameKeys(r, e)
    ensures Corresponds(Insert(r, s, RecordBefore), Insert(e, q, EntryBefore))
  {
    if s != [] && !RecordBefore(r, s[0]) {
      InsertCorresponds(r, s[1..], e, q[1..]);
    }
  }

  lemma {:induction false} SortCorresponds(s: seq<TaskRecord>, q: seq<Entry>)
    requires Corresponds(s, q)
    ensures Corresponds(Sort(s, RecordBefore), Sort(q, EntryBefore))
  {
    if s != [] {
      var n := |s| - 1;
      SortCorresponds(s[..n], q[..n]);
      InsertCorresponds(s[n], Sort(s[..n], RecordBefore), q[n], Sort(q[..n], EntryBefore));
    }
  }

  /** `push` of a queue: append, then sort. */
  function PushRecord(entries: seq<TaskRecord>, value: TaskRecord): seq<TaskRecord>
  {
    Sort(entries + [value], RecordBefore)
  }

  lemma PushCorresponds(s: seq<TaskRecord>, q: seq<Entry>, r: TaskRecord, e: Entry)
    requires Corresponds(s, q) && SameKeys(r, e)
    ensures Corresponds(PushRecord(s, r), Pushed(q, e))
  {
    SortCorresponds(s + [r], q + [e]);
  }

  ghost function Tasks(records: seq<TaskRecord>): (ts: seq<Task>)
    reads records
    ensures |ts| == |records| && forall i :: 0 <= i < |records| ==> ts[i] == records[i].View()
  {
    seq(|records|, i requires 0 <= i < |records| reads records => records[i].View())
  }

  /** A lease in one formula. */
  lemma LeaseStep(s: State, w: WorkerId, now: int, k: QueueName)
    requires LeaseFrom(s, w) == Some(k) && QueueOf(s.queues, k)[0].id < |s.tasks|
    ensures var id := QueueOf(s.queues, k)[0].id;
      && Target(s, Lease(w, now)) == Some(id)
      && Step(s, Lease(w, now)) == s.(
           queues := s.queues[k := QueueOf(s.queues, k)[1..]],
           tasks := s.tasks[id := Patch(s.tasks[id], Lease(w, now))],
           workers := s.workers[w := s.workers[w].(active := s.workers[w].active + 1)])
  {
  }

  function ExpiredCount(tasks: seq<Task>, now: int): nat { Sum(tasks, (t: Task) => if Expired(t, now) then 1 else 0) }

  /** The sweep has not touched task `i` before it gets there. */
  lemma SweepStep(s: State, i: nat, now: int)
    requires i < |s.tasks|
    ensures i < |ReclaimUpTo(s, i, now).tasks| && ReclaimUpTo(s, i, now).tasks[i] == s.tasks[i]
    ensures ReclaimUpTo(s, i + 1, now) == Step(ReclaimUpTo(s, i, now), ReclaimOne(i, now))
    ensures ExpiredCount(s.tasks[..i + 1], now)
        == ExpiredCount(s.tasks[..i], now) + (if Expired(s.tasks[i], now) then 1 else 0)
  {
    ReclaimedUpTo(s, i, now, i);
    ReclaimNext(s, i, now);
    SumPrefix(s.tasks, i, (t: Task) => if Expired(t, now) then 1 else 0);
  }

  /** A completion in one formula. */
  lemma CompleteStepIs(s: State, id: nat, w: WorkerId, now: int)
    requires Owns(s, id, w)
    ensures Step(s, Complete(id, w, now))
         == s.(tasks := s.tasks[id := Patch(s.tasks[id], Complete(id, w, now))], workers := Release(s.workers, w))
  {
    assert Target(s, Complete(id, w, now)) == Some(id);
  }

  /** A failure in one formula. */
  lemma FailStepIs(s: State, id: nat, w: WorkerId, reason: string)
    requires Owns(s, id, w)
    ensures var s1 := s.(tasks := s.tasks[id := Patch(s.tasks[id], Fail(id, w, reason))],
        workers := Release(s.workers, w));
      Step(s, Fail(id, w, reason)) == if s.tasks[id].attempt < s.tasks[id].maxAttempts then Push(s1, id) else s1
  {
    var op := Fail(id, w, reason);
    assert Target(s, op) == Some(id);
    assert Step(s, op) == Settle(s, op, id);
  }

  /** A reclaim in one formula. */
  lemma ReclaimStepIs(s: State, id: nat, now: int)
    requires id < |s.tasks| && Expired(s.tasks[id], now)
    ensures var s1 := Push(s.(tasks := s.tasks[id := Patch(s.tasks[id], ReclaimOne(id, now))]), id);
      Step(s, ReclaimOne(id, now)) ==
        if Truthy(s.tasks[id].owner) then s1.(workers := Release(s.workers, s.tasks[id].owner.value)) else s1
  {
  }

  class TaskOrchestrator {
    var records: seq<TaskRecord>
    var queues: map<QueueName, seq<TaskRecord>>
    var workers: map<WorkerId, Worker>
    var accepting: bool
    ghost var contents: Queues   // what the queues hold, with push numbers
    ghost var pushes: nat

    ghost predicate Valid()
      reads this
    {
      && (forall i :: 0 <= i < |records| ==> records[i].taskId == i)
      && (forall k: QueueName :: k in queues && k in contents && Corresponds(queues[k], contents[k]))
      && (forall k, r :: k in queues && r in queues[k] ==> r in records)
    }

    /** The abstract state. */
    ghost function View(): State
      reads this, records
    {
      State(accepting, Tasks(records), contents, workers, pushes)
    }

    constructor ()
      ensures Valid() && View() == INITIAL
    {
      records := [];
      queues := map[Render := [], Index := [], Notify := [], Archive := []];
      workers := map[];
      accepting := true;
      contents := NO_ENTRIES;
      pushes := 0;
      new;
      forall k: QueueName ensures k in queues && k in contents {
        match k case Render => case Index => case Notify => case Archive =>
      }
    }

    /** Put a record into the queue of its kind. */
    method Enqueue(task: TaskRecord)
      requires Valid() && task in records
      modifies this`queues, this`contents, this`pushes
      ensures Valid() && View() == OrchestratorSpec.Push(old(View()), task.taskId)
    {
      ghost var e := Entry(task.taskId, task.priority, task.createdAt, pushes);
      PushCorresponds(queues[task.kind], contents[task.kind], task, e);
      forall r | r in PushRecord(queues[task.kind], task) ensures r in records {
        SortMember(queues[task.kind] + [task], RecordBefore, r);
      }
      queues := queues[task.kind := PushRecord(queues[task.kind], task)];
      contents := contents[task.kind := Pushed(contents[task.kind], e)];
      pushes := pushes + 1;
    }

    method Submit(kind: QueueName, priority: int, createdAt: int) returns (r: Result<nat, Error>)
      requires Valid()
      modifies this
      ensures Valid() && View() == Step(old(View()), OrchestratorSpec.Submit(kind, priority, createdAt))
      ensures r == if old(accepting) then Success(|old(records)|) else Failure(OrchestratorDraining)
      ensures old(records) <= records && fresh(records[|old(records)|..])
    {
      if !accepting {
        return Failure(OrchestratorDraining);
      }
      var task := new TaskRecord(|records|, kind, priority, createdAt);
      records := records + [task];
      assert Tasks(records) == old(Tasks(records)) + [task.View()];
      Enqueue(task);
      return Success(task.taskId);
    }

    method RegisterWorker(id: WorkerId, names: seq<QueueName>, capacity: int, now: int)
      requires Valid()
      modifies this`workers
      ensures Valid() && View() == Step(old(View()), Register(id, names, capacity, now))
    {
      workers := workers[id := Worker(names, capacity, 0, now, false)];
    }

    method Heartbeat(id: WorkerId, active: int, now: int)
      requires Valid()
      modifies this`workers
      ensures Valid() && View() == Step(old(View()), OrchestratorSpec.Heartbeat(id, active, now))
    {
      if id !in workers {
        return;
      }
      workers := workers[id := workers[id].(active := Max(0, active), lastSeen := now)];
    }

    /** The orchestrator is as before but for the state of one record. */
    twostate lemma OneRecordChanged(task: TaskRecord)
      requires old(Valid()) && unchanged(this) && task in records
      requires forall r :: r in records && r != task ==> unchanged(r)
      ensures View() == old(View()).(tasks := old(View()).tasks[task.taskId := task.View()])
    {
      forall i | 0 <= i < |records|
        ensures Tasks(records)[i] == old(Tasks(records))[task.taskId := task.View()][i] {
        assert records[i] in records;
        if records[i] != task {
          assert unchanged(records[i]) && i != task.taskId;
        }
      }
    }

    method Release(id: WorkerId)
      requires Valid()
      modifies this`workers
      ensures Valid() && View() == old(View()).(workers := OrchestratorSpec.Release(old(workers), id))
    {
      if id in workers {
        workers := workers[id := workers[id].(active := Max(0, workers[id].active - 1))];
      }
    }

    /** The search of a lease through the worker's queues. */
    method FirstQueue(names: seq<QueueName>) returns (name: Option<QueueName>)
      requires Valid()
      ensures name == FirstNonEmpty(contents, names)
    {
      for i := 0 to |names|
        invariant FirstNonEmpty(contents, names) == FirstNonEmpty(contents, names[i..])
      {
        if queues[names[i]] != [] {
          return Some(names[i]);
        }
      }
      return None;
    }

    method Pop(name: QueueName) returns (task: TaskRecord)
      requires Valid() && queues[name] != []
      modifies this`queues, this`contents
      ensures Valid() && task in records && old(contents)[name] != [] && task.taskId == old(contents)[name][0].id
      ensures View() == old(View()).(queues := old(contents)[name := old(contents)[name][1..]])
    {
      task := queues[name][0];
      assert task in queues[name];
      queues := queues[name := queues[name][1..]];
      contents := contents[name := contents[name][1..]];
    }

    /** The update of a record and of the worker's load that make a lease. */
    method Grant(task: TaskRecord, id: WorkerId, now: int)
      requires Valid() && task in records && id in workers
      modifies this`workers, task
      ensures Valid()
      ensures View() == old(View()).(
                tasks := old(View()).tasks[task.taskId := Patch(old(task.View()), OrchestratorSpec.Lease(id, now))],
                workers := old(workers)[id := old(workers)[id].(active := old(workers)[id].active + 1)])
    {
      MarkLeased(task, id, now);
      workers := workers[id := workers[id].(active := workers[id].active + 1)];
    }

    method MarkLeased(task: TaskRecord, id: WorkerId, now: int)
      requires Valid() && task in records
      modifies task
      ensures Valid()
      ensures View() == old(View()).(
                tasks := old(View()).tasks[task.taskId := Patch(old(task.View()), OrchestratorSpec.Lease(id, now))])
    {
      task.state := Leased;
      task.leaseOwner := Some(id);
      task.leaseUntil := Some(now + LEASE_MS);
      task.attempt := task.attempt + 1;
      task.trace := task.trace + [LeaseBy(id)];
      OneRecordChanged(task);
    }

    method LeaseHead(name: QueueName, id: WorkerId, now: int) returns (task: TaskRecord)
      requires Valid() && LeaseFrom(View(), id) == Some(name)
      modifies this, records
      ensures Valid() && task in records && records == old(records)
      ensures View() == Step(old(View()), OrchestratorSpec.Lease(id, now))
      ensures Target(old(View()), OrchestratorSpec.Lease(id, now)) == Some(task.taskId)
    {
      ghost var before := View();
      task := Pop(name);
      LeaseStep(before, id, now, name);
      assert before.tasks[task.taskId] == task.View();
      Grant(task, id, now);
    }

    method Lease(id: WorkerId, now: int) returns (r: Option<TaskRecord>)
      requires Valid()
      modifies this, records
      ensures Valid() && View() == Step(old(View()), OrchestratorSpec.Lease(id, now)) && records == old(records)
      ensures match r
              case Some(task) => task in records
                  && Target(old(View()), OrchestratorSpec.Lease(id, now)) == Some(task.taskId)
              case None => Target(old(View()), OrchestratorSpec.Lease(id, now)) == None
    {
      if id !in workers || workers[id].draining || workers[id].active >= workers[id].capacity {
        return None;
      }
      var name := FirstQueue(workers[id].queues);
      if name.None? {
        return None;
      }
      var task := LeaseHead(name.value, id, now);
      return Some(task);
    }

    method Begin(id: nat, worker: WorkerId, now: int) returns (r: Result<(), Error>)
      requires Valid()
      modifies records
      ensures Valid() && View() == Step(old(View()), OrchestratorSpec.Begin(id, worker, now))
      ensures r == if id >= |records| then Failure(MissingTask)
                   else if !MayBegin(old(View()), id, worker) then Failure(InvalidLeaseTransition)
                   else Success(())
    {
      if id >= |records| {
        return Failure(MissingTask);
      }
      var task := records[id];
      if task.leaseOwner != Some(worker) || task.state != Leased {
        return Failure(InvalidLeaseTransition);
      }
      task.state := Running;
      task.startedAt := Some(now);
      task.trace := task.trace + [RunMark];
      OneRecordChanged(task);
      return Success(());
    }

    /** `require`, then `assertOwner`. */
    method RequireOwned(id: nat, worker: WorkerId) returns (r: Result<TaskRecord, Error>)
      requires Valid()
      ensures r.Success? <==> Owns(View(), id, worker)
      ensures r.Success? ==> r.value == records[id] && View().tasks[id] == records[id].View()
      ensures r.Failure? ==> r.error == if id >= |records| then MissingTask else WorkerDoesNotOwnTask
    {
      if id >= |records| {
        return Failure(MissingTask);
      }
      var task := records[id];
      if task.leaseOwner != Some(worker) || (task.state != Running && task.state != Leased) {
        return Failure(WorkerDoesNotOwnTask);
      }
      return Success(task);
    }

    method Complete(id: nat, worker: WorkerId, now: int) returns (r: Result<(), Error>)
      requires Valid()
      modifies this`workers, records
      ensures Valid() && View() == Step(old(View()), OrchestratorSpec.Complete(id, worker, now))
      ensures r == if id >= |records| then Failure(MissingTask)
                   else if !Owns(old(View()), id, worker) then Failure(WorkerDoesNotOwnTask)
                   else Success(())
    {
      var owned := RequireOwned(id, worker);
      if owned.Failure? {
        return Failure(owned.error);
      }
      var task := owned.value;
      CompleteStepIs(View(), id, worker, now);
      MarkSucceeded(task, worker, now);
      Release(worker);
      return Success(());
    }

    method MarkSucceeded(task: TaskRecord, ghost worker: WorkerId, now: int)
      requires Valid() && task in records
      modifies task
      ensures Valid()
      ensures View() == old(View()).(tasks := old(View()).tasks[task.taskId :=
                Patch(old(task.View()), OrchestratorSpec.Complete(task.taskId, worker, now))])
    {
      task.state := Succeeded;
      task.finishedAt := Some(now);
      task.leaseUntil := None;
      task.trace := task.trace + [OkMark];
      OneRecordChanged(task);
    }

    method MarkFailed(task: TaskRecord, ghost worker: WorkerId, reason: string) returns (terminal: bool)
      requires Valid() && task in records
      modifies task
      ensures Valid() && terminal == (old(task.attempt) >= task.maxAttempts)
      ensures View() == old(View()).(tasks := old(View()).tasks[task.taskId :=
                Patch(old(task.View()), OrchestratorSpec.Fail(task.taskId, worker, reason))])
    {
      terminal := task.attempt >= task.maxAttempts;
      task.state := if terminal then Failed else Retrying;
      task.lastError := Some(reason);
      task.leaseUntil := None;
      task.trace := task.trace + [if terminal then DeadLetterMark else RetryMark];
      OneRecordChanged(task);
    }

    method Fail(id: nat, worker: WorkerId, reason: string) returns (r: Result<(), Error>)
      requires Valid()
      modifies this, records
      ensures Valid() && View() == Step(old(View()), OrchestratorSpec.Fail(id, worker, reason))
          && records == old(records)
      ensures r == if id >= |records| then Failure(MissingTask)
                   else if !Owns(old(View()), id, worker) then Failure(WorkerDoesNotOwnTask)
                   else Success(())
    {
      var owned := RequireOwned(id, worker);
      if owned.Failure? {
        return Failure(owned.error);
      }
      var task := owned.value;
      FailStepIs(View(), id, worker, reason);
      var terminal := MarkFailed(task, worker, reason);
      Release(worker);
      if !terminal {
        Enqueue(task);
      }
      return Success(());
    }

    /** The update of a record whose lease has expired. */
    method Expire(task: TaskRecord, ghost now: int)
      requires Valid() && task in records
      modifies task
      ensures Valid()
      ensures View() == old(View()).(
                tasks := old(View()).tasks[task.taskId := Patch(old(task.View()), ReclaimOne(task.taskId, now))])
    {
      task.state := Retrying;
      task.leaseOwner := None;
      task.leaseUntil := None;
      task.lastError := Some("lease expired");
      task.trace := task.trace + [ReclaimedMark];
      OneRecordChanged(task);
    }

    method ReclaimRecord(task: TaskRecord, now: int) returns (expired: bool)
      requires Valid() && task in records
      modifies this`queues, this`contents, this`pushes, this`workers, task
      ensures Valid() && View() == Step(old(View()), ReclaimOne(task.taskId, now))
      ensures expired == Expired(old(task.View()), now)
    {
      ghost var before := View();
      assert before.tasks[task.taskId] == task.View();
      if (task.state == Leased || task.state == Running) && task.leaseUntil.Some? && task.leaseUntil.value <= now {
        var owner := task.leaseOwner;
        ReclaimStepIs(before, task.taskId, now);
        Expire(task, now);
        Enqueue(task);
        if owner.Some? && owner.value != "" {
          Release(owner.value);
        }
        return true;
      }
      return false;
    }

    /** The visit of a sweep that began at `before` to record `i`. */
    method Visit(ghost before: State, i: nat, now: int) returns (expired: bool)
      requires Valid() && i < |records| == |before.tasks| && View() == ReclaimUpTo(before, i, now)
      modifies this`queues, this`contents, this`pushes, this`workers, records
      ensures Valid() && View() == ReclaimUpTo(before, i + 1, now)
      ensures ExpiredCount(before.tasks[..i + 1], now) == ExpiredCount(before.tasks[..i], now) + (if expired
          then 1 else 0)
    {
      SweepStep(before, i, now);
      assert View().tasks[i] == records[i].View();
      expired := ReclaimRecord(records[i], now);
    }

    method ReclaimExpired(now: int) returns (count: nat)
      requires Valid()
      modifies this, records
      ensures Valid() && View() == ReclaimUpTo(old(View()), |old(records)|, now) && records == old(records)
      ensures count == ExpiredCount(old(View()).tasks, now)
    {
      ghost var before := View();
      count := 0;
      for i := 0 to |records|
        invariant Valid() && records == old(records)
        invariant View() == ReclaimUpTo(before, i, now)
        invariant count == ExpiredCount(before.tasks[..i], now)
      {
        var expired := Visit(before, i, now);
        if expired {
          count := count + 1;
        }
      }
      assert before.tasks[..|records|] == before.tasks;
    }

    method Drain()
      requires Valid()
      modifies this`accepting, this`workers
      ensures Valid() && View() == Step(old(View()), OrchestratorSpec.Drain)
    {
      accepting := false;
      workers := map w | w in workers :: workers[w].(draining := true);
    }

    /** `pendingCount`: the sizes of the queues, added up. */
    method Pending() returns (n: nat)
      requires Valid()
      ensures n == PendingCount(View())
    {
      n := |queues[Render]| + |queues[Index]| + |queues[Notify]| + |queues[Archive]|;
      PendingIsFourSizes(View());
    }
  }
}
