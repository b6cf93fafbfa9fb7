/** Optimistic commits of plans: the in-memory store, one reconcile call, and every interleaving of calls
    on one store. */
module SnapshotStore {
  import opened Common
  import opened Reconciler

  /** Revisions are 64-bit and wrap around. */
  function Bump(revision: nat): nat { (revision + 1) % TWO64 }

  function NextOf(current: Snapshot, now: int): Snapshot
  {
    PlanOf(current, now).(revision := Bump(current.revision))
  }

  const MAX_RETRIES := 4

  datatype StoreError = RevisionConflict | RetriesExhausted

  class MemoryStore {
    var state: Snapshot

    constructor ()
      ensures state == Snapshot(0, [], [], [], Waiting, Blank)
    {
      state := Snapshot(0, [], [], [], Waiting, Blank);
    }

    method Read() returns (s: Snapshot)
      ensures s == state
    {
      s := state;
    }

    method Commit(next: Snapshot) returns (r: Result<(), StoreError>)
      modifies this
      ensures next.revision != Bump(old(state.revision)) ==> r == Failure(RevisionConflict) && state == old(state)
      ensures next.revision == Bump(old(state.revision)) ==> r == Success(()) && state == next
    {
      if next.revision != Bump(state.revision) {
        return Failure(RevisionConflict);
      }
      state := next;
      return Success(());
    }

    /** With nobody else at the store, a call commits the plan of what it read, at the first attempt. */
    method Reconcile(now: int) returns (r: Result<(), StoreError>)
      modifies this
      ensures r == Success(()) && state == NextOf(old(state), now)
    {
      for attempt := 0 to MAX_RETRIES
        invariant state == old(state) && attempt == 0
      {
        var current := Read();
        var next := Plan(current, now);
        next := next.(revision := Bump(current.revision));
        var committed := Commit(next);
        if committed.Success? {
          return Success(());
        }
      }
      return Failure(RetriesExhausted);
    }
  }

  // ----- interleavings

  datatype Ending = Committed | Cancelled | Exhausted

  /** Where a reconcile call is; `began` is the length of the history when it began and `readAt` the index of the
      snapshot it read. */
  datatype Caller =
    | Idle
    | Reading(began: nat, attempt: nat)
    | Planning(began: nat, attempt: nat, readAt: nat, current: Snapshot)
    | Committing(began: nat, attempt: nat, readAt: nat, next: Snapshot)
    | Finished(began: nat, ended: nat, ending: Ending)

  /** Who made a snapshot, and from which one: the store itself, a reconcile call, a client that read and edited, or
      somebody who filled in a revision without reading. */
  datatype Author = Born | Planner(readAt: nat) | Editor(readAt: nat) | Stranger

  /** `history` holds every snapshot the store has held; the last one is its state. A client that edits holds the index
      of the snapshot it read. */
  datatype World = World(
    history: seq<Snapshot>,
    authors: seq<Author>,
    callers: seq<Caller>,
    clients: seq<Option<nat>>)

  /** One atomic step of a call, of a client, or of a stranger. */
  datatype Step =
    | Begin(c: nat)
    | DoRead(c: nat)
    | DoPlan(c: nat, now: int)
    | DoCommit(c: nat, contextDone: bool)
    | ClientRead(e: nat)
    | ClientCommit(e: nat, draft: Snapshot)
    | BlindCommit(next: Snapshot)

  predicate Accepts(history: seq<Snapshot>, next: Snapshot)
    requires history != []
  {
    next.revision == Bump(history[|history| - 1].revision)
  }

  /** `Commit`: the history grows when the revision fits. */
  function Submit(w: World, next: Snapshot, author: Author): World
    requires w.history != []
  {
    if Accepts(w.history, next) then w.(history := w.history + [next], authors := w.authors + [author]) else w
  }

  /** Where a call is after its commit was accepted or refused. */
  function AfterCommit(w: World, caller: Caller, accepted: bool, contextDone: bool): Caller
    requires caller.Committing?
  {
    if accepted then Finished(caller.began, |w.history|, Committed)
    else if contextDone then Finished(caller.began, |w.history|, Cancelled)
    else if caller.attempt + 1 < MAX_RETRIES then Reading(caller.began, caller.attempt + 1)
    else Finished(caller.began, |w.history|, Exhausted)
  }

  /** What a client submits: anything, with the revision after the one it read. */
  function Edited(w: World, readAt: nat, draft: Snapshot): Snapshot
    requires readAt < |w.history|
  {
    draft.(revision := Bump(w.history[readAt].revision))
  }

  /** A step that is not enabled leaves the world as it is. */
  function Apply(w: World, step: Step): (w': World)
    requires w.history != []
    ensures w'.history != []
  {
    match step
    case Begin(c) =>
      if c < |w.callers| && w.callers[c].Idle? then w.(callers := w.callers[c := Reading(|w.history|, 0)]) else w
    case DoRead(c) =>
      if c < |w.callers| && w.callers[c].Reading? then
        var readAt, x := |w.history| - 1, w.callers[c];
        w.(callers := w.callers[c := Planning(x.began, x.attempt, readAt, w.history[readAt])])
      else w
    case DoPlan(c, now) =>
      if c < |w.callers| && w.callers[c].Planning? then
        var x := w.callers[c];
        w.(callers := w.callers[c := Committing(x.began, x.attempt, x.readAt, NextOf(x.current, now))])
      else w
    case DoCommit(c, contextDone) =>
      if c < |w.callers| && w.callers[c].Committing? then
        var x := w.callers[c];
        Submit(w, x.next, Planner(x.readAt)).(
          callers := w.callers[c := AfterCommit(w, x, Accepts(w.history, x.next), contextDone)])
      else w
    case ClientRead(e) =>
      if e < |w.clients| then w.(clients := w.clients[e := Some(|w.history| - 1)]) else w
    case ClientCommit(e, draft) =>
      if e < |w.clients| && w.clients[e].Some? && w.clients[e].value < |w.history| then
        var readAt := w.clients[e].value;
        Submit(w, Edited(w, readAt, draft), Editor(readAt)).(clients := w.clients[e := None])
      else w
    case BlindCommit(next) => Submit(w, next, Stranger)
  }

  function Run(w: World, steps: seq<Step>): (r: World)
    requires w.history != []
    ensures r.history != []
  {
    if steps == [] then w else Apply(Run(w, steps[..|steps| - 1]), steps[|steps| - 1])
  }

  /** `NewMemoryStore`. */
  const EMPTY := Snapshot(0, [], [], [], Waiting, Blank)

  /** A new store, with `n` idle calls and `m` clients. */
  function Start(n: nat, m: nat): World { World([EMPTY], [Born], seq(n, _ => Idle), seq(m, _ => None)) }

  /** `b` is the plan of `a`, at some time, with the next revision. */
  ghost predicate PlannedFrom(a: Snapshot, b: Snapshot) { exists now :: b == NextOf(a, now) }

  ghost predicate CallerInv(history: seq<Snapshot>, authors: seq<Author>, caller: Caller)
    requires |authors| == |history|
  {
    match caller
    case Idle => true
    case Reading(began, attempt) => 0 < began && began + attempt <= |history| && attempt < MAX_RETRIES
    case Planning(began, attempt, readAt, current) =>
      && 0 < began && began + attempt <= readAt + 1 && attempt < MAX_RETRIES
      && readAt < |history| && current == history[readAt]
    case Committing(began, attempt, readAt, next) =>
      && 0 < began && began + attempt <= readAt + 1 && attempt < MAX_RETRIES
      && readAt < |history| && PlannedFrom(history[readAt], next)
    case Finished(began, ended, ending) =>
      && began <= ended <= |history| && (ending == Exhausted ==> began + MAX_RETRIES <= ended)
      && (ending == Committed ==> ended < |history| && authors[ended].Planner?)
  }

  /** Snapshot `k` was made from an earlier one whose index is `k - 1` up to a multiple of 2^64. */
  ghost predicate MadeFrom(history: seq<Snapshot>, k: nat, author: Author)
    requires 0 < k < |history|
  {
    match author
    case Born => false
    case Planner(i) => i < k && (k - 1 - i) % TWO64 == 0 && PlannedFrom(history[i], history[k])
    case Editor(i) => i < k && (k - 1 - i) % TWO64 == 0
    case Stranger => true
  }

  ghost predicate HistoryInv(history: seq<Snapshot>, authors: seq<Author>)
  {
    && history != [] && |authors| == |history|
    && (forall k :: 0 <= k < |history| ==> history[k].revision == k % TWO64)
    && (forall k :: 0 < k < |history| ==> MadeFrom(history, k, authors[k]))
  }

  ghost predicate Inv(w: World)
  {
    && HistoryInv(w.history, w.authors)
    && (forall c :: 0 <= c < |w.callers| ==> CallerInv(w.history, w.authors, w.callers[c]))
    && (forall e :: 0 <= e < |w.clients| && w.clients[e].Some? ==> w.clients[e].value < |w.history|)
  }

  lemma BumpMod(k: nat)
    ensures Bump(k % TWO64) == (k + 1) % TWO64
  {
  }

  lemma BumpIsInjective(a: nat, b: nat)
    requires a < TWO64 && b < TWO64
    ensures Bump(a) == Bump(b) <==> a == b
  {
  }

  lemma SameRemainder(i: nat, j: nat)
    requires i <= j
    ensures i % TWO64 == j % TWO64 <==> (j - i) % TWO64 == 0
  {
    var a, b, c := i / TWO64, j / TWO64, (j - i) / TWO64;
    assert i == a * TWO64 + i % TWO64 && j == b * TWO64 + j % TWO64;
    assert j - i == c * TWO64 + (j - i) % TWO64;
  }

  lemma SameBump(i: nat, j: nat)
    requires i <= j
    ensures Bump(i % TWO64) == Bump(j % TWO64) <==> (j - i) % TWO64 == 0
  {
    BumpIsInjective(i % TWO64, j % TWO64);
    SameRemainder(i, j);
  }

  lemma SmallMultiple(d: nat)
    requires d < TWO64 && d % TWO64 == 0
    ensures d == 0
  {
  }

  /** What was made from snapshot `i` is accepted exactly when the number of commits since is a multiple of 2^64. */
  lemma AcceptedIff(history: seq<Snapshot>, authors: seq<Author>, i: nat, next: Snapshot)
    requires HistoryInv(history, authors) && i < |history| && next.revision == Bump(history[i].revision)
    ensures Accepts(history, next) <==> (|history| - 1 - i) % TWO64 == 0
  {
    SameBump(i, |history| - 1);
  }

  /** A call may commit exactly when the number of commits since its read is a multiple of 2^64. */
  lemma CommitAcceptedIff(w: World, c: nat)
    requires Inv(w) && c < |w.callers| && w.callers[c].Committing?
    ensures Accepts(w.history, w.callers[c].next) <==> (|w.history| - 1 - w.callers[c].readAt) % TWO64 == 0
  {
    var caller := w.callers[c];
    assert CallerInv(w.history, w.authors, caller);
    AcceptedIff(w.history, w.authors, caller.readAt, caller.next);
  }

  lemma AppendKeepsHistory(history: seq<Snapshot>, authors: seq<Author>, next: Snapshot, author: Author)
    requires HistoryInv(history, authors) && Accepts(history, next)
    requires MadeFrom(history + [next], |history|, author)
    ensures HistoryInv(history + [next], authors + [author])
  {
    var h, a := history + [next], authors + [author];
    BumpMod(|history| - 1);
    forall k | 0 < k < |h| ensures MadeFrom(h, k, a[k]) {
      if k < |history| {
        assert MadeFrom(history, k, authors[k]);
        assert a[k].Planner? ==> h[a[k].readAt] == history[a[k].readAt];
      }
    }
  }

  lemma CallerStaysGood(history: seq<Snapshot>, authors: seq<Author>, next: Snapshot, author: Author, caller: Caller)
    requires |authors| == |history| && CallerInv(history, authors, caller)
    ensures CallerInv(history + [next], authors + [author], caller)
  {
  }

  lemma SubmitKeepsInv(w: World, next: Snapshot, author: Author)
    requires Inv(w) && (Accepts(w.history, next) ==> MadeFrom(w.history + [next], |w.history|, author))
    ensures Inv(Submit(w, next, author))
  {
    if Accepts(w.history, next) {
      AppendKeepsHistory(w.history, w.authors, next, author);
      forall d | 0 <= d < |w.callers| ensures CallerInv(w.history + [next], w.authors + [author], w.callers[d]) {
        CallerStaysGood(w.history, w.authors, next, author, w.callers[d]);
      }
    }
  }

  lemma CommitKeepsInv(w: World, c: nat, contextDone: bool)
    requires Inv(w) && c < |w.callers| && w.callers[c].Committing?
    ensures Inv(Apply(w, DoCommit(c, contextDone)))
  {
    var x := w.callers[c];
    assert CallerInv(w.history, w.authors, x);
    CommitAcceptedIff(w, c);
    if Accepts(w.history, x.next) {
      assert (w.history + [x.next])[x.readAt] == w.history[x.readAt];
    }
    SubmitKeepsInv(w, x.next, Planner(x.readAt));
    var w1 := Submit(w, x.next, Planner(x.readAt));
    assert CallerInv(w1.history, w1.authors, AfterCommit(w, x, Accepts(w.history, x.next), contextDone));
  }

  lemma ClientCommitKeepsInv(w: World, e: nat, draft: Snapshot)
    requires Inv(w) && e < |w.clients| && w.clients[e].Some?
    ensures Inv(Apply(w, ClientCommit(e, draft)))
  {
    var readAt := w.clients[e].value;
    AcceptedIff(w.history, w.authors, readAt, Edited(w, readAt, draft));
    SubmitKeepsInv(w, Edited(w, readAt, draft), Editor(readAt));
  }

  lemma ApplyKeepsInv(w: World, step: Step)
    requires Inv(w)
    ensures Inv(Apply(w, step))
  {
    match step
    case DoCommit(c, contextDone) =>
      if c < |w.callers| && w.callers[c].Committing? {
        CommitKeepsInv(w, c, contextDone);
      }
    case ClientCommit(e, draft) =>
      if e < |w.clients| && w.clients[e].Some? {
        ClientCommitKeepsInv(w, e, draft);
      }
    case BlindCommit(next) => SubmitKeepsInv(w, next, Stranger);
    case DoPlan(c, now) =>
      if c < |w.callers| && w.callers[c].Planning? {
        assert CallerInv(w.history, w.authors, w.callers[c]);
        assert PlannedFrom(w.callers[c].current, NextOf(w.callers[c].current, now));
      }
    case DoRead(c) =>
      if c < |w.callers| {
        assert CallerInv(w.history, w.authors, w.callers[c]);
      }
    case Begin(_) =>
    case ClientRead(_) =>
  }

  lemma {:induction false} RunKeepsInv(n: nat, m: nat, steps: seq<Step>)
    ensures Inv(Run(Start(n, m), steps))
  {
    if steps != [] {
      RunKeepsInv(n, m, steps[..|steps| - 1]);
      ApplyKeepsInv(Run(Start(n, m), steps[..|steps| - 1]), steps[|steps| - 1]);
    }
  }

  /** In every interleaving of calls, clients and strangers: revisions rise by one per commit (modulo 2^64), and a
      snapshot that a call commits is the plan of the one just before it, with its nodes and workloads, if and only if
      the call's read was less than 2^64 commits old. The same goes for what a client read before it edited. So no edit
      is overwritten by somebody who had not seen it. */
  lemma NoLostUpdate(n: nat, m: nat, steps: seq<Step>, k: nat)
    requires k < |Run(Start(n, m), steps).history|
    ensures var w := Run(Start(n, m), steps);
      |w.authors| == |w.history| && w.history[k].revision == k % TWO64
    ensures var w := Run(Start(n, m), steps);
      k > 0 && w.authors[k].Planner? ==>
        var i := w.authors[k].readAt;
        && i < k && PlannedFrom(w.history[i], w.history[k])
        && (i == k - 1 <==> k - 1 - i < TWO64)
        && w.history[k].nodes == w.history[i].nodes && w.history[k].workloads == w.history[i].workloads
    ensures var w := Run(Start(n, m), steps);
      k > 0 && w.authors[k].Editor? ==>
        w.authors[k].readAt < k && (w.authors[k].readAt == k - 1 <==> k - 1 - w.authors[k].readAt < TWO64)
  {
    RunKeepsInv(n, m, steps);
    var w := Run(Start(n, m), steps);
    if k > 0 {
      assert MadeFrom(w.history, k, w.authors[k]);
      if w.authors[k].Planner? || w.authors[k].Editor? {
        var i := w.authors[k].readAt;
        if k - 1 - i < TWO64 {
          SmallMultiple(k - 1 - i);
        }
      }
    }
  }

  /** The context of the call is never found done. */
  predicate OpenContext(steps: seq<Step>, c: nat) { DoCommit(c, true) !in steps }

  lemma {:induction false} OpenIsNotCancelled(n: nat, m: nat, steps: seq<Step>, c: nat)
    requires OpenContext(steps, c) && c < |Run(Start(n, m), steps).callers|
    ensures !(Run(Start(n, m), steps).callers[c].Finished? && Run(Start(n, m), steps).callers[c].ending == Cancelled)
  {
    if steps != [] {
      var init, last := steps[..|steps| - 1], steps[|steps| - 1];
      assert last in steps && last != DoCommit(c, true);
      CallersStay(n, m, steps);
      CallersStay(n, m, init);
      OpenIsNotCancelled(n, m, init, c);
    }
  }

  lemma {:induction false} CallersStay(n: nat, m: nat, steps: seq<Step>)
    ensures |Run(Start(n, m), steps).callers| == n
  {
    if steps != [] {
      CallersStay(n, m, steps[..|steps| - 1]);
    }
  }

  /** In every interleaving, a call whose context stays open and that meets at most three commits of others, calls or
      clients, between its beginning and its end, has committed when it ends; and a call that has committed has made
      the snapshot that came at its end. */
  lemma FewCommitsMeansSuccess(n: nat, m: nat, steps: seq<Step>, c: nat)
    requires c < |Run(Start(n, m), steps).callers| && Run(Start(n, m), steps).callers[c].Finished?
    ensures var w := Run(Start(n, m), steps);
      var f := w.callers[c];
      && f.began <= f.ended
      && (OpenContext(steps, c) && f.ended - f.began < 4 ==> f.ending == Committed)
      && (f.ending == Committed ==> f.ended < |w.authors| && w.authors[f.ended].Planner?)
  {
    RunKeepsInv(n, m, steps);
    var w := Run(Start(n, m), steps);
    assert CallerInv(w.history, w.authors, w.callers[c]);
    if OpenContext(steps, c) {
      OpenIsNotCancelled(n, m, steps, c);
    }
  }

  /** A refused commit ends the call if its context is done, begins another attempt while there have been fewer than
      four, and gives up after the fourth. */
  lemma RefusedCommit(w: World, c: nat, contextDone: bool)
    requires w.history != [] && c < |w.callers| && w.callers[c].Committing? && !Accepts(w.history, w.callers[c].next)
    ensures var x, w' := w.callers[c], Apply(w, DoCommit(c, contextDone));
      && w'.history == w.history && |w'.callers| == |w.callers|
      && w'.callers[c] == if contextDone then Finished(x.began, |w.history|, Cancelled)
                          else if x.attempt < 3 then Reading(x.began, x.attempt + 1)
                          else Finished(x.began, |w.history|, Exhausted)
  {
  }

  /** `began` is the length of the history when the call began, and stays so, and `ended` its length when it ended. */
  lemma SpanIsHonest(w: World, step: Step, c: nat)
    requires w.history != [] && c < |w.callers|
    ensures var x, w' := w.callers[c], Apply(w, step);
      && |w'.callers| == |w.callers|
      && match w'.callers[c]
         case Idle => x.Idle?
         case Finished(began, ended, _) =>
           x == w'.callers[c] || (x.Committing? && began == x.began && ended == |w.history|)
         case Reading(began, attempt) =>
           if x.Idle? then began == |w.history| && attempt == 0 else !x.Finished? && began == x.began
         case y => !x.Idle? && !x.Finished? && y.began == x.began
  {
  }

  /** How many own steps a call can still take. */
  function StepsLeft(caller: Caller): int
  {
    match caller
    case Idle => 1 + 3 * 4
    case Reading(_, attempt) => 3 * (4 - attempt)
    case Planning(_, attempt, _, _) => 3 * (4 - attempt) - 1
    case Committing(_, attempt, _, _) => 3 * (4 - attempt) - 2
    case Finished(_, _, _) => 0
  }

  /** The step a call takes next. */
  function OwnStep(w: World, c: nat, now: int, contextDone: bool): Step
    requires c < |w.callers|
  {
    match w.callers[c]
    case Idle => Begin(c)
    case Reading(_, _) => DoRead(c)
    case Planning(_, _, _, _) => DoPlan(c, now)
    case _ => DoCommit(c, contextDone)
  }

  lemma OwnStepHelps(w: World, c: nat, now: int, contextDone: bool)
    requires w.history != [] && |w.authors| == |w.history| && c < |w.callers|
    requires !w.callers[c].Finished? && CallerInv(w.history, w.authors, w.callers[c])
    ensures var x' := Apply(w, OwnStep(w, c, now, contextDone)).callers;
      |x'| == |w.callers| && 0 <= StepsLeft(x'[c]) < StepsLeft(w.callers[c]) && x' == w.callers[c := x'[c]]
  {
  }

  /** No call is ever blocked: its next step takes it closer to its end, whatever the others did, and
      does not move anybody else. */
  lemma CallsProgress(n: nat, m: nat, steps: seq<Step>, c: nat, now: int, contextDone: bool)
    requires c < |Run(Start(n, m), steps).callers| && !Run(Start(n, m), steps).callers[c].Finished?
    ensures var w := Run(Start(n, m), steps);
      var w' := Apply(w, OwnStep(w, c, now, contextDone));
      && |w'.callers| == |w.callers|
      && 0 <= StepsLeft(w'.callers[c]) < StepsLeft(w.callers[c])
      && (forall d :: 0 <= d < |w.callers| && d != c ==> w'.callers[d] == w.callers[d])
  {
    RunKeepsInv(n, m, steps);
    OwnStepHelps(Run(Start(n, m), steps), c, now, contextDone);
  }

  // ----- a plan that is 2^64 commits late

  lemma RunOneMore(w: World, steps: seq<Step>, step: Step)
    requires w.history != []
    ensures Run(w, steps + [step]) == Apply(Run(w, steps), step)
  {
    assert (steps + [step])[..|steps|] == steps;
  }

  /** A client reads and commits the same draft `k` times. */
  function Edits(draft: Snapshot, k: nat): seq<Step>
  {
    if k == 0 then [] else Edits(draft, k - 1) + [ClientRead(0), ClientCommit(0, draft)]
  }

  lemma OneEdit(w: World, draft: Snapshot)
    requires Inv(w) && |w.clients| > 0
    ensures var w' := Apply(Apply(w, ClientRead(0)), ClientCommit(0, draft));
      && w'.history == w.history + [Edited(w, |w.history| - 1, draft)] && w'.callers == w.callers
      && |w'.clients| == |w.clients|
  {
  }

  /** Clients that nobody disturbs succeed every time, and a call in between does not move. */
  lemma {:induction false} EditsPileUp(n: nat, m: nat, steps: seq<Step>, draft: Snapshot, k: nat)
    requires m > 0
    ensures var w, w' := Run(Start(n, m), steps), Run(Start(n, m), steps + Edits(draft, k));
      && |w'.history| == |w.history| + k && w'.callers == w.callers && |w'.clients| == |w.clients| == m
      && (k > 0 ==> w'.history[|w'.history| - 1].nodes == draft.nodes)
  {
    if k == 0 {
      ClientsStay(n, m, steps);
      assert steps + Edits(draft, 0) == steps;
    } else {
      var before := steps + Edits(draft, k - 1);
      EditsPileUp(n, m, steps, draft, k - 1);
      RunKeepsInv(n, m, before);
      OneEdit(Run(Start(n, m), before), draft);
      RunOneMore(Start(n, m), before, ClientRead(0));
      RunOneMore(Start(n, m), before + [ClientRead(0)], ClientCommit(0, draft));
      assert steps + Edits(draft, k) == before + [ClientRead(0)] + [ClientCommit(0, draft)];
    }
  }

  lemma {:induction false} ClientsStay(n: nat, m: nat, steps: seq<Step>)
    ensures |Run(Start(n, m), steps).clients| == m
  {
    if steps != [] {
      ClientsStay(n, m, steps[..|steps| - 1]);
    }
  }

  /** A call reads the empty store and plans. */
  const PLANNED: seq<Step> := [Begin(0), DoRead(0), DoPlan(0, 0)]

  lemma PlansTheEmptyStore()
    ensures var w := Run(Start(1, 1), PLANNED);
      w.history == [EMPTY] && w.callers == [Committing(1, 0, 0, NextOf(EMPTY, 0))]
  {
    RunOneMore(Start(1, 1), [], Begin(0));
    RunOneMore(Start(1, 1), [Begin(0)], DoRead(0));
    RunOneMore(Start(1, 1), [Begin(0), DoRead(0)], DoPlan(0, 0));
    assert [] + [Begin(0)] == [Begin(0)] && [Begin(0)] + [DoRead(0)] == [Begin(0), DoRead(0)];
    assert [Begin(0), DoRead(0)] + [DoPlan(0, 0)] == PLANNED;
  }

  /** The bound is needed: after 2^64 client commits the plan of the empty store is accepted, and the nodes of the last
      client are gone. */
  lemma LatePlanOverwrites(draft: Snapshot)
    ensures var steps := PLANNED + Edits(draft, TWO64);
      var w, w' := Run(Start(1, 1), steps), Run(Start(1, 1), steps + [DoCommit(0, false)]);
      && |w.history| == 1 + TWO64 && w.history[TWO64].nodes == draft.nodes
      && |w'.history| == 2 + TWO64 && w'.history[1 + TWO64].nodes == []
      && |w'.authors| == 2 + TWO64 && w'.authors[1 + TWO64] == Planner(0)
  {
    var steps := PLANNED + Edits(draft, TWO64);
    PlansTheEmptyStore();
    EditsPileUp(1, 1, PLANNED, draft, TWO64);
    RunKeepsInv(1, 1, steps);
    CommitAcceptedIff(Run(Start(1, 1), steps), 0);
    RunOneMore(Start(1, 1), steps, DoCommit(0, false));
  }
}
