/** Every interleaving of emitters, drainers and one reclaimer on a lane. An emit is two atomic steps,
    numbering the record and the locked section; a drain pops under the lock; a reclaim unlinks one retired page
    under the lock. */
module PulseRuns {
  import opened Common
  import opened Pulse

  /** The lane, the record each emitter holds between its two steps, and what has happened so far: the
      records pushed, the positions in that log of the records popped, and the records lost with reclaimed pages. */
  datatype World = World(
    lane: LaneState,
    emitters: seq<Option<Record>>,
    pushed: seq<Record>,
    popped: seq<nat>,
    lost: nat)

  datatype Step =
    | Number(e: nat, timestamp: nat, source: nat, laneIndex: nat, flags: nat, payload: nat)
    | Locked(e: nat, havePage: bool)
    | PopOne
    | Reclaim(page: nat)
    | Throttle(enabled: bool)

  /** A step that is not enabled leaves the world as it is. */
  function Apply(w: World, step: Step): World
  {
    match step
    case Number(e, timestamp, source, laneIndex, flags, payload) =>
      if e >= |w.emitters| || w.emitters[e].Some? then w
      else
        var r := Record(w.lane.accepted + 1, timestamp, source, laneIndex, flags, payload);
        w.(lane := w.lane.(accepted := w.lane.accepted + 1), emitters := w.emitters[e := Some(r)])
    case Locked(e, havePage) =>
      if e >= |w.emitters| || w.emitters[e].None? then w
      else
        var r := w.emitters[e].value;
        w.(lane := EmitState(w.lane, r, havePage),
           emitters := w.emitters[e := None],
           pushed := if EmitStatus(w.lane, havePage) == Ok then w.pushed + [r] else w.pushed)
    case PopOne =>
      if w.lane.active == [] || |w.pushed| < |w.lane.active| then w
      else w.(lane := w.lane.(active := w.lane.active[1..]),
              popped := w.popped + [|w.pushed| - |w.lane.active|])
    case Reclaim(page) =>
      if page >= |w.lane.retired| then w
      else w.(lane := w.lane.(retired := w.lane.retired[..page] + w.lane.retired[page + 1..]),
              lost := w.lost + |w.lane.retired[page]|)
    case Throttle(enabled) => w.(lane := w.lane.(throttled := enabled))
  }

  function Start(n: nat): World { World(LaneState([], [], 0, 0, false), seq(n, _ => None), [], [], 0) }

  function Run(w: World, steps: seq<Step>): World
  {
    if steps == [] then w else Apply(Run(w, steps[..|steps| - 1]), steps[|steps| - 1])
  }

  function InFlight(e: Option<Record>): nat { if e.Some? then 1 else 0 }

  /** Where every accepted record is. */
  predicate Conserved(w: World)
  {
    w.lane.accepted ==
      w.lane.dropped + |w.popped| + |w.lane.active| + Sum(w.lane.retired, PageSize) + w.lost + Sum(w.emitters, InFlight)
  }

  /** The active page holds the most recent pushes, and pops come from before them, in order. */
  ghost predicate InOrder(w: World)
  {
    && |w.lane.active| <= CAPACITY
    && |w.lane.active| <= |w.pushed|
    && w.lane.active == w.pushed[|w.pushed| - |w.lane.active|..]
    && (forall i :: 0 <= i < |w.popped| ==> w.popped[i] < |w.pushed| - |w.lane.active|)
    && (forall i, j :: 0 <= i < j < |w.popped| ==> w.popped[i] < w.popped[j])
  }

  /** Sequence numbers are at most the accepted count and all different. */
  ghost predicate Numbered(w: World)
  {
    && (forall i :: 0 <= i < |w.pushed| ==> w.pushed[i].sequence <= w.lane.accepted)
    && (forall e :: 0 <= e < |w.emitters| && w.emitters[e].Some? ==> w.emitters[e].value.sequence <= w.lane.accepted)
    && (forall i, j :: 0 <= i < j < |w.pushed| ==> w.pushed[i].sequence != w.pushed[j].sequence)
    && (forall i, e :: 0 <= i < |w.pushed| && 0 <= e < |w.emitters| && w.emitters[e].Some?
          ==> w.pushed[i].sequence != w.emitters[e].value.sequence)
    && (forall d, e :: 0 <= d < e < |w.emitters| && w.emitters[d].Some? && w.emitters[e].Some?
          ==> w.emitters[d].value.sequence != w.emitters[e].value.sequence)
  }

  lemma ApplyKeepsNumbered(w: World, step: Step)
    requires Numbered(w)
    ensures Numbered(Apply(w, step))
  {
  }

  /** Numbering begins with one. */
  predicate Positive(w: World)
  {
    && (forall i :: 0 <= i < |w.pushed| ==> w.pushed[i].sequence >= 1)
    && (forall e :: 0 <= e < |w.emitters| && w.emitters[e].Some? ==> w.emitters[e].value.sequence >= 1)
  }

  lemma {:induction false} NumberingBeginsWithOne(n: nat, steps: seq<Step>)
    ensures Positive(Run(Start(n), steps))
  {
    if steps != [] {
      NumberingBeginsWithOne(n, steps[..|steps| - 1]);
    }
  }

  lemma PopKeepsOrder(w: World)
    requires InOrder(w)
    ensures InOrder(Apply(w, PopOne))
  {
    var n := |w.pushed| - |w.lane.active|;
    if w.lane.active != [] {
      assert w.lane.active[1..] == w.pushed[n + 1..];
    }
  }

  lemma LockedKeepsOrder(w: World, e: nat, havePage: bool)
    requires InOrder(w)
    ensures InOrder(Apply(w, Locked(e, havePage)))
  {
    var w' := Apply(w, Locked(e, havePage));
    if w'.pushed != w.pushed {
      var n := |w.pushed| - |w.lane.active|;
      assert w'.pushed == w.pushed + [w.emitters[e].value];
      assert w'.pushed[n..] == w.pushed[n..] + [w.emitters[e].value];
    }
  }

  lemma ApplyKeepsOrder(w: World, step: Step)
    requires InOrder(w)
    ensures InOrder(Apply(w, step))
  {
    match step
    case PopOne => PopKeepsOrder(w);
    case Locked(e, havePage) => LockedKeepsOrder(w, e, havePage);
    case _ =>
  }

  lemma ApplyConserves(w: World, step: Step)
    requires InOrder(w) && Conserved(w)
    ensures Conserved(Apply(w, step))
  {
    match step
    case Number(e, _, _, _, _, _) =>
      if e < |w.emitters| {
        SumUpdate(w.emitters, e, Apply(w, step).emitters[e], InFlight);
      }
    case Locked(e, havePage) =>
      if e < |w.emitters| {
        SumUpdate(w.emitters, e, None, InFlight);
        SumConcat(w.lane.retired, [w.lane.active], PageSize);
        SumSingle(w.lane.active, PageSize);
      }
    case PopOne =>
    case Reclaim(page) =>
      if page < |w.lane.retired| {
        SumRemove(w.lane.retired, page, PageSize);
      }
    case Throttle(_) =>
  }

  lemma {:induction false} NobodyInFlight(emitters: seq<Option<Record>>)
    requires forall e :: 0 <= e < |emitters| ==> emitters[e] == None
    ensures Sum(emitters, InFlight) == 0
  {
    if emitters != [] {
      NobodyInFlight(emitters[1..]);
    }
  }

  lemma {:induction false} RunKeeps(n: nat, steps: seq<Step>)
    ensures Conserved(Run(Start(n), steps)) && InOrder(Run(Start(n), steps)) && Numbered(Run(Start(n), steps))
  {
    if steps == [] {
      NobodyInFlight(Start(n).emitters);
    } else {
      var prefix, last := steps[..|steps| - 1], steps[|steps| - 1];
      RunKeeps(n, prefix);
      ApplyConserves(Run(Start(n), prefix), last);
      ApplyKeepsOrder(Run(Start(n), prefix), last);
      ApplyKeepsNumbered(Run(Start(n), prefix), last);
    }
  }

  /** In every interleaving, each accepted record is counted in exactly one place: dropped, popped, in the active
      page, in a retired page, lost with a reclaimed page, or held by an emitter between its two steps. */
  lemma RecordsAreConserved(n: nat, steps: seq<Step>)
    ensures var w := Run(Start(n), steps);
      w.lane.accepted ==
        w.lane.dropped + |w.popped| + |w.lane.active| + Sum(w.lane.retired, PageSize) + w.lost
            + Sum(w.emitters, InFlight)
  {
    RunKeeps(n, steps);
  }

  /** In every interleaving, the sequence numbers of the pushed records and of those that emitters hold are all
      different, and none is zero or beyond the accepted count. */
  lemma SequenceNumbersDiffer(n: nat, steps: seq<Step>)
    ensures var w := Run(Start(n), steps);
      && (forall i :: 0 <= i < |w.pushed| ==> 1 <= w.pushed[i].sequence <= w.lane.accepted)
      && (forall i, j :: 0 <= i < j < |w.pushed| ==> w.pushed[i].sequence != w.pushed[j].sequence)
      && (forall i, e :: 0 <= i < |w.pushed| && 0 <= e < |w.emitters| && w.emitters[e].Some?
            ==> w.pushed[i].sequence != w.emitters[e].value.sequence)
      && (forall d, e :: 0 <= d < e < |w.emitters| && w.emitters[d].Some? && w.emitters[e].Some?
            ==> w.emitters[d].value.sequence != w.emitters[e].value.sequence)
  {
    NumberingBeginsWithOne(n, steps);
    RunKeeps(n, steps);
  }

  /** The record carries the arguments of an emit of the run. */
  ghost predicate Emitted(steps: seq<Step>, r: Record)
  {
    exists e: nat :: Number(e, r.timestamp, r.source, r.lane, r.flags, r.payload) in steps
  }

  ghost predicate AllEmitted(steps: seq<Step>, w: World)
  {
    && (forall i :: 0 <= i < |w.pushed| ==> Emitted(steps, w.pushed[i]))
    && (forall e :: 0 <= e < |w.emitters| && w.emitters[e].Some? ==> Emitted(steps, w.emitters[e].value))
  }

  lemma StepEmits(steps: seq<Step>, w: World, step: Step)
    requires AllEmitted(steps, w) && step in steps
    ensures AllEmitted(steps, Apply(w, step))
  {
    var w' := Apply(w, step);
    match step
    case Number(e, t, s, l, f, p) =>
      if e < |w.emitters| && w.emitters[e].None? {
        assert w'.emitters == w.emitters[e := Some(Record(w.lane.accepted + 1, t, s, l, f, p))];
      }
    case Locked(e, _) =>
      if e < |w.emitters| && w.emitters[e].Some? {
        assert w'.pushed == w.pushed || w'.pushed == w.pushed + [w.emitters[e].value];
      }
    case _ =>
  }

  lemma {:induction false} RecordsAreEmitted(n: nat, steps: seq<Step>)
    ensures AllEmitted(steps, Run(Start(n), steps))
  {
    if steps != [] {
      var prefix, last := steps[..|steps| - 1], steps[|steps| - 1];
      RecordsAreEmitted(n, prefix);
      assert steps == prefix + [last];
      forall r | Emitted(prefix, r) ensures Emitted(steps, r) {
        var e: nat :| Number(e, r.timestamp, r.source, r.lane, r.flags, r.payload) in prefix;
        assert Number(e, r.timestamp, r.source, r.lane, r.flags, r.payload) in steps;
      }
      StepEmits(steps, Run(Start(n), prefix), last);
    }
  }

  /** In every interleaving, a pushed record is what some emit was called with, and a record in the active page is
      one of those. */
  lemma PushedAsEmitted(n: nat, steps: seq<Step>, i: nat)
    requires i < |Run(Start(n), steps).lane.active|
    ensures Emitted(steps, Run(Start(n), steps).lane.active[i])
  {
    RunKeeps(n, steps);
    RecordsAreEmitted(n, steps);
  }

  /** While the lane is throttled, an emit drops its record and changes nothing else. */
  lemma ThrottledEmitDrops(w: World, e: nat, r: Record, havePage: bool)
    requires e < |w.emitters| && w.emitters[e] == Some(r)
    ensures var w' := Apply(Apply(w, Throttle(true)), Locked(e, havePage));
      && w'.lane == w.lane.(throttled := true, dropped := w.lane.dropped + 1)
      && w'.pushed == w.pushed && w'.emitters == w.emitters[e := None]
    ensures Apply(Apply(w, Throttle(true)), Throttle(false)).lane == w.lane.(throttled := false)
  {
  }

  /** In every interleaving, the popped stream is a subsequence of the push order and no record is popped twice. */
  lemma PopsFollowPushes(n: nat, steps: seq<Step>, i: nat, j: nat)
    requires i < j < |Run(Start(n), steps).popped|
    ensures var w := Run(Start(n), steps);
      && w.popped[i] < w.popped[j] < |w.pushed|
      && w.pushed[w.popped[i]].sequence != w.pushed[w.popped[j]].sequence
  {
    RunKeeps(n, steps);
  }

  /** What a pop hands out is the record at the position it logs. */
  lemma PopTakesTheLogged(n: nat, steps: seq<Step>)
    ensures var w := Run(Start(n), steps);
      w.lane.active != [] ==>
        var w' := Apply(w, PopOne);
        && |w'.popped| == |w.popped| + 1
        && w.pushed[w'.popped[|w.popped|]] == w.lane.active[0]
  {
    RunKeeps(n, steps);
  }

  /** A record that has left the active page, popped or with a retired page, is never popped afterwards: from then
      on, pops are of records pushed no earlier than the active page of that moment. */
  lemma RetiredIsNeverPopped(n: nat, steps: seq<Step>, more: seq<Step>, i: nat)
    requires |Run(Start(n), steps).popped| <= i < |Run(Start(n), steps + more).popped|
    ensures var w := Run(Start(n), steps);
      Run(Start(n), steps + more).popped[i] >= |w.pushed| - |w.lane.active|
  {
    RunKeeps(n, steps);
    PopsGoForward(n, steps, more, i);
  }

  /** The position from which the active page holds the pushed records. */
  function Floor(w: World): int { |w.pushed| - |w.lane.active| }

  /** One step neither moves the floor back nor pops from below it. */
  lemma FloorRises(w: World, step: Step)
    requires InOrder(w)
    ensures var w' := Apply(w, step);
      && Floor(w) <= Floor(w')
      && w.popped <= w'.popped && |w'.popped| <= |w.popped| + 1
      && (|w'.popped| > |w.popped| ==> w'.popped[|w.popped|] >= Floor(w))
  {
  }

  lemma {:induction false} PopsGoForward(n: nat, steps: seq<Step>, more: seq<Step>, i: nat)
    ensures var w, w' := Run(Start(n), steps), Run(Start(n), steps + more);
      && |w.popped| <= |w'.popped| && Floor(w) <= Floor(w')
      && (|w.popped| <= i < |w'.popped| ==> w'.popped[i] >= Floor(w))
  {
    if more == [] {
      assert steps + more == steps;
    } else {
      var init, last := more[..|more| - 1], more[|more| - 1];
      assert steps + more == steps + init + [last];
      RunOneMore(n, steps + init, last);
      PopsGoForward(n, steps, init, i);
      RunKeeps(n, steps + init);
      FloorRises(Run(Start(n), steps + init), last);
    }
  }

  // ----- records that no drain will ever see

  /** The step puts a full page on the retired list. */
  predicate Rotates(w: World, step: Step)
  {
    && step.Locked? && step.e < |w.emitters| && w.emitters[step.e].Some?
    && !w.lane.throttled && |w.lane.active| >= CAPACITY && step.havePage
  }

  /** How many records have left with rotated pages. */
  function Stranded(w: World): nat { Sum(w.lane.retired, PageSize) + w.lost }

  lemma StrandedAfter(w: World, step: Step)
    requires InOrder(w)
    ensures Stranded(Apply(w, step)) == Stranded(w) + (if Rotates(w, step) then CAPACITY else 0)
  {
    match step
    case Locked(_, _) =>
      SumConcat(w.lane.retired, [w.lane.active], PageSize);
      SumSingle(w.lane.active, PageSize);
    case Reclaim(page) =>
      if page < |w.lane.retired| {
        SumRemove(w.lane.retired, page, PageSize);
      }
    case _ =>
  }

  /** What was pushed is popped, in the active page or stranded. */
  predicate PushesFound(w: World) { |w.pushed| == |w.popped| + |w.lane.active| + Stranded(w) }

  lemma ApplyFindsPushes(w: World, step: Step)
    requires InOrder(w) && PushesFound(w)
    ensures PushesFound(Apply(w, step))
  {
    StrandedAfter(w, step);
  }

  /** No step of the run rotates the page. */
  predicate NeverRotates(n: nat, steps: seq<Step>)
  {
    steps == [] ||
    (NeverRotates(n, steps[..|steps| - 1]) && !Rotates(Run(Start(n), steps[..|steps| - 1]), steps[|steps| - 1]))
  }

  lemma {:induction false} StrandedIff(n: nat, steps: seq<Step>)
    ensures PushesFound(Run(Start(n), steps))
    ensures Stranded(Run(Start(n), steps)) == 0 <==> NeverRotates(n, steps)
  {
    if steps != [] {
      var prefix, last := steps[..|steps| - 1], steps[|steps| - 1];
      StrandedIff(n, prefix);
      RunKeeps(n, prefix);
      StrandedAfter(Run(Start(n), prefix), last);
      ApplyFindsPushes(Run(Start(n), prefix), last);
    }
  }

  /** Over all runs: every pushed record has been popped or can still be popped from the active page if and only if no
      emit found the page full and got a fresh one. */
  lemma NothingStrandedIff(n: nat, steps: seq<Step>)
    ensures var w := Run(Start(n), steps);
      |w.pushed| == |w.popped| + |w.lane.active| <==> NeverRotates(n, steps)
  {
    StrandedIff(n, steps);
  }

  /** One emitter, `k` emits, and nobody drains. */
  function Emits(k: nat): seq<Step>
  {
    if k == 0 then [] else Emits(k - 1) + [Number(0, 0, 1, 0, 0, 0), Locked(0, true)]
  }

  lemma RunOneMore(n: nat, steps: seq<Step>, step: Step)
    ensures Run(Start(n), steps + [step]) == Apply(Run(Start(n), steps), step)
  {
    assert (steps + [step])[..|steps|] == steps;
  }

  lemma OneEmitMore(k: nat)
    ensures Run(Start(1), Emits(k + 1))
         == Apply(Apply(Run(Start(1), Emits(k)), Number(0, 0, 1, 0, 0, 0)), Locked(0, true))
  {
    var before, number := Emits(k), Number(0, 0, 1, 0, 0, 0);
    RunOneMore(1, before, number);
    RunOneMore(1, before + [number], Locked(0, true));
    assert before + [number, Locked(0, true)] == before + [number] + [Locked(0, true)];
  }

  /** After `k` emits of one emitter into one page. */
  predicate Filled(w: World, k: nat)
  {
    && w.emitters == [None] && !w.lane.throttled && w.lane.retired == [] && w.lost == 0 && w.popped == []
    && |w.lane.active| == |w.pushed| == k
  }

  lemma EmitOnto(w: World, k: nat)
    requires Filled(w, k) && k < CAPACITY
    ensures Filled(Apply(Apply(w, Number(0, 0, 1, 0, 0, 0)), Locked(0, true)), k + 1)
  {
  }

  lemma {:induction false} EmitsFillThePage(k: nat)
    requires k <= CAPACITY
    ensures Filled(Run(Start(1), Emits(k)), k)
  {
    if k > 0 {
      EmitsFillThePage(k - 1);
      OneEmitMore(k - 1);
      EmitOnto(Run(Start(1), Emits(k - 1)), k - 1);
    }
  }

  /** Sixty-four emits without a pop leave one record to drain and strand the other 63. */
  lemma SixtyFourEmitsStrand()
    ensures var w := Run(Start(1), Emits(64));
      && |w.pushed| == 64 && w.popped == [] && |w.lane.active| == 1
      && |w.lane.retired| == 1 && |w.lane.retired[0]| == 63
  {
    EmitsFillThePage(63);
    OneEmitMore(63);
  }
}
