/** A lane of the event bus: pages of records with masked circular indices, rotation of a full page,
    and the emit and drain paths. */
module Pulse {
  import opened Common
  import opened PageIndex

  const CAPACITY: nat := 63

  datatype Record = Record(sequence: nat, timestamp: nat, source: nat, lane: nat, flags: nat, payload: nat)

  const ZERO_RECORD := Record(0, 0, 0, 0, 0, 0)

  /** Status codes of the kernel interface. */
  datatype Status = Ok | EAGAIN | ENOSPC | ENOMEM

  // ----- a page

  /** How many slots lie from `t` up to, not including, `h`, going round. */
  function Distance(t: nat, h: nat): nat
    requires t < 64 && h < 64
  {
    if t <= h then h - t else h + 64 - t
  }

  /** The records in those slots. */
  function Ring(slots: seq<Record>, t: nat, h: nat): (q: seq<Record>)
    requires |slots| == 64 && t < 64 && h < 64
    ensures |q| == Distance(t, h)
    decreases Distance(t, h)
  {
    if t == h then [] else [slots[t]] + Ring(slots, NextSlot(t), h)
  }

  lemma {:induction false} RingPush(slots: seq<Record>, t: nat, h: nat, x: Record)
    requires |slots| == 64 && t < 64 && h < 64 && NextSlot(h) != t
    ensures Ring(slots[h := x], t, NextSlot(h)) == Ring(slots, t, h) + [x]
    decreases Distance(t, h)
  {
    if t == h {
      assert Ring(slots[h := x], NextSlot(t), NextSlot(h)) == [];
    } else {
      RingPush(slots, NextSlot(t), h, x);
    }
  }

  class PulsePage {
    const records: array<Record>
    var head: nat
    var tail: nat
    var readers: nat

    ghost predicate Valid()
      reads this
    {
      records.Length == 64 && head < 64 && tail < 64
    }

    ghost function Contents(): seq<Record>
      reads this, records
      requires Valid()
    {
      Ring(records[..], tail, head)
    }

    constructor ()
      ensures Valid() && Contents() == [] && readers == 1 && fresh(records)
    {
      records := new Record[64](_ => ZERO_RECORD);
      head := 0;
      tail := 0;
      readers := 1;
    }

    method Full() returns (full: bool)
      requires Valid()
      ensures full <==> |Contents()| == CAPACITY
      ensures |Contents()| <= CAPACITY
    {
      var next := MaskedNext(head);
      full := next == tail;
    }

    method Empty() returns (empty: bool)
      requires Valid()
      ensures empty <==> Contents() == []
    {
      empty := head == tail;
    }

    method Push(record: Record) returns (ret: Status)
      requires Valid()
      modifies this`head, records
      ensures Valid()
      ensures ret == if |old(Contents())| < CAPACITY then Ok else ENOSPC
      ensures Contents() == if ret == Ok then old(Contents()) + [record] else old(Contents())
    {
      var next := MaskedNext(head);
      if next == tail {
        return ENOSPC;
      }
      RingPush(records[..], tail, head, record);
      ghost var slots := records[..];
      records[head] := record;
      assert records[..] == slots[head := record];
      head := next;
      return Ok;
    }

    method Pop() returns (r: Option<Record>)
      requires Valid()
      modifies this`tail
      ensures Valid()
      ensures r.None? <==> old(Contents()) == []
      ensures r.None? ==> Contents() == []
      ensures r.Some? ==> old(Contents()) == [r.value] + Contents()
    {
      if tail == head {
        return None;
      }
      r := Some(records[tail]);
      tail := MaskedNext(tail);
    }
  }

  // ----- a lane

  function PageSize(p: seq<Record>): nat { |p| }

  /** The pages of a list that are in a set, in list order. */
  function Among<T(==)>(pages: seq<T>, keep: set<T>): seq<T>
  {
    if pages == [] then []
    else Among(pages[..|pages| - 1], keep) + (if pages[|pages| - 1] in keep then [pages[|pages| - 1]] else [])
  }

  /** The pages that somebody besides their list still reads. */
  ghost function BusyOnes(pages: seq<PulsePage>): set<PulsePage>
    reads pages
  {
    set p | p in pages && p.readers != 1
  }

  /** The lane as its lock holders see it: the active page, the retired pages and the counters. */
  datatype LaneState = LaneState(
    active: seq<Record>,
    retired: seq<seq<Record>>,
    accepted: nat,
    dropped: nat,
    throttled: bool)

  /** The locked section of an emit; `havePage` says whether a rotation gets a fresh page. */
  function EmitState(s: LaneState, record: Record, havePage: bool): LaneState
  {
    if s.throttled then s.(dropped := s.dropped + 1)
    else if |s.active| < CAPACITY then s.(active := s.active + [record])
    else if havePage then s.(active := [record], retired := s.retired + [s.active])
    else s.(dropped := s.dropped + 1)
  }

  function EmitStatus(s: LaneState, havePage: bool): Status
  {
    if s.throttled then EAGAIN
    else if |s.active| < CAPACITY || havePage then Ok
    else ENOMEM
  }

  predicate RecordValid(r: Record, laneCount: nat, now: nat)
  {
    r.lane < laneCount && r.source != 0 && r.timestamp <= now
  }

  /** How many records a drain pops from `q`; `clock(k)` is the time of the check after pop number `k`. */
  function DrainLength(q: seq<Record>, budget: nat, laneCount: nat, clock: nat -> nat, k: nat): (n: nat)
    ensures n <= |q|
  {
    if budget == 0 || q == [] then 0
    else
      var left := if RecordValid(q[0], laneCount, clock(k)) then budget - 1 else budget;
      1 + DrainLength(q[1..], left, laneCount, clock, k + 1)
  }

  /** The valid records of `q`. */
  function Valids(q: seq<Record>, laneCount: nat, clock: nat -> nat, k: nat): seq<Record>
  {
    if q == [] then []
    else (if RecordValid(q[0], laneCount, clock(k)) then [q[0]] else []) + Valids(q[1..], laneCount, clock, k + 1)
  }

  /** A record is delivered when its lane exists, its source is not zero, and its time has come. */
  lemma ValidsSay(x: Record, q: seq<Record>, laneCount: nat, clock: nat -> nat, k: nat)
    ensures Valids([], laneCount, clock, k) == []
    ensures Valids([x] + q, laneCount, clock, k)
         == (if x.lane < laneCount && x.source > 0 && x.timestamp <= clock(k) then [x] else [])
            + Valids(q, laneCount, clock, k + 1)
  {
    assert ([x] + q)[1..] == q;
  }

  /** A drain delivers as many valid records as its budget and the page allow, and stops early only when
      the budget is used up. */
  lemma {:induction false} DrainDeliversUpToBudget(q: seq<Record>, budget: nat, laneCount: nat,
                                                   clock: nat -> nat, k: nat)
    ensures var n := DrainLength(q, budget, laneCount, clock, k);
      var delivered := Valids(q[..n], laneCount, clock, k);
      && |delivered| == Min(budget, |Valids(q, laneCount, clock, k)|)
      && (n < |q| ==> |delivered| == budget)
  {
    if budget > 0 && q != [] {
      var b := if RecordValid(q[0], laneCount, clock(k)) then budget - 1 else budget;
      var n := DrainLength(q[1..], b, laneCount, clock, k + 1);
      DrainDeliversUpToBudget(q[1..], b, laneCount, clock, k + 1);
      assert q[..n + 1][1..] == q[1..][..n];
    }
  }

  class PulseLane {
    var active: PulsePage
    var retired: seq<PulsePage>
    var accepted: nat
    var dropped: nat
    var throttled: bool

    ghost predicate Valid()
      reads this, active, retired
    {
      && active.Valid()
      && (forall p :: p in retired ==> p.Valid() && p != active && p.records != active.records)
    }

    ghost function Held(): (held: seq<seq<Record>>)
      reads this, retired, set p | p in retired :: p.records
      requires forall p :: p in retired ==> p.Valid()
      ensures |held| == |retired| && forall i :: 0 <= i < |held| ==> held[i] == retired[i].Contents()
    {
      seq(|retired|, i requires 0 <= i < |retired|
          reads this, retired, set p | p in retired :: p.records
          requires forall p :: p in retired ==> p.Valid() => retired[i].Contents())
    }

    /** How many records the retired pages hold. */
    ghost function HeldRecords(): nat
      reads this, retired, set p | p in retired :: p.records
      requires forall p :: p in retired ==> p.Valid()
    {
      Sum(Held(), PageSize)
    }

    ghost function State(): LaneState
      reads this, active, active.records, retired, set p | p in retired :: p.records
      requires Valid()
    {
      LaneState(active.Contents(), Held(), accepted, dropped, throttled)
    }

    constructor ()
      ensures Valid() && State() == LaneState([], [], 0, 0, false)
    {
      active := new PulsePage();
      retired := [];
      accepted := 0;
      dropped := 0;
      throttled := false;
    }

    /** The atomic increment that numbers a record. */
    method Number() returns (sequence: nat)
      requires Valid()
      modifies this`accepted
      ensures Valid() && sequence == old(accepted) + 1
      ensures State() == old(State()).(accepted := sequence)
    {
      accepted := accepted + 1;
      sequence := accepted;
    }

    /** `havePage` is whether the allocator has a page. */
    method RotatePage(havePage: bool) returns (ret: Status)
      requires Valid()
      modifies this`active, this`retired
      ensures Valid()
      ensures ret == if havePage then Ok else ENOMEM
      ensures var s := old(State());
        State() == if havePage then s.(active := [], retired := s.retired + [s.active]) else s
      ensures havePage ==> fresh(active) && fresh(active.records)
      ensures !havePage ==> active == old(active)
    {
      if !havePage {
        return ENOMEM;
      }
      var page := new PulsePage();
      var old_ := active;
      active := page;
      retired := retired + [old_];
      return Ok;
    }

    /** Push, and if the page is full, push into a fresh one; there the record always fits. */
    method PushOrRotate(record: Record, havePage: bool) returns (ret: Status)
      requires Valid()
      modifies this`active, this`retired, active, active.records
      ensures Valid()
      ensures ret == if |old(active.Contents())| < CAPACITY || havePage then Ok else ENOMEM
      ensures var s := old(State());
        State() == if |s.active| < CAPACITY then s.(active := s.active + [record])
                   else if havePage then s.(active := [record], retired := s.retired + [s.active])
                   else s
    {
      ret := active.Push(record);
      if ret == ENOSPC {
        ret := RotatePage(havePage);
        if ret == Ok {
          ret := active.Push(record);
        }
      }
    }

    method EmitLocked(record: Record, havePage: bool) returns (ret: Status)
      requires Valid()
      modifies this, active, active.records
      ensures Valid()
      ensures State() == EmitState(old(State()), record, havePage)
      ensures ret == EmitStatus(old(State()), havePage) && ret != ENOSPC
      ensures old(throttled) ==> ret == EAGAIN && State() == old(State()).(dropped := old(dropped) + 1)
      ensures ret == Ok ==> State().active != [] && State().active[|State().active| - 1] == record
      ensures ret != Ok ==> dropped == old(dropped) + 1 && State().active == old(State()).active
    {
      if throttled {
        dropped := dropped + 1;
        return EAGAIN;
      }
      ret := PushOrRotate(record, havePage);
      if ret != Ok {
        dropped := dropped + 1;
      }
    }

    method DrainLane(laneCount: nat, budget: nat, clock: nat -> nat) returns (count: nat, ghost delivered: seq<Record>)
      requires Valid()
      modifies active`tail
      ensures Valid()
      ensures var q := old(State()).active;
        var n := DrainLength(q, budget, laneCount, clock, 0);
        && State() == old(State()).(active := q[n..])
        && delivered == Valids(q[..n], laneCount, clock, 0)
        && count == |delivered|
    {
      count, delivered := DrainPage(active, laneCount, budget, clock);
      assert Held() == old(Held());
    }

    /** Take one page off the retired list. */
    method Unlink(i: nat) returns (ghost gone: nat)
      requires Valid() && i < |retired|
      modifies this`retired
      ensures Valid() && retired == old(retired)[..i] + old(retired)[i + 1..]
      ensures HeldRecords() + gone == old(HeldRecords())
    {
      ghost var held := Held();
      gone := |retired[i].Contents()|;
      SumRemove(held, i, PageSize);
      retired := retired[..i] + retired[i + 1..];
      assert Held() == held[..i] + held[i + 1..];
    }

    /** The pages before `k` are swept: those that stay are in front of the rest of the list. */
    ghost predicate Swept(pages: seq<PulsePage>, busy: set<PulsePage>, k: nat, i: nat)
      reads this`retired
    {
      k <= |pages| && i == |Among(pages[..k], busy)| && retired == Among(pages[..k], busy) + pages[k..]
    }

    /** The sweep has got to `k`, and `lost` of `total` records are gone. */
    ghost predicate Sweeping(pages: seq<PulsePage>, busy: set<PulsePage>, k: nat, i: nat, lost: nat, total: nat)
      reads this, active, retired, set p | p in retired :: p.records
      reads pages
    {
      Valid() && busy == BusyOnes(pages) && Swept(pages, busy, k, i) && HeldRecords() + lost == total
    }

    lemma AllSwept(pages: seq<PulsePage>, busy: set<PulsePage>, k: nat, i: nat, lost: nat, total: nat)
      requires Sweeping(pages, busy, k, i, lost, total) && i >= |retired|
      ensures Valid() && retired == Among(pages, BusyOnes(pages)) && HeldRecords() + lost == total
    {
      assert k == |pages| && pages[..k] == pages;
    }

    /** Free the page at `i` unless somebody else reads it. */
    method Sweep(i: nat, ghost pages: seq<PulsePage>, ghost busy: set<PulsePage>, ghost k: nat, ghost before: nat,
                 ghost total: nat)
      returns (next: nat, ghost lost: nat)
      requires Sweeping(pages, busy, k, i, before, total) && i < |retired|
      modifies this`retired
      ensures k < |pages| && Sweeping(pages, busy, k + 1, next, lost, total)
    {
      assert k < |pages|;
      SweepStep(pages, busy, k, retired, i);
      assert retired[i] in pages;
      if retired[i].readers != 1 {
        return i + 1, before;
      }
      ghost var gone := Unlink(i);
      next, lost := i, before + gone;
    }

    /** Free the retired pages nobody else reads; `lost` counts the records that go with them. */
    method ReclaimLane() returns (ghost lost: nat)
      requires Valid()
      modifies this`retired
      ensures Valid() && retired == Among(old(retired), BusyOnes(old(retired)))
      ensures HeldRecords() + lost == old(HeldRecords())
    {
      lost := 0;
      var i: nat := 0;
      ghost var pages, busy, total := retired, BusyOnes(retired), HeldRecords();
      ghost var k: nat := 0;
      while i < |retired|
        invariant k <= |pages| && Sweeping(pages, busy, k, i, lost, total)
        decreases |pages| - k
      {
        i, lost := Sweep(i, pages, busy, k, lost, total);
        k := k + 1;
      }
      AllSwept(pages, busy, k, i, lost, total);
    }
  }

  /** The pages before `k` are swept and `rest` is what is left of the list; the next page stays or goes. */
  lemma SweepStep<T>(pages: seq<T>, keep: set<T>, k: nat, rest: seq<T>, i: nat)
    requires k < |pages| && rest == Among(pages[..k], keep) + pages[k..] && i == |Among(pages[..k], keep)|
    ensures i < |rest| && rest[i] == pages[k]
    ensures pages[k] in keep ==>
              rest == Among(pages[..k + 1], keep) + pages[k + 1..] && i + 1 == |Among(pages[..k + 1], keep)|
    ensures pages[k] !in keep ==>
              && rest[..i] + rest[i + 1..] == Among(pages[..k + 1], keep) + pages[k + 1..]
              && i == |Among(pages[..k + 1], keep)|
  {
    var kept := Among(pages[..k], keep);
    assert pages[..k + 1][..k] == pages[..k];
    assert rest == kept + [pages[k]] + pages[k + 1..];
    assert rest[..i] == kept && rest[i + 1..] == pages[k + 1..];
  }

  /** The page holds what is left of `q` after `k` pops. */
  ghost predicate Remaining(page: PulsePage, q: seq<Record>, k: nat)
    reads page, page.records
    requires k <= |q|
  {
    page.Valid() && page.Contents() == q[k..]
  }

  /** The pop of a drain that has taken the first `k` records of `q`. */
  method PopAt(page: PulsePage, ghost q: seq<Record>, ghost k: nat) returns (r: Option<Record>)
    requires k <= |q| && Remaining(page, q, k)
    modifies page`tail
    ensures r.None? ==> k == |q| && Remaining(page, q, k)
    ensures r.Some? ==> k < |q| && r.value == q[k] && Remaining(page, q, k + 1)
  {
    r := page.Pop();
    assert r.Some? ==> q[k..][0] == r.value && q[k..][1..] == q[k + 1..];
  }

  /** One turn of the drain loop: no more when the page is empty, else one record popped, and delivered if valid. */
  method DrainTurn(page: PulsePage, ghost q: seq<Record>, k: nat, ghost budget: nat, laneCount: nat, clock: nat -> nat,
                   count: nat, ghost before: seq<Record>)
    returns (more: bool, total: nat, ghost delivered: seq<Record>)
    requires k <= |q| && Remaining(page, q, k) && count == |before| < budget
    requires DrainedTo(q, k, budget, laneCount, clock, before)
    modifies page`tail
    ensures !more ==> k == |q| && Remaining(page, q, k) && delivered == before
    ensures more ==> k < |q| && Remaining(page, q, k + 1) && DrainedTo(q, k + 1, budget, laneCount, clock, delivered)
    ensures total == |delivered|
  {
    var record := PopAt(page, q, k);
    if record.None? {
      return false, count, before;
    }
    DrainStep(q, k, budget, laneCount, clock, before);
    if RecordValid(record.value, laneCount, clock(k)) {
      return true, count + 1, before + [record.value];
    }
    return true, count, before;
  }

  /** The loop of a drain, with nobody pushing: it ends although invalid records use no budget. */
  method DrainPage(page: PulsePage, laneCount: nat, budget: nat, clock: nat -> nat)
    returns (count: nat, ghost delivered: seq<Record>)
    requires page.Valid()
    modifies page`tail
    ensures page.Valid()
    ensures var q := old(page.Contents());
      var n := DrainLength(q, budget, laneCount, clock, 0);
      && page.Contents() == q[n..]
      && delivered == Valids(q[..n], laneCount, clock, 0)
      && count == |delivered|
  {
    count := 0;
    delivered := [];
    ghost var q := page.Contents();
    var k: nat := 0;
    DrainStart(q, budget, laneCount, clock);
    assert q[0..] == q;
    while count < budget
      invariant k <= |q| && Remaining(page, q, k)
      invariant count == |delivered| && DrainedTo(q, k, budget, laneCount, clock, delivered)
      decreases |q| - k
    {
      var more;
      more, count, delivered := DrainTurn(page, q, k, budget, laneCount, clock, count, delivered);
      if !more {
        break;
      }
      k := k + 1;
    }
    DrainedPage(page, q, k, budget, laneCount, clock, delivered);
  }

  /** The page and the deliveries at the end of a drain. */
  lemma DrainedPage(page: PulsePage, q: seq<Record>, k: nat, budget: nat, laneCount: nat, clock: nat -> nat,
                    delivered: seq<Record>)
    requires k <= |q| && Remaining(page, q, k) && DrainedTo(q, k, budget, laneCount, clock, delivered)
    requires k == |q| || |delivered| >= budget
    ensures var n := DrainLength(q, budget, laneCount, clock, 0);
      page.Valid() && page.Contents() == q[n..] && delivered == Valids(q[..n], laneCount, clock, 0)
  {
    DrainDone(q, k, budget, laneCount, clock, delivered);
  }

  /** The first `k` pops are done; `delivered` is what they gave. */
  ghost predicate DrainedTo(q: seq<Record>, k: nat, budget: nat, laneCount: nat, clock: nat -> nat,
                            delivered: seq<Record>)
    requires k <= |q|
  {
    && delivered == Valids(q[..k], laneCount, clock, 0) && |delivered| <= budget
    && DrainLength(q, budget, laneCount, clock, 0) == k + DrainLength(q[k..], budget - |delivered|, laneCount, clock, k)
  }

  /** A drain that has emptied the page or used its budget has popped as many as it pops. */
  lemma DrainDone(q: seq<Record>, k: nat, budget: nat, laneCount: nat, clock: nat -> nat, delivered: seq<Record>)
    requires k <= |q| && DrainedTo(q, k, budget, laneCount, clock, delivered)
    requires k == |q| || |delivered| >= budget
    ensures DrainLength(q, budget, laneCount, clock, 0) == k && delivered == Valids(q[..k], laneCount, clock, 0)
  {
  }

  lemma DrainStart(q: seq<Record>, budget: nat, laneCount: nat, clock: nat -> nat)
    ensures DrainedTo(q, 0, budget, laneCount, clock, [])
  {
    assert q[0..] == q && q[..0] == [];
  }

  lemma DrainStep(q: seq<Record>, k: nat, budget: nat, laneCount: nat, clock: nat -> nat, delivered: seq<Record>)
    requires k < |q| && DrainedTo(q, k, budget, laneCount, clock, delivered) && |delivered| < budget
    ensures DrainedTo(q, k + 1, budget, laneCount, clock,
                      if RecordValid(q[k], laneCount, clock(k)) then delivered + [q[k]] else delivered)
  {
    assert q[k..][1..] == q[k + 1..];
    ValidsStep(q, k, laneCount, clock);
  }

  lemma {:induction false} ValidsConcat(a: seq<Record>, b: seq<Record>, laneCount: nat, clock: nat -> nat, k: nat)
    ensures Valids(a + b, laneCount, clock, k) == Valids(a, laneCount, clock, k) + Valids(b, laneCount, clock, k + |a|)
  {
    if a == [] {
      assert a + b == b;
    } else {
      assert (a + b)[1..] == a[1..] + b && (a + b)[0] == a[0];
      ValidsConcat(a[1..], b, laneCount, clock, k + 1);
      var head := if RecordValid(a[0], laneCount, clock(k)) then [a[0]] else [];
      assert Valids(a + b, laneCount, clock, k) == head + Valids((a + b)[1..], laneCount, clock, k + 1);
      assert Valids(a, laneCount, clock, k) == head + Valids(a[1..], laneCount, clock, k + 1);
    }
  }

  lemma ValidsStep(q: seq<Record>, k: nat, laneCount: nat, clock: nat -> nat)
    requires k < |q|
    ensures Valids(q[..k + 1], laneCount, clock, 0)
         == Valids(q[..k], laneCount, clock, 0) + (if RecordValid(q[k], laneCount, clock(k)) then [q[k]] else [])
  {
    assert q[..k + 1] == q[..k] + [q[k]];
    ValidsConcat(q[..k], [q[k]], laneCount, clock, 0);
    assert Valids([q[k]][1..], laneCount, clock, k + 1) == [];
  }
}
