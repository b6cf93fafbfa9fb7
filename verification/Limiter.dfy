/** The sliding-window rate limiter: its pruned stamp lists decide like the full history of admissions. */
module Limiter {
  import opened Common

  datatype Response = Response(allowed: bool, remaining: int, reset: int)

  /** A call may bring its own limit and window. */
  datatype Call = Call(key: string, now: int, limit: int, window: int)

  type Hits = map<string, seq<int>>

  /** The stamps after `cutoff`. */
  function Recent(stamps: seq<int>, cutoff: int): seq<int>
  {
    if stamps == [] then []
    else Recent(stamps[..|stamps| - 1], cutoff) + (if stamps[|stamps| - 1] > cutoff then [stamps[|stamps| - 1]] else [])
  }

  function StampsOf(hits: Hits, key: string): seq<int> { if key in hits then hits[key] else [] }

  /** The answer to a call when `recent` stamps are in its window. */
  function Answer(recent: nat, c: Call): Response
  {
    var allowed := recent < c.limit;
    Response(allowed, Max(0, c.limit - (if allowed then recent + 1 else recent)), c.now + c.window)
  }

  class SlidingWindowLimiter {
    var hits: Hits

    constructor ()
      ensures hits == map[]
    {
      hits := map[];
    }

    method Check(key: string, now: int, limit: int := 20, window: int := 60) returns (r: Response)
      modifies this
      ensures hits == PrunedHits(old(hits), Call(key, now, limit, window))
      ensures r == PrunedResponse(old(hits), Call(key, now, limit, window))
      ensures var kept := |Recent(if key in old(hits) then old(hits)[key] else [], now - window)|;
        && (r.allowed <==> kept < limit)
        && key in hits && |hits[key]| == (if kept < limit then kept + 1 else kept)
        && r.remaining == (if |hits[key]| < limit then limit - |hits[key]| else 0) && r.reset == now + window
    {
      var cutoff := now - window;
      var recent := Recent(if key in hits then hits[key] else [], cutoff);
      var allowed := |recent| < limit;
      if allowed {
        recent := recent + [now];
      }
      hits := hits[key := recent];
      r := Response(allowed, Max(0, limit - |recent|), now + window);
    }
  }

  function PrunedResponse(hits: Hits, c: Call): Response
  {
    Answer(|Recent(StampsOf(hits, c.key), c.now - c.window)|, c)
  }

  function PrunedHits(hits: Hits, c: Call): Hits
  {
    var recent := Recent(StampsOf(hits, c.key), c.now - c.window);
    hits[c.key := if |recent| < c.limit then recent + [c.now] else recent]
  }

  // ----- the limiter that remembers everything

  /** The times at which `key` was admitted. */
  function Admissions(log: seq<Call>, key: string): seq<int>
  {
    if log == [] then []
    else Admissions(log[..|log| - 1], key) + (if log[|log| - 1].key == key then [log[|log| - 1].now] else [])
  }

  function FullResponse(log: seq<Call>, c: Call): Response
  {
    Answer(|Recent(Admissions(log, c.key), c.now - c.window)|, c)
  }

  function FullLog(log: seq<Call>, c: Call): seq<Call>
  {
    if FullResponse(log, c).allowed then log + [c] else log
  }

  /** The limiter with the full history admits a call exactly when fewer than `limit` admissions of its key lie after
      the beginning of its window, and says how many more it would admit now. */
  lemma FullResponseSays(log: seq<Call>, c: Call)
    ensures var seen := |Recent(Admissions(log, c.key), c.now - c.window)|;
      FullResponse(log, c) ==
        if seen < c.limit then Response(true, c.limit - seen - 1, c.now + c.window)
        else Response(false, 0, c.now + c.window)
  {
  }

  // ----- runs

  function RunHits(calls: seq<Call>): Hits
  {
    if calls == [] then map[]
    else PrunedHits(RunHits(calls[..|calls| - 1]), calls[|calls| - 1])
  }

  function RunLog(calls: seq<Call>): seq<Call>
  {
    if calls == [] then []
    else FullLog(RunLog(calls[..|calls| - 1]), calls[|calls| - 1])
  }

  /** Which call is let through after which run. */
  type Rule = (seq<Call>, Call) -> bool

  /** The calls of a run that a rule lets through. */
  function Admitted(calls: seq<Call>, rule: Rule): seq<Call>
  {
    if calls == [] then []
    else
      var init, c := calls[..|calls| - 1], calls[|calls| - 1];
      Admitted(init, rule) + (if rule(init, c) then [c] else [])
  }

  const PRUNED: Rule := (calls, c) => PrunedResponse(RunHits(calls), c).allowed

  /** The calls that the pruned limiter admits. */
  function PrunedLog(calls: seq<Call>): seq<Call> { Admitted(calls, PRUNED) }

  /** Both limiters answer the call that follows the run alike. */
  predicate Agrees(calls: seq<Call>, c: Call)
  {
    PrunedResponse(RunHits(calls), c) == FullResponse(RunLog(calls), c)
  }

  /** They have answered every call of the run alike. */
  predicate Agreed(calls: seq<Call>)
  {
    calls == [] ||
    (Agreed(calls[..|calls| - 1]) && Agrees(calls[..|calls| - 1], calls[|calls| - 1]))
  }

  // ----- stamps

  lemma {:induction false} RecentOfRecent(stamps: seq<int>, c: int, d: int)
    ensures Recent(Recent(stamps, c), d) == Recent(stamps, Max(c, d))
  {
    if stamps != [] {
      var init, x := stamps[..|stamps| - 1], stamps[|stamps| - 1];
      RecentOfRecent(init, c, d);
      assert Recent(init, c) + [] == Recent(init, c);
      if x > c {
        RecentAppend(Recent(init, c), x, d);
      }
    }
  }

  lemma RecentAppend(stamps: seq<int>, x: int, d: int)
    ensures Recent(stamps + [x], d) == Recent(stamps, d) + (if x > d then [x] else [])
  {
    assert (stamps + [x])[..|stamps|] == stamps;
  }

  lemma {:induction false} RecentOnes(stamps: seq<int>, c: int)
    ensures forall a :: a in Recent(stamps, c) <==> a in stamps && a > c
    ensures |Recent(stamps, c)| <= |stamps|
    ensures Recent(stamps, c) == stamps <==> |Recent(stamps, c)| == |stamps|
  {
    if stamps != [] {
      var init, x := stamps[..|stamps| - 1], stamps[|stamps| - 1];
      RecentOnes(init, c);
      assert stamps == init + [x];
    }
  }

  lemma {:induction false} AllRecent(stamps: seq<int>, c: int)
    requires forall a :: a in stamps ==> a > c
    ensures Recent(stamps, c) == stamps
  {
    if stamps != [] {
      var init := stamps[..|stamps| - 1];
      assert forall a :: a in init ==> a in stamps;
      AllRecent(init, c);
      assert stamps[|stamps| - 1] in stamps && stamps == init + [stamps[|stamps| - 1]];
    }
  }

  lemma AdmissionsAppend(log: seq<Call>, c: Call, key: string)
    ensures Admissions(log + [c], key) == Admissions(log, key) + (if c.key == key then [c.now] else [])
  {
    assert (log + [c])[..|log|] == log;
  }

  /** Seen from `c` on, the stamps that survived are the admissions, or some of them are missing. */
  predicate SomeSurvive(stamps: seq<int>, full: seq<int>, c: int)
  {
    && |Recent(stamps, c)| <= |Recent(full, c)|
    && (|Recent(stamps, c)| == |Recent(full, c)| ==> Recent(stamps, c) == Recent(full, c))
  }

  /** Some stamp lies after `c` and not after `cutoff`. */
  predicate Between(full: seq<int>, c: int, cutoff: int) { exists a :: a in full && c < a <= cutoff }

  /** Pruning at `cutoff` loses nothing that is seen from `c` on if and only if no admission lies in between. */
  lemma PruneLosesIff(stamps: seq<int>, full: seq<int>, cutoff: int, c: int)
    requires SomeSurvive(stamps, full, c)
    ensures SomeSurvive(Recent(stamps, cutoff), full, c)
    ensures Recent(Recent(stamps, cutoff), c) == Recent(full, c)
       <==> Recent(stamps, c) == Recent(full, c) && !Between(full, c, cutoff)
  {
    RecentOfRecent(stamps, cutoff, c);
    RecentOfRecent(stamps, c, cutoff);
    var seen, all := Recent(stamps, c), Recent(full, c);
    RecentOnes(seen, cutoff);
    RecentOnes(full, c);
    assert Recent(Recent(stamps, cutoff), c) == Recent(seen, cutoff);
    if seen == all && !Between(full, c, cutoff) {
      AllRecent(all, cutoff);
    }
    if Recent(seen, cutoff) == all {
      assert forall a :: a in all ==> a > cutoff;
    }
  }

  /** A call, admitted or not, keeps the comparison. */
  lemma CallComparesIff(stamps: seq<int>, full: seq<int>, now: int, cutoff: int, c: int, admitted: bool)
    requires SomeSurvive(stamps, full, c)
    ensures var added := if admitted then [now] else [];
      && SomeSurvive(Recent(stamps, cutoff) + added, full + added, c)
      && (Recent(Recent(stamps, cutoff) + added, c) == Recent(full + added, c)
          <==> Recent(stamps, c) == Recent(full, c) && !Between(full, c, cutoff))
  {
    PruneLosesIff(stamps, full, cutoff, c);
    var kept := Recent(stamps, cutoff);
    assert kept + [] == kept && full + [] == full;
    if admitted {
      RecentAppend(kept, now, c);
      RecentAppend(full, now, c);
      var x := if now > c then [now] else [];
      assert Recent(kept, c) == Recent(kept + [now], c)[..|Recent(kept, c)|];
      assert Recent(full, c) == Recent(full + [now], c)[..|Recent(full, c)|];
    }
  }

  // ----- when the pruned limiter misses an admission

  /** Call `i` is on the key and was let through. */
  predicate AdmittedAt(calls: seq<Call>, i: nat, key: string, rule: Rule)
    requires i < |calls|
  {
    calls[i].key == key && rule(calls[..i], calls[i])
  }

  /** An admission after the cutoff was pruned by a later call on the same key. */
  predicate PrunedTooSoon(calls: seq<Call>, key: string, cutoff: int, rule: Rule)
  {
    exists i, j :: 0 <= i < j < |calls| && AdmittedAt(calls, i, key, rule) && calls[j].key == key
      && cutoff < calls[i].now <= calls[j].now - calls[j].window
  }

  lemma AdmittedInLonger(calls: seq<Call>, d: Call, i: nat, key: string, rule: Rule)
    requires i < |calls|
    ensures (calls + [d])[i] == calls[i]
    ensures AdmittedAt(calls + [d], i, key, rule) <==> AdmittedAt(calls, i, key, rule)
  {
    assert (calls + [d])[..i] == calls[..i];
  }

  /** Some admitted call on the key was made at time `a`. */
  predicate AdmittedWhen(calls: seq<Call>, key: string, a: int, rule: Rule)
  {
    exists i :: 0 <= i < |calls| && AdmittedAt(calls, i, key, rule) && calls[i].now == a
  }

  lemma AdmittedWhenOneMore(calls: seq<Call>, d: Call, key: string, a: int, rule: Rule)
    ensures AdmittedWhen(calls + [d], key, a, rule)
       <==> AdmittedWhen(calls, key, a, rule) || (d.key == key && d.now == a && rule(calls, d))
  {
    var all := calls + [d];
    assert all[..|calls|] == calls && all[|calls|] == d;
    assert AdmittedAt(all, |calls|, key, rule) <==> d.key == key && rule(calls, d);
    if AdmittedWhen(all, key, a, rule) {
      var i :| 0 <= i < |all| && AdmittedAt(all, i, key, rule) && all[i].now == a;
      if i < |calls| {
        AdmittedInLonger(calls, d, i, key, rule);
      }
    }
    if AdmittedWhen(calls, key, a, rule) {
      var i :| 0 <= i < |calls| && AdmittedAt(calls, i, key, rule) && calls[i].now == a;
      AdmittedInLonger(calls, d, i, key, rule);
    }
  }

  lemma {:induction false} StampIsOfCall(calls: seq<Call>, key: string, a: int, rule: Rule)
    ensures a in Admissions(Admitted(calls, rule), key) <==> AdmittedWhen(calls, key, a, rule)
  {
    if calls != [] {
      var init, c := calls[..|calls| - 1], calls[|calls| - 1];
      assert calls == init + [c];
      StampIsOfCall(init, key, a, rule);
      AdmissionsAppend(Admitted(init, rule), c, key);
      AdmittedWhenOneMore(init, c, key, a, rule);
      assert Admitted(init, rule) + [] == Admitted(init, rule);
    }
  }

  /** A call prunes an admission after the cutoff. */
  predicate PrunesOne(calls: seq<Call>, d: Call, key: string, cutoff: int, rule: Rule)
  {
    d.key == key && Between(Admissions(Admitted(calls, rule), key), cutoff, d.now - d.window)
  }

  lemma TooSoonStays(calls: seq<Call>, d: Call, key: string, cutoff: int, rule: Rule)
    requires PrunedTooSoon(calls, key, cutoff, rule) || PrunesOne(calls, d, key, cutoff, rule)
    ensures PrunedTooSoon(calls + [d], key, cutoff, rule)
  {
    if PrunedTooSoon(calls, key, cutoff, rule) {
      var i, j :| 0 <= i < j < |calls| && AdmittedAt(calls, i, key, rule) && calls[j].key == key
        && cutoff < calls[i].now <= calls[j].now - calls[j].window;
      AdmittedInLonger(calls, d, i, key, rule);
      assert (calls + [d])[j] == calls[j];
    } else {
      var a :| a in Admissions(Admitted(calls, rule), key) && cutoff < a <= d.now - d.window;
      StampIsOfCall(calls, key, a, rule);
      var i :| 0 <= i < |calls| && AdmittedAt(calls, i, key, rule) && calls[i].now == a;
      AdmittedInLonger(calls, d, i, key, rule);
      assert (calls + [d])[|calls|] == d;
    }
  }

  lemma PrunedTooSoonOneMore(calls: seq<Call>, d: Call, key: string, cutoff: int, rule: Rule)
    ensures PrunedTooSoon(calls + [d], key, cutoff, rule)
       <==> PrunedTooSoon(calls, key, cutoff, rule) || PrunesOne(calls, d, key, cutoff, rule)
  {
    var all := calls + [d];
    if PrunedTooSoon(all, key, cutoff, rule) {
      var i, j :| 0 <= i < j < |all| && AdmittedAt(all, i, key, rule) && all[j].key == key
        && cutoff < all[i].now <= all[j].now - all[j].window;
      AdmittedInLonger(calls, d, i, key, rule);
      if j == |calls| {
        StampIsOfCall(calls, key, all[i].now, rule);
      } else {
        assert calls[j] == all[j];
      }
    }
    if PrunedTooSoon(calls, key, cutoff, rule) || PrunesOne(calls, d, key, cutoff, rule) {
      TooSoonStays(calls, d, key, cutoff, rule);
    }
  }

  /** The stamps of a key that survive a run, when a rule decides what is let through. */
  function Surviving(calls: seq<Call>, key: string, rule: Rule): seq<int>
  {
    if calls == [] then []
    else
      var init, c := calls[..|calls| - 1], calls[|calls| - 1];
      if c.key != key then Surviving(init, key, rule)
      else Recent(Surviving(init, key, rule), c.now - c.window) + (if rule(init, c) then [c.now] else [])
  }

  lemma {:induction false} StampsSurvive(calls: seq<Call>, key: string)
    ensures StampsOf(RunHits(calls), key) == Surviving(calls, key, PRUNED)
  {
    if calls != [] {
      var init, c := calls[..|calls| - 1], calls[|calls| - 1];
      StampsSurvive(init, key);
      var kept := Recent(StampsOf(RunHits(init), key), c.now - c.window);
      assert kept + [] == kept;
    }
  }

  /** One more call, for the survivors and for the admissions of a key. */
  lemma SurvivorsOneMore(init: seq<Call>, d: Call, key: string, rule: Rule)
    ensures var added := if rule(init, d) then [d.now] else [];
      && Surviving(init + [d], key, rule)
         == (if d.key == key then Recent(Surviving(init, key, rule), d.now - d.window) + added
             else Surviving(init, key, rule))
      && Admissions(Admitted(init + [d], rule), key)
         == Admissions(Admitted(init, rule), key) + (if d.key == key then added else [])
  {
    assert (init + [d])[..|init|] == init;
    AdmissionsAppend(Admitted(init, rule), d, key);
    assert Admitted(init, rule) + [] == Admitted(init, rule);
  }

  /** Seen from the cutoff on, the surviving stamps are the admissions if and only if none was pruned too soon. */
  predicate ComparedIff(stamps: seq<int>, full: seq<int>, cutoff: int, tooSoon: bool)
  {
    SomeSurvive(stamps, full, cutoff) && (Recent(stamps, cutoff) == Recent(full, cutoff) <==> !tooSoon)
  }

  lemma OneCallCompares(stamps: seq<int>, full: seq<int>, stamps': seq<int>, full': seq<int>, d: Call, key: string,
                        cutoff: int, admitted: bool, tooSoon: bool)
    requires ComparedIff(stamps, full, cutoff, tooSoon)
    requires stamps' == if d.key != key then stamps
                        else Recent(stamps, d.now - d.window) + (if admitted then [d.now] else [])
    requires full' == full + (if d.key == key && admitted then [d.now] else [])
    ensures ComparedIff(stamps', full', cutoff,
                        tooSoon || (d.key == key && Between(full, cutoff, d.now - d.window)))
  {
    if d.key == key {
      OwnCallCompares(stamps, full, d, cutoff, admitted, if admitted then [d.now] else [], tooSoon);
    } else {
      assert full' == full;
    }
  }

  lemma OwnCallCompares(stamps: seq<int>, full: seq<int>, d: Call, cutoff: int, admitted: bool, added: seq<int>,
                        tooSoon: bool)
    requires ComparedIff(stamps, full, cutoff, tooSoon) && added == if admitted then [d.now] else []
    ensures ComparedIff(Recent(stamps, d.now - d.window) + added, full + added, cutoff,
                        tooSoon || Between(full, cutoff, d.now - d.window))
  {
    CallComparesIff(stamps, full, d.now, d.now - d.window, cutoff, admitted);
  }

  /** For every rule, run and clock: seen from the cutoff on, the surviving stamps are the admissions if and only if
      none of these was pruned too soon. */
  lemma {:induction false} SurvivorsIff(calls: seq<Call>, key: string, cutoff: int, rule: Rule)
    ensures ComparedIff(Surviving(calls, key, rule), Admissions(Admitted(calls, rule), key), cutoff,
                        PrunedTooSoon(calls, key, cutoff, rule))
  {
    if calls != [] {
      var init, d := calls[..|calls| - 1], calls[|calls| - 1];
      assert calls == init + [d];
      SurvivorsIff(init, key, cutoff, rule);
      PrunedTooSoonOneMore(init, d, key, cutoff, rule);
      SurvivorsOneMore(init, d, key, rule);
      OneCallCompares(Surviving(init, key, rule), Admissions(Admitted(init, rule), key),
                      Surviving(calls, key, rule), Admissions(Admitted(calls, rule), key),
                      d, key, cutoff, rule(init, d), PrunedTooSoon(init, key, cutoff, rule));
    }
  }

  // ----- when the two limiters agree

  lemma {:induction false} SameLogs(calls: seq<Call>)
    requires Agreed(calls)
    ensures PrunedLog(calls) == RunLog(calls)
  {
    if calls != [] {
      var init, c := calls[..|calls| - 1], calls[|calls| - 1];
      SameLogs(init);
      assert Agrees(init, c);
      assert PrunedLog(init) + [] == PrunedLog(init);
    }
  }

  /** No admission in the window of the call was pruned too soon, or the survivors fill the limit anyway. */
  predicate Harmless(calls: seq<Call>, c: Call, rule: Rule)
  {
    || !PrunedTooSoon(calls, c.key, c.now - c.window, rule)
    || |Recent(Surviving(calls, c.key, rule), c.now - c.window)| >= c.limit
  }

  /** The answers from the surviving stamps and from all admissions. */
  predicate SameAnswers(calls: seq<Call>, c: Call, rule: Rule)
  {
    Answer(|Recent(Surviving(calls, c.key, rule), c.now - c.window)|, c)
    == Answer(|Recent(Admissions(Admitted(calls, rule), c.key), c.now - c.window)|, c)
  }

  lemma SameAnswersIff(calls: seq<Call>, c: Call, rule: Rule)
    ensures SameAnswers(calls, c, rule) <==> Harmless(calls, c, rule)
  {
    SurvivorsIff(calls, c.key, c.now - c.window, rule);
    SameAnswerIff(|Recent(Surviving(calls, c.key, rule), c.now - c.window)|,
                  |Recent(Admissions(Admitted(calls, rule), c.key), c.now - c.window)|, c);
  }

  lemma AgreeingIsSameAnswers(calls: seq<Call>, c: Call)
    requires Agreed(calls)
    ensures Agrees(calls, c) <==> SameAnswers(calls, c, PRUNED)
  {
    SameLogs(calls);
    StampsSurvive(calls, c.key);
  }

  /** After a run on which the two limiters agreed, they agree on the next call if and only if pruning was harmless. */
  lemma NextAgreesIff(calls: seq<Call>, c: Call)
    requires Agreed(calls)
    ensures Agrees(calls, c) <==> Harmless(calls, c, PRUNED)
  {
    AgreeingIsSameAnswers(calls, c);
    SameAnswersIff(calls, c, PRUNED);
  }

  lemma SameAnswerIff(few: nat, many: nat, c: Call)
    requires few <= many
    ensures Answer(few, c) == Answer(many, c) <==> few == many || few >= c.limit
  {
  }

  predicate HarmlessRun(calls: seq<Call>)
  {
    calls == [] ||
    (HarmlessRun(calls[..|calls| - 1]) && Harmless(calls[..|calls| - 1], calls[|calls| - 1], PRUNED))
  }

  /** For every run and clock, and limits and windows that may change from call to call: the pruned limiter answers
      every call as the one that counts over all admissions if and only if pruning was harmless for every call. */
  lemma {:induction false} AgreedIff(calls: seq<Call>)
    ensures Agreed(calls) <==> HarmlessRun(calls)
  {
    if calls != [] {
      var init, c := calls[..|calls| - 1], calls[|calls| - 1];
      AgreedIff(init);
      if Agreed(init) {
        NextAgreesIff(init, c);
      }
    }
  }

  /** The windows do not reach back further, as when times do not go back and all windows are equal. */
  predicate CutoffsRise(calls: seq<Call>)
  {
    forall i, j :: 0 <= i < j < |calls| ==> calls[i].now - calls[i].window <= calls[j].now - calls[j].window
  }

  /** For rising cutoffs, the pruned limiter answers every call as the one that counts over the full history of
      admissions. */
  lemma {:induction false} PrunedDecidesLikeFull(calls: seq<Call>)
    requires CutoffsRise(calls)
    ensures Agreed(calls)
  {
    if calls != [] {
      var init, c := calls[..|calls| - 1], calls[|calls| - 1];
      assert forall j :: 0 <= j < |init| ==> init[j].now - init[j].window <= c.now - c.window;
      PrunedDecidesLikeFull(init);
      assert !PrunedTooSoon(init, c.key, c.now - c.window, PRUNED);
      NextAgreesIff(init, c);
    }
  }

  /** With a clock that goes back the two may differ: the stamp at 0 is pruned at 61, but lies in the window of a call
      at 10. */
  lemma ClockGoingBackDiffers(key: string)
    ensures var calls, c := [Call(key, 0, 2, 60), Call(key, 61, 2, 60)], Call(key, 10, 2, 60);
      PrunedResponse(RunHits(calls), c).allowed && !FullResponse(RunLog(calls), c).allowed
  {
    TwoCallsApart(key);
    TwoAdmissions(key);
    OneStampSeen();
  }

  lemma OneStampSeen()
    ensures |Recent([61], -50)| == 1
  {
    RecentAppend([], 61, -50);
    assert [] + [61] == [61];
  }

  lemma TwoAdmissions(key: string)
    ensures var log := [Call(key, 0, 2, 60), Call(key, 61, 2, 60)];
      |Recent(Admissions(log, key), -50)| == 2
  {
    var c0, c1 := Call(key, 0, 2, 60), Call(key, 61, 2, 60);
    AdmissionsAppend([], c0, key);
    AdmissionsAppend([c0], c1, key);
    assert [] + [c0] == [c0] && [c0] + [c1] == [c0, c1];
    RecentAppend([], 0, -50);
    RecentAppend([0], 61, -50);
    assert [] + [0] == [0] && [0] + [61] == [0, 61];
  }

  lemma TwoCallsApart(key: string)
    ensures var calls := [Call(key, 0, 2, 60), Call(key, 61, 2, 60)];
      RunLog(calls) == calls && StampsOf(RunHits(calls), key) == [61]
  {
    var first, second := [Call(key, 0, 2, 60)], [Call(key, 0, 2, 60), Call(key, 61, 2, 60)];
    assert second[..1] == first && first[..0] == [];
    assert RunHits(first)[key] == [0] && RunLog(first) == first;
    assert Recent([0], 1) == [] && Admissions(first, key) == [0];
  }

  // ----- the bound

  /** How many stamps lie in `[a, b)`. */
  function CountIn(stamps: seq<int>, a: int, b: int): nat
  {
    if stamps == [] then 0
    else CountIn(stamps[..|stamps| - 1], a, b) + (if a <= stamps[|stamps| - 1] < b then 1 else 0)
  }

  lemma {:induction false} CountAtMostRecent(stamps: seq<int>, a: int, b: int, cutoff: int)
    requires cutoff < a
    ensures CountIn(stamps, a, b) <= |Recent(stamps, cutoff)|
  {
    if stamps != [] {
      CountAtMostRecent(stamps[..|stamps| - 1], a, b, cutoff);
    }
  }

  predicate Uniform(calls: seq<Call>, limit: int, window: int)
  {
    forall c :: c in calls ==> c.limit == limit && c.window == window
  }

  lemma {:induction false} FullLogIsBounded(calls: seq<Call>, limit: int, window: int, key: string, a: int)
    requires Uniform(calls, limit, window)
    ensures CountIn(Admissions(RunLog(calls), key), a, a + window) <= Max(0, limit)
  {
    if calls != [] {
      var init, c := calls[..|calls| - 1], calls[|calls| - 1];
      assert c in calls && forall d :: d in init ==> d in calls;
      FullLogIsBounded(init, limit, window, key, a);
      CallKeepsTheBound(RunLog(init), c, key, a);
    }
  }

  lemma FullLogAdmissions(log: seq<Call>, c: Call, key: string)
    ensures Admissions(FullLog(log, c), key)
         == if c.key == key && FullResponse(log, c).allowed then Admissions(log, key) + [c.now]
            else Admissions(log, key)
  {
    AdmissionsAppend(log, c, key);
    assert Admissions(log, key) + [] == Admissions(log, key);
  }

  lemma CallKeepsTheBound(log: seq<Call>, c: Call, key: string, a: int)
    requires CountIn(Admissions(log, key), a, a + c.window) <= Max(0, c.limit)
    ensures CountIn(Admissions(FullLog(log, c), key), a, a + c.window) <= Max(0, c.limit)
  {
    FullLogAdmissions(log, c, key);
    if c.key == key && FullResponse(log, c).allowed {
      AdmittingKeepsTheBound(Admissions(log, key), c.now, c.limit, c.window, a);
    }
  }

  lemma AdmittingKeepsTheBound(stamps: seq<int>, now: int, limit: int, window: int, a: int)
    requires CountIn(stamps, a, a + window) <= Max(0, limit) && |Recent(stamps, now - window)| < limit
    ensures CountIn(stamps + [now], a, a + window) <= Max(0, limit)
  {
    CountAppend(stamps, now, a, a + window);
    if a <= now < a + window {
      CountAtMostRecent(stamps, a, a + window, now - window);
    }
  }

  lemma CountAppend(stamps: seq<int>, x: int, a: int, b: int)
    ensures CountIn(stamps + [x], a, b) == CountIn(stamps, a, b) + (if a <= x < b then 1 else 0)
  {
    assert (stamps + [x])[..|stamps|] == stamps;
  }

  /** On every run on which the limiter agrees with the full history, as for non-decreasing times, and with one limit
      and one window: in every half-open interval of the window's length it admits at most `limit` calls per key. */
  lemma AtMostLimitPerWindow(calls: seq<Call>, limit: int, window: int, key: string, a: int)
    requires Agreed(calls) && Uniform(calls, limit, window)
    ensures CountIn(Admissions(PrunedLog(calls), key), a, a + window) <= Max(0, limit)
  {
    SameLogs(calls);
    FullLogIsBounded(calls, limit, window, key, a);
  }
}
