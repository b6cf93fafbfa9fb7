/** The event pipeline as its callers see it: an inbox, a watermark and an emitted stream. Partitions appear
    only by name, because they are empty between operations. */
module PipelineSpec {
  import opened Common

  /** Instants are counted from `Instant.MIN`. */
  type Instant = nat

  datatype Signal = Signal(id: nat, topic: string, key: string, fields: map<string, string>, timestamp: Instant)

  datatype Envelope = Envelope(signal: Signal, partition: string, receivedAt: Instant)

  /** A signal handed on, and whether a subscriber took it. */
  datatype Emission = Emission(signal: Signal, observed: bool)

  datatype Rejection = TopicTooLong | BlankKey | TooManyFields | BadFieldName | IndexOutOfBounds

  datatype State = State(
    names: seq<string>,          // partitions in registration order
    subscribers: set<string>,
    inbox: seq<Envelope>,
    watermark: Instant,
    accepted: nat,
    rejected: nat,
    emitted: nat,
    // what has happened so far
    arrivals: seq<Signal>,
    late: seq<Signal>,
    filtered: seq<Signal>,
    out: seq<Emission>)

  // ----- intake

  /** `Character.isWhitespace` on single characters. */
  predicate IsWhitespace(c: char)
  {
    || '\t' <= c <= '\r' || '\U{1C}' <= c <= ' ' || c == '\U{1680}'
    || ('\U{2000}' <= c <= '\U{200A}' && c != '\U{2007}')
    || c == '\U{2028}' || c == '\U{2029}' || c == '\U{205F}' || c == '\U{3000}'
  }

  predicate IsBlank(s: string) { forall c :: c in s ==> IsWhitespace(c) }

  /** `[a-z0-9_.-]+` over the whole name. */
  predicate CanonicalName(s: string)
  {
    s != "" && forall c :: c in s ==> 'a' <= c <= 'z' || '0' <= c <= '9' || c in "_.-"
  }

  function Validate(s: Signal): Option<Rejection>
  {
    if |s.topic| > 64 then Some(TopicTooLong)
    else if IsBlank(s.key) then Some(BlankKey)
    else if |s.fields| > 24 then Some(TooManyFields)
    else if !(forall k :: k in s.fields ==> CanonicalName(k)) then Some(BadFieldName)
    else None
  }

  const TWO31: int := 0x8000_0000
  const TWO32: int := 0x1_0000_0000

  /** The 32-bit two's complement value of `x`. */
  function ToInt32(x: int): (r: int)
    ensures -TWO31 <= r < TWO31 && (x - r) % TWO32 == 0
  {
    var m := x % TWO32;
    if m < TWO31 then m else m - TWO32
  }

  /** `String.hashCode`. */
  function HashCode(s: string): (h: int)
    ensures -TWO31 <= h < TWO31
  {
    if s == "" then 0 else ToInt32(31 * HashCode(s[..|s| - 1]) + s[|s| - 1] as int)
  }

  /** `Math.abs` on 32 bits, which leaves the least value negative. */
  function Abs32(h: int): int { if h == -TWO31 then h else if h < 0 then -h else h }

  /** Java's remainder, which has the sign of the dividend. */
  function Remainder(a: int, n: int): int
    requires n > 0
  {
    if a >= 0 then a % n else -((-a) % n)
  }

  /** The partition of a key; none when the index is negative and the list access throws. */
  function RouteOf(names: seq<string>, key: string): (r: Option<string>)
    requires names != []
    ensures r.Some? ==> r.value in names
  {
    var i := Remainder(Abs32(HashCode(key)), |names|);
    if i < 0 then None else Some(names[i])
  }

  lemma RouteFailsIff(names: seq<string>, key: string)
    requires names != []
    ensures RouteOf(names, key) == None <==> HashCode(key) == -TWO31 && TWO31 % |names| != 0
  {
  }

  /** There is such a key: with the three initial partitions, routing it raises. */
  lemma LeastHashRaises()
    ensures HashCode("I<F;H@") == -TWO31 && !IsBlank("I<F;H@")
    ensures RouteOf(INITIAL.names, "I<F;H@") == None
  {
    assert "I<" == "" + ['I', '<'] && "I<F;" == "I<" + ['F', ';'] && "I<F;H@" == "I<F;" + ['H', '@'];
    HashTwoMore("", 'I', '<', 0, 73, 2_323);
    HashTwoMore("I<", 'F', ';', 2_323, 72_083, 2_234_632);
    HashTwoMore("I<F;", 'H', '@', 2_234_632, 69_273_664, -TWO31);
    NotBlank("I<F;H@", 'I');
    RouteFailsIff(INITIAL.names, "I<F;H@");
  }

  lemma NotBlank(s: string, c: char)
    requires s != "" && s[0] == c && !IsWhitespace(c)
    ensures !IsBlank(s)
  {
    assert s[0] in s;
  }

  lemma HashTwoMore(s: string, c: char, d: char, h: int, h1: int, h2: int)
    requires HashCode(s) == h && ToInt32(31 * h + c as int) == h1 && ToInt32(31 * h1 + d as int) == h2
    ensures HashCode(s + [c, d]) == h2
  {
    assert s + [c, d] == s + [c] + [d];
    HashOneMore(s, c, h, h1);
    HashOneMore(s + [c], d, h1, h2);
  }

  lemma HashOneMore(s: string, c: char, h: int, h': int)
    requires HashCode(s) == h && ToInt32(31 * h + c as int) == h'
    ensures HashCode(s + [c]) == h'
  {
    assert (s + [c])[..|s|] == s;
  }

  /** What happens to a signal offered to `accept`. */
  function Verdict(s: State, signal: Signal): Result<string, Rejection>
    requires s.names != []
  {
    match Validate(signal)
    case Some(reason) => Failure(reason)
    case None =>
      match RouteOf(s.names, signal.key)
      case None => Failure(IndexOutOfBounds)
      case Some(partition) => Success(partition)
  }

  function DoAccept(s: State, signal: Signal, receivedAt: Instant): State
    requires s.names != []
  {
    match Verdict(s, signal)
    case Success(partition) =>
      s.(inbox := s.inbox + [Envelope(signal, partition, receivedAt)], accepted := s.accepted + 1,
         arrivals := s.arrivals + [signal])
    case Failure(IndexOutOfBounds) => s
    case Failure(_) => s.(rejected := s.rejected + 1)
  }

  /** The checks of an offer in their order, and then the partition with the index of the hash. */
  lemma VerdictSays(s: State, x: Signal)
    requires s.names != []
    ensures var h := HashCode(x.key);
      Verdict(s, x) ==
        if |x.topic| > 64 then Failure(TopicTooLong)
        else if forall k :: 0 <= k < |x.key| ==> IsWhitespace(x.key[k]) then Failure(BlankKey)
        else if |x.fields| > 24 then Failure(TooManyFields)
        else if exists f :: f in x.fields && !GoodFieldName(f) then Failure(BadFieldName)
        else if h == -0x8000_0000 && 0x8000_0000 % |s.names| != 0 then Failure(IndexOutOfBounds)
        else Success(s.names[(if h < 0 then -h else h) % |s.names|])
  {
    assert forall k :: 0 <= k < |x.key| ==> x.key[k] in x.key;
    forall f | f in x.fields ensures CanonicalName(f) <==> GoodFieldName(f) {
      assert forall k :: 0 <= k < |f| ==> f[k] in f;
    }
  }

  /** Lower-case letters, numerals, underscores, dots and hyphens, at least one. */
  predicate GoodFieldName(f: string)
  {
    |f| >= 1 && forall k :: 0 <= k < |f| ==>
      'a' <= f[k] <= 'z' || '0' <= f[k] <= '9' || f[k] == '_' || f[k] == '.' || f[k] == '-'
  }

  /** Spaces, tabs and line ends are white, letters, numerals and the no-break space are not. */
  lemma WhiteAndBlack(c: char)
    ensures c == ' ' || c == '\t' || c == '\n' || c == '\r' || c == '\U{3000}' ==> IsWhitespace(c)
    ensures 'a' <= c <= 'z' || 'A' <= c <= 'Z' || '0' <= c <= '9' || c == '\U{00A0}' ==> !IsWhitespace(c)
  {
  }

  /** An accepted signal goes to the back of the inbox as it is, for its partition; a rejected one is counted, and one
      that cannot be routed leaves no trace. */
  lemma AcceptSays(s: State, x: Signal, receivedAt: Instant)
    requires s.names != []
    ensures var s' := Step(s, Accept(x, receivedAt));
      match Verdict(s, x)
      case Success(name) =>
        && s'.inbox == s.inbox + [Envelope(x, name, receivedAt)] && s'.accepted == s.accepted + 1
        && s'.rejected == s.rejected && s'.emitted == s.emitted && s'.names == s.names && s'.watermark == s.watermark
      case Failure(e) => s' == if e == IndexOutOfBounds then s else s.(rejected := s.rejected + 1)
  {
  }

  /** A new partition with a name and a lane comes last; a topic with a name gains its subscriber. */
  lemma RegisterAndSubscribeSay(s: State, name: string, lanes: int)
    requires s.names != []
    ensures var blank := forall k :: 0 <= k < |name| ==> IsWhitespace(name[k]);
      && Step(s, Register(name, lanes)) == (if blank || lanes <= 0 || name in s.names then s
                                            else s.(names := s.names + [name]))
      && Step(s, Subscribe(name)) == (if blank then s else s.(subscribers := s.subscribers + {name}))
  {
    assert forall c :: c in name ==> exists k :: 0 <= k < |name| && name[k] == c;
  }

  // ----- draining

  predicate Discarded(s: Signal) { "discard" in s.fields && s.fields["discard"] == "true" }

  /** The emitted form of a signal, leaving aside the field that holds its age. */
  function Normalized(s: Signal): Signal
  {
    var fields := if "phase" in s.fields then s.fields else s.fields["phase" := "observed"];
    s.(fields := fields - {"stream_age_ms"})
  }

  function DrainOne(s: State): State
  {
    if s.inbox == [] then s
    else
      var signal := s.inbox[0].signal;
      var s1 := s.(inbox := s.inbox[1..]);
      if signal.timestamp < s.watermark then s1.(late := s.late + [signal])
      else
        var s2 := s1.(watermark := signal.timestamp);
        if Discarded(signal) then s2.(filtered := s.filtered + [signal])
        else s2.(emitted := s.emitted + 1, out := s.out + [Emission(Normalized(signal), signal.topic in s.subscribers)])
  }

  /** What the fields of a signal become: those it has, a phase, and the age, which is left aside. */
  ghost predicate Completed(before: map<string, string>, after: map<string, string>)
  {
    forall f :: f != "stream_age_ms" ==>
      && (f in after <==> f in before || f == "phase")
      && (f in after ==> after[f] == if f in before then before[f] else "observed")
  }

  /** The head of the inbox is late when its time is before the watermark; otherwise the watermark moves to its time,
      and it is filtered when it is marked to be discarded, and emitted with completed fields when not. */
  lemma DrainOneSays(s: State)
    requires s.inbox != []
    ensures var x, s' := s.inbox[0].signal, DrainOne(s);
      var marked := "discard" in x.fields && x.fields["discard"] == "true";
      && s'.inbox == s.inbox[1..] && s'.accepted == s.accepted && s'.names == s.names
      && (x.timestamp < s.watermark ==>
            && s'.late == s.late + [x] && s'.filtered == s.filtered && s'.out == s.out
            && s'.emitted == s.emitted && s'.watermark == s.watermark)
      && (x.timestamp >= s.watermark ==> s'.late == s.late && s'.watermark == x.timestamp)
      && (x.timestamp >= s.watermark && marked ==>
            s'.filtered == s.filtered + [x] && s'.out == s.out && s'.emitted == s.emitted)
      && (x.timestamp >= s.watermark && !marked ==>
            && s'.filtered == s.filtered && s'.emitted == s.emitted + 1
            && |s'.out| == |s.out| + 1 && s'.out[..|s.out|] == s.out
            && var e := s'.out[|s.out|];
               && e.signal.id == x.id && e.signal.topic == x.topic && e.signal.key == x.key
               && e.signal.timestamp == x.timestamp && Completed(x.fields, e.signal.fields)
               && (e.observed <==> x.topic in s.subscribers))
  {
  }

  function DrainMany(s: State, n: nat): State
  {
    if n == 0 then s else DrainOne(DrainMany(s, n - 1))
  }

  function DoDrain(s: State, budget: int): State { if budget < 1 then s else DrainMany(s, budget) }

  // ----- runs

  datatype Op =
    | Register(name: string, lanes: int)
    | Subscribe(topic: string)
    | Accept(signal: Signal, receivedAt: Instant)
    | Drain(budget: int)

  function DoRegister(s: State, name: string, lanes: int): State
  {
    if IsBlank(name) || lanes < 1 || name in s.names then s else s.(names := s.names + [name])
  }

  function Step(s: State, op: Op): (s': State)
    requires s.names != []
    ensures s'.names != []
  {
    match op
    case Register(name, lanes) => DoRegister(s, name, lanes)
    case Subscribe(topic) => if IsBlank(topic) then s else s.(subscribers := s.subscribers + {topic})
    case Accept(signal, receivedAt) => DoAccept(s, signal, receivedAt)
    case Drain(budget) => DrainKeepsNames(s, budget); DoDrain(s, budget)
  }

  const INITIAL := State(["north", "south", "quiet"], {}, [], 0, 0, 0, 0, [], [], [], [])

  function Run(ops: seq<Op>): (s: State)
    ensures s.names != []
  {
    if ops == [] then INITIAL else Step(Run(ops[..|ops| - 1]), ops[|ops| - 1])
  }

  lemma {:induction false} DrainManyKeeps(s: State, n: nat)
    ensures var d := DrainMany(s, n);
      d.names == s.names && d.subscribers == s.subscribers && d.arrivals == s.arrivals && d.accepted == s.accepted
      && s.watermark <= d.watermark
  {
    if n > 0 {
      DrainManyKeeps(s, n - 1);
    }
  }

  lemma DrainKeepsNames(s: State, budget: int)
    ensures DoDrain(s, budget).names == s.names
  {
    if budget >= 1 {
      DrainManyKeeps(s, budget);
    }
  }

  // ----- conservation and order

  function Signals(inbox: seq<Envelope>): seq<Signal> { seq(|inbox|, i requires 0 <= i < |inbox| => inbox[i].signal) }

  /** The accepted signals taken out of the inbox so far. */
  function Drained(s: State): seq<Signal>
  {
    if |s.inbox| <= |s.arrivals| then s.arrivals[..|s.arrivals| - |s.inbox|] else []
  }

  predicate Balanced(s: State)
  {
    && s.accepted == |s.arrivals| == |s.inbox| + |s.late| + |s.filtered| + |s.out|
    && s.emitted == |s.out|
    && s.arrivals == Drained(s) + Signals(s.inbox)
  }

  lemma DrainedGrows(s: State)
    requires Balanced(s) && s.inbox != []
    ensures Drained(DrainOne(s)) == Drained(s) + [s.inbox[0].signal]
    ensures DrainOne(s).arrivals == s.arrivals && DrainOne(s).inbox == s.inbox[1..]
  {
    var n := |s.arrivals| - |s.inbox|;
    assert s.arrivals[n] == Signals(s.inbox)[0] == s.inbox[0].signal;
    assert s.arrivals[..n + 1] == s.arrivals[..n] + [s.arrivals[n]];
  }

  lemma DrainOneBalances(s: State)
    requires Balanced(s)
    ensures Balanced(DrainOne(s))
    ensures s.inbox != [] ==> Drained(DrainOne(s)) == Drained(s) + [s.inbox[0].signal]
  {
    if s.inbox != [] {
      DrainedGrows(s);
      assert Signals(s.inbox) == [s.inbox[0].signal] + Signals(s.inbox[1..]);
    }
  }

  lemma {:induction false} DrainManyBalances(s: State, n: nat)
    requires Balanced(s)
    ensures Balanced(DrainMany(s, n))
  {
    if n > 0 {
      DrainManyBalances(s, n - 1);
      DrainOneBalances(DrainMany(s, n - 1));
    }
  }

  lemma StepBalances(s: State, op: Op)
    requires s.names != [] && Balanced(s)
    ensures Balanced(Step(s, op))
  {
    match op
    case Accept(signal, receivedAt) => AcceptBalances(s, signal, receivedAt);
    case Drain(budget) =>
      if budget >= 1 {
        DrainManyBalances(s, budget);
      }
    case _ =>
  }

  lemma AcceptBalances(s: State, signal: Signal, receivedAt: Instant)
    requires s.names != [] && Balanced(s)
    ensures Balanced(DoAccept(s, signal, receivedAt)) && Drained(DoAccept(s, signal, receivedAt)) == Drained(s)
  {
    if Verdict(s, signal).Success? {
      var e := Envelope(signal, Verdict(s, signal).value, receivedAt);
      assert Signals(s.inbox + [e]) == Signals(s.inbox) + [signal];
      assert (s.arrivals + [signal])[..|s.arrivals| - |s.inbox|] == Drained(s);
    }
  }

  lemma {:induction false} RunBalances(ops: seq<Op>)
    ensures Balanced(Run(ops))
  {
    if ops != [] {
      RunBalances(ops[..|ops| - 1]);
      StepBalances(Run(ops[..|ops| - 1]), ops[|ops| - 1]);
    }
  }

  /** For every run: accepted signals are queued, late, filtered or emitted, and the watermark never decreases. */
  lemma AcceptedIsAccountedFor(ops: seq<Op>, op: Op)
    ensures var s := Run(ops);
      && s.accepted == |s.inbox| + |s.late| + |s.filtered| + |s.out| && s.emitted == |s.out|
      && s.watermark <= Run(ops + [op]).watermark
  {
    RunBalances(ops);
    assert (ops + [op])[..|ops|] == ops;
    if op.Drain? && op.budget >= 1 {
      DrainManyKeeps(Run(ops), op.budget);
    }
  }

  // ----- which signals are late

  /** A signal that is drained after one with a later time. */
  predicate Overtaken(x: Signal, before: seq<Signal>) { exists y :: y in before && x.timestamp < y.timestamp }

  function Late(signals: seq<Signal>): seq<Signal>
  {
    if signals == [] then []
    else
      var init, x := signals[..|signals| - 1], signals[|signals| - 1];
      Late(init) + (if Overtaken(x, init) then [x] else [])
  }

  function OnTime(signals: seq<Signal>): seq<Signal>
  {
    if signals == [] then []
    else
      var init, x := signals[..|signals| - 1], signals[|signals| - 1];
      OnTime(init) + (if Overtaken(x, init) then [] else [x])
  }

  /** The emitted forms of the signals that are not discarded, in order. */
  function Kept(signals: seq<Signal>): seq<Signal>
  {
    if signals == [] then []
    else
      var init, x := signals[..|signals| - 1], signals[|signals| - 1];
      var marked := "discard" in x.fields && x.fields["discard"] == "true";
      Kept(init) + (if marked then [] else [Normalized(x)])
  }

  function Outputs(out: seq<Emission>): seq<Signal> { seq(|out|, i requires 0 <= i < |out| => out[i].signal) }

  /** The signals that are marked to be discarded, in order. */
  function Marked(signals: seq<Signal>): seq<Signal>
  {
    if signals == [] then []
    else
      var init, x := signals[..|signals| - 1], signals[|signals| - 1];
      Marked(init) + (if "discard" in x.fields && x.fields["discard"] == "true" then [x] else [])
  }

  lemma OneMore(signals: seq<Signal>, x: Signal)
    ensures Marked(signals + [x]) == Marked(signals) + (if Discarded(x) then [x] else [])
    ensures Late(signals + [x]) == Late(signals) + (if Overtaken(x, signals) then [x] else [])
    ensures OnTime(signals + [x]) == OnTime(signals) + (if Overtaken(x, signals) then [] else [x])
    ensures Kept(signals + [x]) == Kept(signals) + (if Discarded(x) then [] else [Normalized(x)])
  {
    assert (signals + [x])[..|signals|] == signals;
  }

  lemma OutputsAppend(out: seq<Emission>, e: Emission)
    ensures Outputs(out + [e]) == Outputs(out) + [e.signal]
  {
  }

  /** The watermark is the latest time among the drained signals. */
  ghost predicate AtLatest(watermark: Instant, drained: seq<Signal>)
  {
    && (forall y :: y in drained ==> y.timestamp <= watermark)
    && (watermark == 0 || exists y :: y in drained && y.timestamp == watermark)
  }

  ghost predicate Tracked(s: State)
  {
    && Balanced(s)
    && AtLatest(s.watermark, Drained(s))
    && s.late == Late(Drained(s))
    && Outputs(s.out) == Kept(OnTime(Drained(s)))
    && s.filtered == Marked(OnTime(Drained(s)))
  }

  lemma WatermarkTells(watermark: Instant, drained: seq<Signal>, x: Signal)
    requires AtLatest(watermark, drained)
    ensures x.timestamp < watermark <==> Overtaken(x, drained)
    ensures x.timestamp >= watermark ==> AtLatest(x.timestamp, drained + [x])
    ensures x.timestamp < watermark ==> AtLatest(watermark, drained + [x])
  {
    if x.timestamp < watermark {
      var y :| y in drained && y.timestamp == watermark;
      assert y in drained + [x];
    } else {
      assert x in drained + [x];
    }
  }

  lemma DrainOneTracks(s: State)
    requires Tracked(s)
    ensures Tracked(DrainOne(s))
  {
    if s.inbox != [] {
      var x, s', drained := s.inbox[0].signal, DrainOne(s), Drained(s);
      DrainOneBalances(s);
      WatermarkTells(s.watermark, drained, x);
      OneMore(drained, x);
      OneMore(OnTime(drained), x);
      if x.timestamp < s.watermark {
        assert s'.watermark == s.watermark && s'.out == s.out && s'.filtered == s.filtered;
        assert OnTime(drained) + [] == OnTime(drained);
      } else {
        assert s'.watermark == x.timestamp && s'.late == s.late + [];
        assert s'.filtered == s.filtered + (if Discarded(x) then [x] else []);
        EmitOneMore(s, x);
      }
    }
  }

  /** A signal on time adds its emitted form, unless it is discarded. */
  lemma EmitOneMore(s: State, x: Signal)
    requires s.inbox != [] && x == s.inbox[0].signal && x.timestamp >= s.watermark
    ensures Outputs(DrainOne(s).out) == Outputs(s.out) + (if Discarded(x) then [] else [Normalized(x)])
  {
    OutputsAppend(s.out, Emission(Normalized(x), x.topic in s.subscribers));
    assert Outputs(s.out) + [] == Outputs(s.out);
  }

  lemma {:induction false} DrainManyTracks(s: State, n: nat)
    requires Tracked(s)
    ensures Tracked(DrainMany(s, n))
  {
    if n > 0 {
      DrainManyTracks(s, n - 1);
      DrainOneTracks(DrainMany(s, n - 1));
    }
  }

  lemma AcceptTracks(s: State, signal: Signal, receivedAt: Instant)
    requires s.names != [] && Tracked(s)
    ensures Tracked(DoAccept(s, signal, receivedAt))
  {
    AcceptBalances(s, signal, receivedAt);
  }

  /** Names and subscribers do not matter. */
  lemma TrackedAnyhow(s: State, names: seq<string>, subscribers: set<string>)
    requires Tracked(s)
    ensures Tracked(s.(names := names, subscribers := subscribers))
  {
    assert Drained(s.(names := names, subscribers := subscribers)) == Drained(s);
  }

  lemma StepTracks(s: State, op: Op)
    requires s.names != [] && Tracked(s)
    ensures Tracked(Step(s, op))
  {
    match op
    case Accept(signal, receivedAt) => AcceptTracks(s, signal, receivedAt);
    case Drain(budget) =>
      if budget >= 1 {
        DrainManyTracks(s, budget);
      }
    case Register(name, lanes) => TrackedAnyhow(s, DoRegister(s, name, lanes).names, s.subscribers);
    case Subscribe(topic) => TrackedAnyhow(s, s.names, s.subscribers + {topic});
  }

  /** For every run and every clock: the late signals are exactly those drained after one with a later time, and the
      emitted stream is exactly the other drained signals that are not discarded, in acceptance order. */
  lemma {:induction false} LateAreTheOvertaken(ops: seq<Op>)
    ensures Tracked(Run(ops))
    ensures Run(ops).late == Late(Drained(Run(ops)))
    ensures Outputs(Run(ops).out) == Kept(OnTime(Drained(Run(ops))))
    ensures Run(ops).filtered == Marked(OnTime(Drained(Run(ops))))
    ensures Drained(Run(ops)) <= Run(ops).arrivals
  {
    if ops != [] {
      LateAreTheOvertaken(ops[..|ops| - 1]);
      StepTracks(Run(ops[..|ops| - 1]), ops[|ops| - 1]);
    }
  }

  predicate InOrder(signals: seq<Signal>)
  {
    forall i, j :: 0 <= i < j < |signals| ==> signals[i].timestamp <= signals[j].timestamp
  }

  lemma {:induction false} NoneOvertakenIff(signals: seq<Signal>)
    ensures Late(signals) == [] <==> InOrder(signals)
    ensures InOrder(signals) ==> OnTime(signals) == signals
  {
    if signals != [] {
      var init, x := signals[..|signals| - 1], signals[|signals| - 1];
      assert signals == init + [x];
      NoneOvertakenIff(init);
      LastInOrder(init, x);
      OneMore(init, x);
      assert Overtaken(x, init) ==> Late(signals)[|Late(init)|] == x;
    }
  }

  lemma LastInOrder(init: seq<Signal>, x: Signal)
    ensures InOrder(init + [x]) <==> InOrder(init) && !Overtaken(x, init)
  {
    var all := init + [x];
    if InOrder(all) {
      forall y | y in init ensures y.timestamp <= x.timestamp {
        var i :| 0 <= i < |init| && init[i] == y;
        assert all[i].timestamp <= all[|init|].timestamp;
      }
      forall i, j | 0 <= i < j < |init| ensures init[i].timestamp <= init[j].timestamp {
        assert all[i].timestamp <= all[j].timestamp;
      }
    }
    if InOrder(init) && !Overtaken(x, init) {
      forall i, j | 0 <= i < j < |all| ensures all[i].timestamp <= all[j].timestamp {
        assert init[i] in init;
      }
    }
  }

  /** Nothing has been late if and only if the signals were drained in the order of their times; then the emitted
      stream is the drained signals that are not discarded. */
  lemma NothingIsLateIff(ops: seq<Op>)
    ensures Run(ops).late == [] <==> InOrder(Drained(Run(ops)))
    ensures Run(ops).late == [] ==> Outputs(Run(ops).out) == Kept(Drained(Run(ops)))
  {
    LateAreTheOvertaken(ops);
    NoneOvertakenIff(Drained(Run(ops)));
  }

  /** The times at which signals are created never decrease. */
  predicate ClockNonDecreasing(ops: seq<Op>)
  {
    forall i, j :: 0 <= i < j < |ops| && ops[i].Accept? && ops[j].Accept? ==>
      ops[i].signal.timestamp <= ops[j].signal.timestamp
  }

  ghost predicate Offered(ops: seq<Op>, x: Signal)
  {
    exists i :: 0 <= i < |ops| && ops[i].Accept? && ops[i].signal == x
  }

  lemma {:induction false} ArrivalsInOrder(ops: seq<Op>)
    requires ClockNonDecreasing(ops)
    ensures InOrder(Run(ops).arrivals)
    ensures forall x :: x in Run(ops).arrivals ==> Offered(ops, x)
  {
    if ops != [] {
      var init, op := ops[..|ops| - 1], ops[|ops| - 1];
      ArrivalsInOrder(init);
      if op.Drain? && op.budget >= 1 {
        DrainManyKeeps(Run(init), op.budget);
      }
      var before := Run(init).arrivals;
      assert Run(ops).arrivals == before || (op.Accept? && Run(ops).arrivals == before + [op.signal]);
      forall x | x in before ensures Offered(ops, x) && (op.Accept? ==> x.timestamp <= op.signal.timestamp) {
        var i :| 0 <= i < |init| && init[i].Accept? && init[i].signal == x;
        assert ops[i] == init[i];
      }
      forall i | 0 <= i < |before| ensures before[i] in before {
      }
      if op.Accept? {
        assert ops[|ops| - 1].signal == op.signal;
      }
    }
  }

  /** With a clock that never goes back, nothing is ever late, and the emitted stream is exactly the drained
      signals that are not discarded, in acceptance order. */
  lemma NothingIsLate(ops: seq<Op>)
    requires ClockNonDecreasing(ops)
    ensures Run(ops).late == []
    ensures Outputs(Run(ops).out) == Kept(Drained(Run(ops)))
  {
    LateAreTheOvertaken(ops);
    ArrivalsInOrder(ops);
    NothingIsLateIff(ops);
  }

  /** Draining in two positive portions is draining once. */
  lemma {:induction false} DrainSplits(s: State, a: nat, b: nat)
    requires a >= 1 && b >= 1
    ensures DoDrain(DoDrain(s, a), b) == DoDrain(s, a + b)
  {
    if b > 1 {
      DrainSplits(s, a, b - 1);
    } else {
      assert DrainMany(DrainMany(s, a), 1) == DrainOne(DrainMany(DrainMany(s, a), 0));
    }
  }

  // ----- routing

  /** Unless a new partition name is registered in between, equal keys are routed to the same partition, whatever
      is accepted and drained in between. */
  lemma {:induction false} RoutingIsStable(ops: seq<Op>, more: seq<Op>, key: string)
    requires forall op :: op in more && op.Register? ==> op.name in Run(ops).names
    ensures Run(ops + more).names == Run(ops).names
    ensures RouteOf(Run(ops + more).names, key) == RouteOf(Run(ops).names, key)
  {
    if more == [] {
      assert ops + more == ops;
    } else {
      var init, last := more[..|more| - 1], more[|more| - 1];
      assert (ops + more)[..|ops + more| - 1] == ops + init;
      assert last in more && forall op :: op in init ==> op in more;
      RoutingIsStable(ops, init, key);
      if last.Drain? {
        DrainKeepsNames(Run(ops + init), last.budget);
      }
    }
  }
}
