/** Command dispatch as a state machine: every operation of the coordinator is one atomic step, except a
    dispatch, which is two steps with anything in between. */
module CoordinatorSpec {
  import opened Common
  import opened Sorting

  datatype Role = Observer | Relay | Archivist | Conductor

  datatype Status = Ready | Reserved | Unavailable

  /** A node object. Removing a node and adding one of the same name makes a new object. */
  datatype Node = Node(id: string, role: Role, capabilities: set<string>, status: Status, load: nat)

  datatype Lease = Lease(node: string, expiresAt: int)

  datatype Event = Event(sequence: nat, kind: string, subject: string)

  datatype Request = Request(
    command: string,
    actions: seq<string>,
    ttl: int,
    role: Option<Role>,
    capabilities: set<string>)

  /** A dispatch between its two steps: it holds on to the object of its node. */
  datatype Flight = Flight(command: string, actions: seq<string>, target: nat)

  datatype State = State(
    objs: seq<Node>,             // every node object made so far
    nodes: map<string, nat>,     // the registered ones, by name
    leases: map<string, Lease>,
    journal: seq<Event>,
    sequence: nat,
    flights: seq<Option<Flight>>)

  const JOURNAL_LIMIT: nat := 1024
  const INITIAL := State([], map[], map[], [], 0, [])

  // ----- names

  predicate IdChar(c: char)
  {
    'a' <= c <= 'z' || 'A' <= c <= 'Z' || '0' <= c <= '9' || c in "-_."
  }

  predicate ProtocolId(s: string) { 0 < |s| <= 80 && forall c :: c in s ==> IdChar(c) }

  const ACTIONS: set<string> := {"observe", "align", "announce", "summarize", "route", "calibrate"}

  predicate SafeActions(actions: seq<string>) { forall a :: a in actions ==> LowerCase(a) in ACTIONS }

  // ----- selection

  predicate Registered(s: State, n: string) { n in s.nodes && s.nodes[n] < |s.objs| }

  function NodeAt(s: State, n: string): Node
    requires Registered(s, n)
  {
    s.objs[s.nodes[n]]
  }

  predicate Eligible(s: State, r: Request, n: string)
  {
    && Registered(s, n)
    && NodeAt(s, n).status == Ready
    && (r.role.Some? ==> NodeAt(s, n).role == r.role.value)
    && r.capabilities <= NodeAt(s, n).capabilities
  }

  /** Less loaded first, then by name. */
  predicate Preferred(s: State, a: string, b: string)
  {
    && Registered(s, a) && Registered(s, b)
    && (NodeAt(s, a).load < NodeAt(s, b).load || (NodeAt(s, a).load == NodeAt(s, b).load && TextBefore(a, b)))
  }

  /** `n` heads the eligible nodes. */
  ghost predicate Best(s: State, r: Request, n: string)
  {
    Eligible(s, r, n) && forall m :: m in s.nodes && Eligible(s, r, m) && m != n ==> Preferred(s, n, m)
  }

  ghost function Select(s: State, r: Request): Option<string>
  {
    if exists n :: n in s.nodes && Best(s, r, n) then
      var n :| n in s.nodes && Best(s, r, n);
      Some(n)
    else None
  }

  lemma PreferenceIsTotal(s: State, n: string, m: string)
    requires Registered(s, n) && Registered(s, m) && n != m
    ensures Preferred(s, n, m) <==> !Preferred(s, m, n)
  {
    TextTrichotomy(n, m);
  }

  lemma PreferenceIsTransitive(s: State, a: string, b: string, c: string)
    requires Preferred(s, a, b) && Preferred(s, b, c)
    ensures Preferred(s, a, c)
  {
    if TextBefore(a, b) && TextBefore(b, c) {
      TextTransitive(a, b, c);
    }
  }

  lemma {:induction false} FirstPreferred(s: State, among: set<string>) returns (n: string)
    requires among != {} && forall m :: m in among ==> Registered(s, m)
    ensures n in among && forall m :: m in among && m != n ==> Preferred(s, n, m)
    decreases |among|
  {
    n :| n in among;
    var rest := among - {n};
    if rest != {} {
      var y := FirstPreferred(s, rest);
      PreferenceIsTotal(s, n, y);
      if Preferred(s, n, y) {
        forall m | m in among && m != n ensures Preferred(s, n, m) {
          if m != y {
            PreferenceIsTransitive(s, n, y, m);
          }
        }
      } else {
        assert forall m :: m in among && m != y ==> m == n || m in rest;
        n := y;
      }
    }
  }

  lemma BestExists(s: State, r: Request)
    requires exists n :: n in s.nodes && Eligible(s, r, n)
    ensures exists n :: n in s.nodes && Best(s, r, n)
  {
    var among := set n | n in s.nodes && Eligible(s, r, n);
    var some :| some in s.nodes && Eligible(s, r, some);
    assert some in among;
    var n := FirstPreferred(s, among);
    assert Best(s, r, n);
  }

  /** `best` heads the eligible nodes among `seen`. */
  ghost predicate BestAmong(s: State, r: Request, seen: set<string>, best: Option<string>)
  {
    match best
    case None => forall n :: n in seen ==> !Eligible(s, r, n)
    case Some(b) =>
      b in seen && Eligible(s, r, b) && forall n :: n in seen && Eligible(s, r, n) && n != b ==> Preferred(s, b, n)
  }

  /** The best after one more node was looked at. */
  function Better(s: State, r: Request, best: Option<string>, id: string): Option<string>
  {
    if !Eligible(s, r, id) then best
    else
      match best
      case None => Some(id)
      case Some(b) => if Preferred(s, id, b) then Some(id) else best
  }

  lemma BetterIsBest(s: State, r: Request, seen: set<string>, best: Option<string>, id: string)
    requires BestAmong(s, r, seen, best)
    ensures BestAmong(s, r, seen + {id}, Better(s, r, best, id))
  {
    if Eligible(s, r, id) && best.Some? {
      var b := best.value;
      TextTrichotomy(id, b);
      if Preferred(s, id, b) {
        forall n | n in seen && Eligible(s, r, n) && n != id ensures Preferred(s, id, n) {
          if n != b {
            PreferenceIsTransitive(s, id, b, n);
          }
        }
      }
    }
  }

  /** The best of the nodes in `order`, compared one after another. */
  function BestOf(s: State, r: Request, order: seq<string>): Option<string>
  {
    if order == [] then None else Better(s, r, BestOf(s, r, order[..|order| - 1]), order[|order| - 1])
  }

  lemma {:induction false} BestOfIsBest(s: State, r: Request, order: seq<string>)
    ensures BestAmong(s, r, (set n | n in order), BestOf(s, r, order))
  {
    if order != [] {
      var init, last := order[..|order| - 1], order[|order| - 1];
      BestOfIsBest(s, r, init);
      BetterIsBest(s, r, (set n | n in init), BestOf(s, r, init), last);
      assert order == init + [last];
      assert (set n | n in order) == (set n | n in init) + {last};
    }
  }

  /** What heads all the nodes is selected. */
  lemma BestOfAllIsSelected(s: State, r: Request, best: Option<string>)
    requires BestAmong(s, r, s.nodes.Keys, best)
    ensures Select(s, r) == best
  {
    match best
    case Some(b) => SelectIsBest(s, r, b);
    case None =>
      if Select(s, r).Some? {
        SelectIsBest(s, r, Select(s, r).value);
      }
  }

  /** Comparing the nodes one after another, in any order, finds the selected one. */
  lemma ComparingSelects(s: State, r: Request, order: seq<string>)
    requires forall n :: n in order <==> n in s.nodes
    ensures Select(s, r) == BestOf(s, r, order)
  {
    BestOfIsBest(s, r, order);
    assert (set n | n in order) == s.nodes.Keys;
    BestOfAllIsSelected(s, r, BestOf(s, r, order));
  }

  /** Some eligible node is selected unless there is none, and it is the least loaded, ties going to the name. */
  lemma SelectIsBest(s: State, r: Request, n: string)
    ensures Select(s, r) == Some(n) <==> Best(s, r, n)
    ensures Select(s, r) == None ==> !Eligible(s, r, n)
  {
    if Eligible(s, r, n) {
      assert n in s.nodes;
      BestExists(s, r);
      if Best(s, r, n) && Select(s, r) != Some(n) {
        PreferenceIsTotal(s, n, Select(s, r).value);
      }
    }
  }

  /** The node is registered and ready, has the role asked for, if any, and every capability asked for. */
  predicate CanServe(s: State, r: Request, n: string)
  {
    && n in s.nodes && s.nodes[n] < |s.objs|
    && var node := s.objs[s.nodes[n]];
    && node.status == Ready && (r.role == None || r.role == Some(node.role))
    && forall c :: c in r.capabilities ==> c in node.capabilities
  }

  /** The selected node can serve the request and has the least load of those that can, ties going to the first name;
      none is selected only when none can. */
  lemma SelectedIsLeastLoaded(s: State, r: Request, m: string)
    ensures match Select(s, r)
            case None => !CanServe(s, r, m)
            case Some(n) =>
              && CanServe(s, r, n)
              && (CanServe(s, r, m) && m != n ==>
                    || s.objs[s.nodes[n]].load < s.objs[s.nodes[m]].load
                    || (s.objs[s.nodes[n]].load == s.objs[s.nodes[m]].load && TextBefore(n, m)))
  {
    assert Eligible(s, r, m) <==> CanServe(s, r, m);
    SelectIsBest(s, r, m);
    if Select(s, r).Some? {
      var n := Select(s, r).value;
      SelectIsBest(s, r, n);
      assert Eligible(s, r, n) <==> CanServe(s, r, n);
    }
  }

  // ----- operations

  /** Append to the journal, keeping the last 1024 events. */
  function Log(s: State, kind: string, subject: string): State
  {
    var all := s.journal + [Event(s.sequence + 1, kind, subject)];
    s.(sequence := s.sequence + 1, journal := if |all| > JOURNAL_LIMIT then all[1..] else all)
  }

  function LogMany(s: State, kind: string, subject: string, n: nat): State
  {
    if n == 0 then s else Log(LogMany(s, kind, subject, n - 1), kind, subject)
  }

  function DoAdd(s: State, id: string, role: Role, capabilities: set<string>): State
  {
    if !ProtocolId(id) || id in s.nodes then s
    else
      Log(s.(objs := s.objs + [Node(id, role, capabilities, Ready, 0)], nodes := s.nodes[id := |s.objs|]),
          "node.joined", id)
  }

  function LeasesElsewhere(leases: map<string, Lease>, id: string): map<string, Lease>
  {
    map c | c in leases && leases[c].node != id :: leases[c]
  }

  function DoRemove(s: State, id: string): State
  {
    if id !in s.nodes then s
    else Log(s.(nodes := s.nodes - {id}, leases := LeasesElsewhere(s.leases, id)), "node.left", id)
  }

  datatype Denial = BadId | EmptyPlan | UnsafeAction | DuplicateCommand | NoCapableNode

  /** Whether a request gets a node. */
  ghost function Admission(s: State, r: Request): Result<string, Denial>
  {
    if !ProtocolId(r.command) then Failure(BadId)
    else if r.actions == [] then Failure(EmptyPlan)
    else if !SafeActions(r.actions) then Failure(UnsafeAction)
    else if r.command in s.leases then Failure(DuplicateCommand)
    else
      match Select(s, r)
      case None => Failure(NoCapableNode)
      case Some(n) => Success(n)
  }

  /** Reserve a node for a command. */
  function Assign(s: State, r: Request, n: string, now: int): State
    requires Registered(s, n)
  {
    var i := s.nodes[n];
    s.(objs := s.objs[i := s.objs[i].(status := Reserved, load := s.objs[i].load + 1)],
       leases := s.leases[r.command := Lease(n, now + r.ttl)])
  }

  function Reserve(s: State, r: Request, n: string, now: int): State
    requires Registered(s, n)
  {
    Log(Assign(s, r, n, now), "command.leased", r.command)
  }

  function Unload(n: Node): Node { n.(status := Ready, load := if n.load > 0 then n.load - 1 else 0) }

  /** The end of a dispatch: release the object it holds and drop the lease of its command. */
  function Settle(s: State, target: nat, command: string): State
  {
    if target >= |s.objs| then s
    else s.(objs := s.objs[target := Unload(s.objs[target])], leases := s.leases - {command})
  }

  /** A dispatch up to the `await`; a token that is already cancelled ends it at once. */
  ghost function DoStart(s: State, r: Request, now: int, cancelled: bool): State
  {
    match Admission(s, r)
    case Failure(_) => s
    case Success(n) =>
      if !Registered(s, n) then s
      else
        var s1 := Reserve(s, r, n, now);
        if cancelled then Settle(Log(s1, "command.cancelled", r.command), s.nodes[n], r.command)
        else s1.(flights := s1.flights + [Some(Flight(r.command, r.actions, s.nodes[n]))])
  }

  predicate InFlight(s: State, f: nat) { f < |s.flights| && s.flights[f].Some? }

  /** The rest of a dispatch; `cancelledAfter` is after how many actions the token was found cancelled. */
  function DoResume(s: State, f: nat, cancelledAfter: Option<nat>): State
  {
    if !InFlight(s, f) then s
    else
      var x := s.flights[f].value;
      var s0 := s.(flights := s.flights[f := None]);
      if cancelledAfter.Some? && cancelledAfter.value < |x.actions| then
        Settle(Log(LogMany(s0, "action.acknowledged", x.command, cancelledAfter.value), "command.cancelled", x.command),
               x.target, x.command)
      else
        Settle(LogMany(s0, "action.acknowledged", x.command, |x.actions|), x.target, x.command)
  }

  /** The reaping of one expired lease. */
  function DoReap(s: State, command: string, now: int): State
  {
    if command !in s.leases || s.leases[command].expiresAt > now then s
    else
      var n := s.leases[command].node;
      var s1 := s.(leases := s.leases - {command});
      var s2 := if Registered(s, n) then s1.(objs := s.objs[s.nodes[n] := Unload(NodeAt(s, n))]) else s1;
      Log(s2, "lease.expired", command)
  }

  // ----- what the operations do

  /** Between one and eighty letters, numerals, hyphens, underscores and dots. */
  predicate GoodName(s: string)
  {
    1 <= |s| <= 80 && forall k :: 0 <= k < |s| ==>
      'a' <= s[k] <= 'z' || 'A' <= s[k] <= 'Z' || '0' <= s[k] <= '9' || s[k] == '-' || s[k] == '_' || s[k] == '.'
  }

  lemma GoodNames(s: string)
    ensures ProtocolId(s) <==> GoodName(s)
  {
    forall k | 0 <= k < |s| ensures s[k] in s {
    }
  }

  predicate Unrecognized(action: string)
  {
    LowerCase(action) !in {"observe", "align", "announce", "summarize", "route", "calibrate"}
  }

  /** The checks of a dispatch, in their order. */
  lemma AdmissionSays(s: State, r: Request)
    ensures Admission(s, r) ==
      if !GoodName(r.command) then Failure(BadId)
      else if |r.actions| == 0 then Failure(EmptyPlan)
      else if exists k :: 0 <= k < |r.actions| && Unrecognized(r.actions[k]) then Failure(UnsafeAction)
      else if r.command in s.leases then Failure(DuplicateCommand)
      else if Select(s, r) == None then Failure(NoCapableNode)
      else Success(Select(s, r).value)
  {
    GoodNames(r.command);
    assert forall k :: 0 <= k < |r.actions| ==> r.actions[k] in r.actions;
  }

  /** A good new name gets a ready node without load. */
  lemma AddEffect(s: State, id: string, role: Role, capabilities: set<string>)
    ensures var s' := DoAdd(s, id, role, capabilities);
      if GoodName(id) && id !in s.nodes then
        && s'.objs == s.objs + [Node(id, role, capabilities, Ready, 0)] && s'.nodes == s.nodes[id := |s.objs|]
        && s'.leases == s.leases && s'.flights == s.flights && s'.sequence == s.sequence + 1
      else s' == s
  {
    GoodNames(id);
  }

  /** A removed node takes its leases along; its object and the dispatches stay. */
  lemma RemoveEffect(s: State, id: string, c: string)
    ensures var s' := DoRemove(s, id);
      if id in s.nodes then
        && s'.nodes == s.nodes - {id} && s'.objs == s.objs && s'.flights == s.flights
        && (c in s'.leases <==> c in s.leases && s.leases[c].node != id)
        && (c in s'.leases ==> s'.leases[c] == s.leases[c]) && s'.sequence == s.sequence + 1
      else s' == s
  {
  }

  /** A dispatch that is admitted reserves its node, holds a lease for the time asked for, and waits. */
  lemma StartEffect(s: State, r: Request, now: int, n: string)
    requires Admission(s, r) == Success(n)
    ensures CanServe(s, r, n)
    ensures var i, s' := s.nodes[n], DoStart(s, r, now, false);
      && s'.objs == s.objs[i := s.objs[i].(status := Reserved, load := s.objs[i].load + 1)] && s'.nodes == s.nodes
      && s'.leases == s.leases[r.command := Lease(n, now + r.ttl)]
      && s'.flights == s.flights + [Some(Flight(r.command, r.actions, i))] && s'.sequence == s.sequence + 1
  {
    SelectedIsLeastLoaded(s, r, n);
  }

  /** A dispatch that is cancelled at once leaves no lease and no dispatch, and its node as ready as before. */
  lemma CancelledStartEffect(s: State, r: Request, now: int, n: string)
    requires Admission(s, r) == Success(n)
    ensures var s' := DoStart(s, r, now, true);
      && s'.objs == s.objs && s'.nodes == s.nodes && s'.leases == s.leases && s'.flights == s.flights
      && s'.sequence == s.sequence + 2
  {
    SelectedIsLeastLoaded(s, r, n);
    assert s.leases[r.command := Lease(n, now + r.ttl)] - {r.command} == s.leases;
  }

  /** A dispatch that ends makes its object ready with one command less, drops the lease of its command, and logs every
      action it acknowledged and its cancellation. */
  lemma ResumeEffect(s: State, f: nat, cancelledAfter: Option<nat>)
    requires InFlight(s, f) && s.flights[f].value.target < |s.objs|
    ensures var x, s' := s.flights[f].value, DoResume(s, f, cancelledAfter);
      var load := s.objs[x.target].load;
      && s'.objs == s.objs[x.target := s.objs[x.target].(status := Ready, load := if load > 0 then load - 1 else 0)]
      && s'.leases == s.leases - {x.command} && s'.nodes == s.nodes && s'.flights == s.flights[f := None]
      && s'.sequence == s.sequence + (match cancelledAfter
                                      case None => |x.actions|
                                      case Some(n) => if n < |x.actions| then n + 1 else |x.actions|)
  {
    var x := s.flights[f].value;
    var s0 := s.(flights := s.flights[f := None]);
    if cancelledAfter.Some? && cancelledAfter.value < |x.actions| {
      LogsAdd(s0, "action.acknowledged", x.command, cancelledAfter.value);
    } else {
      LogsAdd(s0, "action.acknowledged", x.command, |x.actions|);
    }
  }

  lemma {:induction false} LogsAdd(s: State, kind: string, subject: string, n: nat)
    ensures var s' := LogMany(s, kind, subject, n);
      s' == s.(sequence := s.sequence + n, journal := s'.journal)
  {
    if n > 0 {
      LogsAdd(s, kind, subject, n - 1);
    }
  }

  /** A lease that has run out is dropped, and its node made ready with one command less. */
  lemma ReapEffect(s: State, command: string, now: int)
    ensures var s' := DoReap(s, command, now);
      if command in s.leases && s.leases[command].expiresAt <= now then
        var n := s.leases[command].node;
        && s'.leases == s.leases - {command} && s'.nodes == s.nodes && s'.flights == s.flights
        && (if n in s.nodes && s.nodes[n] < |s.objs| then
              var i, load := s.nodes[n], s.objs[s.nodes[n]].load;
              s'.objs == s.objs[i := s.objs[i].(status := Ready, load := if load > 0 then load - 1 else 0)]
            else s'.objs == s.objs)
      else s' == s
  {
  }

  /** The journal ends with this event. */
  predicate EndsWith(s: State, kind: string, subject: string)
  {
    s.journal != [] && s.journal[|s.journal| - 1] == Event(s.sequence, kind, subject)
  }

  lemma LogEndsWith(s: State, kind: string, subject: string, n: nat)
    ensures EndsWith(Log(s, kind, subject), kind, subject)
    ensures n > 0 ==> EndsWith(LogMany(s, kind, subject, n), kind, subject)
  {
  }

  /** Each operation that does something notes last what it did, and to whom. */
  lemma OperationsAreNoted(s: State, id: string, role: Role, capabilities: set<string>, now: int)
    ensures GoodName(id) && id !in s.nodes ==> EndsWith(DoAdd(s, id, role, capabilities), "node.joined", id)
    ensures id in s.nodes ==> EndsWith(DoRemove(s, id), "node.left", id)
    ensures id in s.leases && s.leases[id].expiresAt <= now ==> EndsWith(DoReap(s, id, now), "lease.expired", id)
  {
    GoodNames(id);
  }

  lemma StartIsNoted(s: State, r: Request, now: int, cancelled: bool)
    requires Admission(s, r).Success?
    ensures EndsWith(DoStart(s, r, now, cancelled), if cancelled then "command.cancelled" else "command.leased",
                     r.command)
  {
    SelectedIsLeastLoaded(s, r, Admission(s, r).value);
  }

  lemma ResumeIsNoted(s: State, f: nat, cancelledAfter: Option<nat>)
    requires InFlight(s, f) && s.flights[f].value.actions != []
    ensures var x := s.flights[f].value;
      EndsWith(DoResume(s, f, cancelledAfter),
               match cancelledAfter
               case None => "action.acknowledged"
               case Some(n) => if n < |x.actions| then "command.cancelled" else "action.acknowledged",
               x.command)
  {
    var x := s.flights[f].value;
    LogEndsWith(s.(flights := s.flights[f := None]), "action.acknowledged", x.command, |x.actions|);
  }

  datatype Op =
    | AddNode(id: string, role: Role, capabilities: set<string>)
    | RemoveNode(id: string)
    | Start(request: Request, now: int, cancelled: bool)
    | Resume(flight: nat, cancelledAfter: Option<nat>)
    | Reap(command: string, now: int)

  ghost function Step(s: State, op: Op): State
  {
    match op
    case AddNode(id, role, capabilities) => DoAdd(s, id, role, capabilities)
    case RemoveNode(id) => DoRemove(s, id)
    case Start(r, now, cancelled) => DoStart(s, r, now, cancelled)
    case Resume(f, cancelledAfter) => DoResume(s, f, cancelledAfter)
    case Reap(command, now) => DoReap(s, command, now)
  }

  ghost function Run(ops: seq<Op>): State
  {
    if ops == [] then INITIAL else Step(Run(ops[..|ops| - 1]), ops[|ops| - 1])
  }

  // ----- leases and the journal, in every interleaving

  ghost predicate WellLinked(s: State)
  {
    && (forall n :: n in s.nodes ==> s.nodes[n] < |s.objs| && s.objs[s.nodes[n]].id == n)
    && (forall c :: c in s.leases ==> s.leases[c].node in s.nodes)
  }

  /** Events are numbered contiguously up to the current number, and the journal holds the last 1024. */
  predicate Journaled(s: State)
  {
    && |s.journal| == Min(s.sequence, JOURNAL_LIMIT)
    && forall i :: 0 <= i < |s.journal| ==> s.journal[i].sequence == s.sequence - |s.journal| + 1 + i
  }

  lemma LogKeeps(s: State, kind: string, subject: string)
    requires Journaled(s)
    ensures Journaled(Log(s, kind, subject))
    ensures Log(s, kind, subject) == s.(sequence := s.sequence + 1, journal := Log(s, kind, subject).journal)
  {
  }

  lemma {:induction false} LogManyKeeps(s: State, kind: string, subject: string, n: nat)
    requires Journaled(s)
    ensures var s' := LogMany(s, kind, subject, n);
      Journaled(s') && s' == s.(sequence := s.sequence + n, journal := s'.journal)
  {
    if n > 0 {
      LogManyKeeps(s, kind, subject, n - 1);
      LogKeeps(LogMany(s, kind, subject, n - 1), kind, subject);
    }
  }

  /** A resumed dispatch, apart from what it logs. */
  lemma ResumeSettles(s: State, f: nat, cancelledAfter: Option<nat>)
    requires Journaled(s) && InFlight(s, f)
    ensures var s' := DoResume(s, f, cancelledAfter);
      && Journaled(s')
      && s' == Settle(s.(flights := s.flights[f := None]), s.flights[f].value.target, s.flights[f].value.command)
               .(sequence := s'.sequence, journal := s'.journal)
  {
    var x := s.flights[f].value;
    var s0 := s.(flights := s.flights[f := None]);
    if cancelledAfter.Some? && cancelledAfter.value < |x.actions| {
      LogManyKeeps(s0, "action.acknowledged", x.command, cancelledAfter.value);
      LogKeeps(LogMany(s0, "action.acknowledged", x.command, cancelledAfter.value), "command.cancelled", x.command);
    } else {
      LogManyKeeps(s0, "action.acknowledged", x.command, |x.actions|);
    }
  }

  lemma ReserveKeeps(s: State, r: Request, n: string, now: int)
    requires WellLinked(s) && Journaled(s) && n in s.nodes
    ensures WellLinked(Reserve(s, r, n, now)) && Journaled(Reserve(s, r, n, now))
  {
  }

  lemma SettleKeeps(s: State, target: nat, command: string)
    requires WellLinked(s) && Journaled(s)
    ensures WellLinked(Settle(s, target, command)) && Journaled(Settle(s, target, command))
  {
  }

  lemma StartKeeps(s: State, r: Request, now: int, cancelled: bool)
    requires WellLinked(s) && Journaled(s)
    ensures WellLinked(DoStart(s, r, now, cancelled)) && Journaled(DoStart(s, r, now, cancelled))
  {
    if Admission(s, r).Success? {
      var n := Admission(s, r).value;
      SelectIsBest(s, r, n);
      ReserveKeeps(s, r, n, now);
      var s1 := Reserve(s, r, n, now);
      LogKeeps(s1, "command.cancelled", r.command);
      SettleKeeps(Log(s1, "command.cancelled", r.command), s.nodes[n], r.command);
    }
  }

  lemma StepKeepsLinks(s: State, op: Op)
    requires WellLinked(s) && Journaled(s)
    ensures WellLinked(Step(s, op)) && Journaled(Step(s, op))
  {
    match op
    case Start(r, now, cancelled) => StartKeeps(s, r, now, cancelled);
    case Resume(f, cancelledAfter) =>
      if InFlight(s, f) {
        ResumeSettles(s, f, cancelledAfter);
        SettleKeeps(s.(flights := s.flights[f := None]), s.flights[f].value.target, s.flights[f].value.command);
      }
    case AddNode(id, role, capabilities) => AddKeeps(s, id, role, capabilities);
    case RemoveNode(id) => RemoveKeeps(s, id);
    case Reap(command, now) => ReapKeeps(s, command, now);
  }

  lemma AddKeeps(s: State, id: string, role: Role, capabilities: set<string>)
    requires WellLinked(s) && Journaled(s)
    ensures WellLinked(DoAdd(s, id, role, capabilities)) && Journaled(DoAdd(s, id, role, capabilities))
  {
  }

  lemma RemoveKeeps(s: State, id: string)
    requires WellLinked(s) && Journaled(s)
    ensures WellLinked(DoRemove(s, id)) && Journaled(DoRemove(s, id))
  {
  }

  lemma ReapKeeps(s: State, command: string, now: int)
    requires WellLinked(s) && Journaled(s)
    ensures WellLinked(DoReap(s, command, now)) && Journaled(DoReap(s, command, now))
  {
  }

  lemma {:induction false} RunKeepsLinks(ops: seq<Op>)
    ensures WellLinked(Run(ops)) && Journaled(Run(ops))
  {
    if ops != [] {
      RunKeepsLinks(ops[..|ops| - 1]);
      StepKeepsLinks(Run(ops[..|ops| - 1]), ops[|ops| - 1]);
    }
  }

  /** In every interleaving, each lease names a registered node, and the journal is the last min(n, 1024) of n
      contiguously numbered events. */
  lemma LeasesNameNodes(ops: seq<Op>, command: string)
    ensures var s := Run(ops);
      && (command in s.leases ==> s.leases[command].node in s.nodes)
      && |s.journal| == Min(s.sequence, 1024)
      && (forall i :: 0 <= i < |s.journal| ==> s.journal[i].sequence == s.sequence - |s.journal| + 1 + i)
  {
    RunKeepsLinks(ops);
  }

  // ----- load, in every interleaving

  /** The commands with a lease on a node. */
  function LeasesOn(leases: map<string, Lease>, n: string): set<string> { set c | c in leases && leases[c].node == n }

  /** A node carries what is leased on it: at most one command, and one exactly while it is reserved. */
  predicate NodeMatched(node: Node, on: set<string>)
  {
    && node.load == |on| <= 1
    && (node.load == 1 <==> node.status == Reserved)
  }

  ghost predicate LoadsRight(s: State)
  {
    forall n :: n in s.nodes ==> Registered(s, n) && NodeMatched(NodeAt(s, n), LeasesOn(s.leases, n))
  }

  /** A dispatch in flight holds an object. */
  ghost predicate TargetsExist(s: State) { forall f: nat :: InFlight(s, f) ==> s.flights[f].value.target < |s.objs| }

  /** An object of the node map. */
  predicate Current(s: State, i: nat) { i < |s.objs| && s.objs[i].id in s.nodes && s.nodes[s.objs[i].id] == i }

  /** A dispatch that ends would drop a lease on another object, or release an object that now works for another
      command. */
  predicate StrayEnd(s: State, target: nat, command: string)
  {
    if command in s.leases then
      var n := s.leases[command].node;
      n in s.nodes && s.nodes[n] != target
    else
      Current(s, target) && s.objs[target].load == 1
  }

  predicate Strays(s: State, op: Op)
  {
    op.Resume? && InFlight(s, op.flight)
        && StrayEnd(s, s.flights[op.flight].value.target, s.flights[op.flight].value.command)
  }

  lemma ReserveKeepsLoads(s: State, r: Request, n: string, now: int)
    requires WellLinked(s) && LoadsRight(s)
    requires r.command !in s.leases && n in s.nodes && s.objs[s.nodes[n]].status == Ready
    ensures LoadsRight(Reserve(s, r, n, now))
  {
    var s' := Reserve(s, r, n, now);
    forall m | m in s'.nodes ensures NodeMatched(NodeAt(s', m), LeasesOn(s'.leases, m)) {
      ReserveMatchesNodes(s, r, n, now, m);
    }
  }

  /** What the end of a dispatch does to one registered node. */
  lemma SettledNode(s: State, target: nat, command: string, m: string)
    requires WellLinked(s) && LoadsRight(s) && target < |s.objs| && m in s.nodes
    ensures Registered(Settle(s, target, command), m)
    ensures NodeMatched(NodeAt(Settle(s, target, command), m), LeasesOn(Settle(s, target, command).leases, m)) <==>
            if command in LeasesOn(s.leases, m) then s.nodes[m] == target
            else s.nodes[m] != target || s.objs[target].load == 0
  {
    var s' := Settle(s, target, command);
    var on := LeasesOn(s.leases, m);
    assert NodeMatched(NodeAt(s, m), on);
    assert LeasesOn(s'.leases, m) == on - {command};
    if command !in on {
      assert on - {command} == on;
    }
  }

  /** The end of a dispatch keeps the loads right if and only if it is no stray one. */
  lemma SettleKeepsLoadsIff(s: State, target: nat, command: string)
    requires WellLinked(s) && LoadsRight(s) && target < |s.objs|
    ensures LoadsRight(Settle(s, target, command)) <==> !StrayEnd(s, target, command)
  {
    var s' := Settle(s, target, command);
    forall m | m in s.nodes && !StrayEnd(s, target, command)
      ensures Registered(s', m) && NodeMatched(NodeAt(s', m), LeasesOn(s'.leases, m)) {
      SettledNode(s, target, command, m);
    }
    if StrayEnd(s, target, command) {
      var n := if command in s.leases then s.leases[command].node else s.objs[target].id;
      SettledNode(s, target, command, n);
      assert !NodeMatched(NodeAt(s', n), LeasesOn(s'.leases, n));
    }
  }

  lemma AddKeepsLoads(s: State, id: string, role: Role, capabilities: set<string>)
    requires WellLinked(s) && LoadsRight(s)
    ensures LoadsRight(DoAdd(s, id, role, capabilities))
  {
    if ProtocolId(id) && id !in s.nodes {
      var s' := DoAdd(s, id, role, capabilities);
      assert LeasesOn(s.leases, id) == {};
      forall m | m in s'.nodes ensures Registered(s', m) && NodeMatched(NodeAt(s', m), LeasesOn(s'.leases, m)) {
        if m != id {
          assert NodeMatched(NodeAt(s, m), LeasesOn(s.leases, m));
        }
      }
    }
  }

  lemma RemoveKeepsLoads(s: State, id: string)
    requires WellLinked(s) && LoadsRight(s)
    ensures LoadsRight(DoRemove(s, id))
  {
    var s' := DoRemove(s, id);
    forall m | m in s'.nodes ensures Registered(s', m) && NodeMatched(NodeAt(s', m), LeasesOn(s'.leases, m)) {
      assert NodeMatched(NodeAt(s, m), LeasesOn(s.leases, m));
      assert LeasesOn(s'.leases, m) == LeasesOn(s.leases, m);
    }
  }

  /** Reaping releases the object on which the lease is: it settles like a dispatch that still holds its lease. */
  lemma ReapKeepsLoads(s: State, command: string, now: int)
    requires WellLinked(s) && Journaled(s) && LoadsRight(s)
    ensures LoadsRight(DoReap(s, command, now))
  {
    if command in s.leases && s.leases[command].expiresAt <= now {
      var n := s.leases[command].node;
      SettleKeepsLoadsIff(s, s.nodes[n], command);
      var s1 := Settle(s, s.nodes[n], command);
      LogKeeps(s1, "lease.expired", command);
      SameLoads(s1, DoReap(s, command, now));
    }
  }

  lemma SameLoads(s: State, s': State)
    requires s'.objs == s.objs && s'.nodes == s.nodes && s'.leases == s.leases
    ensures LoadsRight(s') <==> LoadsRight(s)
  {
  }

  lemma StartKeepsLoads(s: State, r: Request, now: int, cancelled: bool)
    requires WellLinked(s) && Journaled(s) && LoadsRight(s)
    ensures LoadsRight(DoStart(s, r, now, cancelled))
  {
    if Admission(s, r).Success? {
      var n := Admission(s, r).value;
      SelectIsBest(s, r, n);
      ReserveKeepsLoads(s, r, n, now);
      ReserveKeeps(s, r, n, now);
      var s1 := Reserve(s, r, n, now);
      LogKeeps(s1, "command.cancelled", r.command);
      SameLoads(s1, Log(s1, "command.cancelled", r.command));
      SettleKeepsLoadsIff(Log(s1, "command.cancelled", r.command), s.nodes[n], r.command);
      SameLoads(s1, s1.(flights := s1.flights + [Some(Flight(r.command, r.actions, s.nodes[n]))]));
    }
  }

  /** An operation keeps every node's load equal to its lease count, at most one, and one exactly when the node is
      reserved, if and only if it is not the end of a dispatch whose lease is gone or elsewhere. */
  lemma StepKeepsLoadsIff(s: State, op: Op)
    requires WellLinked(s) && Journaled(s) && TargetsExist(s) && LoadsRight(s)
    ensures LoadsRight(Step(s, op)) <==> !Strays(s, op)
  {
    match op
    case AddNode(id, role, capabilities) => AddKeepsLoads(s, id, role, capabilities);
    case RemoveNode(id) => RemoveKeepsLoads(s, id);
    case Start(r, now, cancelled) => StartKeepsLoads(s, r, now, cancelled);
    case Reap(command, now) => ReapKeepsLoads(s, command, now);
    case Resume(f, cancelledAfter) =>
      if InFlight(s, f) {
        var x := s.flights[f].value;
        var s0 := s.(flights := s.flights[f := None]);
        ResumeSettles(s, f, cancelledAfter);
        SameLoads(s, s0);
        SettleKeepsLoadsIff(s0, x.target, x.command);
        SameLoads(Settle(s0, x.target, x.command), Step(s, op));
      }
  }

  lemma StepKeepsTargets(s: State, op: Op)
    requires WellLinked(s) && Journaled(s) && TargetsExist(s)
    ensures TargetsExist(Step(s, op)) && |Step(s, op).objs| >= |s.objs|
  {
    match op
    case Start(r, now, cancelled) =>
      if Admission(s, r).Success? {
        SelectIsBest(s, r, Admission(s, r).value);
      }
      forall f: nat | InFlight(Step(s, op), f) ensures Step(s, op).flights[f].value.target < |s.objs| {
        assert f < |s.flights| ==> InFlight(s, f);
      }
    case Resume(f, cancelledAfter) =>
      if InFlight(s, f) {
        ResumeSettles(s, f, cancelledAfter);
      }
    case _ =>
  }

  ghost predicate StraylessRun(ops: seq<Op>)
  {
    ops == [] || (StraylessRun(ops[..|ops| - 1]) && !Strays(Run(ops[..|ops| - 1]), ops[|ops| - 1]))
  }

  /** The loads are right after every operation of the run. */
  ghost predicate LoadsRightThroughout(ops: seq<Op>)
  {
    LoadsRight(Run(ops)) && (ops == [] || LoadsRightThroughout(ops[..|ops| - 1]))
  }

  lemma {:induction false} RunKeepsTargets(ops: seq<Op>)
    ensures TargetsExist(Run(ops))
  {
    if ops != [] {
      var init := ops[..|ops| - 1];
      RunKeepsTargets(init);
      RunKeepsLinks(init);
      StepKeepsTargets(Run(init), ops[|ops| - 1]);
    }
  }

  /** Over all runs: the loads are right all the way if and only if no dispatch ends as a stray. */
  lemma {:induction false} LoadsRightThroughoutIff(ops: seq<Op>)
    ensures LoadsRightThroughout(ops) <==> StraylessRun(ops)
  {
    if ops != [] {
      var init := ops[..|ops| - 1];
      LoadsRightThroughoutIff(init);
      RunKeepsLinks(init);
      RunKeepsTargets(init);
      if LoadsRightThroughout(init) {
        StepKeepsLoadsIff(Run(init), ops[|ops| - 1]);
      }
    }
  }

  // ----- dispatches, in runs that leave leased nodes and live leases alone

  /** A dispatch in flight has the lease of its command, on its node, which is still registered. */
  predicate FlightMatched(s: State, x: Flight)
  {
    && x.target < |s.objs|
    && x.command in s.leases && s.leases[x.command].node == s.objs[x.target].id
    && s.objs[x.target].id in s.nodes && s.nodes[s.objs[x.target].id] == x.target
  }

  /** The command has a dispatch in flight. */
  ghost predicate Dispatched(s: State, command: string)
  {
    exists f: nat :: InFlight(s, f) && s.flights[f].value.command == command
  }

  ghost predicate Matched(s: State)
  {
    && WellLinked(s)
    && LoadsRight(s)
    && (forall f: nat :: InFlight(s, f) ==> FlightMatched(s, s.flights[f].value))
    && (forall f: nat, g: nat :: InFlight(s, f) && InFlight(s, g) && f != g ==>
          s.flights[f].value.command != s.flights[g].value.command)
  }

  /** Loads, leases and dispatches agree, and every lease is of a dispatch in flight. */
  ghost predicate InStep(s: State) { Matched(s) && AllDispatched(s) }

  ghost predicate AllDispatched(s: State) { forall c :: c in s.leases ==> Dispatched(s, c) }

  /** The operation removes no node that has a lease, and reaps no lease. */
  predicate Gentle(s: State, op: Op)
  {
    match op
    case RemoveNode(id) => id in s.nodes ==> LeasesOn(s.leases, id) == {}
    case Reap(command, now) => command in s.leases ==> s.leases[command].expiresAt > now
    case _ => true
  }

  /** The state is in step after every operation of the run. */
  ghost predicate InStepThroughout(ops: seq<Op>)
  {
    InStep(Run(ops)) && (ops == [] || InStepThroughout(ops[..|ops| - 1]))
  }

  ghost predicate GentleRun(ops: seq<Op>)
  {
    ops == [] || (GentleRun(ops[..|ops| - 1]) && Gentle(Run(ops[..|ops| - 1]), ops[|ops| - 1]))
  }

  lemma ReserveMatchesNodes(s: State, r: Request, n: string, now: int, m: string)
    requires WellLinked(s) && LoadsRight(s)
    requires r.command !in s.leases && n in s.nodes && s.objs[s.nodes[n]].status == Ready && m in s.nodes
    ensures m in Reserve(s, r, n, now).nodes && s.nodes[m] < |Reserve(s, r, n, now).objs|
    ensures NodeMatched(Reserve(s, r, n, now).objs[s.nodes[m]], LeasesOn(Reserve(s, r, n, now).leases, m))
  {
    var on := LeasesOn(s.leases, m);
    assert NodeMatched(s.objs[s.nodes[m]], on);
    var leases := s.leases[r.command := Lease(n, now + r.ttl)];
    if m == n {
      assert LeasesOn(leases, m) == on + {r.command};
    } else {
      assert LeasesOn(leases, m) == on;
    }
  }

  lemma ReserveMatches(s: State, r: Request, n: string, now: int)
    requires Journaled(s) && Matched(s)
    requires r.command !in s.leases && n in s.nodes && s.objs[s.nodes[n]].status == Ready
    ensures Matched(Reserve(s, r, n, now).(flights := s.flights + [Some(Flight(r.command, r.actions, s.nodes[n]))]))
  {
    var x := Flight(r.command, r.actions, s.nodes[n]);
    var s' := Reserve(s, r, n, now).(flights := s.flights + [Some(x)]);
    ReserveKeeps(s, r, n, now);
    ReserveKeepsLoads(s, r, n, now);
    SameLoads(Reserve(s, r, n, now), s');
    forall f: nat | InFlight(s, f)
      ensures s.flights[f].value.command != r.command && FlightMatched(s', s.flights[f].value) {
      assert FlightMatched(s, s.flights[f].value);
    }
    assert FlightMatched(s', x);
    forall f: nat | InFlight(s', f) ensures f == |s.flights| || InFlight(s, f) {
    }
  }

  lemma SettleMatches(s: State, f: nat)
    requires Journaled(s) && Matched(s) && InFlight(s, f)
    ensures Matched(Settle(s.(flights := s.flights[f := None]), s.flights[f].value.target, s.flights[f].value.command))
  {
    var x := s.flights[f].value;
    var s' := Settle(s.(flights := s.flights[f := None]), x.target, x.command);
    assert FlightMatched(s, x);
    SameLoads(s, s.(flights := s.flights[f := None]));
    SettleKeepsLoadsIff(s.(flights := s.flights[f := None]), x.target, x.command);
    forall g: nat | InFlight(s', g) ensures FlightMatched(s', s'.flights[g].value) {
      assert InFlight(s, g) && FlightMatched(s, s.flights[g].value);
    }
    forall g: nat, h: nat | InFlight(s', g) && InFlight(s', h) && g != h
      ensures s'.flights[g].value.command != s'.flights[h].value.command {
      assert InFlight(s, g) && InFlight(s, h);
    }
  }

  /** The correspondence does not depend on the journal, nor on finished dispatches at the end of the list. */
  lemma SameMatched(s: State, s': State)
    requires Matched(s) && s'.objs == s.objs && s'.nodes == s.nodes && s'.leases == s.leases
    requires |s'.flights| <= |s.flights| && forall f :: 0 <= f < |s'.flights| ==> s'.flights[f] == s.flights[f]
    ensures Matched(s')
  {
    SameLoads(s, s');
    forall f: nat | InFlight(s', f) ensures FlightMatched(s', s'.flights[f].value) {
      assert InFlight(s, f) && FlightMatched(s, s.flights[f].value);
    }
    forall g: nat, h: nat | InFlight(s', g) && InFlight(s', h) && g != h
      ensures s'.flights[g].value.command != s'.flights[h].value.command {
      assert InFlight(s, g) && InFlight(s, h);
    }
  }

  lemma AddMatches(s: State, id: string, role: Role, capabilities: set<string>)
    requires Journaled(s) && Matched(s)
    ensures Matched(DoAdd(s, id, role, capabilities))
  {
    if ProtocolId(id) && id !in s.nodes {
      var s' := DoAdd(s, id, role, capabilities);
      AddKeepsLoads(s, id, role, capabilities);
      forall f: nat | InFlight(s', f) ensures FlightMatched(s', s'.flights[f].value) {
        assert InFlight(s, f) && FlightMatched(s, s.flights[f].value);
      }
      forall g: nat, h: nat | InFlight(s', g) && InFlight(s', h) && g != h
        ensures s'.flights[g].value.command != s'.flights[h].value.command {
        assert InFlight(s, g) && InFlight(s, h);
      }
    }
  }

  /** A command stays dispatched while its flight is on the list. */
  lemma StaysDispatched(s: State, s': State, command: string)
    requires Dispatched(s, command)
    requires forall f: nat :: InFlight(s, f) && s.flights[f].value.command == command ==>
               f < |s'.flights| && s'.flights[f] == s.flights[f]
    ensures Dispatched(s', command)
  {
    var f: nat :| InFlight(s, f) && s.flights[f].value.command == command;
    assert InFlight(s', f);
  }

  lemma StartDispatches(s: State, r: Request, now: int, cancelled: bool)
    requires AllDispatched(s)
    ensures AllDispatched(DoStart(s, r, now, cancelled))
  {
    var s' := DoStart(s, r, now, cancelled);
    forall c | c in s'.leases ensures Dispatched(s', c) {
      if c in s.leases {
        StaysDispatched(s, s', c);
      } else {
        assert InFlight(s', |s.flights|) && s'.flights[|s.flights|].value.command == c;
      }
    }
  }

  lemma ResumeDispatches(s: State, f: nat, cancelledAfter: Option<nat>)
    requires Journaled(s) && AllDispatched(s) && InFlight(s, f) && s.flights[f].value.target < |s.objs|
    ensures AllDispatched(DoResume(s, f, cancelledAfter))
  {
    var s' := DoResume(s, f, cancelledAfter);
    ResumeSettles(s, f, cancelledAfter);
    forall c | c in s'.leases ensures Dispatched(s', c) {
      StaysDispatched(s, s', c);
    }
  }

  /** Removing a node without leases disturbs no other; removing one with a lease leaves a dispatch without it. */
  lemma RemoveMatchesIff(s: State, id: string)
    requires Journaled(s) && InStep(s)
    ensures Matched(DoRemove(s, id)) <==> Gentle(s, RemoveNode(id))
    ensures Gentle(s, RemoveNode(id)) ==> InStep(DoRemove(s, id))
  {
    var s' := DoRemove(s, id);
    if id in s.nodes && LeasesOn(s.leases, id) != {} {
      var c :| c in LeasesOn(s.leases, id);
      var f: nat :| InFlight(s, f) && s.flights[f].value.command == c;
      assert InFlight(s', f) && !FlightMatched(s', s'.flights[f].value);
    } else if id in s.nodes {
      RemoveMatches(s, id);
      forall c | c in DoRemove(s, id).leases ensures Dispatched(DoRemove(s, id), c) {
        StaysDispatched(s, DoRemove(s, id), c);
      }
    }
  }

  lemma RemoveMatches(s: State, id: string)
    requires Journaled(s) && Matched(s) && id in s.nodes && LeasesOn(s.leases, id) == {}
    ensures Matched(DoRemove(s, id))
  {
    var s' := DoRemove(s, id);
    assert forall c :: c in s.leases && s.leases[c].node == id ==> c in LeasesOn(s.leases, id);
    assert s'.leases == s.leases;
    StepKeepsLinks(s, RemoveNode(id));
    RemoveKeepsLoads(s, id);
    forall f: nat | InFlight(s', f) ensures FlightMatched(s', s'.flights[f].value) {
      assert InFlight(s, f) && FlightMatched(s, s.flights[f].value);
    }
    forall g: nat, h: nat | InFlight(s', g) && InFlight(s', h) && g != h
      ensures s'.flights[g].value.command != s'.flights[h].value.command {
      assert InFlight(s, g) && InFlight(s, h);
    }
  }

  /** Reaping a lease takes it from a dispatch in flight. */
  lemma ReapMatchesIff(s: State, command: string, now: int)
    requires Journaled(s) && InStep(s)
    ensures Matched(DoReap(s, command, now)) <==> Gentle(s, Reap(command, now))
    ensures Gentle(s, Reap(command, now)) ==> DoReap(s, command, now) == s
  {
    if command in s.leases && s.leases[command].expiresAt <= now {
      var s' := DoReap(s, command, now);
      var f: nat :| InFlight(s, f) && s.flights[f].value.command == command;
      assert InFlight(s', f) && !FlightMatched(s', s'.flights[f].value);
    }
  }

  lemma StartMatches(s: State, r: Request, now: int, cancelled: bool)
    requires Journaled(s) && Matched(s)
    ensures Matched(DoStart(s, r, now, cancelled))
  {
    if Admission(s, r).Success? {
      var n := Admission(s, r).value;
      SelectIsBest(s, r, n);
      var x := Flight(r.command, r.actions, s.nodes[n]);
      var s1 := Reserve(s, r, n, now).(flights := s.flights + [Some(x)]);
      ReserveMatches(s, r, n, now);
      if cancelled {
        CancelledMatches(s, s1, r, n, now);
      }
    }
  }

  /** A start that is cancelled at once is a reservation and its settlement. */
  lemma CancelledMatches(s: State, s1: State, r: Request, n: string, now: int)
    requires WellLinked(s) && Journaled(s) && Admission(s, r) == Success(n) && n in s.nodes
    requires s1 == Reserve(s, r, n, now).(flights := s.flights + [Some(Flight(r.command, r.actions, s.nodes[n]))])
    requires Matched(s1)
    ensures Matched(DoStart(s, r, now, true))
  {
    var s2 := s1.(flights := s1.flights[|s.flights| := None]);
    ReserveKeeps(s, r, n, now);
    SettleMatches(s1, |s.flights|);
    assert DoStart(s, r, now, true)
        == Settle(Log(Reserve(s, r, n, now), "command.cancelled", r.command), s.nodes[n], r.command);
    SameMatched(Settle(s2, s.nodes[n], r.command), DoStart(s, r, now, true));
  }

  /** Exactly the operations that remove no leased node and reap no lease keep loads, leases and dispatches in
      step. */
  lemma StepMatchesIff(s: State, op: Op)
    requires Journaled(s) && InStep(s)
    ensures InStep(Step(s, op)) <==> Gentle(s, op)
  {
    match op
    case AddNode(id, role, capabilities) =>
      AddMatches(s, id, role, capabilities);
      forall c | c in Step(s, op).leases ensures Dispatched(Step(s, op), c) {
        StaysDispatched(s, Step(s, op), c);
      }
    case RemoveNode(id) => RemoveMatchesIff(s, id);
    case Start(r, now, cancelled) =>
      StartMatches(s, r, now, cancelled);
      StartDispatches(s, r, now, cancelled);
    case Resume(f, cancelledAfter) =>
      if InFlight(s, f) {
        assert FlightMatched(s, s.flights[f].value);
        ResumeDispatches(s, f, cancelledAfter);
        ResumeSettles(s, f, cancelledAfter);
        SettleMatches(s, f);
        SameMatched(Settle(s.(flights := s.flights[f := None]), s.flights[f].value.target, s.flights[f].value.command),
                    Step(s, op));
      }
    case Reap(command, now) => ReapMatchesIff(s, command, now);
  }

  /** A run keeps loads, leases and dispatches in step all the way if and only if it never removes a leased node
      and never reaps a lease. */
  lemma {:induction false} InStepThroughoutIff(ops: seq<Op>)
    ensures GentleRun(ops) <==> InStepThroughout(ops)
  {
    if ops != [] {
      var init := ops[..|ops| - 1];
      InStepThroughoutIff(init);
      RunKeepsLinks(init);
      if InStepThroughout(init) {
        StepMatchesIff(Run(init), ops[|ops| - 1]);
      }
    }
  }

  /** In such runs a registered node's load is the number of leases on it, at most one, and one exactly when the
      node is reserved; every dispatch in flight has its lease on its node, and every lease is of a dispatch. */
  lemma LoadCountsLeases(ops: seq<Op>, n: string, f: nat, command: string)
    requires GentleRun(ops)
    requires n in Run(ops).nodes
    ensures Registered(Run(ops), n)
    ensures var s := Run(ops);
      var node := NodeAt(s, n);
      && node.load == |LeasesOn(s.leases, n)| <= 1
      && (node.load == 1 <==> node.status == Reserved)
      && (InFlight(s, f) ==> FlightMatched(s, s.flights[f].value))
      && (command in s.leases <==> Dispatched(s, command))
  {
    InStepThroughoutIff(ops);
    var s := Run(ops);
    assert NodeMatched(s.objs[s.nodes[n]], LeasesOn(s.leases, n));
    if Dispatched(s, command) {
      var g: nat :| InFlight(s, g) && s.flights[g].value.command == command;
      assert FlightMatched(s, s.flights[g].value);
    }
  }

  lemma ReapOfFlight(s: State, x: Flight, now: int)
    requires Matched(s) && FlightMatched(s, x) && s.leases[x.command].expiresAt <= now
    ensures var s1 := DoReap(s, x.command, now);
      && s1.nodes == s.nodes && s1.flights == s.flights && s1.leases == s.leases - {x.command}
      && s1.objs == s.objs[x.target := s.objs[x.target].(status := Ready, load := 0)]
  {
    var n := s.objs[x.target].id;
    assert NodeMatched(s.objs[s.nodes[n]], LeasesOn(s.leases, n));
    assert x.command in LeasesOn(s.leases, n);
  }

  lemma StartOn(s: State, r: Request, now: int, n: string)
    requires WellLinked(s) && Admission(s, r) == Success(n)
    ensures n in s.nodes
    ensures var s2 := DoStart(s, r, now, false);
      && s2.nodes == s.nodes && s2.leases == s.leases[r.command := Lease(n, now + r.ttl)]
      && s2.objs == s.objs[s.nodes[n] := s.objs[s.nodes[n]].(status := Reserved, load := s.objs[s.nodes[n]].load + 1)]
      && |s2.flights| == |s.flights| + 1 && s2.flights[..|s.flights|] == s.flights
  {
    SelectIsBest(s, r, n);
  }

  /** Ending a dispatch releases its node, whoever else has a lease there. */
  lemma ResumeReleases(s: State, f: nat, cancelledAfter: Option<nat>, other: string)
    requires Journaled(s) && InFlight(s, f) && s.flights[f].value.target < |s.objs|
    requires s.objs[s.flights[f].value.target].load == 1
    requires other in s.leases && other != s.flights[f].value.command
    ensures var x := s.flights[f].value;
      var s' := DoResume(s, f, cancelledAfter);
      && s'.nodes == s.nodes && |s'.objs| == |s.objs|
      && s'.objs[x.target] == s.objs[x.target].(status := Ready, load := 0)
      && other in s'.leases && s'.leases[other] == s.leases[other]
  {
    ResumeSettles(s, f, cancelledAfter);
  }

  /** The restriction is needed: when the lease of a dispatch in flight is reaped and its node is given to another
      command, the end of the first dispatch releases the node under the second one's lease. */
  lemma ReapUnderDispatchMiscounts(s: State, f: nat, now: int, r: Request, later: int, cancelledAfter: Option<nat>)
    requires Journaled(s) && Matched(s) && InFlight(s, f) && FlightMatched(s, s.flights[f].value)
    requires s.leases[s.flights[f].value.command].expiresAt <= now && r.command != s.flights[f].value.command
    requires Admission(DoReap(s, s.flights[f].value.command, now), r) == Success(s.objs[s.flights[f].value.target].id)
    ensures var t := s.flights[f].value.target;
      var s1 := DoReap(s, s.flights[f].value.command, now);
      var s' := DoResume(DoStart(s1, r, later, false), f, cancelledAfter);
      && t < |s'.objs| && s'.nodes == s.nodes
      && s'.objs[t].load == 0 && s'.objs[t].status == Ready
      && r.command in s'.leases && s'.leases[r.command].node == s.objs[t].id
  {
    var x := s.flights[f].value;
    var s1 := DoReap(s, x.command, now);
    StepKeepsLinks(s, Reap(x.command, now));
    ReapOfFlight(s, x, now);
    StartKeeps(s1, r, later, false);
    StartOn(s1, r, later, s.objs[x.target].id);
    var s2 := DoStart(s1, r, later, false);
    assert s2.flights[f] == s2.flights[..|s.flights|][f];
    ResumeReleases(s2, f, cancelledAfter, r.command);
  }

  // ----- two runs in which a dispatch ends as a stray

  const PLAN: seq<string> := ["observe"]

  function Ask(command: string): Request { Request(command, PLAN, 0, None, {}) }

  lemma RunOneMore(ops: seq<Op>, op: Op)
    ensures Run(ops + [op]) == Step(Run(ops), op)
  {
    assert (ops + [op])[..|ops|] == ops;
  }

  /** A dispatch on the only node, which is ready. */
  lemma StartOnOnly(s: State, command: string, n: string)
    requires WellLinked(s) && s.nodes.Keys == {n} && NodeAt(s, n).status == Ready
    requires ProtocolId(command) && command !in s.leases
    ensures var s' := Step(s, Start(Ask(command), 0, false));
      var i := s.nodes[n];
      && s'.nodes == s.nodes && s'.leases == s.leases[command := Lease(n, 0)]
      && s'.objs == s.objs[i := s.objs[i].(status := Reserved, load := s.objs[i].load + 1)]
      && s'.flights == s.flights + [Some(Flight(command, PLAN, i))]
  {
    assert LowerCase("observe") == "observe";
    SelectIsBest(s, Ask(command), n);
    assert Admission(s, Ask(command)) == Success(n);
  }

  /** The lease of a dispatch is reaped, and its node given to another one. */
  lemma ReapedThenGivenAway(ops: seq<Op>, n: string, a: string, b: string)
    requires ProtocolId(b) && a != b
    requires var s := Run(ops);
      && s.nodes == map[n := 0] && s.objs == [Node(n, Relay, {}, Reserved, 1)]
      && s.leases == map[a := Lease(n, 0)] && s.flights == [Some(Flight(a, PLAN, 0))]
    ensures var s := Run(ops + [Reap(a, 0), Start(Ask(b), 0, false)]);
      && s.nodes == map[n := 0] && s.objs == [Node(n, Relay, {}, Reserved, 1)]
      && s.leases == map[b := Lease(n, 0)] && s.flights == [Some(Flight(a, PLAN, 0)), Some(Flight(b, PLAN, 0))]
  {
    var o1, o2 := Reap(a, 0), Start(Ask(b), 0, false);
    RunOneMore(ops, o1);
    RunOneMore(ops + [o1], o2);
    assert ops + [o1] + [o2] == ops + [o1, o2];
    RunKeepsLinks(ops + [o1]);
    var s := Run(ops + [o1]);
    assert s.objs == [Node(n, Relay, {}, Ready, 0)] && s.leases == map[];
    StartOnOnly(s, b, n);
  }

  /** After the reap of its lease and a second dispatch, the end of the first one leaves a ready node without load under
      the lease of the second one. */
  lemma ReapedRunMiscounts(n: string, a: string, b: string)
    requires ProtocolId(n) && ProtocolId(a) && ProtocolId(b) && a != b
    ensures var s := Run([AddNode(n, Relay, {}), Start(Ask(a), 0, false), Reap(a, 0), Start(Ask(b), 0, false),
        Resume(0, None)]);
      && s.nodes == map[n := 0] && s.objs == [Node(n, Relay, {}, Ready, 0)]
      && s.leases == map[b := Lease(n, 0)] && !LoadsRight(s)
  {
    var first := [AddNode(n, Relay, {}), Start(Ask(a), 0, false)];
    var four := first + [Reap(a, 0), Start(Ask(b), 0, false)];
    FirstTwo(n, a);
    ReapedThenGivenAway(first, n, a, b);
    assert four == [AddNode(n, Relay, {}), Start(Ask(a), 0, false), Reap(a, 0), Start(Ask(b), 0, false)];
    assert four + [Resume(0, None)]
        == [AddNode(n, Relay, {}), Start(Ask(a), 0, false), Reap(a, 0), Start(Ask(b), 0, false), Resume(0, None)];
    RunOneMore(four, Resume(0, None));
    RunKeepsLinks(four);
    ResumeSettles(Run(four), 0, None);
    assert b in LeasesOn(Run(four + [Resume(0, None)]).leases, n);
  }

  /** A node is added and a dispatch starts on it. */
  lemma FirstTwo(n: string, a: string)
    requires ProtocolId(n) && ProtocolId(a)
    ensures var s := Run([AddNode(n, Relay, {}), Start(Ask(a), 0, false)]);
      && s.nodes == map[n := 0] && s.objs == [Node(n, Relay, {}, Reserved, 1)]
      && s.leases == map[a := Lease(n, 0)] && s.flights == [Some(Flight(a, PLAN, 0))]
  {
    var o1, o2 := AddNode(n, Relay, {}), Start(Ask(a), 0, false);
    RunOneMore([], o1);
    RunOneMore([o1], o2);
    assert [] + [o1] == [o1] && [o1] + [o2] == [o1, o2];
    RunKeepsLinks([o1]);
    StartOnOnly(Run([o1]), a, n);
  }

  /** The node of a dispatch is removed and added again, and the command dispatched again. */
  lemma RemovedThenAgain(ops: seq<Op>, n: string, a: string)
    requires ProtocolId(n) && ProtocolId(a)
    requires var s := Run(ops);
      && s.nodes == map[n := 0] && s.objs == [Node(n, Relay, {}, Reserved, 1)]
      && s.leases == map[a := Lease(n, 0)] && s.flights == [Some(Flight(a, PLAN, 0))]
    ensures var s := Run(ops + [RemoveNode(n), AddNode(n, Relay, {}), Start(Ask(a), 0, false)]);
      && s.nodes == map[n := 1] && s.objs == [Node(n, Relay, {}, Reserved, 1), Node(n, Relay, {}, Reserved, 1)]
      && s.leases == map[a := Lease(n, 0)] && s.flights == [Some(Flight(a, PLAN, 0)), Some(Flight(a, PLAN, 1))]
  {
    var o1, o2, o3 := RemoveNode(n), AddNode(n, Relay, {}), Start(Ask(a), 0, false);
    RunOneMore(ops, o1);
    RunOneMore(ops + [o1], o2);
    RunOneMore(ops + [o1] + [o2], o3);
    assert ops + [o1] + [o2] + [o3] == ops + [o1, o2, o3];
    RunKeepsLinks(ops + [o1] + [o2]);
    var s := Run(ops + [o1] + [o2]);
    assert s.leases == map[] && s.nodes == map[n := 1] && s.objs[1] == Node(n, Relay, {}, Ready, 0);
    StartOnOnly(s, a, n);
  }

  /** When a node is removed under a dispatch, added again, and the command dispatched again, the end of the first
      dispatch drops the lease of the second one: a reserved node with load 1 is left without a lease. */
  lemma RemovedRunMiscounts(n: string, a: string)
    requires ProtocolId(n) && ProtocolId(a)
    ensures var s := Run([AddNode(n, Relay, {}), Start(Ask(a), 0, false), RemoveNode(n), AddNode(n, Relay, {}),
                          Start(Ask(a), 0, false), Resume(0, None)]);
      && s.nodes == map[n := 1] && |s.objs| == 2 && s.objs[1] == Node(n, Relay, {}, Reserved, 1)
      && s.leases == map[] && !LoadsRight(s)
  {
    var add, start := AddNode(n, Relay, {}), Start(Ask(a), 0, false);
    var five := [add, start] + [RemoveNode(n), add, start];
    FirstTwo(n, a);
    RemovedThenAgain([add, start], n, a);
    assert five + [Resume(0, None)] == [add, start, RemoveNode(n), add, start, Resume(0, None)];
    RunOneMore(five, Resume(0, None));
    RunKeepsLinks(five);
    ResumeSettles(Run(five), 0, None);
    assert LeasesOn(Run(five + [Resume(0, None)]).leases, n) == {};
  }
}
