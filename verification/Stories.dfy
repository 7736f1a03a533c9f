/** Concrete runs of three nodes that reach each kind of hazard, and what comes after
    some of them. Node 0 is the lmaster. */
module Stories {
  import opened Ltdb
  import opened Protocol
  import opened Cluster
  import opened ClusterInv
  import opened RevokeMoves
  import opened Steps
  import opened Theorems
  import opened Hazards

  const FAILS: nat := 1
  const SETS: nat := 2
  const ONE: Data := [1]

  /** Every call leaves the data as it is, but for one that fails and one that
      writes. */
  function Three(): Config {
    Config(3, true, (id: nat, d: Data) =>
                      if id == FAILS then Failed else if id == SETS then Done(ONE, []) else Done(d, d))
  }

  /** A run ends in s; with `safe`, none of its steps is a hazard. */
  ghost predicate Reached(safe: bool, s: State) {
    exists ss, acts :: EndsIn(safe, ss, acts, s)
  }

  ghost predicate EndsIn(safe: bool, ss: seq<State>, acts: seq<Action>, s: State) {
    Run(Three(), ss, acts) && (safe ==> Safe(true, Three(), ss, acts)) && ss[|acts|] == s
  }

  lemma Begin(safe: bool, s: State)
    requires Init(Three(), s)
    ensures Reached(safe, s)
  {
    assert EndsIn(safe, [s], [], s);
  }

  lemma Next(safe: bool, s: State, a: Action, t: State)
    requires Reached(safe, s) && WF(Three(), s) && Enabled(Three(), s, a) && t == Apply(Three(), s, a)
    requires safe ==> !HazardFor(true, Three(), s, a)
    ensures Reached(safe, t)
  {
    var ss, acts :| EndsIn(safe, ss, acts, s);
    Longer(Three(), ss, acts, a, t);
    if safe { LongerSafe(Three(), ss, acts, a, t); }
    assert EndsIn(safe, ss + [t], acts + [a], t);
  }

  lemma LongerSafe(c: Config, ss: seq<State>, acts: seq<Action>, a: Action, t: State)
    requires Run(c, ss, acts) && Safe(true, c, ss, acts) && Run(c, ss + [t], acts + [a])
    requires !HazardFor(true, c, ss[|acts|], a)
    ensures Safe(true, c, ss + [t], acts + [a])
  {
    var ss', acts' := ss + [t], acts + [a];
    forall k | 0 <= k < |acts'| ensures !HazardFor(true, c, ss'[k], acts'[k]) {
      assert ss'[k] == ss[k] && (k < |acts| ==> acts'[k] == acts[k]);
    }
  }

  lemma Longer(c: Config, ss: seq<State>, acts: seq<Action>, a: Action, t: State)
    requires Run(c, ss, acts) && Enabled(c, ss[|acts|], a) && t == Apply(c, ss[|acts|], a)
    ensures Run(c, ss + [t], acts + [a])
  {
    var ss', acts' := ss + [t], acts + [a];
    assert ss'[0] == ss[0];
    forall k | 0 <= k < |acts'| ensures Enabled(c, ss'[k], acts'[k]) && ss'[k + 1] == Apply(c, ss'[k], acts'[k]) {
      if k < |acts| {
        assert acts'[k] == acts[k] && ss'[k] == ss[k] && ss'[k + 1] == ss[k + 1];
      } else {
        assert acts'[k] == a && ss'[k] == ss[k] && ss'[k + 1] == t;
      }
    }
  }

  /** A step that is no hazard. */
  ghost predicate Goes(s: State, a: Action, t: State) {
    WF(Three(), s) && Enabled(Three(), s, a) && t == Apply(Three(), s, a)
  }

  function Own(rsn: int, f: Flags): Rec { Present(Header(rsn, 0, f), []) }

  function Named1(rsn: int, f: Flags): Rec { Present(Header(rsn, 1, f), []) }

  function Just(rec: Rec): NodeState { NodeState(rec, {}, Idle) }

  /** The third node takes no part. */
  function Pair(a: NodeState, b: NodeState): seq<NodeState> { [a, b, Just(Absent)] }

  const DELEG := NO_FLAGS.(deleg := true)
  const MIGR := NO_FLAGS.(migrated := true)

  // ---- a delegation is recalled before it arrives

  function Asked(): Packet { ReqCall(0, 1, 0, 7, true, FETCH_WITH_HEADER, 0) }

  function Push1(): Packet { Update(0, 1, Header(4, 0, MIGR), ONE) }

  function Grant1(): Packet { ReplyRo(0, 1, 7, Header(3, 0, NO_FLAGS.(ro := true)), ONE) }

  function Full(rsn: int, dmaster: nat, f: Flags): Rec { Present(Header(rsn, dmaster, f), ONE) }

  function Wrote(): Event { Exec(SETS, [], ONE, []) }

  /** Node 0 writes; node 1 asks for a read-only copy and gets one; before it
      arrives, node 0 is asked to write again and recalls it; then the cluster
      recovers and node 1 owns the record. */
  function Recall(k: nat): State
    requires k < 6
  {
    match k
    case 0 => State(0, 0, Pair(Just(Absent), Just(Absent)), multiset{}, [])
    case 1 => State(0, 0, Pair(Just(Full(2, 0, NO_FLAGS)), Just(Absent)), multiset{}, [Wrote()])
    case 2 => State(0, 0, Pair(Just(Full(2, 0, NO_FLAGS)), Just(Absent)), multiset{Asked()}, [Wrote()])
    case 3 => State(0, 0, Pair(NodeState(Full(5, 0, DELEG), {1}, Idle), Just(Absent)), multiset{Grant1()},
                    [Wrote(), Delegated(1, ONE)])
    case 4 => State(0, 0, Pair(NodeState(Full(5, 0, DELEG.(revoking := true)), {1}, Running(5, ONE, {1}, false)),
                               Just(Absent)),
                    multiset{Grant1(), Push1()}, [Wrote(), Delegated(1, ONE)])
    case 5 => State(0, 1, Recalled(), multiset{Grant1(), Push1()}, [Wrote(), Delegated(1, ONE), Cleared])
  }

  function Recalled(): seq<NodeState> {
    [Just(Full(5, 1, MIGR)), Just(Full(6, 1, MIGR)), Just(Full(5, 1, MIGR))]
  }

  lemma Recall1()
    ensures Goes(Recall(0), Call(0, false, SETS, 6), Recall(1))
  {
    var e, ns := EnvOf(Three(), Recall(0), 0), Recall(0).nodes[0];
    assert PreCall(e, ns) == Just(Own(1, NO_FLAGS)) && PreHeader(e, ns) == Header(1, 0, NO_FLAGS);
    var eff := Effect(Just(Full(2, 0, NO_FLAGS)), multiset{}, false, false, [Wrote()]);
    assert CallLocal(e, Just(Own(1, NO_FLAGS)), Header(1, 0, NO_FLAGS), [], SETS) == eff;
    assert ClientCall(e, ns, false, SETS, 6) == eff.(log := [] + eff.log);
    assert multiset{} + eff.out == Recall(1).net && [] + eff.log == Recall(1).log;
  }

  lemma Recall2()
    ensures Goes(Recall(1), Call(1, true, FETCH_WITH_HEADER, 7), Recall(2))
  {
    assert PreCall(EnvOf(Three(), Recall(1), 1), Recall(1).nodes[1]) == Recall(1).nodes[1];
    ByEffect(Recall(1), Call(1, true, FETCH_WITH_HEADER, 7), Effect(Just(Absent), multiset{Asked()}, false, false, []),
             Recall(2));
  }

  lemma Recall3()
    ensures Goes(Recall(2), Deliver(Asked(), NoCall), Recall(3))
  {
    var e, ns := EnvOf(Three(), Recall(2), 0), Recall(2).nodes[0];
    assert PreHeader(e, ns) == ns.rec.h && PreCall(e, ns) == ns;
    var eff := Effect(Recall(3).nodes[0], multiset{Grant1()}, false, false, [Delegated(1, ONE)]);
    assert Delegate(e, ns, ns.rec.h, ONE, Asked()) == eff && [] + eff.log == eff.log;
    Handled(Recall(2), Asked(), eff, Recall(3));
  }

  lemma Recall4()
    ensures Goes(Recall(3), Call(0, false, 0, 8), Recall(4))
  {
    var e, ns := EnvOf(Three(), Recall(3), 0), Recall(3).nodes[0];
    assert PreCall(e, ns) == ns && PreLog(e, ns) == [];
    var eff := StartRevoke(e, ns, ns.rec.h, ONE);
    assert Updates(0, {1}, Header(4, 0, MIGR), ONE) == multiset{Push1()};
    assert eff == Effect(Recall(4).nodes[0], multiset{Push1()}, true, false, []);
    assert ClientCall(e, ns, false, 0, 8) == eff;
    assert Recall(3).net + multiset{Push1()} == Recall(4).net && Recall(3).log + [] == Recall(4).log;
  }

  lemma Recall5()
    ensures Goes(Recall(4), Recover(0, 1, Recalled()), Recall(5))
  {
    assert Recovered(Three(), 0, Recalled(), 1, ONE);
    assert Recall(4).log[..1] == [Wrote()] && Value([Wrote()]) == ONE;
    assert Value(Recall(4).log) == ONE;
    assert Recall(4).log + [Cleared] == Recall(5).log;
  }

  /** A client call or a recovery is never a hazard. */
  lemma NoHazard(s: State, a: Action)
    requires WF(Three(), s) && (a.Call? || a.Resend? || a.Recover?)
    ensures !HazardFor(true, Three(), s, a)
  {
  }

  /** Neither is a call that node 0 takes from node 1. */
  lemma NoHazardHere(s: State, p: Packet)
    requires WF(Three(), s) && s.lm == 0 && p.ReqCall? && p.gen == s.gen && p.src == 1 && p.dst == 0
    ensures !HazardFor(true, Three(), s, Deliver(p, NoCall))
  {
  }

  /** Nor is the arrival of the role away from the lmaster. */
  lemma NoHazardGiven(s: State, p: Packet)
    requires WF(Three(), s) && p.ReplyDmaster?
    ensures !HazardFor(true, Three(), s, Deliver(p, NoCall))
  {
  }

  lemma RecallRuns()
    ensures Reached(true, Recall(3)) && Reached(true, Recall(4)) && Reached(true, Recall(5))
  {
    Begin(true, Recall(0));
    Recall1(); NoHazard(Recall(0), Call(0, false, SETS, 6));
    Next(true, Recall(0), Call(0, false, SETS, 6), Recall(1));
    Recall2(); NoHazard(Recall(1), Call(1, true, FETCH_WITH_HEADER, 7));
    Next(true, Recall(1), Call(1, true, FETCH_WITH_HEADER, 7), Recall(2));
    Recall3(); NoHazardHere(Recall(2), Asked());
    Next(true, Recall(2), Deliver(Asked(), NoCall), Recall(3));
    Recall4(); NoHazard(Recall(3), Call(0, false, 0, 8));
    Next(true, Recall(3), Call(0, false, 0, 8), Recall(4));
    Recall5(); NoHazard(Recall(4), Recover(0, 1, Recalled()));
    Next(true, Recall(4), Recover(0, 1, Recalled()), Recall(5));
  }

  /** A store over a delegated record. */
  lemma StoreIsReachable()
    ensures var s, a := Recall(3), Action.Store(0, [2]);
            Reached(true, s) && WF(Three(), s) && Enabled(Three(), s, a) && StoresOver(Three(), s, a)
  {
    RecallRuns();
  }

  /** A push that finds nothing to replace. */
  lemma SkipIsReachable()
    ensures var s, a := Recall(4), Deliver(Push1(), NoCall);
            Reached(true, s) && WF(Three(), s) && Enabled(Three(), s, a) && CopyHazard(Three(), s, a)
  {
    RecallRuns();
    assert Grant1() in Recall(4).net;
  }

  /** A push that arrives a generation late and takes the role off its owner. */
  lemma LatePushIsReachable()
    ensures var s, a := Recall(5), Deliver(Push1(), NoCall);
            && Reached(true, s) && WF(Three(), s) && Enabled(Three(), s, a) && NameHazard(Three(), s, a)
            && NoHolder(Three(), Apply(Three(), s, a))
  {
    RecallRuns();
    LateHere();
    var loc := ReachedInv(Recall(5));
    assert EffDm(0, Recall(5).nodes[1].rec) == 1;
    TakenNameBreaks(Three(), Recall(5), loc, Push1(), NoCall);
  }

  lemma LateHere()
    ensures var s := Recall(5); WF(Three(), s) && LateStored(s, Push1()) && TakesName(s, Push1()) && Push1() in s.net
  {
  }

  lemma ReachedInv(s: State) returns (loc: Loc)
    requires Reached(true, s)
    ensures Inv(false, Three(), s, loc)
  {
    var ss, acts :| EndsIn(true, ss, acts, s);
    loc := RunKeepsInv(false, Three(), ss, acts, |acts|);
  }

  // ---- the record goes to node 1

  function Wants(): Packet { ReqCall(0, 1, 0, 8, false, 0, 0) }

  function Gives(): Packet { ReplyDmaster(0, 1, 8, 1, NO_FLAGS, []) }

  /** Node 1 asks for the record of an empty database and gets it, while the
      packets in `rest` wait. */
  function Moved(k: nat, rest: multiset<Packet>): State
    requires k < 4
  {
    match k
    case 0 => State(0, 0, Pair(Just(Absent), Just(Absent)), rest, [])
    case 1 => State(0, 0, Pair(Just(Absent), Just(Absent)), rest + multiset{Wants()}, [])
    case 2 => State(0, 0, Pair(Just(Named1(1, NO_FLAGS)), Just(Absent)), rest + multiset{Gives()}, [])
    case 3 => State(0, 0, Pair(Just(Named1(1, NO_FLAGS)), Just(Named1(2, NO_FLAGS))), rest, [])
  }

  /** A step whose effect is known. */
  lemma ByEffect(s: State, a: Action, eff: Effect, t: State)
    requires WF(Three(), s) && !a.Recover? && Enabled(Three(), s, a) && EffectOf(Three(), s, a) == eff
    requires t == s.(nodes := s.nodes[Actor(a) := eff.ns], log := s.log + eff.log,
                     net := (if a.Deliver? && !eff.parked then s.net - multiset{a.p} else s.net) + eff.out)
    ensures Goes(s, a, t)
  {
  }

  lemma Handled(s: State, p: Packet, eff: Effect, t: State)
    requires WF(Three(), s) && p.ReqCall? && p.gen == s.gen && p.dst < 3 && p in s.net
    requires RequestCall(EnvOf(Three(), s, p.dst), s.nodes[p.dst], p) == eff && !eff.parked
    requires t == s.(nodes := s.nodes[p.dst := eff.ns], net := s.net - multiset{p} + eff.out, log := s.log + eff.log)
    ensures Goes(s, Deliver(p, NoCall), t)
  {
    ByEffect(s, Deliver(p, NoCall), eff, t);
  }

  lemma Moved1(rest: multiset<Packet>)
    ensures Goes(Moved(0, rest), Call(1, false, 0, 8), Moved(1, rest))
  {
    var s := Moved(0, rest);
    ByEffect(s, Call(1, false, 0, 8), Effect(Just(Absent), multiset{Wants()}, false, false, []), Moved(1, rest));
  }

  lemma Moved2(rest: multiset<Packet>)
    ensures Goes(Moved(1, rest), Deliver(Wants(), NoCall), Moved(2, rest))
  {
    var s := Moved(1, rest);
    var e := EnvOf(Three(), s, 0);
    assert PreCall(e, s.nodes[0]) == Just(Own(1, NO_FLAGS)) && PreHeader(e, s.nodes[0]) == Header(1, 0, NO_FLAGS);
    var eff := Effect(Just(Named1(1, NO_FLAGS)), multiset{Gives()}, false, false, []);
    assert SendDmaster(e, Just(Own(1, NO_FLAGS)), Header(1, 0, NO_FLAGS), [], 1, 8) == eff;
    assert rest + multiset{Wants()} - multiset{Wants()} == rest;
    ByEffect(s, Deliver(Wants(), NoCall), eff, Moved(2, rest));
  }

  lemma Moved3(rest: multiset<Packet>)
    ensures Goes(Moved(2, rest), Deliver(Gives(), NoCall), Moved(3, rest))
  {
    var s := Moved(2, rest);
    assert rest + multiset{Gives()} - multiset{Gives()} + multiset{} == rest;
    ByEffect(s, Deliver(Gives(), NoCall), Effect(Just(Named1(2, NO_FLAGS)), multiset{}, false, false, []),
             Moved(3, rest));
  }

  lemma MovedRuns(rest: multiset<Packet>)
    requires Reached(true, Moved(0, rest))
    ensures Reached(true, Moved(3, rest))
  {
    Moved1(rest); NoHazard(Moved(0, rest), Call(1, false, 0, 8));
    Next(true, Moved(0, rest), Call(1, false, 0, 8), Moved(1, rest));
    Moved2(rest); NoHazardHere(Moved(1, rest), Wants());
    Next(true, Moved(1, rest), Deliver(Wants(), NoCall), Moved(2, rest));
    Moved3(rest); NoHazardGiven(Moved(2, rest), Gives());
    Next(true, Moved(2, rest), Deliver(Gives(), NoCall), Moved(3, rest));
  }

  // ---- the record comes home and vanishes

  function Fetches(): Packet { ReqCall(0, 0, 1, 9, false, FAILS, 0) }

  function Returns(): Packet { ReqDmaster(0, 1, 0, 9, 0, 2, NO_FLAGS, []) }

  function Home(k: nat): State
    requires k < 2
  {
    match k
    case 0 => Moved(3, multiset{}).(net := multiset{Fetches()})
    case 1 => State(0, 0, Pair(Just(Named1(1, NO_FLAGS)), Just(Absent)), multiset{Returns()}, [])
  }

  lemma Home1()
    ensures Goes(Moved(3, multiset{}), Call(0, false, FAILS, 9), Home(0))
  {
    var s := Moved(3, multiset{});
    ByEffect(s, Call(0, false, FAILS, 9), Effect(Just(Named1(1, NO_FLAGS)), multiset{Fetches()}, false, false, []),
             Home(0));
  }

  lemma Home2()
    ensures Goes(Home(0), Deliver(Fetches(), NoCall), Home(1))
  {
    var s := Home(0);
    var e := EnvOf(Three(), s, 1);
    var eff := Effect(Just(Absent), multiset{Returns()}, false, false, []);
    assert SendDmaster(e, s.nodes[1], Header(2, 1, NO_FLAGS), [], 0, 9) == eff;
    ByEffect(s, Deliver(Fetches(), NoCall), eff, Home(1));
  }

  lemma Home2Safe()
    ensures !HazardFor(true, Three(), Home(0), Deliver(Fetches(), NoCall))
  {
  }

  /** The record of a vacuum migration whose call fails vanishes on the lmaster. */
  lemma ResetIsReachable()
    ensures var s, a := Home(1), Deliver(Returns(), Pending(FAILS, true));
            Reached(true, s) && WF(Three(), s) && Enabled(Three(), s, a) && Resets(Three(), s, a)
  {
    Begin(true, Moved(0, multiset{}));
    MovedRuns(multiset{});
    Home1(); NoHazard(Moved(3, multiset{}), Call(0, false, FAILS, 9));
    Next(true, Moved(3, multiset{}), Call(0, false, FAILS, 9), Home(0));
    Home2(); Home2Safe();
    Next(true, Home(0), Deliver(Fetches(), NoCall), Home(1));
  }

  // ---- the owner delegates to itself

  function Back(): Packet { ReqCall(0, 1, 1, 7, true, FETCH_WITH_HEADER, 1) }

  function SelfGrant(): Packet { ReplyRo(0, 1, 7, Header(3, 1, NO_FLAGS.(ro := true)), []) }

  function OtherAsks(): Packet { ReqCall(0, 0, 1, 9, true, FETCH_WITH_HEADER, 0) }

  function OtherGrant(): Packet { ReplyRo(0, 0, 9, Header(3, 1, NO_FLAGS.(ro := true)), []) }

  function PushTo(t: nat): Packet { Update(0, t, Header(4, 1, MIGR), []) }

  function OtherWants(): Packet { ReqCall(0, 0, 1, 11, false, 0, 0) }

  function GoesOver(): Packet { ReqDmaster(0, 1, 0, 11, 0, 5, MIGR, []) }

  function Both(): Revoke { Running(5, [], {0, 1}, false) }

  const TWO := [Delegated(1, []), Delegated(0, [])]

  /** Both nodes have a copy on its way; the given states and packets. */
  function Twice(a: NodeState, b: NodeState, net: multiset<Packet>): State { State(0, 0, Pair(a, b), net, TWO) }

  function Far(): NodeState { Just(Named1(1, NO_FLAGS)) }

  function Near(rec: Rec): NodeState { NodeState(rec, {0, 1}, Both()) }

  /** The call for a read-only copy that node 1 sent before it owned the record
      comes back to it; node 0 gets a copy too; node 1's own push ends the mark of
      its revoke, and the record goes to node 0 before the push to node 0 arrives. */
  function Self(k: nat): State
    requires k < 5
  {
    match k
    case 0 => Moved(3, multiset{}).(net := multiset{Back()})
    case 1 => State(0, 0, Pair(Far(), NodeState(Named1(5, DELEG), {1}, Idle)), multiset{SelfGrant()},
                    [Delegated(1, [])])
    case 2 => State(0, 0, Pair(Far(), NodeState(Named1(5, DELEG), {1}, Idle)), multiset{SelfGrant(), OtherAsks()},
                    [Delegated(1, [])])
    case 3 => Twice(Far(), NodeState(Named1(5, DELEG), {0, 1}, Idle), multiset{SelfGrant(), OtherGrant()})
    case 4 => Twice(Far(), Near(Named1(5, DELEG.(revoking := true))),
                    multiset{SelfGrant(), OtherGrant()} + multiset{PushTo(0), PushTo(1)})
  }

  lemma Self0()
    ensures Goes(Moved(3, multiset{Asked()}), Deliver(Asked(), NoCall), Self(0))
    ensures !HazardFor(true, Three(), Moved(3, multiset{Asked()}), Deliver(Asked(), NoCall))
  {
    var s := Moved(3, multiset{Asked()});
    NoHazardHere(s, Asked());
    ByEffect(s, Deliver(Asked(), NoCall), Effect(s.nodes[0], multiset{Back()}, false, false, []), Self(0));
  }

  lemma Self1()
    ensures Goes(Self(0), Deliver(Back(), NoCall), Self(1)) && GrantsSelf(Three(), Self(0), Deliver(Back(), NoCall))
  {
    var s := Self(0);
    var e := EnvOf(Three(), s, 1);
    var eff := Effect(NodeState(Named1(5, DELEG), {1}, Idle), multiset{SelfGrant()}, false, false, [Delegated(1, [])]);
    assert Delegate(e, s.nodes[1], Header(2, 1, NO_FLAGS), [], Back()) == eff;
    assert [] + eff.log == eff.log;
    ByEffect(s, Deliver(Back(), NoCall), eff, Self(1));
  }

  lemma Self2()
    ensures Goes(Self(1), Call(0, true, FETCH_WITH_HEADER, 9), Self(2))
  {
    var s := Self(1);
    ByEffect(s, Call(0, true, FETCH_WITH_HEADER, 9), Effect(s.nodes[0], multiset{OtherAsks()}, false, false, []),
             Self(2));
  }

  lemma Self3()
    ensures Goes(Self(2), Deliver(OtherAsks(), NoCall), Self(3))
  {
    var s := Self(2);
    var e := EnvOf(Three(), s, 1);
    var eff := Effect(NodeState(Named1(5, DELEG), {0, 1}, Idle), multiset{OtherGrant()}, false, false,
                      [Delegated(0, [])]);
    assert Delegate(e, s.nodes[1], Header(5, 1, DELEG), [], OtherAsks()) == eff;
    assert [] + eff.log == eff.log;
    ByEffect(s, Deliver(OtherAsks(), NoCall), eff, Self(3));
  }

  lemma Self4()
    ensures Goes(Self(3), Call(1, false, 0, 10), Self(4))
  {
    var s := Self(3);
    var e, ns := EnvOf(Three(), s, 1), s.nodes[1];
    var eff := Effect(Self(4).nodes[1], multiset{PushTo(0), PushTo(1)}, true, false, []);
    assert (set t | t in {0, 1} :: PushTo(t)) == {PushTo(0), PushTo(1)};
    assert Updates(0, {0, 1}, Header(4, 1, MIGR), []) == multiset{PushTo(0), PushTo(1)};
    assert StartRevoke(e, ns, ns.rec.h, []) == eff;
    ByEffect(s, Call(1, false, 0, 10), eff, Self(4));
  }

  lemma Strips(net: multiset<Packet>)
    ensures Goes(Twice(Far(), Near(Named1(5, DELEG.(revoking := true))), net + multiset{PushTo(1)}),
                 Deliver(PushTo(1), NoCall),
                 Twice(Far(), Near(Named1(5, MIGR)), net + multiset{Ack(0, 1, 1, true)}))
  {
    var s := Twice(Far(), Near(Named1(5, DELEG.(revoking := true))), net + multiset{PushTo(1)});
    var eff := Effect(Near(Named1(5, MIGR)), multiset{Ack(0, 1, 1, true)}, false, false, []);
    assert UpdateRecord(EnvOf(Three(), s, 1), s.nodes[1], PushTo(1)) == eff;
    assert net + multiset{PushTo(1)} - multiset{PushTo(1)} == net;
    ByEffect(s, Deliver(PushTo(1), NoCall), eff,
             Twice(Far(), Near(Named1(5, MIGR)), net + multiset{Ack(0, 1, 1, true)}));
  }

  lemma AsksOver(net: multiset<Packet>)
    ensures Goes(Twice(Far(), Near(Named1(5, MIGR)), net), Call(0, false, 0, 11),
                 Twice(Far(), Near(Named1(5, MIGR)), net + multiset{OtherWants()}))
  {
    var s := Twice(Far(), Near(Named1(5, MIGR)), net);
    ByEffect(s, Call(0, false, 0, 11), Effect(Far(), multiset{OtherWants()}, false, false, []),
             Twice(Far(), Near(Named1(5, MIGR)), net + multiset{OtherWants()}));
  }

  lemma SendsOver(net: multiset<Packet>)
    ensures Goes(Twice(Far(), Near(Named1(5, MIGR)), net + multiset{OtherWants()}), Deliver(OtherWants(), NoCall),
                 Twice(Far(), Near(Own(5, MIGR)), net + multiset{GoesOver()}))
  {
    var s := Twice(Far(), Near(Named1(5, MIGR)), net + multiset{OtherWants()});
    var eff := Effect(Near(Own(5, MIGR)), multiset{GoesOver()}, false, false, []);
    assert SendDmaster(EnvOf(Three(), s, 1), s.nodes[1], Header(5, 1, MIGR), [], 0, 11) == eff;
    assert net + multiset{OtherWants()} - multiset{OtherWants()} == net;
    ByEffect(s, Deliver(OtherWants(), NoCall), eff, Twice(Far(), Near(Own(5, MIGR)), net + multiset{GoesOver()}));
  }

  lemma LandsOver(net: multiset<Packet>)
    ensures Goes(Twice(Far(), Near(Own(5, MIGR)), net + multiset{GoesOver()}), Deliver(GoesOver(), NoCall),
                 Twice(Just(Own(6, MIGR)), Near(Own(5, MIGR)), net))
  {
    var s := Twice(Far(), Near(Own(5, MIGR)), net + multiset{GoesOver()});
    var eff := Quiet(Just(Own(6, MIGR)));
    assert BecomeDmaster(EnvOf(Three(), s, 0), s.nodes[0], 5, MIGR, [], NoCall) == eff;
    assert net + multiset{GoesOver()} - multiset{GoesOver()} + multiset{} == net;
    ByEffect(s, Deliver(GoesOver(), NoCall), eff, Twice(Just(Own(6, MIGR)), Near(Own(5, MIGR)), net));
  }

  lemma PushedOver(net: multiset<Packet>)
    ensures Goes(Twice(Just(Own(6, MIGR)), Near(Own(5, MIGR)), net + multiset{PushTo(0)}), Deliver(PushTo(0), NoCall),
                 Twice(Just(Named1(4, MIGR)), Near(Own(5, MIGR)), net + multiset{Ack(0, 1, 0, true)}))
  {
    var s := Twice(Just(Own(6, MIGR)), Near(Own(5, MIGR)), net + multiset{PushTo(0)});
    var eff := Effect(Just(Named1(4, MIGR)), multiset{Ack(0, 1, 0, true)}, false, false, []);
    assert UpdateRecord(EnvOf(Three(), s, 0), s.nodes[0], PushTo(0)) == eff;
    assert net + multiset{PushTo(0)} - multiset{PushTo(0)} == net;
    ByEffect(s, Deliver(PushTo(0), NoCall), eff,
             Twice(Just(Named1(4, MIGR)), Near(Own(5, MIGR)), net + multiset{Ack(0, 1, 0, true)}));
  }

  lemma SelfGrantIsReachable()
    ensures Reached(true, Self(0)) && WF(Three(), Self(0))
    ensures Enabled(Three(), Self(0), Deliver(Back(), NoCall)) && GrantsSelf(Three(), Self(0), Deliver(Back(), NoCall))
  {
    RecallBegins();
    MovedRuns(multiset{Asked()});
    Self0();
    Next(true, Moved(3, multiset{Asked()}), Deliver(Asked(), NoCall), Self(0));
    Self1();
  }

  lemma RecallBegins()
    ensures Reached(true, Moved(0, multiset{Asked()}))
  {
    var s := Moved(0, multiset{});
    Begin(true, s);
    ByEffect(s, Call(1, true, FETCH_WITH_HEADER, 7), Effect(Just(Absent), multiset{Asked()}, false, false, []),
             Moved(0, multiset{Asked()}));
    NoHazard(s, Call(1, true, FETCH_WITH_HEADER, 7));
    Next(true, s, Call(1, true, FETCH_WITH_HEADER, 7), Moved(0, multiset{Asked()}));
  }

  /** Nobody holds the role: each node names the other, and no packet carries it. */
  function Nobody(): State {
    Twice(Just(Named1(4, MIGR)), Near(Own(5, MIGR)),
          multiset{SelfGrant(), OtherGrant()} + multiset{Ack(0, 1, 1, true)} + multiset{Ack(0, 1, 0, true)})
  }

  /** After the owner delegated to itself the cluster can end up with nobody
      holding the role. */
  lemma SelfGrantLosesRole()
    ensures Reached(false, Nobody()) && WF(Three(), Nobody()) && NoHolder(Three(), Nobody())
  {
    SelfStarts();
    SelfEnds(multiset{SelfGrant(), OtherGrant()});
    NobodyHolds();
  }

  lemma NobodyHolds()
    ensures WF(Three(), Nobody()) && NoHolder(Three(), Nobody())
  {
  }

  lemma SelfStarts()
    ensures Reached(false, Self(4))
  {
    SelfGrantIsReachable();
    Forget(Self(0));
    Self1(); Next(false, Self(0), Deliver(Back(), NoCall), Self(1));
    Self2(); Next(false, Self(1), Call(0, true, FETCH_WITH_HEADER, 9), Self(2));
    Self3(); Next(false, Self(2), Deliver(OtherAsks(), NoCall), Self(3));
    Self4(); Next(false, Self(3), Call(1, false, 0, 10), Self(4));
  }

  lemma SelfEnds(g: multiset<Packet>)
    requires Reached(false, Twice(Far(), Near(Named1(5, DELEG.(revoking := true))), g + multiset{PushTo(0), PushTo(1)}))
    ensures Reached(false, Twice(Just(Named1(4, MIGR)), Near(Own(5, MIGR)),
                                 g + multiset{Ack(0, 1, 1, true)} + multiset{Ack(0, 1, 0, true)}))
  {
    assert g + multiset{PushTo(0), PushTo(1)} == (g + multiset{PushTo(0)}) + multiset{PushTo(1)};
    Strips(g + multiset{PushTo(0)});
    var n5 := g + multiset{PushTo(0)} + multiset{Ack(0, 1, 1, true)};
    Next(false, Twice(Far(), Near(Named1(5, DELEG.(revoking := true))), g + multiset{PushTo(0), PushTo(1)}),
         Deliver(PushTo(1), NoCall),
         Twice(Far(), Near(Named1(5, MIGR)), n5));
    SelfMoves(n5);
    assert n5 == (g + multiset{Ack(0, 1, 1, true)}) + multiset{PushTo(0)};
    PushedOver(g + multiset{Ack(0, 1, 1, true)});
    Next(false, Twice(Just(Own(6, MIGR)), Near(Own(5, MIGR)), n5), Deliver(PushTo(0), NoCall),
         Twice(Just(Named1(4, MIGR)), Near(Own(5, MIGR)),
               g + multiset{Ack(0, 1, 1, true)} + multiset{Ack(0, 1, 0, true)}));
  }

  lemma SelfMoves(net: multiset<Packet>)
    requires Reached(false, Twice(Far(), Near(Named1(5, MIGR)), net))
    ensures Reached(false, Twice(Just(Own(6, MIGR)), Near(Own(5, MIGR)), net))
  {
    AsksOver(net);
    Next(false, Twice(Far(), Near(Named1(5, MIGR)), net), Call(0, false, 0, 11),
         Twice(Far(), Near(Named1(5, MIGR)), net + multiset{OtherWants()}));
    SendsOver(net);
    Next(false, Twice(Far(), Near(Named1(5, MIGR)), net + multiset{OtherWants()}), Deliver(OtherWants(), NoCall),
         Twice(Far(), Near(Own(5, MIGR)), net + multiset{GoesOver()}));
    LandsOver(net);
    Next(false, Twice(Far(), Near(Own(5, MIGR)), net + multiset{GoesOver()}), Deliver(GoesOver(), NoCall),
         Twice(Just(Own(6, MIGR)), Near(Own(5, MIGR)), net));
  }

  lemma Forget(s: State)
    requires Reached(true, s)
    ensures Reached(false, s)
  {
    var ss, acts :| EndsIn(true, ss, acts, s);
    assert EndsIn(false, ss, acts, s);
  }
}
