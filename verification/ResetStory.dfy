/** A run of three nodes on a database with read-only tracking in which the record
    vanishes on the lmaster while a copy that a revoke left behind is still stored
    elsewhere. The next write is then older than that copy. */
module ResetStory {
  import opened Ltdb
  import opened Protocol
  import opened Cluster
  import opened Steps
  import opened Hazards
  import opened Stories

  function Copy(): Packet { ReplyRo(0, 1, 7, Header(2, 0, NO_FLAGS.(ro := true)), []) }

  function Push(): Packet { Update(0, 1, Header(3, 0, MIGR), []) }

  function Answer(): Packet { Ack(0, 0, 1, true) }

  function Third(): Packet { ReqCall(0, 2, 0, 9, false, 0, 0) }

  function ToThird(): Packet { ReplyDmaster(0, 2, 9, 6, NO_FLAGS, []) }

  function CallsBack(): Packet { ReqCall(0, 0, 2, 10, false, FAILS, 0) }

  function ComesBack(): Packet { ReqDmaster(0, 2, 0, 10, 0, 7, NO_FLAGS, []) }

  function With2(rsn: int): NodeState { Just(Present(Header(rsn, 2, NO_FLAGS), [])) }

  const DONE := DELEG.(revoking := true, complete := true)
  const LENT := [Delegated(1, [])]
  const OVER := [Delegated(1, []), Cleared]

  /** Node 1 gets a read-only copy, which is revoked; the record, which never carried
      data, goes to node 2 and from there back home for a vacuum migration. */
  function Tale(k: nat): State
    requires k < 13
  {
    match k
    case 0 => State(0, 0, [Just(Absent), Just(Absent), Just(Absent)], multiset{}, [])
    case 1 => State(0, 0, [Just(Absent), Just(Absent), Just(Absent)], multiset{Asked()}, [])
    case 2 => State(0, 0, [NodeState(Own(4, DELEG), {1}, Idle), Just(Absent), Just(Absent)], multiset{Copy()}, LENT)
    case 3 => State(0, 0, [NodeState(Own(4, DELEG), {1}, Idle), Just(Own(2, NO_FLAGS.(ro := true))), Just(Absent)],
                    multiset{}, LENT)
    case 4 => State(0, 0, [Revokes({1}), Just(Own(2, NO_FLAGS.(ro := true))), Just(Absent)], multiset{Push()}, LENT)
    case 5 => State(0, 0, [Revokes({1}), Just(Own(3, MIGR)), Just(Absent)], multiset{Answer()}, LENT)
    case 6 => State(0, 0, [Revokes({}), Just(Own(3, MIGR)), Just(Absent)], multiset{}, LENT)
    case 7 => State(0, 0, [NodeState(Own(5, DONE), {1}, Idle), Just(Own(3, MIGR)), Just(Absent)], multiset{}, LENT)
    case 8 => State(0, 0, [NodeState(Own(5, DONE), {1}, Idle), Just(Own(3, MIGR)), Just(Absent)], multiset{Third()},
                    LENT)
    case 9 => State(0, 0, [With2(6), Just(Own(3, MIGR)), Just(Absent)], multiset{ToThird()}, OVER)
    case 10 => State(0, 0, [With2(6), Just(Own(3, MIGR)), With2(7)], multiset{}, OVER)
    case 11 => State(0, 0, [With2(6), Just(Own(3, MIGR)), With2(7)], multiset{CallsBack()}, OVER)
    case 12 => State(0, 0, [With2(6), Just(Own(3, MIGR)), Just(Absent)], multiset{ComesBack()}, OVER)
  }

  function Revokes(waiting: set<nat>): NodeState {
    NodeState(Own(4, DELEG.(revoking := true)), {1}, Running(4, [], waiting, false))
  }

  lemma Tale1()
    ensures Goes(Tale(0), Call(1, true, FETCH_WITH_HEADER, 7), Tale(1))
  {
    ByEffect(Tale(0), Call(1, true, FETCH_WITH_HEADER, 7), Effect(Just(Absent), multiset{Asked()}, false, false, []),
             Tale(1));
  }

  lemma Tale2()
    ensures Goes(Tale(1), Deliver(Asked(), NoCall), Tale(2))
  {
    var e, ns := EnvOf(Three(), Tale(1), 0), Tale(1).nodes[0];
    assert PreHeader(e, ns) == Header(1, 0, NO_FLAGS) && PreCall(e, ns) == Just(Own(1, NO_FLAGS));
    var eff := Effect(Tale(2).nodes[0], multiset{Copy()}, false, false, LENT);
    assert Delegate(e, Just(Own(1, NO_FLAGS)), Header(1, 0, NO_FLAGS), [], Asked()) == eff;
    assert [] + LENT == LENT;
    ByEffect(Tale(1), Deliver(Asked(), NoCall), eff, Tale(2));
  }

  lemma Tale3()
    ensures Goes(Tale(2), Deliver(Copy(), Pending(0, false)), Tale(3))
    ensures !HazardFor(true, Three(), Tale(2), Deliver(Copy(), Pending(0, false)))
  {
    ByEffect(Tale(2), Deliver(Copy(), Pending(0, false)), Quiet(Just(Own(2, NO_FLAGS.(ro := true)))), Tale(3));
  }

  lemma Tale4()
    ensures Goes(Tale(3), Call(0, false, 0, 8), Tale(4))
  {
    var e, ns := EnvOf(Three(), Tale(3), 0), Tale(3).nodes[0];
    assert PreCall(e, ns) == ns && PreLog(e, ns) == [];
    assert Updates(0, {1}, Header(3, 0, MIGR), []) == multiset{Push()};
    var eff := Effect(Revokes({1}), multiset{Push()}, true, false, []);
    assert StartRevoke(e, ns, ns.rec.h, []) == eff;
    ByEffect(Tale(3), Call(0, false, 0, 8), eff, Tale(4));
  }

  lemma Tale5()
    ensures Goes(Tale(4), Deliver(Push(), NoCall), Tale(5))
    ensures !HazardFor(true, Three(), Tale(4), Deliver(Push(), NoCall))
  {
    var eff := Effect(Just(Own(3, MIGR)), multiset{Answer()}, false, false, []);
    assert UpdateRecord(EnvOf(Three(), Tale(4), 1), Tale(4).nodes[1], Push()) == eff;
    ByEffect(Tale(4), Deliver(Push(), NoCall), eff, Tale(5));
  }

  lemma Tale6()
    ensures Goes(Tale(5), Deliver(Answer(), NoCall), Tale(6))
    ensures !HazardFor(true, Three(), Tale(5), Deliver(Answer(), NoCall))
  {
    assert {1} - {1} == {};
    ByEffect(Tale(5), Deliver(Answer(), NoCall), Quiet(Revokes({})), Tale(6));
  }

  lemma Tale7()
    ensures Goes(Tale(6), Finish(0), Tale(7)) && !HazardFor(true, Three(), Tale(6), Finish(0))
  {
    ByEffect(Tale(6), Finish(0), Quiet(Tale(7).nodes[0]), Tale(7));
  }

  lemma Tale8()
    ensures Goes(Tale(7), Call(2, false, 0, 9), Tale(8))
  {
    ByEffect(Tale(7), Call(2, false, 0, 9), Effect(Just(Absent), multiset{Third()}, false, false, []), Tale(8));
  }

  lemma Tale9()
    ensures Goes(Tale(8), Deliver(Third(), NoCall), Tale(9))
  {
    Tale9Effect();
    assert LENT + [Cleared] == OVER;
    Handled(Tale(8), Third(), Effect(With2(6), multiset{ToThird()}, false, false, [Cleared]), Tale(9));
  }

  lemma Tale9Effect()
    ensures RequestCall(EnvOf(Three(), Tale(8), 0), Tale(8).nodes[0], Third())
            == Effect(With2(6), multiset{ToThird()}, false, false, [Cleared])
  {
    var e, ns := EnvOf(Three(), Tale(8), 0), Tale(8).nodes[0];
    var ns1, h := Just(Own(6, NO_FLAGS)), Header(6, 0, NO_FLAGS);
    assert PreCall(e, ns) == ns1 && PreHeader(e, ns) == h && PreLog(e, ns) == [Cleared];
    assert SendDmaster(e, ns1, h, [], 2, 9) == Effect(With2(6), multiset{ToThird()}, false, false, []);
    assert [Cleared] + [] == [Cleared];
  }

  lemma Tale9Safe()
    ensures !HazardFor(true, Three(), Tale(8), Deliver(Third(), NoCall))
  {
  }

  lemma Tale10()
    ensures Goes(Tale(9), Deliver(ToThird(), NoCall), Tale(10))
  {
    ByEffect(Tale(9), Deliver(ToThird(), NoCall), Quiet(With2(7)), Tale(10));
  }

  lemma Tale11()
    ensures Goes(Tale(10), Call(0, false, FAILS, 10), Tale(11))
  {
    ByEffect(Tale(10), Call(0, false, FAILS, 10), Effect(With2(6), multiset{CallsBack()}, false, false, []), Tale(11));
  }

  lemma Tale12()
    ensures Goes(Tale(11), Deliver(CallsBack(), NoCall), Tale(12))
  {
    var eff := Effect(Just(Absent), multiset{ComesBack()}, false, false, []);
    Tale12Effect();
    Handled(Tale(11), CallsBack(), eff, Tale(12));
  }

  lemma Tale12Effect()
    ensures RequestCall(EnvOf(Three(), Tale(11), 2), With2(7), CallsBack())
            == Effect(Just(Absent), multiset{ComesBack()}, false, false, [])
  {
    var e := EnvOf(Three(), Tale(11), 2);
    assert PreCall(e, With2(7)) == With2(7) && PreHeader(e, With2(7)) == Header(7, 2, NO_FLAGS);
    assert SendDmaster(e, With2(7), Header(7, 2, NO_FLAGS), [], 0, 10)
        == Effect(Just(Absent), multiset{ComesBack()}, false, false, []);
  }

  lemma Tale12Safe()
    ensures !HazardFor(true, Three(), Tale(11), Deliver(CallsBack(), NoCall))
  {
  }

  lemma TaleBegins()
    ensures Reached(true, Tale(6))
  {
    Begin(true, Tale(0));
    Tale1(); NoHazard(Tale(0), Call(1, true, FETCH_WITH_HEADER, 7));
    Next(true, Tale(0), Call(1, true, FETCH_WITH_HEADER, 7), Tale(1));
    Tale2(); NoHazardHere(Tale(1), Asked());
    Next(true, Tale(1), Deliver(Asked(), NoCall), Tale(2));
    Tale3(); Next(true, Tale(2), Deliver(Copy(), Pending(0, false)), Tale(3));
    Tale4(); NoHazard(Tale(3), Call(0, false, 0, 8));
    Next(true, Tale(3), Call(0, false, 0, 8), Tale(4));
    Tale5(); Next(true, Tale(4), Deliver(Push(), NoCall), Tale(5));
    Tale6(); Next(true, Tale(5), Deliver(Answer(), NoCall), Tale(6));
  }

  lemma TaleEnds()
    ensures Reached(true, Tale(12))
  {
    TaleBegins();
    Tale7(); Next(true, Tale(6), Finish(0), Tale(7));
    Tale8(); NoHazard(Tale(7), Call(2, false, 0, 9));
    Next(true, Tale(7), Call(2, false, 0, 9), Tale(8));
    Tale9(); Tale9Safe(); Next(true, Tale(8), Deliver(Third(), NoCall), Tale(9));
    Tale10(); NoHazardGiven(Tale(9), ToThird());
    Next(true, Tale(9), Deliver(ToThird(), NoCall), Tale(10));
    Tale11(); NoHazard(Tale(10), Call(0, false, FAILS, 10));
    Next(true, Tale(10), Call(0, false, FAILS, 10), Tale(11));
    Tale12(); Tale12Safe(); Next(true, Tale(11), Deliver(CallsBack(), NoCall), Tale(12));
  }

  lemma TaleResets()
    ensures var s, a := Tale(12), Deliver(ComesBack(), Pending(FAILS, true));
            WF(Three(), s) && Enabled(Three(), s, a) && Resets(Three(), s, a) && OrderHazard(Three(), s, a)
  {
    assert Tale(12).nodes[1].rec.Present?;
  }

  /** The record vanishes on the lmaster while node 1 still stores a copy; what node 0
      writes next is the current value, but the copy on node 1 is the newest one. */
  lemma NewestGoesStale() returns (s1: State, s2: State)
    ensures var s, a := Tale(12), Deliver(ComesBack(), Pending(FAILS, true));
            && Reached(true, s) && WF(Three(), s) && Enabled(Three(), s, a) && OrderHazard(Three(), s, a)
            && s1 == Apply(Three(), s, a) && s2 == Apply(Three(), s1, Call(0, false, SETS, 0))
    ensures Reached(false, s2) && s2.nodes[0].rec.Present? && s2.nodes[1].rec == Own(3, MIGR)
    ensures Value(s2.log) == s2.nodes[0].rec.d != s2.nodes[1].rec.d && s2.nodes[1].rec.h.rsn > s2.nodes[0].rec.h.rsn
  {
    TaleEnds();
    TaleResets();
    s1, s2 := StaleFrom(Tale(12), Deliver(ComesBack(), Pending(FAILS, true)));
  }

  lemma StaleFrom(s: State, a: Action) returns (s1: State, s2: State)
    requires Reached(true, s) && WF(Three(), s) && Enabled(Three(), s, a) && Resets(Three(), s, a)
    requires s.lm == 0 && s.nodes[1].rec == Own(3, MIGR)
    ensures s1 == Apply(Three(), s, a) && s2 == Apply(Three(), s1, Call(0, false, SETS, 0))
    ensures Reached(false, s2) && s2.nodes[0].rec.Present? && s2.nodes[1].rec == Own(3, MIGR)
    ensures Value(s2.log) == s2.nodes[0].rec.d != s2.nodes[1].rec.d && s2.nodes[1].rec.h.rsn > s2.nodes[0].rec.h.rsn
  {
    s1 := Apply(Three(), s, a);
    s2 := Apply(Three(), s1, Call(0, false, SETS, 0));
    GoesOn(s, a, s1, s2);
    Breaks(s, a, s1, s2);
  }

  lemma GoesOn(s: State, a: Action, s1: State, s2: State)
    requires Reached(true, s) && WF(Three(), s) && Enabled(Three(), s, a)
    requires s1 == Apply(Three(), s, a) && s2 == Apply(Three(), s1, Call(0, false, SETS, 0))
    ensures Reached(false, s2)
  {
    Forget(s);
    Next(false, s, a, s1);
    Next(false, s1, Call(0, false, SETS, 0), s2);
  }

  lemma Breaks(s: State, a: Action, s1: State, s2: State)
    requires Reached(true, s) && WF(Three(), s) && Enabled(Three(), s, a) && Resets(Three(), s, a)
    requires s.lm == 0 && s.nodes[1].rec == Own(3, MIGR)
    requires s1 == Apply(Three(), s, a) && s2 == Apply(Three(), s1, Call(0, false, SETS, 0))
    ensures s2.nodes[0].rec.Present? && s2.nodes[1].rec == Own(3, MIGR)
    ensures Value(s2.log) == s2.nodes[0].rec.d != s2.nodes[1].rec.d && s2.nodes[1].rec.h.rsn > s2.nodes[0].rec.h.rsn
  {
    var loc := ReachedInv(s);
    ResetBreaksNewest(Three(), s, loc, a, 1, SETS, s1, s2);
  }
}
