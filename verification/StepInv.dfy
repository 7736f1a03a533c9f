/** Every step that is no hazard keeps the invariant. */
module StepInv {
  import opened Ltdb
  import opened Protocol
  import opened Cluster
  import opened ClusterInv
  import opened Moves
  import opened RevokeMoves
  import opened Steps
  import opened Handlers

  /** The header a new dmaster ends up with after its first store. */
  function BecomeHeader(me: nat, lm: nat, p: Packet, pend: Pending): Header
    requires Token(p)
  {
    var vac := pend.Pending? && pend.vac;
    StoredHeader(me, lm, Header(p.rsn, me, if vac then p.flags.(vacuum := true) else p.flags), p.data)
  }

  lemma BecomeInv(full: bool, c: Config, s: State, loc: Loc, me: nat, pend: Pending)
    requires ValidConfig(c) && Inv(full, c, s, loc) && !loc.At?
    requires if loc.OnReq? then loc.p.newdm == s.lm && me == s.lm else me == loc.p.dst
    requires BecomeDmaster(EnvOf(c, s, me), s.nodes[me], loc.p.rsn, loc.p.flags, loc.p.data, pend).ns.rec.Present?
    ensures var eff := BecomeDmaster(EnvOf(c, s, me), s.nodes[me], loc.p.rsn, loc.p.flags, loc.p.data, pend);
            var s' := Take(s, me, eff, s.net - multiset{loc.p});
            Inv(full, c, s', At(me)) && Progress(full, s, loc, s', At(me))
  {
    assert NodeOk(full, c, s, loc, me);
    if pend.NoCall? || c.ops(pend.callid, loc.p.data).Failed? {
      BecomeOnly(full, c, s, loc, me, pend);
    } else {
      var h := BecomeHeader(me, s.lm, loc.p, pend);
      var rec := Present(h.(rsn := loc.p.rsn + 1), loc.p.data);
      Arrive(full, c, s, loc, me, rec);
      CallLocalRw(full, c, Arrived(s, loc, me, rec), me, h, pend.callid);
      BecomeThenCall(c, s, loc, me, pend);
    }
  }

  lemma BecomeOnly(full: bool, c: Config, s: State, loc: Loc, me: nat, pend: Pending)
    requires Inv(full, c, s, loc) && !loc.At?
    requires if loc.OnReq? then loc.p.newdm == s.lm && me == s.lm else me == loc.p.dst
    requires pend.NoCall? || c.ops(pend.callid, loc.p.data).Failed?
    requires BecomeDmaster(EnvOf(c, s, me), s.nodes[me], loc.p.rsn, loc.p.flags, loc.p.data, pend).ns.rec.Present?
    ensures var eff := BecomeDmaster(EnvOf(c, s, me), s.nodes[me], loc.p.rsn, loc.p.flags, loc.p.data, pend);
            var s' := Take(s, me, eff, s.net - multiset{loc.p});
            Inv(full, c, s', At(me)) && Progress(full, s, loc, s', At(me))
  {
    var rec := BecomeDmaster(EnvOf(c, s, me), s.nodes[me], loc.p.rsn, loc.p.flags, loc.p.data, pend).ns.rec;
    assert NodeOk(full, c, s, loc, me);
    BecomeEffect(c, s, loc, me, pend);
    Arrive(full, c, s, loc, me, rec);
  }

  lemma BecomeEffect(c: Config, s: State, loc: Loc, me: nat, pend: Pending)
    requires WF(c, s) && me < c.n && !loc.At? && Token(loc.p) && s.nodes[me].tracking == {}
             && s.nodes[me].revoke == Idle
    requires pend.NoCall? || c.ops(pend.callid, loc.p.data).Failed?
    ensures var eff := BecomeDmaster(EnvOf(c, s, me), s.nodes[me], loc.p.rsn, loc.p.flags, loc.p.data, pend);
            Take(s, me, eff, s.net - multiset{loc.p}) == Arrived(s, loc, me, eff.ns.rec)
  {
  }

  /** A call that runs stores the record again, even when the first store
      deleted it on behalf of a vacuum migration. */
  lemma BecomeThenCall(c: Config, s: State, loc: Loc, me: nat, pend: Pending)
    requires WF(c, s) && me < c.n && s.nodes[me].tracking == {} && s.nodes[me].revoke == Idle
    requires !loc.At? && Token(loc.p) && pend.Pending? && c.ops(pend.callid, loc.p.data).Done?
    ensures var p := loc.p; var h := BecomeHeader(me, s.lm, p, pend);
            var s1 := Arrived(s, loc, me, Present(h.(rsn := p.rsn + 1), p.data));
            Take(s, me, BecomeDmaster(EnvOf(c, s, me), s.nodes[me], p.rsn, p.flags, p.data, pend), s.net - multiset{p})
            == Take(s1, me, CallLocal(EnvOf(c, s1, me), s1.nodes[me], h, p.data, pend.callid), s1.net)
  {
  }

  /** On the lmaster a dmaster request always comes from the node its header names. */
  lemma LmasterEffect(full: bool, c: Config, s: State, p: Packet, pend: Pending)
    requires Inv(full, c, s, OnReq(p))
    ensures s.nodes[s.lm].rec.Present?
    ensures var e := EnvOf(c, s, s.lm); var eff := EffectOf(c, s, Deliver(p, pend));
            && eff == RequestDmaster(e, s.nodes[s.lm], p, pend)
            && !eff.fault && !eff.parked
            && (p.newdm == s.lm ==> eff == BecomeDmaster(e, s.nodes[s.lm], p.rsn, p.flags, p.data, pend))
  {
    var me := s.lm;
    assert NodeOk(full, c, s, OnReq(p), me);
    assert s.nodes[me].rec.Present?;
    assert s.nodes[me].(rec := FetchRec(me, me, s.nodes[me].rec)) == s.nodes[me];
  }

  lemma RequestDmasterInv(full: bool, c: Config, s: State, loc0: Loc, p: Packet, pend: Pending) returns (loc: Loc)
    requires ValidConfig(c) && Inv(full, c, s, loc0) && p in s.net && p.ReqDmaster? && p.gen == s.gen && p.dst < c.n
    requires !HazardFor(full, c, s, Deliver(p, pend))
    ensures !EffectOf(c, s, Deliver(p, pend)).fault
    ensures Inv(full, c, Apply(c, s, Deliver(p, pend)), loc)
    ensures !Resets(c, s, Deliver(p, pend)) ==> Progress(full, s, loc0, Apply(c, s, Deliver(p, pend)), loc)
  {
    assert loc0 == OnReq(p);
    LmasterEffect(full, c, s, p, pend);
    if p.newdm == s.lm {
      LandVanishes(c, s, p, pend);
      loc := At(s.lm);
      if LandsEmpty(c, s, p, pend) {
        ResetInv(full, c, s, p, pend);
      } else {
        BecomeInv(full, c, s, loc0, s.lm, pend);
      }
    } else {
      loc := ForwardInv(full, c, s, p, pend);
    }
  }

  /** The record vanishes on the lmaster: with no delegation on the wire that could
      outlive it, and for the copies' sake with no other copy. */
  lemma ResetInv(full: bool, c: Config, s: State, p: Packet, pend: Pending)
    requires Inv(full, c, s, OnReq(p)) && LandsEmpty(c, s, p, pend) && forall q <- s.net :: !Outlives(s, q)
    requires full ==> OnlyHere(s, s.lm) && NoReplies(s)
    ensures Inv(full, c, Apply(c, s, Deliver(p, pend)), At(s.lm))
  {
    ResetEffect(full, c, s, p, pend);
    var s' := s.(nodes := s.nodes[s.lm := NodeState(Absent, {}, Idle)], net := s.net - multiset{p});
    forall q <- s'.net | q.gen == s'.gen ensures PacketOk(full, c, s', At(s.lm), q) {
      assert PacketOk(full, c, s, OnReq(p), q) && !Outlives(s, q);
    }
    forall i | 0 <= i < c.n ensures NodeOk(full, c, s', At(s.lm), i) { assert NodeOk(full, c, s, OnReq(p), i); }
  }

  lemma ResetEffect(full: bool, c: Config, s: State, p: Packet, pend: Pending)
    requires Inv(full, c, s, OnReq(p)) && LandsEmpty(c, s, p, pend)
    ensures Apply(c, s, Deliver(p, pend))
            == s.(nodes := s.nodes[s.lm := NodeState(Absent, {}, Idle)], net := s.net - multiset{p})
  {
    LmasterEffect(full, c, s, p, pend);
    LandVanishes(c, s, p, pend);
    assert NodeOk(full, c, s, OnReq(p), s.lm);
  }

  lemma ForwardInv(full: bool, c: Config, s: State, p: Packet, pend: Pending) returns (loc: Loc)
    requires Inv(full, c, s, OnReq(p)) && p.newdm != s.lm && s.nodes[s.lm].rec.Present?
    ensures var eff := RequestDmaster(EnvOf(c, s, s.lm), s.nodes[s.lm], p, pend);
            var s' := Take(s, s.lm, eff, s.net - multiset{p});
            Inv(full, c, s', loc) && Progress(full, s, OnReq(p), s', loc)
  {
    var me := s.lm;
    assert NodeOk(full, c, s, OnReq(p), me);
    var eff := RequestDmaster(EnvOf(c, s, me), s.nodes[me], p, pend);
    var tok := ReplyDmaster(s.gen, p.newdm, p.reqid, p.rsn, p.flags, p.data);
    assert eff.out == multiset{tok} && eff.log == [];
    loc := OnReply(tok);
    Forward(full, c, s, p, eff.ns.rec, tok);
    assert Take(s, me, eff, s.net - multiset{p})
        == s.(nodes := s.nodes[me := NodeState(eff.ns.rec, {}, Idle)], net := s.net - multiset{p} + multiset{tok});
  }

  lemma ReplyDmasterInv(full: bool, c: Config, s: State, loc: Loc, p: Packet, pend: Pending)
    requires ValidConfig(c) && Inv(full, c, s, loc) && p in s.net && p.ReplyDmaster? && p.gen == s.gen && p.dst < c.n
    ensures Inv(full, c, Apply(c, s, Deliver(p, pend)), At(p.dst))
    ensures Progress(full, s, loc, Apply(c, s, Deliver(p, pend)), At(p.dst))
  {
    assert loc == OnReply(p);
    var eff := BecomeDmaster(EnvOf(c, s, p.dst), s.nodes[p.dst], p.rsn, p.flags, p.data, pend);
    assert eff.ns.rec.Present?;
    BecomeInv(full, c, s, loc, p.dst, pend);
  }

  lemma ReplyRoInv(full: bool, c: Config, s: State, loc: Loc, p: Packet, pend: Pending)
    requires Inv(full, c, s, loc) && p in s.net && p.ReplyRo? && p.gen == s.gen && p.dst < c.n
    ensures Inv(full, c, Apply(c, s, Deliver(p, pend)), loc)
    ensures Progress(full, s, loc, Apply(c, s, Deliver(p, pend)), loc)
  {
    var i := p.dst;
    assert PacketOk(full, c, s, loc, p) && NodeOk(full, c, s, loc, i);
    if pend.Pending? && p.h.rsn > EffRsn(s.nodes[i].rec) {
      Install(full, c, s, loc, p);
      InstallEffect(c, s, p, pend);
    } else {
      assert !(s.nodes[i].rec.Absent? && i == s.lm);
      Consume(full, c, s, loc, p);
      IgnoreEffect(c, s, p, pend);
    }
  }

  lemma InstallEffect(c: Config, s: State, p: Packet, pend: Pending)
    requires WF(c, s) && p in s.net && p.ReplyRo? && p.gen == s.gen && p.dst < c.n && pend.Pending?
    requires !(s.nodes[p.dst].rec.Absent? && p.dst == s.lm)
    requires p.h.rsn > EffRsn(s.nodes[p.dst].rec) && p.h.flags.ro && p.h.flags == p.h.flags.Persistent()
    ensures Apply(c, s, Deliver(p, pend)) == Installed(s, p)
  {
  }

  lemma IgnoreEffect(c: Config, s: State, p: Packet, pend: Pending)
    requires WF(c, s) && p in s.net && p.ReplyRo? && p.gen == s.gen && p.dst < c.n
    requires !(s.nodes[p.dst].rec.Absent? && p.dst == s.lm)
    requires pend.NoCall? || p.h.rsn <= EffRsn(s.nodes[p.dst].rec)
    ensures Apply(c, s, Deliver(p, pend)) == s.(net := s.net - multiset{p})
  {
  }

  lemma UpdateInv(full: bool, c: Config, s: State, loc: Loc, u: Packet, pend: Pending)
    requires Inv(full, c, s, loc) && u in s.net && u.Update? && u.gen == s.gen && u.dst < c.n
    requires !HazardFor(full, c, s, Deliver(u, pend))
    ensures Inv(full, c, Apply(c, s, Deliver(u, pend)), loc)
    ensures Progress(full, s, loc, Apply(c, s, Deliver(u, pend)), loc)
  {
    assert PacketOk(full, c, s, loc, u);
    var a, o := Deliver(u, pend), loc.o;
    assert NodeOk(full, c, s, loc, u.dst);
    if full && s.nodes[u.dst].rec.Absent? {
      assert LosesCopy(c, s, a);
      assert NoHeld(s, Actor(a));
    }
    Push(full, c, s, o, u);
    ApplyUpdate(full, c, s, o, u, pend);
  }

  lemma ApplyUpdate(full: bool, c: Config, s: State, o: nat, u: Packet, pend: Pending)
    requires Inv(full, c, s, At(o)) && u in s.net && u.Update? && u.gen == s.gen && u.dst < c.n
    ensures Apply(c, s, Deliver(u, pend)) == Pushed(s, o, u)
  {
    assert PacketOk(full, c, s, At(o), u) && NodeOk(full, c, s, At(o), o);
    UpdateEffect(c, s, o, u, pend);
  }

  lemma UpdateEffect(c: Config, s: State, o: nat, u: Packet, pend: Pending)
    requires WF(c, s) && u in s.net && u.Update? && u.gen == s.gen && u.dst < c.n && u.h.dmaster == o != u.dst
    requires u.h.flags.migrated && u.h.flags.Persistent() == u.h.flags
    ensures Apply(c, s, Deliver(u, pend)) == Pushed(s, o, u)
  {
    assert s.log + [] == s.log;
  }

  lemma AckInv(full: bool, c: Config, s: State, loc: Loc, a: Packet, pend: Pending)
    requires Inv(full, c, s, loc) && a in s.net && a.Ack? && a.gen == s.gen && a.dst < c.n
    ensures Inv(full, c, Apply(c, s, Deliver(a, pend)), loc)
    ensures Progress(full, s, loc, Apply(c, s, Deliver(a, pend)), loc)
  {
    Answer(full, c, s, loc, a);
    assert Apply(c, s, Deliver(a, pend)) == Answered(s, a.dst, a);
  }

  lemma FinishInv(full: bool, c: Config, s: State, loc: Loc, o: nat)
    requires Inv(full, c, s, loc) && Enabled(c, s, Finish(o))
    ensures !EffectOf(c, s, Finish(o)).fault
    ensures Inv(full, c, Apply(c, s, Finish(o)), loc)
    ensures Progress(full, s, loc, Apply(c, s, Finish(o)), loc)
  {
    assert NodeOk(full, c, s, loc, o);
    Complete(full, c, s, o);
    var s' := Apply(c, s, Finish(o));
    if s.nodes[o].revoke.failed {
      Fail(full, c, s, loc, o);
      assert s' == s.(nodes := s.nodes[o := s.nodes[o].(revoke := Stuck)]);
    } else {
      assert s' == Completed(s, o);
    }
  }

  lemma StoreInv(full: bool, c: Config, s: State, loc: Loc, i: nat, d: Data)
    requires Inv(full, c, s, loc) && Enabled(c, s, Action.Store(i, d)) && !HazardFor(full, c, s, Action.Store(i, d))
    ensures Inv(full, c, Apply(c, s, Action.Store(i, d)), loc)
    ensures Progress(full, s, loc, Apply(c, s, Action.Store(i, d)), loc)
  {
    assert loc == At(i) && NodeOk(full, c, s, loc, i);
    StoreMove(full, c, s, i, d);
    assert Apply(c, s, Action.Store(i, d)) == Stored(s, i, d);
  }

  lemma ResendInv(full: bool, c: Config, s: State, loc: Loc, a: Action)
    requires Inv(full, c, s, loc) && a.Resend? && Enabled(c, s, a)
    ensures Inv(full, c, Apply(c, s, a), loc) && Progress(full, s, loc, Apply(c, s, a), loc)
  {
    var q := ReqCall(s.gen, a.i, a.i, a.reqid, a.ro, a.callid, 0);
    Emit(full, c, s, loc, q);
    assert s.nodes[a.i := s.nodes[a.i]] == s.nodes && s.log + [] == s.log;
  }

  /** A push of an earlier generation. */
  lemma LateUpdateInv(full: bool, c: Config, s: State, loc: Loc, u: Packet, pend: Pending)
    requires Inv(full, c, s, loc) && u in s.net && u.Update? && u.gen != s.gen && u.dst < c.n
    requires !HazardFor(full, c, s, Deliver(u, pend))
    ensures Inv(full, c, Apply(c, s, Deliver(u, pend)), loc)
    ensures Progress(full, s, loc, Apply(c, s, Deliver(u, pend)), loc)
  {
    LateEffect(c, s, u, pend);
    var s1 := LateWire(full, c, s, loc, u);
    if LateStored(s, u) {
      LateGuards(full, c, s, s1, u);
      LateLands(full, c, s, s1, loc, u);
    }
  }

  lemma LateWire(full: bool, c: Config, s: State, loc: Loc, u: Packet) returns (s1: State)
    requires Inv(full, c, s, loc) && u in s.net && u.Update? && u.gen != s.gen && u.dst < c.n
    ensures s1 == s.(net := s.net - multiset{u}
                     + multiset{Ack(u.gen, u.h.dmaster, u.dst, PushOk(s.nodes[u.dst].rec, u))})
    ensures Inv(full, c, s1, loc) && Progress(full, s, loc, s1, loc)
  {
    s1 := s.(net := s.net - multiset{u} + multiset{Ack(u.gen, u.h.dmaster, u.dst, PushOk(s.nodes[u.dst].rec, u))});
    NetFrame(full, c, s, loc, s1.net, s.log);
  }

  lemma LateLands(full: bool, c: Config, s: State, s1: State, loc: Loc, u: Packet)
    requires Inv(full, c, s1, loc) && LocOk(s, loc) && u.Update? && MayArriveLate(full, c, s1, loc, u)
             && s1.nodes == s.nodes && s1.lm == s.lm
    ensures Inv(full, c, WithPush(s1, u), loc) && Progress(full, s, loc, WithPush(s1, u), loc)
  {
    LateTokens(full, c, s1, loc, u);
    LatePush(full, c, s1, loc, u);
  }

  lemma LateGuards(full: bool, c: Config, s: State, s1: State, u: Packet)
    requires WF(c, s) && LateStored(s, u) && !HazardFor(full, c, s, Deliver(u, NoCall))
    requires s1 == s.(net := s.net - multiset{u} + multiset{Ack(u.gen, u.h.dmaster, u.dst, true)})
    ensures LateStored(s1, u) && !TakesName(s1, u) && !RevivesName(s1, u)
    ensures full ==> !TooNew(c, s1, u) && !Revives(s1, u) && !Unsettles(c, s1, u)
  {
  }

  lemma LateEffect(c: Config, s: State, u: Packet, pend: Pending)
    requires WF(c, s) && u in s.net && u.Update? && u.gen != s.gen && u.dst < c.n && PushForm(c, u)
    ensures var s1 := s.(net := s.net - multiset{u}
                         + multiset{Ack(u.gen, u.h.dmaster, u.dst, PushOk(s.nodes[u.dst].rec, u))});
            Apply(c, s, Deliver(u, pend)) == if LateStored(s, u) then WithPush(s1, u) else s1
  {
    assert s.log + [] == s.log && s.nodes[u.dst := s.nodes[u.dst]] == s.nodes;
  }

  lemma PeekInv(full: bool, c: Config, s: State, loc: Loc, i: nat)
    requires Inv(full, c, s, loc) && Enabled(c, s, Peek(i))
    ensures Inv(full, c, Apply(c, s, Peek(i)), loc)
    ensures Progress(full, s, loc, Apply(c, s, Peek(i)), loc)
  {
    assert full ==> Permitted(c.ops, Value(s.log), Read(s.nodes[i].rec.d)) by { assert NodeOk(full, c, s, loc, i); }
    assert s.nodes[i := s.nodes[i]] == s.nodes && s.net + multiset{} == s.net;
    Observe(full, c, s, loc, Read(s.nodes[i].rec.d));
  }

  lemma DeleteInv(full: bool, c: Config, s: State, loc: Loc, i: nat, h: Header)
    requires Inv(full, c, s, loc) && Enabled(c, s, Delete(i, h)) && !HazardFor(full, c, s, Delete(i, h))
    ensures Inv(full, c, Apply(c, s, Delete(i, h)), loc)
    ensures Progress(full, s, loc, Apply(c, s, Delete(i, h)), loc)
  {
    var a := Delete(i, h);
    assert LosesCopy(c, s, a);
    assert full ==> NoHeld(s, Actor(a));
    Lose(full, c, s, loc, i);
    assert Apply(c, s, a) == Lost(s, i);
  }

  lemma RecoverInv(full: bool, c: Config, s: State, loc: Loc, a: Action) returns (loc': Loc)
    requires Inv(full, c, s, loc) && a.Recover? && Enabled(c, s, a)
    ensures Inv(full, c, Apply(c, s, a), loc')
  {
    var o :| Recovered(c, a.lm, a.nodes, o, Value(s.log));
    loc' := At(o);
    Rebuilt(full, c, s, Apply(c, s, a), o);
  }

  lemma Rebuilt(full: bool, c: Config, s: State, s': State, o: nat)
    requires Atomic(full, c.ops, s.log) && PushesOk(c, s) && (forall p <- s.net :: p.gen != s'.gen)
    requires s'.net == s.net && s'.log == s.log + [Cleared] && Recovered(c, s'.lm, s'.nodes, o, Value(s.log))
    ensures Inv(full, c, s', At(o))
  {
    LogSnoc(full, c.ops, s.log, Cleared);
    assert TokenInv(c, s', At(o));
    RecoverTrail(full, c, s', o, Value(s.log));
  }

  lemma RecoverTrail(full: bool, c: Config, s: State, o: nat, v: Data)
    requires WF(c, s) && Recovered(c, s.lm, s.nodes, o, v) && TokenInv(c, s, At(o))
    ensures TrailInv(c, s, At(o))
    ensures forall i | 0 <= i < c.n :: NodeOk(full, c, s, At(o), i)
  {
  }

  lemma DeliverInv(full: bool, c: Config, s: State, loc: Loc, p: Packet, pend: Pending) returns (loc': Loc)
    requires ValidConfig(c) && Inv(full, c, s, loc) && p in s.net && p.dst < c.n
             && !HazardFor(full, c, s, Deliver(p, pend))
    ensures Inv(full, c, Apply(c, s, Deliver(p, pend)), loc')
    ensures !Resets(c, s, Deliver(p, pend)) ==> Progress(full, s, loc, Apply(c, s, Deliver(p, pend)), loc')
  {
    loc' := loc;
    if p.gen != s.gen && p.Update? {
      LateUpdateInv(full, c, s, loc, p, pend);
    } else if p.gen != s.gen || p.ReplyCall? {
      Consume(full, c, s, loc, p);
      assert Apply(c, s, Deliver(p, pend)) == s.(net := s.net - multiset{p});
    } else {
      match p
      case ReqCall(_, _, _, _, _, _, _) => loc' := RequestCallInv(full, c, s, loc, p, pend);
      case ReplyRo(_, _, _, _, _) => ReplyRoInv(full, c, s, loc, p, pend);
      case ReqDmaster(_, _, _, _, _, _, _, _) => loc' := RequestDmasterInv(full, c, s, loc, p, pend);
      case ReplyDmaster(_, _, _, _, _, _) => ReplyDmasterInv(full, c, s, loc, p, pend); loc' := At(p.dst);
      case Update(_, _, _, _) => UpdateInv(full, c, s, loc, p, pend);
      case Ack(_, _, _, _) => AckInv(full, c, s, loc, p, pend);
    }
  }

  /** One step of the cluster. */
  lemma StepKeepsInv(full: bool, c: Config, s: State, loc: Loc, a: Action) returns (loc': Loc)
    requires ValidConfig(c) && Inv(full, c, s, loc) && Enabled(c, s, a) && !HazardFor(full, c, s, a)
    ensures Inv(full, c, Apply(c, s, a), loc')
    ensures !a.Recover? && !Resets(c, s, a) ==> Progress(full, s, loc, Apply(c, s, a), loc')
  {
    loc' := loc;
    match a
    case Call(i, ro, callid, reqid) => ClientCallInv(full, c, s, loc, i, ro, callid, reqid);
    case Store(i, d) => StoreInv(full, c, s, loc, i, d);
    case Resend(_, _, _, _) => ResendInv(full, c, s, loc, a);
    case Peek(i) => PeekInv(full, c, s, loc, i);
    case Deliver(p, pend) => loc' := DeliverInv(full, c, s, loc, p, pend);
    case Finish(i) => FinishInv(full, c, s, loc, i);
    case Timeout(i) =>
      Fail(full, c, s, loc, i);
      assert Apply(c, s, a) == s.(nodes := s.nodes[i := s.nodes[i].(revoke := Stuck)]);
    case Delete(i, h) => DeleteInv(full, c, s, loc, i, h);
    case Recover(_, _, _) => loc' := RecoverInv(full, c, s, loc, a);
  }
}
