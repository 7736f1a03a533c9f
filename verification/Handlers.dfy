/** Each handler is a composition of moves. */
module Handlers {
  import opened Ltdb
  import opened Protocol
  import opened Cluster
  import opened ClusterInv
  import opened Moves
  import opened Steps

  /** A daemon that owns the record answers a call. */
  ghost predicate MayAnswer(full: bool, c: Config, s: State, o: nat, p: Packet) {
    && ValidConfig(c) && Inv(full, c, s, At(o)) && s.nodes[o].rec.Present?
    && !s.nodes[o].rec.h.flags.revoking && !s.nodes[o].rec.h.flags.complete
    && p.ReqCall? && p.gen == s.gen && p.src < c.n && (p.ro ==> p.callid == FETCH_WITH_HEADER)
  }

  lemma MigrateInv(full: bool, c: Config, s: State, o: nat, p: Packet) returns (loc: Loc)
    requires MayAnswer(full, c, s, o, p) && p.src != o && !s.nodes[o].rec.h.flags.AnyRo()
    requires var rec := s.nodes[o].rec;
             SendDmaster(EnvOf(c, s, o), s.nodes[o], rec.h, rec.d, p.src, p.reqid).ns.rec.Absent? && o != s.lm ==>
               (full ==> NoReplyTo(s, o))
    ensures var rec := s.nodes[o].rec;
            var s' := Take(s, o, SendDmaster(EnvOf(c, s, o), s.nodes[o], rec.h, rec.d, p.src, p.reqid), s.net);
            Inv(full, c, s', loc) && Progress(full, s, At(o), s', loc)
  {
    var rec := s.nodes[o].rec;
    assert NodeOk(full, c, s, At(o), o);
    var eff := SendDmaster(EnvOf(c, s, o), s.nodes[o], rec.h, rec.d, p.src, p.reqid);
    var f := if rec.d != [] then rec.h.flags.(migrated := true) else rec.h.flags;
    var tok := if o == s.lm then ReplyDmaster(s.gen, p.src, p.reqid, rec.h.rsn, f, rec.d)
               else ReqDmaster(s.gen, o, s.lm, p.reqid, p.src, rec.h.rsn, f, rec.d);
    loc := TokenLoc(tok);
    assert eff.out == multiset{tok} && eff.log == [];
    GiveAway(full, c, s, o, p.src, eff.ns.rec, tok);
    assert Take(s, o, eff, s.net)
        == s.(nodes := s.nodes[o := NodeState(eff.ns.rec, {}, Idle)], net := s.net + multiset{tok});
  }

  lemma GrantInv(full: bool, c: Config, s: State, o: nat, p: Packet)
    requires MayAnswer(full, c, s, o, p) && p.src != o
    ensures var rec := s.nodes[o].rec;
            var s' := Take(s, o, Delegate(EnvOf(c, s, o), s.nodes[o], rec.h, rec.d, p), s.net);
            Inv(full, c, s', At(o)) && Progress(full, s, At(o), s', At(o))
  {
    var rec := s.nodes[o].rec;
    assert NodeOk(full, c, s, At(o), o);
    var eff := Delegate(EnvOf(c, s, o), s.nodes[o], rec.h, rec.d, p);
    var h := eff.ns.rec.h;
    GrantEffect(c, s, o, p);
    Grant(full, c, s, o, p.src, p.reqid, h);
  }

  lemma GrantEffect(c: Config, s: State, o: nat, p: Packet)
    requires WF(c, s) && o < c.n && p.ReqCall? && s.nodes[o].rec.Present? && s.nodes[o].revoke == Idle
    requires var f := s.nodes[o].rec.h.flags; !f.revoking && !f.complete && !f.vacuum && !f.automatic
    ensures var g := s.nodes[o].rec.h;
            var h := if g.flags.deleg then g else g.(rsn := g.rsn + 3, flags := g.flags.(deleg := true));
            var eff := Delegate(EnvOf(c, s, o), s.nodes[o], g, s.nodes[o].rec.d, p);
            && eff.ns.rec == Present(h, s.nodes[o].rec.d)
            && Take(s, o, eff, s.net) == Granted(s, o, p.src, p.reqid, h)
  {
  }

  lemma RecallInv(full: bool, c: Config, s: State, o: nat)
    requires MayRecall(full, c, s, o)
    ensures var rec := s.nodes[o].rec;
            var s' := Take(s, o, StartRevoke(EnvOf(c, s, o), s.nodes[o], rec.h, rec.d), s.net);
            Inv(full, c, s', At(o)) && Progress(full, s, At(o), s', At(o))
  {
    var rec := s.nodes[o].rec;
    assert NodeOk(full, c, s, At(o), o);
    Recall(full, c, s, o);
    assert Take(s, o, StartRevoke(EnvOf(c, s, o), s.nodes[o], rec.h, rec.d), s.net) == Revoking(s, o);
  }

  lemma RunInv(full: bool, c: Config, s: State, o: nat, p: Packet)
    requires MayAnswer(full, c, s, o, p)
    requires s.nodes[o].rec.h.flags.AnyRo() ==> p.callid == FETCH_WITH_HEADER
    ensures var rec := s.nodes[o].rec; var e := EnvOf(c, s, o);
            var eff := CallLocal(e, s.nodes[o], rec.h, rec.d, p.callid);
            var r := ReplyCall(e.gen, p.src, p.reqid, CallReply(e, rec.d, p.callid));
            var s' := Take(s, o, eff.(out := multiset{r}), s.net);
            Inv(full, c, s', At(o)) && Progress(full, s, At(o), s', At(o))
  {
    var rec := s.nodes[o].rec;
    var e := EnvOf(c, s, o);
    assert NodeOk(full, c, s, At(o), o);
    var eff := CallLocal(e, s.nodes[o], rec.h, rec.d, p.callid);
    CallLocalInv(full, c, s, o, rec.h, p.callid);
    var s1 := Take(s, o, eff, s.net);
    var r := ReplyCall(e.gen, p.src, p.reqid, CallReply(e, rec.d, p.callid));
    Emit(full, c, s1, At(o), r);
    TakeReply(s, o, eff, r);
  }

  lemma TakeReply(s: State, o: nat, eff: Effect, r: Packet)
    requires o < |s.nodes| && eff.out == multiset{}
    ensures var s1 := Take(s, o, eff, s.net);
            Take(s, o, eff.(out := multiset{r}), s.net) == s1.(net := s1.net + multiset{r})
  {
  }

  lemma AnswerInv(full: bool, c: Config, s: State, o: nat, p: Packet, ro: bool) returns (loc: Loc)
    requires MayAnswer(full, c, s, o, p) && (ro ==> p.ro && p.src != o)
    requires var rec := s.nodes[o].rec;
             AnswerCall(EnvOf(c, s, o), s.nodes[o], rec.h, rec.d, p, ro).ns.rec.Absent? && o != s.lm ==>
               (full ==> NoReplyTo(s, o))
    ensures var rec := s.nodes[o].rec;
            var s' := Take(s, o, AnswerCall(EnvOf(c, s, o), s.nodes[o], rec.h, rec.d, p, ro), s.net);
            Inv(full, c, s', loc) && Progress(full, s, At(o), s', loc)
  {
    var rec := s.nodes[o].rec;
    var f := rec.h.flags;
    assert NodeOk(full, c, s, At(o), o);
    loc := At(o);
    if !ro && (f.deleg || f.ro) { RecallInv(full, c, s, o); }
    else if ro { GrantInv(full, c, s, o, p); }
    else if p.src != o { loc := MigrateInv(full, c, s, o, p); }
    else { RunInv(full, c, s, o, p); }
  }

  /** Fetching first and acting second is the same as the whole handler. */
  lemma TakeAfterPre(c: Config, s: State, i: nat, eff: Effect, net: multiset<Packet>)
    requires WF(c, s) && i < c.n
    ensures var e := EnvOf(c, s, i);
            Take(s, i, eff.(log := PreLog(e, s.nodes[i]) + eff.log), net)
            == Take(PreState(c, s, i), i, eff, net)
  {
  }

  ghost function Routed(c: Config, s: State, i: nat, p: Packet): Effect
    requires WF(c, s) && i < c.n && p.ReqCall?
  {
    RouteCall(EnvOf(c, s, i), s.nodes[i], EffHeader(s.lm, s.nodes[i].rec), EffData(s.nodes[i].rec), p)
  }

  /** A call this daemon cannot answer waits here or goes elsewhere. */
  lemma ForwardCallInv(full: bool, c: Config, s: State, loc: Loc, i: nat, p: Packet)
    requires Inv(full, c, s, loc) && PacketOk(full, c, s, loc, p) && p.ReqCall? && i < c.n
    requires var h := EffHeader(s.lm, s.nodes[i].rec); h.flags.revoking || (h.dmaster != i && !h.flags.deleg)
    ensures Inv(full, c, Take(s, i, Routed(c, s, i, p), s.net), loc)
    ensures Progress(full, s, loc, Take(s, i, Routed(c, s, i, p), s.net), loc)
  {
    var h := EffHeader(s.lm, s.nodes[i].rec);
    var q := p.(ro := p.ro && c.rodb, dst := Redirect(EnvOf(c, s, i), h), hops := p.hops + 1);
    ForwardCallEffect(c, s, i, p, q);
    if !h.flags.revoking { Emit(full, c, s, loc, q); }
  }

  lemma ForwardCallEffect(c: Config, s: State, i: nat, p: Packet, q: Packet)
    requires WF(c, s) && i < c.n && p.ReqCall?
    requires var h := EffHeader(s.lm, s.nodes[i].rec);
             && (h.flags.revoking || (h.dmaster != i && !h.flags.deleg))
             && q == p.(ro := p.ro && c.rodb, dst := Redirect(EnvOf(c, s, i), h), hops := p.hops + 1)
    ensures Take(s, i, Routed(c, s, i, p), s.net)
            == if EffHeader(s.lm, s.nodes[i].rec).flags.revoking then s else s.(net := s.net + multiset{q})
  {
    var ns := s.nodes[i];
    assert s.nodes[i := ns] == s.nodes && s.log + [] == s.log;
  }

  lemma RouteCallInv(full: bool, c: Config, s: State, loc0: Loc, i: nat, p: Packet) returns (loc: Loc)
    requires ValidConfig(c) && Inv(full, c, s, loc0) && PacketOk(full, c, s, loc0, p) && p.ReqCall? && p.gen == s.gen
             && i < c.n
    requires loc0 == At(i) ==> s.nodes[i].rec.Present?
    requires s.nodes[i].rec.Present? ==> !s.nodes[i].rec.h.flags.complete
    requires var h := EffHeader(s.lm, s.nodes[i].rec);
             p.ro && c.rodb && !h.flags.revoking && h.dmaster == i ==> p.src != i
    requires loc0 == At(i) && i != s.lm && Routed(c, s, i, p).ns.rec.Absent? ==> (full ==> NoReplyTo(s, i))
    ensures Inv(full, c, Take(s, i, Routed(c, s, i, p), s.net), loc)
    ensures Progress(full, s, loc0, Take(s, i, Routed(c, s, i, p), s.net), loc)
  {
    var h := EffHeader(s.lm, s.nodes[i].rec);
    if h.flags.revoking || (h.dmaster != i && !h.flags.deleg) {
      ForwardCallInv(full, c, s, loc0, i, p);
      loc := loc0;
    } else {
      assert NodeOk(full, c, s, loc0, i);
      assert loc0 == At(i);
      loc := AnswerInv(full, c, s, i, p, p.ro && c.rodb);
    }
  }

  /** What a call's delivery leaves on the wire while the daemon works on it. */
  ghost function Taken(c: Config, s: State, p: Packet): State
    requires WF(c, s) && p.ReqCall? && p.dst < c.n
  {
    if RequestCall(EnvOf(c, s, p.dst), s.nodes[p.dst], p).parked then s else s.(net := s.net - multiset{p})
  }

  lemma ApplyCall(c: Config, s: State, p: Packet, pend: Pending)
    requires WF(c, s) && p in s.net && p.ReqCall? && p.gen == s.gen && p.dst < c.n
    requires var e := EnvOf(c, s, p.dst); var rec := PreCall(e, s.nodes[p.dst]).rec;
             PreHeader(e, s.nodes[p.dst]) == EffHeader(s.lm, rec) && EffData(rec) == EffData(s.nodes[p.dst].rec)
    ensures var s1 := PreState(c, Taken(c, s, p), p.dst);
            && Apply(c, s, Deliver(p, pend)) == Take(s1, p.dst, Routed(c, s1, p.dst, p), s1.net)
            && Routed(c, s1, p.dst, p).ns == EffectOf(c, s, Deliver(p, pend)).ns
  {
    var i, e, ns := p.dst, EnvOf(c, s, p.dst), s.nodes[p.dst];
    var eff := RouteCall(e, PreCall(e, ns), PreHeader(e, ns), EffData(ns.rec), p);
    var s0 := Taken(c, s, p);
    assert Routed(c, PreState(c, s0, i), i, p) == eff;
    TakeAfterPre(c, s, i, eff, s0.net);
    TakeAfterPre(c, s0, i, eff, s0.net);
  }

  lemma RequestCallInv(full: bool, c: Config, s: State, loc0: Loc, p: Packet, pend: Pending) returns (loc: Loc)
    requires ValidConfig(c) && Inv(full, c, s, loc0) && p in s.net && p.ReqCall? && p.gen == s.gen && p.dst < c.n
    requires !HazardFor(full, c, s, Deliver(p, pend))
    ensures Inv(full, c, Apply(c, s, Deliver(p, pend)), loc)
    ensures Progress(full, s, loc0, Apply(c, s, Deliver(p, pend)), loc)
  {
    var i, s0 := p.dst, Taken(c, s, p);
    if s0 != s { Consume(full, c, s, loc0, p); }
    PreInv(full, c, s0, loc0, i);
    ApplyCall(c, s, p, pend);
    CallHazards(full, c, s, loc0, p, pend);
    TakenProgress(full, c, s, loc0, p);
    var s1 := PreState(c, s0, i);
    loc := RouteCallInv(full, c, s1, loc0, i, p);
    ProgressTrans(full, s, loc0, s1, loc0, Take(s1, i, Routed(c, s1, i, p), s1.net), loc);
  }

  lemma TakenProgress(full: bool, c: Config, s: State, loc: Loc, p: Packet)
    requires Inv(full, c, s, loc) && p in s.net && p.ReqCall? && p.gen == s.gen && p.dst < c.n
    ensures var s1 := PreState(c, Taken(c, s, p), p.dst);
            && (NoReplyTo(s, p.dst) ==> NoReplyTo(s1, p.dst))
            && LocOk(s1, loc) && Progress(full, s, loc, s1, loc)
            && (loc.At? && Delegating(s, loc.o) ==> Delegating(s1, loc.o))
  {
    PreInv(full, c, s, loc, p.dst);
  }

  lemma ProgressTrans(full: bool, s: State, loc: Loc, s1: State, loc1: Loc, s2: State, loc2: Loc)
    requires LocOk(s, loc) && Progress(full, s, loc, s1, loc1) && Progress(full, s1, loc1, s2, loc2)
    requires loc.At? && Delegating(s, loc.o) ==> loc1.At? && Delegating(s1, loc1.o)
    ensures Progress(full, s, loc, s2, loc2)
  {
  }

  /** What the absence of a hazard gives a call. */
  lemma CallHazards(full: bool, c: Config, s: State, loc: Loc, p: Packet, pend: Pending)
    requires Inv(full, c, s, loc) && p in s.net && p.ReqCall? && p.gen == s.gen && p.dst < c.n
    requires !HazardFor(full, c, s, Deliver(p, pend))
    ensures PacketOk(full, c, s, loc, p)
    ensures var h := PreHeader(EnvOf(c, s, p.dst), s.nodes[p.dst]);
            p.ro && c.rodb && !h.flags.revoking && h.dmaster == p.dst ==> p.src != p.dst
    ensures loc == At(p.dst) && p.dst != s.lm && EffectOf(c, s, Deliver(p, pend)).ns.rec.Absent? ==>
            (full ==> NoReplyTo(s, p.dst))
  {
    var a, i := Deliver(p, pend), p.dst;
    assert PacketOk(full, c, s, loc, p) && NodeOk(full, c, s, loc, i);
    if full && loc == At(i) && i != s.lm && EffectOf(c, s, a).ns.rec.Absent? {
      RequestVanishes(c, s, p);
      assert LosesCopy(c, s, a) && Actor(a) == i;
      OwnerHolds(full, c, s, i);
    }
  }

  lemma RouteClientInv(full: bool, c: Config, s: State, loc: Loc, i: nat, ro: bool, callid: nat, reqid: nat)
    requires ValidConfig(c) && Inv(full, c, s, loc) && i < c.n
    requires loc == At(i) ==> s.nodes[i].rec.Present?
    requires s.nodes[i].rec.Present? ==> !s.nodes[i].rec.h.flags.complete
    requires ro ==> callid == FETCH_WITH_HEADER
    ensures var rec := s.nodes[i].rec;
            var s' := Take(s, i, RouteClient(EnvOf(c, s, i), s.nodes[i], EffHeader(s.lm, rec), EffData(rec), ro,
                                             callid, reqid), s.net);
            Inv(full, c, s', loc) && Progress(full, s, loc, s', loc)
  {
    var e, ns, h := EnvOf(c, s, i), s.nodes[i], EffHeader(s.lm, s.nodes[i].rec);
    assert NodeOk(full, c, s, loc, i);
    if h.flags.revoking {
      assert Take(s, i, Quiet(ns), s.net) == s;
    } else if h.dmaster == i && !ro && (h.flags.deleg || h.flags.ro) {
      RecallInv(full, c, s, i);
    } else if h.dmaster == i {
      CallLocalInv(full, c, s, i, h, callid);
    } else {
      var q := ReqCall(s.gen, i, h.dmaster, reqid, ro, callid, 0);
      SendsCall(full, c, s, loc, i, q);
    }
  }

  lemma SendsCall(full: bool, c: Config, s: State, loc: Loc, i: nat, q: Packet)
    requires Inv(full, c, s, loc) && i < c.n && q.ReqCall? && q.gen == s.gen && q.hops == 0 && q.src == i
    requires q.dst == EffDm(s.lm, s.nodes[i].rec) && q.dst != i && (q.ro ==> q.callid == FETCH_WITH_HEADER)
    ensures var s' := Take(s, i, Quiet(s.nodes[i]).(out := multiset{q}), s.net);
            Inv(full, c, s', loc) && Progress(full, s, loc, s', loc)
  {
    assert NodeOk(full, c, s, loc, i);
    Emit(full, c, s, loc, q);
    assert Take(s, i, Quiet(s.nodes[i]).(out := multiset{q}), s.net) == s.(net := s.net + multiset{q});
  }

  lemma ClientCallInv(full: bool, c: Config, s: State, loc: Loc, i: nat, ro0: bool, callid0: nat, reqid: nat)
    requires ValidConfig(c) && Inv(full, c, s, loc) && i < c.n
    ensures Inv(full, c, Apply(c, s, Call(i, ro0, callid0, reqid)), loc)
    ensures Progress(full, s, loc, Apply(c, s, Call(i, ro0, callid0, reqid)), loc)
  {
    var ro := ro0 && c.rodb;
    var callid := if ro then FETCH_WITH_HEADER else callid0;
    PreInv(full, c, s, loc, i);
    var s1 := PreState(c, s, i);
    RouteClientInv(full, c, s1, loc, i, ro, callid, reqid);
    ApplyClientCall(c, s, i, ro0, callid0, reqid);
    ProgressTrans(full, s, loc, s1, loc, Apply(c, s, Call(i, ro0, callid0, reqid)), loc);
  }

  lemma ApplyClientCall(c: Config, s: State, i: nat, ro0: bool, callid0: nat, reqid: nat)
    requires WF(c, s) && i < c.n
    requires var e := EnvOf(c, s, i); var rec := PreCall(e, s.nodes[i]).rec;
             PreHeader(e, s.nodes[i]) == EffHeader(s.lm, rec) && EffData(rec) == EffData(s.nodes[i].rec)
    ensures var s1 := PreState(c, s, i); var rec := s1.nodes[i].rec; var ro := ro0 && c.rodb;
            Apply(c, s, Call(i, ro0, callid0, reqid))
            == Take(s1, i, RouteClient(EnvOf(c, s1, i), s1.nodes[i], EffHeader(s1.lm, rec), EffData(rec), ro,
                                       if ro then FETCH_WITH_HEADER else callid0, reqid), s1.net)
  {
    var e, ns, ro := EnvOf(c, s, i), s.nodes[i], ro0 && c.rodb;
    var eff := RouteClient(e, PreCall(e, ns), PreHeader(e, ns), EffData(ns.rec), ro,
                           if ro then FETCH_WITH_HEADER else callid0, reqid);
    TakeAfterPre(c, s, i, eff, s.net);
  }
}
