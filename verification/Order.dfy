/** The order of the copies: over every run without a hazard to it, an owned record
    is newer than every other copy. */
module Order {
  import opened Ltdb
  import opened Protocol
  import opened Cluster
  import opened ClusterInv
  import opened RevokeMoves
  import opened Steps
  import opened StepInv
  import opened Theorems

  /** A copy is older than the record: strictly, once the record has an owner. */
  predicate Older(s: State, loc: Loc, rec: Rec)
    requires LocOk(s, loc)
  {
    rec.Present? ==> if loc.At? then rec.h.rsn < CurRsn(s, loc) else rec.h.rsn <= CurRsn(s, loc)
  }

  /** Every other copy is older than the record, stored or on its way. */
  ghost predicate InOrder(c: Config, s: State, loc: Loc)
    requires WF(c, s) && LocOk(s, loc)
  {
    && (forall i | 0 <= i < c.n && loc != At(i) :: Older(s, loc, s.nodes[i].rec))
    && (forall q <- s.net | q.ReplyRo? && q.gen == s.gen :: q.h.rsn + 2 <= CurRsn(s, loc))
  }

  /** No step of the run endangers the order. */
  ghost predicate Orderly(c: Config, ss: seq<State>, acts: seq<Action>)
    requires Run(c, ss, acts)
  {
    forall k | 0 <= k < |acts| :: !OrderHazard(c, ss[k], acts[k])
  }

  // ---- the node that acts

  /** A handler leaves the record as it was, under its own node's name, or as it
      goes out with the role. */
  ghost predicate Explained(e: Env, ns: NodeState, eff: Effect) {
    var rec := eff.ns.rec;
    rec.Present? ==>
      || rec == ns.rec || rec.h.dmaster == e.me
      || exists tok <- eff.out :: Token(tok) && tok.gen == e.gen && tok.rsn == rec.h.rsn
  }

  lemma ClientRec(e: Env, ns: NodeState, ro: bool, callid: nat, reqid: nat)
    requires Settled(ns, e.me)
    ensures Explained(e, ns, ClientCall(e, ns, ro, callid, reqid))
  {
  }

  lemma RequestRec(e: Env, ns: NodeState, p: Packet)
    requires p.ReqCall? && Settled(ns, e.me)
    ensures Explained(e, ns, RequestCall(e, ns, p))
  {
    var h, ns1 := PreHeader(e, ns), PreCall(e, ns);
    var eff := RouteCall(e, ns1, h, EffData(ns.rec), p);
    if h.dmaster == e.me && !h.flags.revoking && p.src != e.me && !(p.ro && e.rodb) && !h.flags.deleg && !h.flags.ro {
      GivenRec(e, ns1, h, EffData(ns.rec), p.src, p.reqid);
    }
  }

  lemma GivenRec(e: Env, ns: NodeState, h: Header, d: Data, to: nat, reqid: nat)
    requires h.dmaster == e.me && to != e.me
    ensures var eff := SendDmaster(e, ns, h, d, to, reqid);
            eff.ns.rec.Present? ==>
              exists tok <- eff.out :: Token(tok) && tok.gen == e.gen && tok.rsn == eff.ns.rec.h.rsn
  {
    var eff := SendDmaster(e, ns, h, d, to, reqid);
    var h1 := if d != [] then h.(flags := h.flags.(migrated := true)) else h;
    if e.lm == e.me {
      var h2 := StoredHeader(e.me, e.lm, h1.(dmaster := to), d);
      assert ReplyDmaster(e.gen, to, reqid, h1.rsn, h2.flags, d) in eff.out;
    } else {
      assert ReqDmaster(e.gen, e.me, e.lm, reqid, to, h1.rsn, h1.flags, d) in eff.out;
    }
  }

  lemma DmasterRec(e: Env, ns: NodeState, p: Packet, pend: Pending)
    requires p.ReqDmaster?
    ensures Explained(e, ns, RequestDmaster(e, ns, p, pend))
  {
    var eff := RequestDmaster(e, ns, p, pend);
    if !eff.fault && p.newdm != e.me {
      var h := FetchHeader(e.me, e.lm, ns.rec).(rsn := p.rsn, flags := p.flags, dmaster := p.newdm);
      assert ReplyDmaster(e.gen, p.newdm, p.reqid, p.rsn, StoredHeader(e.me, e.lm, h, p.data).flags, p.data) in eff.out;
    }
  }

  lemma BecomeRec(e: Env, ns: NodeState, rsn: int, flags: Flags, d: Data, pend: Pending)
    ensures Explained(e, ns, BecomeDmaster(e, ns, rsn, flags, d, pend))
  {
  }

  /** The step and its two ends. */
  ghost predicate OrderlyStep(c: Config, s: State, loc: Loc, a: Action, s': State, loc': Loc) {
    && Inv(false, c, s, loc) && Enabled(c, s, a) && !a.Recover? && !OrderHazard(c, s, a)
    && s' == Apply(c, s, a) && Inv(false, c, s', loc') && Progress(false, s, loc, s', loc')
  }

  lemma ExplainedOlder(c: Config, s: State, loc: Loc, a: Action, s': State, loc': Loc)
    requires OrderlyStep(c, s, loc, a, s', loc')
             && Explained(EnvOf(c, s, Actor(a)), s.nodes[Actor(a)], EffectOf(c, s, a))
    requires var i := Actor(a); loc' != At(i) && s'.nodes[i].rec != s.nodes[i].rec
    ensures Older(s', loc', s'.nodes[Actor(a)].rec)
  {
    var i, eff := Actor(a), EffectOf(c, s, a);
    assert s'.nodes[i] == eff.ns;
    if eff.ns.rec.Present? && eff.ns.rec.h.dmaster != i {
      var tok :| tok in eff.out && Token(tok) && tok.gen == s.gen && tok.rsn == eff.ns.rec.h.rsn;
      assert tok in s'.net;
    }
  }

  /** A packet of the read-only protocol leaves a copy that is behind the record. */
  lemma CopyOlder(c: Config, s: State, loc: Loc, a: Action, s': State, loc': Loc)
    requires OrderlyStep(c, s, loc, a, s', loc') && InOrder(c, s, loc)
    requires a.Deliver? && (a.p.ReplyRo? || a.p.Update?) && a.p.gen == s.gen
    requires var i := Actor(a); loc' != At(i) && s'.nodes[i].rec != s.nodes[i].rec
    ensures Older(s', loc', s'.nodes[a.p.dst].rec)
  {
    assert PacketOk(false, c, s, loc, a.p) && NodeOk(false, c, s, loc, a.p.dst);
  }

  lemma LateOlder(c: Config, s: State, loc: Loc, a: Action, s': State, loc': Loc)
    requires OrderlyStep(c, s, loc, a, s', loc') && a.Deliver? && a.p.Update? && a.p.gen != s.gen
    requires var i := Actor(a); loc' != At(i) && s'.nodes[i].rec != s.nodes[i].rec
    ensures Older(s', loc', s'.nodes[a.p.dst].rec)
  {
    LateEffect(c, s, a.p, a.pend);
    assert LateStored(s, a.p) && !TooNew(c, s, a.p);
  }

  lemma ActorOlder(c: Config, s: State, loc: Loc, a: Action, s': State, loc': Loc)
    requires OrderlyStep(c, s, loc, a, s', loc') && InOrder(c, s, loc)
    requires var i := Actor(a); loc' != At(i) && s'.nodes[i].rec != s.nodes[i].rec
    ensures Older(s', loc', s'.nodes[Actor(a)].rec)
  {
    var i := Actor(a);
    var e, ns := EnvOf(c, s, i), s.nodes[i];
    assert NodeOk(false, c, s, loc, i);
    if a.Call? {
      ClientRec(e, ns, a.ro, a.callid, a.reqid);
      ExplainedOlder(c, s, loc, a, s', loc');
    } else if a.Deliver? {
      DeliverOlder(c, s, loc, a, s', loc');
    } else {
      ExplainedOlder(c, s, loc, a, s', loc');
    }
  }

  lemma DeliverOlder(c: Config, s: State, loc: Loc, a: Action, s': State, loc': Loc)
    requires OrderlyStep(c, s, loc, a, s', loc') && InOrder(c, s, loc) && a.Deliver?
    requires var i := Actor(a); loc' != At(i) && s'.nodes[i].rec != s.nodes[i].rec
    ensures Older(s', loc', s'.nodes[a.p.dst].rec)
  {
    if a.p.gen != s.gen {
      LateOlder(c, s, loc, a, s', loc');
    } else if a.p.ReplyRo? || a.p.Update? {
      CopyOlder(c, s, loc, a, s', loc');
    } else {
      PacketRec(c, s, loc, a);
      ExplainedOlder(c, s, loc, a, s', loc');
    }
  }

  lemma PacketRec(c: Config, s: State, loc: Loc, a: Action)
    requires Inv(false, c, s, loc) && Enabled(c, s, a) && a.Deliver? && a.p.gen == s.gen && !a.p.ReplyRo?
             && !a.p.Update?
    ensures Explained(EnvOf(c, s, a.p.dst), s.nodes[a.p.dst], EffectOf(c, s, a))
  {
    var p := a.p;
    var e, ns := EnvOf(c, s, p.dst), s.nodes[p.dst];
    assert NodeOk(false, c, s, loc, p.dst);
    match p
    case ReqCall(_, _, _, _, _, _, _) => RequestRec(e, ns, p);
    case ReqDmaster(_, _, _, _, _, _, _, _) => DmasterRec(e, ns, p, a.pend);
    case ReplyDmaster(_, _, _, _, _, _) => BecomeRec(e, ns, p.rsn, p.flags, p.data, a.pend);
    case _ =>
  }

  // ---- whole runs

  /** The others fall back with the record's advance. */
  lemma OthersOlder(c: Config, s: State, loc: Loc, a: Action, s': State, loc': Loc, i: nat)
    requires OrderlyStep(c, s, loc, a, s', loc') && InOrder(c, s, loc)
    requires i < c.n && loc' != At(i) && s'.nodes[i].rec == s.nodes[i].rec
    ensures Older(s', loc', s'.nodes[i].rec)
  {
    assert s'.lm == s.lm;
  }

  /** A fresh delegation is two behind its owner's record. */
  ghost predicate Trails(e: Env, eff: Effect) {
    forall q <- eff.out :: q.ReplyRo? ==>
      eff.ns.rec.Present? && eff.ns.rec.h.dmaster == e.me && q.h.rsn + 2 <= eff.ns.rec.h.rsn
  }

  lemma RequestTrails(e: Env, ns: NodeState, p: Packet)
    requires p.ReqCall? && Settled(ns, e.me)
    ensures Trails(e, RequestCall(e, ns, p))
  {
    var h, ns1 := PreHeader(e, ns), PreCall(e, ns);
    assert ns1.rec.Present? ==> ns1.rec.h.rsn == h.rsn && ns1.rec.h.dmaster == h.dmaster;
    var eff := RouteCall(e, ns1, h, EffData(ns.rec), p);
    assert Trails(e, eff);
  }

  lemma StepTrails(c: Config, s: State, loc: Loc, a: Action)
    requires Inv(false, c, s, loc) && Enabled(c, s, a) && !a.Recover?
    ensures Trails(EnvOf(c, s, Actor(a)), EffectOf(c, s, a))
  {
    assert NodeOk(false, c, s, loc, Actor(a));
    if a.Call? {
      ClientTrails(EnvOf(c, s, a.i), s.nodes[a.i], a.ro, a.callid, a.reqid);
    } else if a.Deliver? {
      if a.p.ReqCall? {
        RequestTrails(EnvOf(c, s, a.p.dst), s.nodes[a.p.dst], a.p);
      } else {
        PacketTrails(c, s, a.p, a.pend);
      }
    }
  }

  lemma ClientTrails(e: Env, ns: NodeState, ro: bool, callid: nat, reqid: nat)
    ensures Trails(e, ClientCall(e, ns, ro, callid, reqid))
  {
  }

  lemma PacketTrails(c: Config, s: State, p: Packet, pend: Pending)
    requires WF(c, s) && p.dst < c.n && !p.ReqCall?
    ensures Trails(EnvOf(c, s, p.dst), Handle(c, s, p, pend))
  {
  }

  lemma WireOlder(c: Config, s: State, loc: Loc, a: Action, s': State, loc': Loc, q: Packet)
    requires OrderlyStep(c, s, loc, a, s', loc') && InOrder(c, s, loc)
    requires q in s'.net && q.ReplyRo? && q.gen == s'.gen
    ensures q.h.rsn + 2 <= CurRsn(s', loc')
  {
    if q !in s.net {
      assert q in EffectOf(c, s, a).out;
      FreshOlder(c, s, loc, a, s', loc', q);
    }
  }

  lemma FreshOlder(c: Config, s: State, loc: Loc, a: Action, s': State, loc': Loc, q: Packet)
    requires OrderlyStep(c, s, loc, a, s', loc') && q in EffectOf(c, s, a).out && q.ReplyRo?
    ensures q.h.rsn + 2 <= CurRsn(s', loc')
  {
    StepTrails(c, s, loc, a);
    assert s'.nodes[Actor(a)] == EffectOf(c, s, a).ns;
    OwnName(c, s', loc', Actor(a));
  }

  /** A record under its own node's name is the owner's. */
  lemma OwnName(c: Config, s: State, loc: Loc, i: nat)
    requires Inv(false, c, s, loc) && i < c.n && s.nodes[i].rec.Present? && s.nodes[i].rec.h.dmaster == i
    ensures loc == At(i)
  {
  }

  lemma StepKeepsOrder(c: Config, s: State, loc: Loc, a: Action, s': State, loc': Loc)
    requires Inv(false, c, s, loc) && InOrder(c, s, loc) && Enabled(c, s, a) && !OrderHazard(c, s, a)
    requires s' == Apply(c, s, a) && Inv(false, c, s', loc')
    requires !a.Recover? && !Resets(c, s, a) ==> Progress(false, s, loc, s', loc')
    ensures InOrder(c, s', loc')
  {
    if a.Recover? {
      RecoveredInOrder(c, s, a, s', loc');
    } else if Resets(c, s, a) {
      ResetInOrder(c, s, loc, a, s', loc');
    } else {
      forall i | 0 <= i < c.n && loc' != At(i) ensures Older(s', loc', s'.nodes[i].rec) {
        if s'.nodes[i].rec == s.nodes[i].rec {
          OthersOlder(c, s, loc, a, s', loc', i);
        } else {
          ActorOlder(c, s, loc, a, s', loc');
        }
      }
      forall q <- s'.net | q.ReplyRo? && q.gen == s'.gen ensures q.h.rsn + 2 <= CurRsn(s', loc') {
        WireOlder(c, s, loc, a, s', loc', q);
      }
    }
  }

  lemma RecoveredInOrder(c: Config, s: State, a: Action, s': State, loc': Loc)
    requires WF(c, s) && Enabled(c, s, a) && a.Recover? && s' == Apply(c, s, a) && Inv(false, c, s', loc')
    ensures InOrder(c, s', loc')
  {
    var o :| Recovered(c, a.lm, a.nodes, o, Value(s.log));
    assert loc' == At(o);
  }

  /** A record that starts over without copies leaves nothing to be older than. */
  lemma ResetInOrder(c: Config, s: State, loc: Loc, a: Action, s': State, loc': Loc)
    requires Inv(false, c, s, loc) && Enabled(c, s, a) && Resets(c, s, a) && !OrderHazard(c, s, a)
    requires s' == Apply(c, s, a) && Inv(false, c, s', loc')
    ensures InOrder(c, s', loc')
  {
    assert NodeOk(false, c, s, loc, s.lm);
    assert loc == OnReq(a.p);
    ResetEffect(false, c, s, a.p, a.pend);
    assert forall q <- s'.net :: q in s.net;
  }

  lemma {:induction false} RunKeepsOrder(c: Config, ss: seq<State>, acts: seq<Action>, k: nat) returns (loc: Loc)
    requires Run(c, ss, acts) && Safe(false, c, ss, acts) && Orderly(c, ss, acts) && k < |ss|
    ensures Inv(false, c, ss[k], loc) && InOrder(c, ss[k], loc)
  {
    if k == 0 {
      loc := At(ss[0].lm);
      InitInv(false, c, ss[0]);
    } else {
      var loc0 := RunKeepsOrder(c, ss, acts, k - 1);
      assert ss[k] == Apply(c, ss[k - 1], acts[k - 1]);
      loc := StepKeepsInv(false, c, ss[k - 1], loc0, acts[k - 1]);
      StepKeepsOrder(c, ss[k - 1], loc0, acts[k - 1], ss[k], loc);
    }
  }

  /** An owned record is strictly newer than every other copy; a record on the
      wire is at least as new. */
  lemma RsnOrder(c: Config, ss: seq<State>, acts: seq<Action>, k: nat, i: nat)
    requires Run(c, ss, acts) && Safe(false, c, ss, acts) && Orderly(c, ss, acts)
    requires k < |ss| && i < c.n && ss[k].nodes[i].rec.Present?
    ensures Ordered(c, ss[k], i)
  {
    var loc := RunKeepsOrder(c, ss, acts, k);
  }

  ghost predicate Ordered(c: Config, s: State, i: nat)
    requires WF(c, s) && i < c.n && s.nodes[i].rec.Present?
  {
    && (forall p <- Tokens(s) :: s.nodes[i].rec.h.rsn <= p.rsn)
    && (forall o <- Owners(c, s) | o != i :: s.nodes[i].rec.h.rsn < EffRsn(s.nodes[o].rec))
  }
}
