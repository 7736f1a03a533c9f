/** Calls are conserved: a call on the wire waits for a revoke, goes on to the next
    node, or turns into its answer, and none is lost before its caller has that. */
module Calls {
  import opened Ltdb
  import opened Protocol
  import opened Cluster
  import opened ClusterInv
  import opened Steps
  import opened Theorems
  import opened Guarantees

  /** The packet is the call that src made under reqid, an answer to it, or the role
      that was given up for it. */
  predicate ForCall(p: Packet, src: nat, reqid: nat) {
    match p
    case ReqCall(_, from, _, id, _, _, _) => from == src && id == reqid
    case ReplyCall(_, dst, id, _) => dst == src && id == reqid
    case ReplyRo(_, dst, id, _, _) => dst == src && id == reqid
    case ReqDmaster(_, _, _, id, newdm, _, _, _) => newdm == src && id == reqid
    case ReplyDmaster(_, dst, id, _, _, _) => dst == src && id == reqid
    case _ => false
  }

  // ---- one call, one step

  /** The call meets a revoke, or starts one. */
  predicate Waits(c: Config, s: State, p: Packet)
    requires WF(c, s) && p.ReqCall? && p.dst < c.n
  {
    var rec := s.nodes[p.dst].rec;
    && rec.Present? && !rec.h.flags.complete
    && (|| rec.h.flags.revoking
        || ((rec.h.dmaster == p.dst || rec.h.flags.deleg)
            && !(p.ro && c.rodb) && (rec.h.flags.deleg || rec.h.flags.ro)))
  }

  /** A node that is not the owner and has no delegations out. */
  predicate PassesOn(c: Config, s: State, i: nat)
    requires WF(c, s) && i < c.n
  {
    var h := EffHeader(s.lm, s.nodes[i].rec);
    h.dmaster != i && (!h.flags.deleg || h.flags.complete)
  }

  /** What becomes of a call that does not wait. */
  predicate Becomes(c: Config, s: State, p: Packet, q: Packet)
    requires WF(c, s) && p.ReqCall? && p.dst < c.n
  {
    && q.gen == s.gen && ForCall(q, p.src, p.reqid)
    && (if PassesOn(c, s, p.dst) then
          q == ReqCall(s.gen, p.src, NextHop(c, s, p.dst), p.reqid, p.ro && c.rodb, p.callid, p.hops + 1)
        else if p.ro && c.rodb && p.callid == FETCH_WITH_HEADER then q.ReplyRo?
        else if p.src == p.dst then q.ReplyCall?
        else if p.dst == s.lm then q.ReplyDmaster?
        else q.ReqDmaster? && q.src == p.dst && q.dst == s.lm)
  }

  /** Nothing but pushes of a revoke has been added. */
  ghost predicate OnlyPushes(net: multiset<Packet>, net': multiset<Packet>) {
    net <= net' && forall q <- net' - net :: q.Update?
  }

  lemma WaitsEffect(c: Config, s: State, p: Packet)
    requires WF(c, s) && p.ReqCall? && p.dst < c.n && Waits(c, s, p)
    ensures var ns, eff := s.nodes[p.dst], RequestCall(EnvOf(c, s, p.dst), s.nodes[p.dst], p);
            && eff.parked && (forall q <- eff.out :: q.Update?)
            && (if ns.rec.h.flags.revoking then eff.ns == ns && eff.out == multiset{}
                else eff.ns.rec.Present? && eff.ns.rec.h.flags.revoking && eff.ns.tracking == ns.tracking
                     && eff.ns.revoke.Running? && eff.ns.revoke.waiting == ns.tracking)
  {
  }

  /** The header the call meets: as stored, but for the marks of a finished revoke. */
  lemma Met(c: Config, s: State, i: nat)
    requires WF(c, s) && i < c.n
    ensures var was, h := EffHeader(s.lm, s.nodes[i].rec), PreHeader(EnvOf(c, s, i), s.nodes[i]);
            && h.dmaster == was.dmaster
            && h.flags.deleg == (was.flags.deleg && !was.flags.complete)
            && h.flags.ro == (was.flags.ro && !was.flags.complete)
            && h.flags.revoking == (was.flags.revoking && !was.flags.complete)
  {
  }

  lemma RouteOut(e: Env, ns: NodeState, h: Header, d: Data, p: Packet) returns (q: Packet)
    requires p.ReqCall? && p.gen == e.gen && !h.flags.revoking
    requires !((h.dmaster == e.me || h.flags.deleg) && !(p.ro && e.rodb) && (h.flags.deleg || h.flags.ro))
    ensures var eff := RouteCall(e, ns, h, d, p);
            && !eff.parked && eff.out == multiset{q} && q.gen == e.gen && ForCall(q, p.src, p.reqid)
            && (if h.dmaster != e.me && !h.flags.deleg then
                  q == p.(dst := Redirect(e, h), ro := p.ro && e.rodb, hops := p.hops + 1)
                else if p.ro && e.rodb && p.callid == FETCH_WITH_HEADER then q.ReplyRo?
                else if p.src == e.me then q.ReplyCall?
                else if e.me == e.lm then q.ReplyDmaster?
                else q.ReqDmaster? && q.src == e.me && q.dst == e.lm)
  {
    var eff := RouteCall(e, ns, h, d, p);
    q :| q in eff.out;
  }

  lemma MovesEffect(c: Config, s: State, p: Packet) returns (q: Packet)
    requires WF(c, s) && p.ReqCall? && p.gen == s.gen && p.dst < c.n && !Waits(c, s, p)
    ensures var eff := RequestCall(EnvOf(c, s, p.dst), s.nodes[p.dst], p);
            !eff.parked && eff.out == multiset{q} && Becomes(c, s, p, q)
  {
    var e, ns := EnvOf(c, s, p.dst), s.nodes[p.dst];
    Met(c, s, p.dst);
    q := RouteOut(e, PreCall(e, ns), PreHeader(e, ns), EffData(ns.rec), p);
  }

  /** A call that is delivered stays where it is exactly when the record is being
      revoked or a revoke starts. Otherwise one packet takes its place, for the same
      call: the call itself, on its way to the next node, an answer, or the role. */
  lemma CallMoves(c: Config, s: State, p: Packet, pend: Pending)
    requires WF(c, s) && p in s.net && p.ReqCall? && p.gen == s.gen && p.dst < c.n
    ensures var s' := Apply(c, s, Deliver(p, pend));
            if Waits(c, s, p) then
              && OnlyPushes(s.net, s'.net)
              && (if s.nodes[p.dst].rec.h.flags.revoking then s'.nodes == s.nodes && s'.net == s.net
                  else s'.nodes[p.dst].rec.Present? && s'.nodes[p.dst].rec.h.flags.revoking
                       && s'.nodes[p.dst].revoke.Running?
                       && s'.nodes[p.dst].revoke.waiting == s.nodes[p.dst].tracking)
            else exists q :: Becomes(c, s, p, q) && s'.net == s.net - multiset{p} + multiset{q}
  {
    var s' := Apply(c, s, Deliver(p, pend));
    if Waits(c, s, p) {
      WaitsEffect(c, s, p);
      assert s.nodes[p.dst := s.nodes[p.dst]] == s.nodes;
      assert s'.net - s.net == RequestCall(EnvOf(c, s, p.dst), s.nodes[p.dst], p).out;
    } else {
      var q := MovesEffect(c, s, p);
      assert Becomes(c, s, p, q) && s'.net == s.net - multiset{p} + multiset{q};
    }
  }

  /** The header a client's call meets keeps it: a revoke is under way. */
  predicate Held(s: State, i: nat)
    requires i < |s.nodes|
  {
    var rec := s.nodes[i].rec;
    rec.Present? && rec.h.flags.revoking && !rec.h.flags.complete
  }

  /** A client's call leaves its node. */
  predicate GoesOut(s: State, i: nat)
    requires i < |s.nodes|
  {
    EffDm(s.lm, s.nodes[i].rec) != i && !Held(s, i)
  }

  /** A client's call goes to the node that the local header names, exactly if that is
      another one and no revoke is under way here. */
  lemma ClientMoves(c: Config, s: State, a: Action)
    requires WF(c, s) && a.Call? && a.i < c.n
    ensures var out, ro := EffectOf(c, s, a).out, a.ro && c.rodb;
            if GoesOut(s, a.i) then
              out == multiset{ReqCall(s.gen, a.i, EffDm(s.lm, s.nodes[a.i].rec), a.reqid, ro,
                                      if ro then FETCH_WITH_HEADER else a.callid, 0)}
            else forall q <- out :: q.Update?
    ensures Held(s, a.i) ==> EffectOf(c, s, a) == Quiet(s.nodes[a.i])
  {
    var e, ns := EnvOf(c, s, a.i), s.nodes[a.i];
    Met(c, s, a.i);
    if Held(s, a.i) { assert PreCall(e, ns) == ns && PreLog(e, ns) + [] == []; }
  }

  // ---- how many packets there are for a call

  predicate Counts(p: Packet, gen: nat, src: nat, reqid: nat) { p.gen == gen && ForCall(p, src, reqid) }

  ghost function Pick(net: multiset<Packet>): (p: Packet)
    requires net != multiset{}
    ensures p in net
  {
    var p :| p in net;
    p
  }

  ghost function One(p: Packet, gen: nat, src: nat, reqid: nat): nat { if Counts(p, gen, src, reqid) then 1 else 0 }

  ghost function Count(net: multiset<Packet>, gen: nat, src: nat, reqid: nat): nat
    decreases |net|
  {
    if net == multiset{} then 0
    else One(Pick(net), gen, src, reqid) + Count(net - multiset{Pick(net)}, gen, src, reqid)
  }

  lemma {:induction false} CountLess(net: multiset<Packet>, p: Packet, gen: nat, src: nat, reqid: nat)
    requires p in net
    ensures Count(net, gen, src, reqid) == One(p, gen, src, reqid) + Count(net - multiset{p}, gen, src, reqid)
    decreases |net|
  {
    var q := Pick(net);
    if q != p {
      CountLess(net - multiset{q}, p, gen, src, reqid);
      CountLess(net - multiset{p}, q, gen, src, reqid);
      assert net - multiset{q} - multiset{p} == net - multiset{p} - multiset{q};
    }
  }

  lemma CountMore(net: multiset<Packet>, p: Packet, gen: nat, src: nat, reqid: nat)
    ensures Count(net + multiset{p}, gen, src, reqid) == One(p, gen, src, reqid) + Count(net, gen, src, reqid)
  {
    CountLess(net + multiset{p}, p, gen, src, reqid);
    assert net + multiset{p} - multiset{p} == net;
  }

  lemma {:induction false} CountOthers(net: multiset<Packet>, more: multiset<Packet>, gen: nat, src: nat, reqid: nat)
    requires forall p <- more :: !Counts(p, gen, src, reqid)
    ensures Count(net + more, gen, src, reqid) == Count(net, gen, src, reqid)
    decreases |more|
  {
    if more == multiset{} {
      assert net + more == net;
    } else {
      var p := Pick(more);
      CountOthers(net, more - multiset{p}, gen, src, reqid);
      CountMore(net + (more - multiset{p}), p, gen, src, reqid);
      assert net + (more - multiset{p}) + multiset{p} == net + more;
    }
  }

  lemma {:induction false} CountSome(net: multiset<Packet>, gen: nat, src: nat, reqid: nat)
    ensures Count(net, gen, src, reqid) > 0 <==> exists p <- net :: Counts(p, gen, src, reqid)
    decreases |net|
  {
    if net != multiset{} {
      var q := Pick(net);
      CountSome(net - multiset{q}, gen, src, reqid);
      assert forall p <- net :: p == q || p in net - multiset{q};
    }
  }

  // ---- calls are conserved

  /** The step puts a call on the wire. */
  predicate Makes(s: State, a: Action, src: nat, reqid: nat) {
    match a
    case Call(i, _, _, id) => i == src && id == reqid && i < |s.nodes| && GoesOut(s, i)
    case Resend(i, _, _, id) => i == src && id == reqid
    case _ => false
  }

  /** The caller gets an answer, or the role: a REQ_DMASTER does not travel on from an
      lmaster that asked itself. */
  predicate Answers(s: State, a: Action, src: nat, reqid: nat) {
    a.Deliver? && Counts(a.p, s.gen, src, reqid) && !a.p.ReqCall? && (a.p.ReqDmaster? ==> a.p.newdm == a.p.dst)
  }

  ghost function If(b: bool): nat { if b then 1 else 0 }

  /** One packet for one other. */
  lemma Swapped(net: multiset<Packet>, p: Packet, q: Packet, gen: nat, src: nat, reqid: nat)
    requires p in net && (Counts(p, gen, src, reqid) <==> Counts(q, gen, src, reqid))
    ensures Count(net - multiset{p} + multiset{q}, gen, src, reqid) == Count(net, gen, src, reqid)
  {
    CountLess(net, p, gen, src, reqid);
    CountMore(net - multiset{p}, q, gen, src, reqid);
  }

  lemma PushesBalance(net: multiset<Packet>, net': multiset<Packet>, gen: nat, src: nat, reqid: nat)
    requires OnlyPushes(net, net')
    ensures Count(net', gen, src, reqid) == Count(net, gen, src, reqid)
  {
    CountOthers(net, net' - net, gen, src, reqid);
    assert net + (net' - net) == net';
  }

  lemma CallBalance(c: Config, s: State, p: Packet, pend: Pending, s': State, src: nat, reqid: nat)
    requires WF(c, s) && p in s.net && p.ReqCall? && p.gen == s.gen && p.dst < c.n
    requires s' == Apply(c, s, Deliver(p, pend))
    ensures Count(s'.net, s.gen, src, reqid) == Count(s.net, s.gen, src, reqid)
  {
    CallMoves(c, s, p, pend);
    if Waits(c, s, p) {
      PushesBalance(s.net, s'.net, s.gen, src, reqid);
    } else {
      var q :| Becomes(c, s, p, q) && s'.net == s.net - multiset{p} + multiset{q};
      Swapped(s.net, p, q, s.gen, src, reqid);
    }
  }

  /** The role goes on from the lmaster to the node that asked. */
  predicate GoesOn(s: State, p: Packet, q: Packet)
    requires p.ReqDmaster?
  {
    q.ReplyDmaster? && q.gen == s.gen && q.dst == p.newdm && q.reqid == p.reqid
  }

  /** Everything else that is delivered: the role goes on through the lmaster, or the
      packet is used up. */
  lemma OtherOut(c: Config, s: State, p: Packet, pend: Pending)
    requires WF(c, s) && p.dst < c.n && !Stale(s, p) && !p.ReqCall? && !Handle(c, s, p, pend).fault
    ensures var eff := Handle(c, s, p, pend);
            && !eff.parked
            && (if p.ReqDmaster? && p.newdm != p.dst then
                  exists q :: eff.out == multiset{q} && GoesOn(s, p, q)
                else forall q <- eff.out :: q.Ack?)
  {
    if p.ReqDmaster? && p.newdm != p.dst {
      var eff := Handle(c, s, p, pend);
      var q :| q in eff.out;
      assert eff.out == multiset{q};
    }
  }

  /** A packet is used up, and only acknowledgements come of it. */
  lemma UsedUp(net: multiset<Packet>, p: Packet, out: multiset<Packet>, gen: nat, src: nat, reqid: nat)
    requires p in net && forall q <- out :: q.Ack?
    ensures Count(net - multiset{p} + out, gen, src, reqid) + One(p, gen, src, reqid) == Count(net, gen, src, reqid)
  {
    CountOthers(net - multiset{p}, out, gen, src, reqid);
    CountLess(net, p, gen, src, reqid);
  }

  lemma DeliverNet(c: Config, s: State, p: Packet, pend: Pending)
    requires WF(c, s) && p in s.net && p.dst < c.n && !Stale(s, p) && !Handle(c, s, p, pend).parked
    ensures Apply(c, s, Deliver(p, pend)).net == s.net - multiset{p} + Handle(c, s, p, pend).out
  {
  }

  lemma OtherBalance(c: Config, s: State, p: Packet, pend: Pending, src: nat, reqid: nat)
    requires WF(c, s) && p in s.net && p.dst < c.n && !Stale(s, p) && !p.ReqCall? && !Handle(c, s, p, pend).fault
    ensures Count(Apply(c, s, Deliver(p, pend)).net, s.gen, src, reqid)
            + If(Answers(s, Deliver(p, pend), src, reqid)) == Count(s.net, s.gen, src, reqid)
  {
    OtherOut(c, s, p, pend);
    DeliverNet(c, s, p, pend);
    OutBalance(s, p, pend, Handle(c, s, p, pend).out, src, reqid);
  }

  lemma OutBalance(s: State, p: Packet, pend: Pending, out: multiset<Packet>, src: nat, reqid: nat)
    requires p in s.net && !p.ReqCall?
    requires if p.ReqDmaster? && p.newdm != p.dst then exists q :: out == multiset{q} && GoesOn(s, p, q)
             else forall q <- out :: q.Ack?
    requires p.ReqDmaster? ==> p.gen == s.gen
    ensures Count(s.net - multiset{p} + out, s.gen, src, reqid) + If(Answers(s, Deliver(p, pend), src, reqid))
            == Count(s.net, s.gen, src, reqid)
  {
    if p.ReqDmaster? && p.newdm != p.dst {
      var q :| out == multiset{q} && GoesOn(s, p, q);
      Swapped(s.net, p, q, s.gen, src, reqid);
    } else {
      UsedUp(s.net, p, out, s.gen, src, reqid);
    }
  }

  lemma StaleBalance(c: Config, s: State, p: Packet, pend: Pending, src: nat, reqid: nat)
    requires WF(c, s) && p in s.net && p.dst < c.n && Stale(s, p)
    ensures Count(Apply(c, s, Deliver(p, pend)).net, s.gen, src, reqid) == Count(s.net, s.gen, src, reqid)
  {
    StaleIgnored(c, s, p, pend);
    CountLess(s.net, p, s.gen, src, reqid);
  }

  /** Steps that deliver nothing. */
  lemma LocalBalance(c: Config, s: State, a: Action, src: nat, reqid: nat)
    requires WF(c, s) && Enabled(c, s, a) && !a.Recover? && !a.Deliver?
    ensures Count(Apply(c, s, a).net, s.gen, src, reqid)
            == Count(s.net, s.gen, src, reqid) + If(Makes(s, a, src, reqid))
  {
    var out := EffectOf(c, s, a).out;
    LocalOut(c, s, a, out);
    assert Apply(c, s, a).net == s.net + out;
    MadeBalance(s, a, out, src, reqid);
  }

  /** At most the call goes out. */
  ghost predicate LocalSends(s: State, a: Action, out: multiset<Packet>) {
    if a.Resend? || (a.Call? && a.i < |s.nodes| && GoesOut(s, a.i)) then
      exists q :: out == multiset{q} && q.ReqCall? && q.gen == s.gen && q.src == a.i && q.reqid == a.reqid
    else forall q <- out :: q.Update?
  }

  lemma LocalOut(c: Config, s: State, a: Action, out: multiset<Packet>)
    requires WF(c, s) && Enabled(c, s, a) && !a.Recover? && !a.Deliver? && out == EffectOf(c, s, a).out
    ensures LocalSends(s, a, out)
  {
    if a.Call? { ClientMoves(c, s, a); }
    if a.Resend? || (a.Call? && GoesOut(s, a.i)) {
      var q :| q in out;
      assert out == multiset{q};
    }
  }

  lemma MadeBalance(s: State, a: Action, out: multiset<Packet>, src: nat, reqid: nat)
    requires LocalSends(s, a, out)
    ensures Count(s.net + out, s.gen, src, reqid) == Count(s.net, s.gen, src, reqid) + If(Makes(s, a, src, reqid))
  {
    if a.Resend? || (a.Call? && a.i < |s.nodes| && GoesOut(s, a.i)) {
      var q :| out == multiset{q} && q.ReqCall? && q.gen == s.gen && q.src == a.i && q.reqid == a.reqid;
      CountMore(s.net, q, s.gen, src, reqid);
    } else {
      CountOthers(s.net, out, s.gen, src, reqid);
    }
  }

  lemma StepBalance(c: Config, s: State, a: Action, src: nat, reqid: nat)
    requires WF(c, s) && Enabled(c, s, a) && !a.Recover? && !EffectOf(c, s, a).fault
    ensures Count(Apply(c, s, a).net, s.gen, src, reqid) + If(Answers(s, a, src, reqid))
            == Count(s.net, s.gen, src, reqid) + If(Makes(s, a, src, reqid))
  {
    if !a.Deliver? {
      LocalBalance(c, s, a, src, reqid);
    } else if Stale(s, a.p) {
      StaleBalance(c, s, a.p, a.pend, src, reqid);
    } else if a.p.ReqCall? {
      CallBalance(c, s, a.p, a.pend, Apply(c, s, a), src, reqid);
    } else {
      OtherBalance(c, s, a.p, a.pend, src, reqid);
    }
  }

  // ---- whole runs

  ghost function MadeIn(ss: seq<State>, acts: seq<Action>, j: nat, k: nat, src: nat, reqid: nat): nat
    requires j <= k <= |acts| < |ss|
    decreases k
  {
    if k == j then 0 else MadeIn(ss, acts, j, k - 1, src, reqid) + If(Makes(ss[k - 1], acts[k - 1], src, reqid))
  }

  ghost function AnsweredIn(ss: seq<State>, acts: seq<Action>, j: nat, k: nat, src: nat, reqid: nat): nat
    requires j <= k <= |acts| < |ss|
    decreases k
  {
    if k == j then 0 else AnsweredIn(ss, acts, j, k - 1, src, reqid) + If(Answers(ss[k - 1], acts[k - 1], src, reqid))
  }

  lemma NoFault(c: Config, ss: seq<State>, acts: seq<Action>, k: nat)
    requires Run(c, ss, acts) && Safe(false, c, ss, acts) && k < |acts| && !acts[k].Recover?
    ensures !EffectOf(c, ss[k], acts[k]).fault
  {
    NeverFaults(c, ss, acts, k);
  }

  lemma RunBalance(c: Config, ss: seq<State>, acts: seq<Action>, k: nat, src: nat, reqid: nat)
    requires Run(c, ss, acts) && Safe(false, c, ss, acts) && k < |acts| && !acts[k].Recover?
    ensures ss[k + 1].gen == ss[k].gen
    ensures Count(ss[k + 1].net, ss[k + 1].gen, src, reqid) + If(Answers(ss[k], acts[k], src, reqid))
            == Count(ss[k].net, ss[k].gen, src, reqid) + If(Makes(ss[k], acts[k], src, reqid))
  {
    StepOf(c, ss, acts, k);
    NoFault(c, ss, acts, k);
    StepBalance(c, ss[k], acts[k], src, reqid);
  }

  /** What one step keeps, all of them together keep. */
  lemma {:induction false} SumBalance(ss: seq<State>, acts: seq<Action>, j: nat, k: nat, src: nat, reqid: nat)
    requires j <= k <= |acts| < |ss|
    requires forall m | j <= m < k ::
               && ss[m + 1].gen == ss[m].gen
               && Count(ss[m + 1].net, ss[m + 1].gen, src, reqid) + If(Answers(ss[m], acts[m], src, reqid))
                  == Count(ss[m].net, ss[m].gen, src, reqid) + If(Makes(ss[m], acts[m], src, reqid))
    ensures ss[k].gen == ss[j].gen
    ensures Count(ss[k].net, ss[k].gen, src, reqid) + AnsweredIn(ss, acts, j, k, src, reqid)
            == Count(ss[j].net, ss[j].gen, src, reqid) + MadeIn(ss, acts, j, k, src, reqid)
    decreases k
  {
    if j < k {
      SumBalance(ss, acts, j, k - 1, src, reqid);
      assert ss[k - 1 + 1].gen == ss[k - 1].gen;
    }
  }

  /** Between two recoveries, the packets for a call that are on the wire are those
      that were there, and one for each time it was made, less one for each time its
      caller was answered. */
  lemma CallsConserved(c: Config, ss: seq<State>, acts: seq<Action>, j: nat, k: nat, src: nat, reqid: nat)
    requires Run(c, ss, acts) && Safe(false, c, ss, acts) && j <= k <= |acts|
    requires forall m | j <= m < k :: !acts[m].Recover?
    ensures ss[k].gen == ss[j].gen
    ensures Count(ss[k].net, ss[k].gen, src, reqid) + AnsweredIn(ss, acts, j, k, src, reqid)
            == Count(ss[j].net, ss[j].gen, src, reqid) + MadeIn(ss, acts, j, k, src, reqid)
  {
    forall m | j <= m < k
      ensures && ss[m + 1].gen == ss[m].gen
              && Count(ss[m + 1].net, ss[m + 1].gen, src, reqid) + If(Answers(ss[m], acts[m], src, reqid))
                 == Count(ss[m].net, ss[m].gen, src, reqid) + If(Makes(ss[m], acts[m], src, reqid))
    {
      RunBalance(c, ss, acts, m, src, reqid);
    }
    SumBalance(ss, acts, j, k, src, reqid);
  }

  lemma {:induction false} NeverAnswered(ss: seq<State>, acts: seq<Action>, j: nat, k: nat, src: nat, reqid: nat)
    requires j <= k <= |acts| < |ss|
    requires forall m | j <= m < k :: !Answers(ss[m], acts[m], src, reqid)
    ensures AnsweredIn(ss, acts, j, k, src, reqid) == 0
    decreases k
  {
    if j < k { NeverAnswered(ss, acts, j, k - 1, src, reqid); }
  }

  /** No call is lost: until its caller is answered or the cluster recovers, some
      packet for it is on the wire. */
  lemma NoCallLost(c: Config, ss: seq<State>, acts: seq<Action>, j: nat, k: nat, p: Packet)
    requires Run(c, ss, acts) && Safe(false, c, ss, acts) && j <= k <= |acts|
    requires p in ss[j].net && p.ReqCall? && p.gen == ss[j].gen
    requires forall m | j <= m < k :: !acts[m].Recover? && !Answers(ss[m], acts[m], p.src, p.reqid)
    ensures exists q <- ss[k].net :: q.gen == ss[k].gen && ForCall(q, p.src, p.reqid)
  {
    CallsConserved(c, ss, acts, j, k, p.src, p.reqid);
    NeverAnswered(ss, acts, j, k, p.src, p.reqid);
    assert Counts(p, ss[j].gen, p.src, p.reqid);
    CountSome(ss[j].net, ss[j].gen, p.src, p.reqid);
    CountSome(ss[k].net, ss[k].gen, p.src, p.reqid);
  }

  // ---- which steps run a call

  /** The call that a step runs here, on which data: a client's call or one sent by
      the node itself, if it owns the record and no revoke is in the way, and the call
      that waited for the role. */
  datatype Job = NoJob | Runs(callid: nat, seen: Data)

  function RunOf(c: Config, s: State, a: Action): Job
    requires WF(c, s)
  {
    match a
    case Call(i, ro, callid, _) =>
      if i < c.n && EffDm(s.lm, s.nodes[i].rec) == i && !Revoked(c, s, i, ro) then
        Runs(if ro && c.rodb then FETCH_WITH_HEADER else callid, EffData(s.nodes[i].rec))
      else NoJob
    case Deliver(p, pend) =>
      if p.gen != s.gen || p.dst >= c.n then NoJob
      else if p.ReqCall? then
        if p.src == p.dst && !Waits(c, s, p) && !PassesOn(c, s, p.dst)
           && !(p.ro && c.rodb && p.callid == FETCH_WITH_HEADER) then
          Runs(p.callid, EffData(s.nodes[p.dst].rec))
        else NoJob
      else if pend.Pending? && (p.ReplyDmaster? || (p.ReqDmaster? && p.newdm == p.dst)) then Runs(pend.callid, p.data)
      else NoJob
    case _ => NoJob
  }

  /** A client's call on its own node meets a revoke or starts one. */
  predicate Revoked(c: Config, s: State, i: nat, ro: bool)
    requires WF(c, s) && i < c.n
  {
    var rec := s.nodes[i].rec;
    && rec.Present? && !rec.h.flags.complete
    && (rec.h.flags.revoking || (!(ro && c.rodb) && (rec.h.flags.deleg || rec.h.flags.ro)))
  }

  /** The history gets the call if it was done, and no call otherwise. */
  predicate Recorded(c: Config, job: Job, more: seq<Event>) {
    match job
    case NoJob => forall ev <- more :: !ev.Exec?
    case Runs(callid, seen) =>
      match c.ops(callid, seen)
      case Failed => forall ev <- more :: !ev.Exec?
      case Done(written, reply) =>
        && more != [] && more[|more| - 1] == Exec(callid, seen, written, reply)
        && forall ev <- more[..|more| - 1] :: !ev.Exec?
  }

  lemma ClientRuns(c: Config, s: State, a: Action)
    requires WF(c, s) && a.Call? && a.i < c.n
    ensures Recorded(c, RunOf(c, s, a), EffectOf(c, s, a).log)
  {
    Met(c, s, a.i);
  }

  lemma RouteRuns(e: Env, ns: NodeState, h: Header, d: Data, p: Packet, c: Config)
    requires p.ReqCall? && e.ops == c.ops
    ensures var ro := p.ro && e.rodb;
            var here := && p.src == e.me && !h.flags.revoking && (h.dmaster == e.me || h.flags.deleg)
                        && (ro || !(h.flags.deleg || h.flags.ro)) && !(ro && p.callid == FETCH_WITH_HEADER);
            Recorded(c, if here then Runs(p.callid, d) else NoJob, RouteCall(e, ns, h, d, p).log)
  {
  }

  lemma RequestRuns(c: Config, s: State, p: Packet, pend: Pending)
    requires WF(c, s) && p.ReqCall? && p.gen == s.gen && p.dst < c.n
    ensures Recorded(c, RunOf(c, s, Deliver(p, pend)), RequestCall(EnvOf(c, s, p.dst), s.nodes[p.dst], p).log)
  {
    var e, ns := EnvOf(c, s, p.dst), s.nodes[p.dst];
    Met(c, s, p.dst);
    RouteRuns(e, PreCall(e, ns), PreHeader(e, ns), EffData(ns.rec), p, c);
    var more := RouteCall(e, PreCall(e, ns), PreHeader(e, ns), EffData(ns.rec), p).log;
    Prefixed(c, RunOf(c, s, Deliver(p, pend)), PreLog(e, ns), more);
  }

  lemma Prefixed(c: Config, job: Job, before: seq<Event>, more: seq<Event>)
    requires Recorded(c, job, more) && forall ev <- before :: !ev.Exec?
    ensures Recorded(c, job, before + more)
  {
    if more != [] { assert (before + more)[..|before + more| - 1] == before + more[..|more| - 1]; }
  }

  lemma StepRuns(c: Config, s: State, a: Action)
    requires WF(c, s) && Enabled(c, s, a) && !a.Recover? && !EffectOf(c, s, a).fault
    ensures Recorded(c, RunOf(c, s, a), EffectOf(c, s, a).log)
  {
    if a.Call? {
      ClientRuns(c, s, a);
    } else if a.Deliver? && a.p.ReqCall? && a.p.gen == s.gen {
      RequestRuns(c, s, a.p, a.pend);
    }
  }

  /** In every run a step records exactly the call it runs, with what that call makes
      of the current value, and no step records any other. */
  lemma CallsAreRun(c: Config, ss: seq<State>, acts: seq<Action>, k: nat)
    requires Run(c, ss, acts) && Safe(false, c, ss, acts) && k < |acts| && !acts[k].Recover?
    ensures ss[k].log <= ss[k + 1].log && Recorded(c, RunOf(c, ss[k], acts[k]), ss[k + 1].log[|ss[k].log|..])
  {
    StepOf(c, ss, acts, k);
    NoFault(c, ss, acts, k);
    StepRuns(c, ss[k], acts[k]);
    assert ss[k + 1].log[|ss[k].log|..] == EffectOf(c, ss[k], acts[k]).log;
  }

  // ---- what a reply says

  /** The call was run and recorded, and the data is its reply; one that failed has
      none. */
  predicate Reports(c: Config, callid: nat, seen: Data, more: seq<Event>, data: Data) {
    && Recorded(c, Runs(callid, seen), more)
    && data == match c.ops(callid, seen) case Done(_, reply) => reply case Failed => []
  }

  lemma ReplySent(c: Config, s: State, a: Action, q: Packet)
    requires WF(c, s) && Enabled(c, s, a) && !a.Recover? && q in EffectOf(c, s, a).out && q.ReplyCall?
    ensures a.Deliver? && a.p.ReqCall? && !Stale(s, a.p)
  {
    if a.Call? { ClientMoves(c, s, a); }
  }

  lemma ReplyReports(c: Config, s: State, p: Packet, q: Packet)
    requires WF(c, s) && p.ReqCall? && p.gen == s.gen && p.dst < c.n && Settled(s.nodes[p.dst], p.dst)
    requires var eff := RequestCall(EnvOf(c, s, p.dst), s.nodes[p.dst], p); q in eff.out && q.ReplyCall?
    ensures q.gen == s.gen && q.dst == p.src == p.dst && q.reqid == p.reqid
    ensures EffDm(s.lm, s.nodes[p.dst].rec) == p.dst
    ensures Reports(c, p.callid, EffData(s.nodes[p.dst].rec),
                    RequestCall(EnvOf(c, s, p.dst), s.nodes[p.dst], p).log, q.data)
  {
    if Waits(c, s, p) {
      WaitsEffect(c, s, p);
    } else {
      var r := MovesEffect(c, s, p);
      assert r == q;
      RequestRuns(c, s, p, NoCall);
      Met(c, s, p.dst);
    }
  }

  lemma ReplyStep(c: Config, s: State, loc: Loc, a: Action, s': State, q: Packet)
    requires Inv(false, c, s, loc) && Enabled(c, s, a) && !a.Recover? && s' == Apply(c, s, a)
    requires q.ReplyCall? && q in EffectOf(c, s, a).out
    ensures a.Deliver? && a.p.ReqCall? && a.p.dst in Owners(c, s) && s.log <= s'.log
    ensures q.gen == a.p.gen == s.gen && q.dst == a.p.src == a.p.dst && q.reqid == a.p.reqid
    ensures Reports(c, a.p.callid, EffData(s.nodes[a.p.dst].rec), s'.log[|s.log|..], q.data)
  {
    ReplySent(c, s, a, q);
    assert NodeOk(false, c, s, loc, a.p.dst);
    ReplyReports(c, s, a.p, q);
    assert s'.log[|s.log|..] == EffectOf(c, s, a).log;
  }

  /** Every reply to a call goes to its caller, under its request id, and carries what
      the call gave on the current value; the step that sends it logs the call. */
  lemma RepliesAreTrue(c: Config, ss: seq<State>, acts: seq<Action>, k: nat, q: Packet)
    requires Run(c, ss, acts) && Safe(false, c, ss, acts) && k < |acts|
    requires q.ReplyCall? && ss[k + 1].net[q] > ss[k].net[q]
    ensures acts[k].Deliver? && acts[k].p.ReqCall? && ss[k].log <= ss[k + 1].log
    ensures var p := acts[k].p;
            && q.gen == p.gen == ss[k].gen && q.dst == p.src == p.dst && q.reqid == p.reqid
            && Reports(c, p.callid, Value(ss[k].log), ss[k + 1].log[|ss[k].log|..], q.data)
  {
    var loc := RunKeepsInv(false, c, ss, acts, k);
    NewPacket(c, ss[k], acts[k], q);
    ReplyStep(c, ss[k], loc, acts[k], ss[k + 1], q);
    AtomicRegister(c, ss, acts, k);
  }

  lemma NewPacket(c: Config, s: State, a: Action, q: Packet)
    requires WF(c, s) && Enabled(c, s, a) && Apply(c, s, a).net[q] > s.net[q]
    ensures !a.Recover? && q in EffectOf(c, s, a).out
  {
  }
}
