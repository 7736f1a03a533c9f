/** The elementary moves of the protocol, each keeping the invariant. */
module Moves {
  import opened Ltdb
  import opened Protocol
  import opened Cluster
  import opened ClusterInv

  /** No delegation on its way to node i is held off only by the copy there. */
  predicate NoHeld(s: State, i: nat)
    requires i < |s.nodes|
  {
    forall p <- s.net :: p.ReplyRo? && p.gen == s.gen && p.dst == i ==>
      s.nodes[i].rec.Present? && p.h.rsn > s.nodes[i].rec.h.rsn
  }

  /** No delegation is on its way to node i. */
  predicate NoReplyTo(s: State, i: nat) {
    forall p <- s.net :: p.ReplyRo? && p.gen == s.gen ==> p.dst != i
  }

  /** An owner's copy holds off every delegation that is on its way to it. */
  lemma OwnerHolds(full: bool, c: Config, s: State, o: nat)
    requires Inv(full, c, s, At(o)) && NoHeld(s, o)
    ensures NoReplyTo(s, o)
  {
    forall p <- s.net | p.ReplyRo? && p.gen == s.gen ensures p.dst != o {
      assert PacketOk(full, c, s, At(o), p);
    }
  }

  /** An owner's record that may be written: no delegation, or all of them revoked. */
  predicate Free(rec: Rec) { rec.Absent? || !rec.h.flags.AnyRo() || rec.h.flags.complete }

  predicate Plain(f: Flags) { !f.AnyRo() && !f.vacuum && !f.automatic }

  /** Packets whose number the invariant counts. */
  predicate Counted(s: State, p: Packet) { p.gen == s.gen && (Token(p) || p.Update? || p.Ack?) }

  // ---- the wire changes, the nodes do not

  ghost predicate SameCounts(full: bool, c: Config, s: State, loc: Loc, net: multiset<Packet>)
    requires WF(c, s) && LocOk(s, loc)
  {
    && (forall q :: Counted(s, q) ==> net[q] == s.net[q])
    && (forall q <- net :: q.Update? ==> q in s.net)
    && (forall q <- net :: q.gen == s.gen ==>
          q in s.net || ((q.ReqCall? || q.ReplyCall?) && PacketOk(full, c, s, loc, q)))
  }

  lemma NetTokens(full: bool, c: Config, s: State, loc: Loc, net: multiset<Packet>, log: seq<Event>)
    requires WF(c, s) && LocOk(s, loc) && TokenInv(c, s, loc) && SameCounts(full, c, s, loc, net)
    ensures TokenInv(c, s.(net := net, log := log), loc)
  {
  }

  lemma NetNodes(full: bool, c: Config, s: State, loc: Loc, net: multiset<Packet>, log: seq<Event>, i: nat)
    requires WF(c, s) && LocOk(s, loc) && i < c.n && NodeOk(full, c, s, loc, i) && SameCounts(full, c, s, loc, net)
    ensures NodeOk(full, c, s.(net := net, log := log), loc, i)
  {
    if loc.At? && s.nodes[loc.o].rec.Present? {
      assert Counted(s, TheUpdate(s, loc.o, i));
    }
  }

  lemma NetRun(full: bool, c: Config, s: State, o: nat, net: multiset<Packet>, log: seq<Event>)
    requires WF(c, s) && o < c.n && s.nodes[o].rec.Present?
    requires RunOk(full, c, s, o) && SameCounts(full, c, s, At(o), net)
    ensures RunOk(full, c, s.(net := net, log := log), o)
  {
    var s' := s.(net := net, log := log);
    forall t: nat ensures RunAt(full, s', o, t) {
      assert RunAt(full, s, o, t);
      assert Counted(s, TheUpdate(s, o, t)) && Counted(s, Ack(s.gen, o, t, true))
             && Counted(s, Ack(s.gen, o, t, false));
    }
  }

  lemma NetPackets(full: bool, c: Config, s: State, loc: Loc, net: multiset<Packet>, log: seq<Event>, q: Packet)
    requires WF(c, s) && LocOk(s, loc) && NetInv(full, c, s, loc) && SameCounts(full, c, s, loc, net)
    requires q in net && q.gen == s.gen
    ensures PacketOk(full, c, s.(net := net, log := log), loc, q)
  {
    assert PacketOk(full, c, s, loc, q);
    if full && q.ReplyRo? && Live(c, s, loc, q) {
      assert Counted(s, TheUpdate(s, loc.o, q.dst));
    }
  }

  /** Calls and ordinary replies come and go, delegations may be lost, the
      history may grow. */
  lemma NetFrame(full: bool, c: Config, s: State, loc: Loc, net: multiset<Packet>, log: seq<Event>)
    requires Inv(full, c, s, loc) && SameCounts(full, c, s, loc, net)
    requires Atomic(full, c.ops, log) && Value(log) == Value(s.log) && DelegatedSince(log) == DelegatedSince(s.log)
    requires Untouched(log) ==> Untouched(s.log)
    ensures Inv(full, c, s.(net := net, log := log), loc)
  {
    var s' := s.(net := net, log := log);
    NetTokens(full, c, s, loc, net, log);
    forall i | 0 <= i < c.n ensures NodeOk(full, c, s', loc, i) { NetNodes(full, c, s, loc, net, log, i); }
    forall q <- net | q.gen == s'.gen ensures PacketOk(full, c, s', loc, q) {
      NetPackets(full, c, s, loc, net, log, q);
    }
    if loc.At? && s.nodes[loc.o].rec.Present? && !s.nodes[loc.o].revoke.Idle? { NetRun(full, c, s, loc.o, net, log); }
  }

  lemma Consume(full: bool, c: Config, s: State, loc: Loc, p: Packet)
    requires Inv(full, c, s, loc) && p in s.net
    requires p.gen != s.gen || p.ReqCall? || p.ReplyCall? || p.ReplyRo?
    ensures Inv(full, c, s.(net := s.net - multiset{p}), loc)
  {
    NetFrame(full, c, s, loc, s.net - multiset{p}, s.log);
  }

  lemma Emit(full: bool, c: Config, s: State, loc: Loc, p: Packet)
    requires Inv(full, c, s, loc)
    requires p.ReplyCall? || (p.ReqCall? && PacketOk(full, c, s, loc, p))
    ensures Inv(full, c, s.(net := s.net + multiset{p}), loc)
  {
    NetFrame(full, c, s, loc, s.net + multiset{p}, s.log);
  }

  lemma Observe(full: bool, c: Config, s: State, loc: Loc, ev: Event)
    requires Inv(full, c, s, loc) && (full || !ev.Read? ==> Permitted(c.ops, Value(s.log), ev))
    requires (ev.Exec? && ev.written == Value(s.log)) || (ev.Write? && ev.data == Value(s.log)) || ev.Read?
    ensures Inv(full, c, s.(log := s.log + [ev]), loc)
  {
    LogSnoc(full, c.ops, s.log, ev);
    NetFrame(full, c, s, loc, s.net, s.log + [ev]);
  }

  // ---- the history grows

  lemma LogSnoc(full: bool, ops: Ops, log: seq<Event>, ev: Event)
    requires Atomic(full, ops, log) && (full || !ev.Read? ==> Permitted(ops, Value(log), ev))
    ensures Atomic(full, ops, log + [ev])
    ensures Value(log + [ev]) == (if ev.Exec? then ev.written else if ev.Write? then ev.data else Value(log))
    ensures DelegatedSince(log + [ev]) ==
            (if ev.Cleared? then {} else if ev.Delegated? then DelegatedSince(log) + {ev.to} else DelegatedSince(log))
  {
    var l := log + [ev];
    assert l[..|l| - 1] == log;
    forall k | 0 <= k < |l| && (full || !l[k].Read?) ensures Permitted(ops, Value(l[..k]), l[k]) {
      if k < |log| {
        assert l[..k] == log[..k] && Permitted(ops, Value(log[..k]), log[k]);
      }
    }
  }

  /** Without delegations in the history there is no read-only state. */
  lemma UntouchedNoDelegates(log: seq<Event>)
    requires Untouched(log)
    ensures DelegatedSince(log) == {}
  {
    if log != [] {
      assert !log[|log| - 1].Delegated?;
      UntouchedNoDelegates(log[..|log| - 1]);
    }
  }

  lemma UntouchedNotRo(full: bool, c: Config, s: State, loc: Loc)
    requires Inv(full, c, s, loc) && Untouched(s.log)
    ensures loc.At? && s.nodes[loc.o].rec.Present? ==> !s.nodes[loc.o].rec.h.flags.AnyRo()
  {
    UntouchedNoDelegates(s.log);
  }

  // ---- the owner writes

  ghost predicate MayWrite(full: bool, c: Config, s: State, o: nat, h: Header) {
    && Inv(full, c, s, At(o)) && Free(s.nodes[o].rec)
    && h.dmaster == o && Plain(h.flags) && h.rsn >= 1 && h.rsn >= EffRsn(s.nodes[o].rec)
    && (EffHeader(s.lm, s.nodes[o].rec).flags.migrated ==> h.flags.migrated)
  }

  ghost function Written(s: State, o: nat, h: Header, d: Data, log: seq<Event>): State
    requires o < |s.nodes|
  {
    s.(nodes := s.nodes[o := NodeState(Present(h, d), {}, Idle)], log := log)
  }

  /** The owner writes its record, or drops the read-only state of a finished revoke. */
  lemma OwnerSet(full: bool, c: Config, s: State, o: nat, h: Header, d: Data, log: seq<Event>)
    requires MayWrite(full, c, s, o, h)
    requires Atomic(full, c.ops, log) && Value(log) == d && DelegatedSince(log) == {}
    requires Untouched(log) ==> Untouched(s.log)
    ensures Inv(full, c, Written(s, o, h, d, log), At(o))
  {
    var s' := Written(s, o, h, d, log);
    OwnerSetPackets(full, c, s, o, h, d, log);
    forall i | 0 <= i < c.n ensures NodeOk(full, c, s', At(o), i) { OwnerSetNodes(full, c, s, o, h, d, log, i); }
  }

  lemma OwnerSetNodes(full: bool, c: Config, s: State, o: nat, h: Header, d: Data, log: seq<Event>, i: nat)
    requires MayWrite(full, c, s, o, h) && i < c.n
    ensures NodeOk(full, c, Written(s, o, h, d, log), At(o), i)
  {
    assert NodeOk(full, c, s, At(o), i) && NodeOk(full, c, s, At(o), o);
  }

  lemma OwnerSetPackets(full: bool, c: Config, s: State, o: nat, h: Header, d: Data, log: seq<Event>)
    requires MayWrite(full, c, s, o, h)
    ensures NetInv(full, c, Written(s, o, h, d, log), At(o))
  {
    var s' := Written(s, o, h, d, log);
    forall q <- s'.net | q.gen == s'.gen ensures PacketOk(full, c, s', At(o), q) {
      assert PacketOk(full, c, s, At(o), q);
    }
  }

  // ---- the dmaster role travels

  /** A record without read-only state names another dmaster than its node. */
  predicate Passed(rec: Rec, to: nat) {
    rec.Present? && rec.h.dmaster == to && Plain(rec.h.flags)
  }

  function TokenLoc(tok: Packet): Loc { if tok.ReqDmaster? then OnReq(tok) else OnReply(tok) }

  ghost predicate TokenFor(c: Config, s: State, o: nat, to: nat, tok: Packet)
    requires WF(c, s) && o < c.n
  {
    && Token(tok) && tok.gen == s.gen && Plain(tok.flags)
    && tok.rsn == EffRsn(s.nodes[o].rec) && tok.data == EffData(s.nodes[o].rec)
    && to < c.n && to != o
    && (tok.data != [] || EffHeader(s.lm, s.nodes[o].rec).flags.migrated ==> tok.flags.migrated)
    && (if o == s.lm then tok.ReplyDmaster? && tok.dst == to
        else tok.ReqDmaster? && tok.src == o && tok.dst == s.lm && tok.newdm == to)
  }

  lemma GiveAway(full: bool, c: Config, s: State, o: nat, to: nat, rec: Rec, tok: Packet)
    requires Inv(full, c, s, At(o)) && s.nodes[o].rec.Present? && !s.nodes[o].rec.h.flags.AnyRo()
    requires TokenFor(c, s, o, to, tok)
    requires if rec.Absent? then o != s.lm && (full ==> NoReplyTo(s, o)) && tok.data == [] && !tok.flags.migrated
             else Passed(rec, to) && rec.h.rsn == EffRsn(s.nodes[o].rec) && rec.d == tok.data
    ensures Inv(full, c, s.(nodes := s.nodes[o := NodeState(rec, {}, Idle)], net := s.net + multiset{tok}),
                TokenLoc(tok))
  {
    var s' := s.(nodes := s.nodes[o := NodeState(rec, {}, Idle)], net := s.net + multiset{tok});
    var loc := TokenLoc(tok);
    assert NodeOk(full, c, s, At(o), o);
    GiveAwayTokens(c, s, o, to, rec, tok);
    GiveAwayPackets(full, c, s, o, to, rec, tok);
    forall i | 0 <= i < c.n ensures NodeOk(full, c, s', loc, i) {
      assert NodeOk(full, c, s, At(o), i);
    }
    if full && Untouched(s.log) { GiveAwayTrail(full, c, s, o, to, rec, tok); }
  }

  lemma GiveAwayPackets(full: bool, c: Config, s: State, o: nat, to: nat, rec: Rec, tok: Packet)
    requires Inv(full, c, s, At(o)) && s.nodes[o].rec.Present? && !s.nodes[o].rec.h.flags.AnyRo()
    requires TokenFor(c, s, o, to, tok)
    requires if rec.Absent? then o != s.lm && (full ==> NoReplyTo(s, o)) && tok.data == [] && !tok.flags.migrated
             else Passed(rec, to) && rec.h.rsn == EffRsn(s.nodes[o].rec) && rec.d == tok.data
    requires TokenInv(c, s.(nodes := s.nodes[o := NodeState(rec, {}, Idle)], net := s.net + multiset{tok}),
                      TokenLoc(tok))
    ensures NetInv(full, c, s.(nodes := s.nodes[o := NodeState(rec, {}, Idle)], net := s.net + multiset{tok}),
                   TokenLoc(tok))
  {
    var s', loc := s.(nodes := s.nodes[o := NodeState(rec, {}, Idle)], net := s.net + multiset{tok}), TokenLoc(tok);
    assert NodeOk(full, c, s, At(o), o);
    assert tok !in s.net;
    forall q <- s'.net | q.gen == s'.gen ensures PacketOk(full, c, s', loc, q) {
      if q != tok { assert q in s.net && PacketOk(full, c, s, At(o), q); }
    }
  }

  lemma GiveAwayTrail(full: bool, c: Config, s: State, o: nat, to: nat, rec: Rec, tok: Packet)
    requires full && Inv(full, c, s, At(o)) && Untouched(s.log) && s.nodes[o].rec.Present?
             && !s.nodes[o].rec.h.flags.AnyRo()
    requires TokenFor(c, s, o, to, tok)
    requires if rec.Absent? then o != s.lm && tok.data == [] && !tok.flags.migrated
             else Passed(rec, to) && rec.h.rsn == EffRsn(s.nodes[o].rec) && rec.d == tok.data
    requires TokenInv(c, s.(nodes := s.nodes[o := NodeState(rec, {}, Idle)], net := s.net + multiset{tok}),
                      TokenLoc(tok))
    ensures TrailInv(c, s.(nodes := s.nodes[o := NodeState(rec, {}, Idle)], net := s.net + multiset{tok}),
                     TokenLoc(tok))
  {
    var s', loc := s.(nodes := s.nodes[o := NodeState(rec, {}, Idle)], net := s.net + multiset{tok}), TokenLoc(tok);
    forall i | 0 <= i < c.n && s'.nodes[i].rec.Present?
      ensures (tok.flags.migrated || s'.nodes[i].rec.d == [])
      ensures s'.nodes[i].rec.h.rsn == tok.rsn ==> s'.nodes[i].rec.d == tok.data
    {
      assert NodeOk(full, c, s, At(o), i);
    }
  }

  lemma GiveAwayTokens(c: Config, s: State, o: nat, to: nat, rec: Rec, tok: Packet)
    requires WF(c, s) && o < c.n && TokenInv(c, s, At(o)) && TokenFor(c, s, o, to, tok)
    requires EffRsn(s.nodes[o].rec) >= 1
    requires if rec.Absent? then o != s.lm else Passed(rec, to)
    ensures TokenInv(c, s.(nodes := s.nodes[o := NodeState(rec, {}, Idle)], net := s.net + multiset{tok}),
                     TokenLoc(tok))
  {
    assert tok !in s.net;
  }

  /** The lmaster passes the role on. */
  lemma Forward(full: bool, c: Config, s: State, p: Packet, rec: Rec, tok: Packet)
    requires Inv(full, c, s, OnReq(p)) && p.newdm != s.lm
    requires Passed(rec, p.newdm) && rec.h.rsn == p.rsn && rec.d == p.data
    requires tok.ReplyDmaster? && tok.gen == s.gen && tok.dst == p.newdm && tok.rsn == p.rsn
             && tok.data == p.data && tok.flags == p.flags
    ensures Inv(full, c, s.(nodes := s.nodes[s.lm := NodeState(rec, {}, Idle)],
                      net := s.net - multiset{p} + multiset{tok}), OnReply(tok))
  {
    var s' := s.(nodes := s.nodes[s.lm := NodeState(rec, {}, Idle)], net := s.net - multiset{p} + multiset{tok});
    assert NodeOk(full, c, s, OnReq(p), s.lm);
    assert tok !in s.net;
    forall q <- s'.net | q.gen == s'.gen ensures PacketOk(full, c, s', OnReply(tok), q) {
      if q != tok { assert q in s.net && PacketOk(full, c, s, OnReq(p), q); }
    }
    forall i | 0 <= i < c.n ensures NodeOk(full, c, s', OnReply(tok), i) {
      assert NodeOk(full, c, s, OnReq(p), i);
    }
  }

  ghost predicate Arriving(full: bool, c: Config, s: State, loc: Loc, me: nat, rec: Rec) {
    && Inv(full, c, s, loc) && !loc.At?
    && (if loc.OnReq? then loc.p.newdm == s.lm && me == s.lm else me == loc.p.dst)
    && Passed(rec, me) && rec.d == loc.p.data && rec.h.rsn > loc.p.rsn
    && (loc.p.flags.migrated ==> rec.h.flags.migrated)
  }

  ghost function Arrived(s: State, loc: Loc, me: nat, rec: Rec): State
    requires !loc.At? && me < |s.nodes|
  {
    s.(nodes := s.nodes[me := NodeState(rec, {}, Idle)], net := s.net - multiset{loc.p})
  }

  /** The role reaches its new dmaster. */
  lemma Arrive(full: bool, c: Config, s: State, loc: Loc, me: nat, rec: Rec)
    requires Arriving(full, c, s, loc, me, rec)
    ensures Inv(full, c, Arrived(s, loc, me, rec), At(me))
  {
    var s' := Arrived(s, loc, me, rec);
    assert NodeOk(full, c, s, loc, me);
    ArrivePackets(full, c, s, loc, me, rec);
    forall i | 0 <= i < c.n ensures NodeOk(full, c, s', At(me), i) {
      assert NodeOk(full, c, s, loc, i);
    }
  }

  lemma ArrivePackets(full: bool, c: Config, s: State, loc: Loc, me: nat, rec: Rec)
    requires Arriving(full, c, s, loc, me, rec)
    ensures NetInv(full, c, Arrived(s, loc, me, rec), At(me))
  {
    var s' := Arrived(s, loc, me, rec);
    forall q <- s'.net | q.gen == s'.gen ensures PacketOk(full, c, s', At(me), q) {
      assert q in s.net && PacketOk(full, c, s, loc, q);
    }
  }

  // ---- delegations

  ghost predicate MayGrant(full: bool, c: Config, s: State, o: nat, t: nat, h: Header) {
    && Inv(full, c, s, At(o)) && s.nodes[o].rec.Present? && t < c.n && t != o
    && var g := s.nodes[o].rec.h;
    && !g.flags.revoking && !g.flags.complete
    && h == if g.flags.deleg then g else g.(rsn := g.rsn + 3, flags := g.flags.(deleg := true))
  }

  ghost function Granted(s: State, o: nat, t: nat, reqid: nat, h: Header): State
    requires o < |s.nodes| && s.nodes[o].rec.Present?
  {
    var rec := s.nodes[o].rec;
    s.(nodes := s.nodes[o := NodeState(Present(h, rec.d), s.nodes[o].tracking + {t}, Idle)],
       net := s.net + multiset{ReplyRo(s.gen, t, reqid, RoHeader(h), rec.d)},
       log := s.log + [Delegated(t, rec.d)])
  }

  /** The owner hands out a read-only copy. */
  lemma Grant(full: bool, c: Config, s: State, o: nat, t: nat, reqid: nat, h: Header)
    requires MayGrant(full, c, s, o, t, h)
    ensures Inv(full, c, Granted(s, o, t, reqid, h), At(o))
  {
    var s' := Granted(s, o, t, reqid, h);
    LogSnoc(full, c.ops, s.log, Delegated(t, s.nodes[o].rec.d));
    assert s'.log[|s.log|].Delegated?;
    GrantPackets(full, c, s, o, t, reqid, h);
    forall i | 0 <= i < c.n ensures NodeOk(full, c, s', At(o), i) { GrantNodes(full, c, s, o, t, reqid, h, i); }
  }

  lemma GrantNodes(full: bool, c: Config, s: State, o: nat, t: nat, reqid: nat, h: Header, i: nat)
    requires MayGrant(full, c, s, o, t, h) && i < c.n
    ensures NodeOk(full, c, Granted(s, o, t, reqid, h), At(o), i)
  {
    assert NodeOk(full, c, s, At(o), i);
  }

  lemma GrantPackets(full: bool, c: Config, s: State, o: nat, t: nat, reqid: nat, h: Header)
    requires MayGrant(full, c, s, o, t, h)
    ensures NetInv(full, c, Granted(s, o, t, reqid, h), At(o))
  {
    var s' := Granted(s, o, t, reqid, h);
    assert NodeOk(full, c, s, At(o), o);
    forall q <- s'.net | q.gen == s'.gen ensures PacketOk(full, c, s', At(o), q) {
      if q in s.net { assert PacketOk(full, c, s, At(o), q); }
    }
  }

  lemma UpdatesCount(gen: nat, to: set<nat>, h: Header, d: Data, t: nat)
    ensures Updates(gen, to, h, d)[Update(gen, t, h, d)] == if t in to then 1 else 0
    ensures forall q <- Updates(gen, to, h, d) :: q.Update? && q.dst in to && q == Update(gen, q.dst, h, d)
  {
  }

  ghost function Revoking(s: State, o: nat): State
    requires o < |s.nodes| && s.nodes[o].rec.Present?
  {
    var rec := s.nodes[o].rec;
    var h := rec.h.(flags := rec.h.flags.(revoking := true));
    s.(nodes := s.nodes[o := NodeState(Present(h, rec.d), s.nodes[o].tracking,
                                       Running(h.rsn, rec.d, s.nodes[o].tracking, false))],
       net := s.net + Updates(s.gen, s.nodes[o].tracking, PushedHeader(h), rec.d))
  }

  ghost predicate MayRecall(full: bool, c: Config, s: State, o: nat) {
    && Inv(full, c, s, At(o)) && s.nodes[o].rec.Present?
    && var f := s.nodes[o].rec.h.flags;
    && f.deleg && !f.revoking && !f.complete
  }

  /** The owner starts to call its read-only copies back. */
  lemma Recall(full: bool, c: Config, s: State, o: nat)
    requires MayRecall(full, c, s, o)
    ensures Inv(full, c, Revoking(s, o), At(o))
  {
    var s' := Revoking(s, o);
    forall t: nat ensures RunAt(full, s', o, t) && (t in s.nodes[o].tracking ==> TheUpdate(s', o, t) in s'.net) {
      RecallRun(full, c, s, o, t);
    }
    RecallPackets(full, c, s, o);
    RecallTokens(full, c, s, o);
    if Untouched(s.log) { UntouchedNotRo(full, c, s, At(o)); }
    forall i | 0 <= i < c.n ensures NodeOk(full, c, s', At(o), i) {
      assert NodeOk(full, c, s, At(o), i);
    }
    RecallPushes(full, c, s, o);
  }

  lemma RecallRun(full: bool, c: Config, s: State, o: nat, t: nat)
    requires MayRecall(full, c, s, o)
    ensures RunAt(full, Revoking(s, o), o, t)
    ensures t in s.nodes[o].tracking ==> TheUpdate(Revoking(s, o), o, t) in Revoking(s, o).net
  {
    var s' := Revoking(s, o);
    var h, d := s'.nodes[o].rec.h, s'.nodes[o].rec.d;
    UpdatesCount(s.gen, s.nodes[o].tracking, PushedHeader(h), d, t);
    assert s.net[TheUpdate(s', o, t)] == 0 && s.net[Ack(s.gen, o, t, true)] == 0 && s.net[Ack(s.gen, o, t, false)] == 0;
  }

  lemma RecallTokens(full: bool, c: Config, s: State, o: nat)
    requires MayRecall(full, c, s, o)
    ensures TokenInv(c, Revoking(s, o), At(o))
  {
    var s' := Revoking(s, o);
    forall q <- s'.net ensures !(Token(q) && q.gen == s.gen) {
      if q !in s.net { assert q.Update?; }
    }
  }

  lemma RecallPushes(full: bool, c: Config, s: State, o: nat)
    requires MayRecall(full, c, s, o)
    ensures PushesOk(c, Revoking(s, o))
  {
    var s' := Revoking(s, o);
    var h, d := s'.nodes[o].rec.h, s'.nodes[o].rec.d;
    assert NodeOk(full, c, s, At(o), o);
    if Untouched(s.log) { UntouchedNotRo(full, c, s, At(o)); }
    forall q <- s'.net | q.Update? ensures PushForm(c, q) {
      if q !in s.net { UpdatesCount(s.gen, s.nodes[o].tracking, PushedHeader(h), d, q.dst); }
    }
  }

  lemma RecallPackets(full: bool, c: Config, s: State, o: nat)
    requires MayRecall(full, c, s, o)
    requires forall t <- s.nodes[o].tracking :: TheUpdate(Revoking(s, o), o, t) in Revoking(s, o).net
    ensures NetInv(full, c, Revoking(s, o), At(o))
  {
    var s' := Revoking(s, o);
    var h, d := s'.nodes[o].rec.h, s'.nodes[o].rec.d;
    forall q <- s'.net | q.gen == s'.gen ensures PacketOk(full, c, s', At(o), q) {
      if q in s.net { assert PacketOk(full, c, s, At(o), q); }
      else { UpdatesCount(s.gen, s.nodes[o].tracking, PushedHeader(h), d, q.dst); }
    }
  }
}
