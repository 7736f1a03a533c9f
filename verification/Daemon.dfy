/** One daemon and its state for one key, updated in place by the handlers;
    each handler does what its description in Protocol says. */
module Daemon {
  import opened Ltdb
  import opened Protocol
  import opened Tracking

  lemma UpdatesAdd(gen: nat, to: set<nat>, t: nat, h: Header, d: Data)
    requires t !in to
    ensures Updates(gen, to + {t}, h, d) == Updates(gen, to, h, d) + multiset{Update(gen, t, h, d)}
  {
    var a, b := set k | k in to + {t} :: Update(gen, k, h, d), set k | k in to :: Update(gen, k, h, d);
    assert a == b + {Update(gen, t, h, d)} && Update(gen, t, h, d) !in b;
  }

  /** A read-only call on a database without tracking is an ordinary call. */
  lemma CallRo(e: Env, ns: NodeState, h: Header, d: Data, c: Packet)
    requires c.ReqCall?
    ensures RouteCall(e, ns, h, d, c.(ro := c.ro && e.rodb)) == RouteCall(e, ns, h, d, c)
  {
  }

  class Daemon {
    const me: nat
    const rodb: bool
    const ops: Ops
    var lm: nat               // the lmaster of the key in the current vnn map
    var gen: nat              // the generation of the vnn map
    var rec: Rec              // the record in the local tdb
    var tdata: seq<bv8>       // the record in the tracking tdb
    var revoke: Revoke        // the revoke child
    var out: seq<Packet>      // packets handed to the transport
    var fault: bool           // a recovery was asked for, or the daemon aborts
    ghost var log: seq<Event>

    constructor (me: nat, lm: nat, gen: nat, rodb: bool, ops: Ops)
      ensures View() == NodeState(Absent, {}, Idle) && out == [] && !fault && log == []
    {
      this.me, this.lm, this.gen, this.rodb, this.ops := me, lm, gen, rodb, ops;
      rec, tdata, revoke, out, fault, log := Absent, [], Idle, [], false, [];
    }

    ghost function E(): Env
      reads this
    {
      Env(me, lm, gen, rodb, ops)
    }

    ghost function View(): NodeState
      reads this
    {
      NodeState(rec, Bits(tdata), revoke)
    }

    /** From the given queue, history and fault mark the daemon has gone
        through the given effect, and nothing else. */
    ghost predicate Did(out0: seq<Packet>, log0: seq<Event>, fault0: bool, eff: Effect)
      reads this
    {
      && View() == eff.ns
      && multiset(out) == multiset(out0) + eff.out
      && log == log0 + eff.log
      && fault == (fault0 || eff.fault)
    }

    /** An effect that comes after an entry in the history. */
    lemma DidAfter(out0: seq<Packet>, log0: seq<Event>, more: seq<Event>, fault0: bool, eff: Effect)
      requires Did(out0, log0 + more, fault0, eff)
      ensures Did(out0, log0, fault0, eff.(log := more + eff.log))
    {
      assert (log0 + more) + eff.log == log0 + (more + eff.log);
    }

    // ---- the local database

    method LtdbStore(h0: Header, d: Data) returns (h: Header)
      modifies this`rec
      ensures rec == StoreRec(me, lm, h0, d) && h == StoredHeader(me, lm, h0, d)
    {
      h := h0;
      var keep := false;
      if d != [] {
        keep := true;
      } else if h.flags.AnyRo() {
        keep := true;
      } else if h.flags.automatic {
        keep := true;
      } else if h.flags.migrated {
        keep := true;
      } else if me == lm {
        if !h.flags.vacuum {
          keep := true;
        } else if me != h.dmaster {
          keep := true;
        }
      } else if me == h.dmaster {
        keep := true;
      }
      if keep && me == h.dmaster && !h.flags.AnyRo() {
        h := h.(rsn := h.rsn + 1);
      }
      h := h.(flags := h.flags.(vacuum := false));
      h := h.(flags := h.flags.(automatic := false));
      if keep {
        rec := Present(h, d);
      } else {
        rec := Absent;
      }
    }

    method LtdbFetch() returns (h: Header, d: Data)
      modifies this`rec
      ensures rec == FetchRec(me, lm, old(rec))
      ensures h == FetchHeader(me, lm, old(rec)) && d == EffData(old(rec))
    {
      if rec.Absent? {
        h, d := InitialHeader(lm), [];
        if h.dmaster == me {
          h := LtdbStore(h, d);
        }
        return;
      }
      h, d := rec.h, rec.d;
    }

    // ---- sending

    method QueuePacket(p: Packet)
      modifies this`out
      ensures out == old(out) + [p] && multiset(out) == multiset(old(out)) + multiset{p}
    {
      out := out + [p];
    }

    method SendDmasterReply(h0: Header, d: Data, newDmaster: nat, reqid: nat)
      modifies this`rec, this`tdata, this`revoke, this`out, this`fault, this`log
      ensures Did(old(out), old(log), old(fault),
                  Protocol.SendDmasterReply(old(E()), old(View()), h0, d, newDmaster, reqid))
    {
      if me != lm {
        return;
      }
      var h := h0.(dmaster := newDmaster);
      h := LtdbStore(h, d);
      QueuePacket(ReplyDmaster(gen, newDmaster, reqid, h.rsn, h.flags, d));
    }

    method CallSendDmaster(c: Packet, h0: Header, d: Data)
      requires c.ReqCall?
      modifies this`rec, this`tdata, this`revoke, this`out, this`fault, this`log
      ensures Did(old(out), old(log), old(fault), SendDmaster(old(E()), old(View()), h0, d, c.src, c.reqid))
    {
      var h := h0;
      if d != [] {
        h := h.(flags := h.flags.(migrated := true));
      }
      if lm == me {
        SendDmasterReply(h, d, c.src, c.reqid);
        return;
      }
      var r := ReqDmaster(gen, me, lm, c.reqid, c.src, h.rsn, h.flags, d);
      h := h.(dmaster := c.src);
      h := LtdbStore(h, d);
      QueuePacket(r);
    }

    // ---- running a call

    method CallLocal(h: Header, d: Data, callid: nat) returns (reply: Data)
      modifies this`rec, this`tdata, this`revoke, this`out, this`fault, this`log
      ensures Did(old(out), old(log), old(fault), Protocol.CallLocal(old(E()), old(View()), h, d, callid))
      ensures reply == CallReply(old(E()), d, callid)
      ensures if log == old(log) then reply == [] else log[|log| - 1] == Exec(callid, d, log[|log| - 1].written, reply)
    {
      match ops(callid, d)
      case Failed => reply := [];
      case Done(d2, r) =>
        var _ := LtdbStore(h, d2);
        log := log + [Exec(callid, d, d2, r)];
        reply := r;
    }

    method BecomeDmaster(rsn: int, flags: Flags, d: Data, pend: Pending)
      modifies this`rec, this`tdata, this`revoke, this`out, this`fault, this`log
      ensures Did(old(out), old(log), old(fault), Protocol.BecomeDmaster(old(E()), old(View()), rsn, flags, d, pend))
    {
      var h := Header(rsn, me, flags);
      if pend.Pending? {
        if pend.vac {
          h := h.(flags := h.flags.(vacuum := true));
        }
      }
      h := LtdbStore(h, d);
      if pend.NoCall? {
        return;
      }
      var _ := CallLocal(h, d, pend.callid);
    }

    method RequestDmaster(p: Packet, pend: Pending)
      requires p.ReqDmaster?
      modifies this`rec, this`tdata, this`revoke, this`out, this`fault, this`log
      ensures Did(old(out), old(log), old(fault), Protocol.RequestDmaster(old(E()), old(View()), p, pend))
    {
      ghost var eff := Protocol.RequestDmaster(E(), View(), p, pend);
      var h, d2 := LtdbFetch();
      if lm != me || (h.dmaster != p.src && (h.rsn != 0 || h.dmaster != me)) {
        assert eff == Quiet(View()).(fault := true);
        fault := true;
        return;
      }
      assert eff == if p.newdm == me then Protocol.BecomeDmaster(E(), View(), p.rsn, p.flags, p.data, pend)
                    else Protocol.SendDmasterReply(E(), View(), h.(rsn := p.rsn, flags := p.flags), p.data, p.newdm,
                                                   p.reqid);
      PassOn(h, p, pend);
    }

    /** The request is in order: the record comes here or goes on. */
    method PassOn(h0: Header, p: Packet, pend: Pending)
      requires p.ReqDmaster?
      modifies this`rec, this`tdata, this`revoke, this`out, this`fault, this`log
      ensures Did(old(out), old(log), old(fault),
                  if p.newdm == me then Protocol.BecomeDmaster(old(E()), old(View()), p.rsn, p.flags, p.data, pend)
                  else Protocol.SendDmasterReply(old(E()), old(View()), h0.(rsn := p.rsn, flags := p.flags), p.data,
                                                 p.newdm, p.reqid))
    {
      var h := h0.(rsn := p.rsn);
      h := h.(flags := p.flags);
      if p.newdm == me {
        BecomeDmaster(p.rsn, p.flags, p.data, pend);
      } else {
        SendDmasterReply(h, p.data, p.newdm, p.reqid);
      }
    }

    // ---- read-only delegations

    method StartRevoke(h0: Header, d: Data)
      modifies this`rec, this`tdata, this`revoke, this`out, this`fault, this`log
      ensures Did(old(out), old(log), old(fault), Protocol.StartRevoke(old(E()), old(View()), h0, d))
    {
      var h := h0.(flags := h0.flags.(revoking := true));
      h := LtdbStore(h, d);
      ghost var stored := h;
      revoke := Running(h.rsn, d, {}, false);
      h := h.(flags := h.flags.(revoking := false, deleg := false, ro := false));
      h := h.(flags := h.flags.(migrated := true));
      h := h.(rsn := h.rsn - 1);
      assert h == PushedHeader(stored);
      QueuePushes(h, d);
      ghost var eff := Protocol.StartRevoke(old(E()), old(View()), h0, d);
      assert View() == eff.ns;
      assert multiset(out) == multiset(old(out)) + eff.out;
    }

    /** Push the record to every tracked node, and wait for the nodes that the
        child waits for. */
    method QueuePushes(h: Header, d: Data)
      requires revoke == Running(h.rsn + 1, d, {}, false)
      modifies this`out, this`revoke
      ensures revoke == Running(h.rsn + 1, d, Bits(tdata), false)
      ensures multiset(out) == multiset(old(out)) + Updates(gen, Bits(tdata), h, d)
    {
      var child, nodes := StartChild(h.rsn + 1, d, tdata);
      ghost var pushed := child.View();
      for i := 0 to |nodes|
        invariant revoke == old(revoke)
        invariant multiset(out) == multiset(old(out)) + Updates(gen, Firsts(nodes, i), h, d)
      {
        NextFirst(nodes, i);
        UpdatesAdd(gen, Firsts(nodes, i), nodes[i], h, d);
        QueuePacket(Update(gen, nodes[i], h, d));
      }
      revoke := revoke.(waiting := set k | k in nodes);
      assert nodes[..|nodes|] == nodes;
      assert revoke == pushed;
    }

    method Delegate(h0: Header, d: Data, c: Packet)
      requires c.ReqCall?
      modifies this`rec, this`tdata, this`revoke, this`out, this`fault, this`log
      ensures Did(old(out), old(log), old(fault), Protocol.Delegate(old(E()), old(View()), h0, d, c))
    {
      var h := h0;
      if !h.flags.deleg {
        h := h.(rsn := h.rsn + 3);
        h := h.(flags := h.flags.(deleg := true));
        h := LtdbStore(h, d);
      }
      tdata := AddPnn(tdata, c.src);
      h := h.(rsn := h.rsn - 2);
      h := h.(flags := h.flags.(ro := true));
      h := h.(flags := h.flags.(deleg := false));
      log := log + [Delegated(c.src, d)];
      QueuePacket(ReplyRo(gen, c.src, c.reqid, h, d));
    }

    method ReplyCallRo(p: Packet, known: bool)
      requires p.ReplyRo?
      modifies this`rec, this`tdata, this`revoke, this`out, this`fault, this`log
      ensures Did(old(out), old(log), old(fault), Protocol.ReplyCallRo(old(E()), old(View()), p, known))
    {
      if !known || !p.h.flags.ro {
        return;
      }
      var oldh, _ := LtdbFetch();
      if p.h.rsn <= oldh.rsn {
        return;
      }
      var _ := LtdbStore(p.h, p.data);
    }

    method UpdateRecord(u: Packet)
      requires u.Update?
      modifies this`rec, this`tdata, this`revoke, this`out, this`fault, this`log
      ensures Did(old(out), old(log), old(fault), Protocol.UpdateRecord(old(E()), old(View()), u))
    {
      var ok := true;
      if rec.Present? {
        var oldh, oldd := LtdbFetch();
        if oldh.rsn >= u.h.rsn && oldd != u.data {
          ok := false;
        } else {
          var _ := LtdbStore(u.h, u.data);
        }
      }
      QueuePacket(Ack(u.gen, u.h.dmaster, me, ok));
    }

    /** The answer of a delegate to the revoke of its generation. */
    method AckReceived(a: Packet)
      requires a.Ack?
      modifies this`revoke
      ensures Did(old(out), old(log), old(fault), Protocol.AckReceived(old(E()), old(View()), a))
    {
      if revoke.Running? && a.gen == gen {
        revoke := revoke.(waiting := revoke.waiting - {a.src}, failed := revoke.failed || !a.ok);
      }
    }

    method RevokeFinish()
      requires revoke.Running?
      modifies this`rec, this`tdata, this`revoke, this`out, this`fault, this`log
      ensures Did(old(out), old(log), old(fault), Protocol.RevokeFinish(old(E()), old(View())))
    {
      if revoke.failed {
        revoke := Stuck;
        return;
      }
      var h, d := LtdbFetch();
      if h.rsn > revoke.rsn || !h.flags.revoking || !h.flags.deleg {
        revoke := Stuck;
        fault := true;
        return;
      }
      h := h.(rsn := h.rsn + 1);
      h := h.(flags := h.flags.(complete := true));
      h := LtdbStore(h, d);
      revoke := Idle;
    }

    // ---- calls

    /** Fetch the record, and clear what a finished revoke left behind. */
    method FetchForCall() returns (h: Header, d: Data)
      modifies this`rec, this`tdata, this`revoke, this`out, this`fault, this`log
      ensures View() == PreCall(old(E()), old(View())) && log == old(log) + PreLog(old(E()), old(View()))
      ensures h == PreHeader(old(E()), old(View())) && d == EffData(old(rec))
      ensures out == old(out) && fault == old(fault)
    {
      h, d := LtdbFetch();
      if h.flags.complete {
        h := h.(flags := h.flags.ClearRo());
        h := LtdbStore(h, d);
        tdata := [];
        log := log + [Cleared];
      }
    }

    /** A REQ_CALL packet; answers whether it has to wait for a revoke. */
    method RequestCall(c0: Packet) returns (parked: bool)
      requires c0.ReqCall?
      modifies this`rec, this`tdata, this`revoke, this`out, this`fault, this`log
      ensures Did(old(out), old(log), old(fault), Protocol.RequestCall(old(E()), old(View()), c0))
      ensures parked == Protocol.RequestCall(old(E()), old(View()), c0).parked
    {
      var c := c0;
      var h, d := FetchForCall();
      if c.ro && !rodb {
        c := c.(ro := false);
      }
      CallRo(E(), View(), h, d, c0);
      ghost var more, eff := PreLog(old(E()), old(View())), Protocol.RouteCall(E(), View(), h, d, c0);
      parked := RouteCall(c, h, d);
      DidAfter(old(out), old(log), more, old(fault), eff);
    }

    method RouteCall(c0: Packet, h: Header, d: Data) returns (parked: bool)
      requires c0.ReqCall? && (c0.ro ==> rodb)
      modifies this`rec, this`tdata, this`revoke, this`out, this`fault, this`log
      ensures Did(old(out), old(log), old(fault), Protocol.RouteCall(old(E()), old(View()), h, d, c0))
      ensures parked == Protocol.RouteCall(old(E()), old(View()), h, d, c0).parked
    {
      var c := c0;
      if h.flags.revoking {
        return true;
      }
      if h.dmaster != me && !h.flags.deleg {
        var dst := lm;
        if me == lm {
          dst := h.dmaster;
        }
        c := c.(dst := dst, hops := c.hops + 1);
        QueuePacket(c);
        return false;
      }
      parked := AnswerCall(c, h, d);
    }

    method AnswerCall(c: Packet, h: Header, d: Data) returns (parked: bool)
      requires c.ReqCall?
      modifies this`rec, this`tdata, this`revoke, this`out, this`fault, this`log
      ensures Did(old(out), old(log), old(fault), Protocol.AnswerCall(old(E()), old(View()), h, d, c, c.ro))
      ensures parked == Protocol.AnswerCall(old(E()), old(View()), h, d, c, c.ro).parked
    {
      if !c.ro && (h.flags.deleg || h.flags.ro) {
        StartRevoke(h, d);
        return true;
      }
      if c.ro && c.callid == FETCH_WITH_HEADER {
        Delegate(h, d, c);
        return false;
      }
      if c.src != me {
        CallSendDmaster(c, h, d);
        return false;
      }
      AnswerHere(c, h, d);
      return false;
    }

    /** The caller is this node: the call is run and its reply sent. */
    method AnswerHere(c: Packet, h: Header, d: Data)
      requires c.ReqCall?
      modifies this`rec, this`tdata, this`revoke, this`out, this`fault, this`log
      ensures Did(old(out), old(log), old(fault),
                  Protocol.CallLocal(old(E()), old(View()), h, d, c.callid)
                    .(out := multiset{ReplyCall(old(gen), c.src, c.reqid, CallReply(old(E()), d, c.callid))}))
    {
      var reply := CallLocal(h, d, c.callid);
      QueuePacket(ReplyCall(gen, c.src, c.reqid, reply));
    }

    /** A call from a local client. */
    method ClientCall(ro0: bool, callid0: nat, reqid: nat)
      modifies this`rec, this`tdata, this`revoke, this`out, this`fault, this`log
      ensures Did(old(out), old(log), old(fault), Protocol.ClientCall(old(E()), old(View()), ro0, callid0, reqid))
    {
      var ro, callid := ro0, callid0;
      var h, d := FetchForCall();
      if ro && !rodb {
        ro := false;
      }
      if ro {
        callid := FETCH_WITH_HEADER;
      }
      ghost var more, eff := PreLog(old(E()), old(View())), Protocol.RouteClient(E(), View(), h, d, ro, callid, reqid);
      RouteClient(ro, callid, reqid, h, d);
      DidAfter(old(out), old(log), more, old(fault), eff);
    }

    method RouteClient(ro: bool, callid: nat, reqid: nat, h: Header, d: Data)
      modifies this`rec, this`tdata, this`revoke, this`out, this`fault, this`log
      ensures Did(old(out), old(log), old(fault), Protocol.RouteClient(old(E()), old(View()), h, d, ro, callid, reqid))
    {
      if h.flags.revoking {
        return;
      }
      if h.dmaster == me && !ro && (h.flags.deleg || h.flags.ro) {
        StartRevoke(h, d);
        return;
      }
      if h.dmaster == me {
        var _ := CallLocal(h, d, callid);
      } else {
        QueuePacket(ReqCall(gen, me, h.dmaster, reqid, ro, callid, 0));
      }
    }

    /** A call that still waits for its answer after a recovery goes out again, to
        this node itself. */
    method CallResend(ro: bool, callid: nat, reqid: nat)
      modifies this`out
      ensures Did(old(out), old(log), old(fault),
                  Quiet(old(View())).(out := multiset{ReqCall(gen, me, me, reqid, ro, callid, 0)}))
    {
      QueuePacket(ReqCall(gen, me, me, reqid, ro, callid, 0));
    }

    /** The gate every packet passes, also when it was parked in between: it stops
        calls and dmaster packets, and lets the controls of a revoke through. */
    method InputPkt(p: Packet, pend: Pending, banned: bool) returns (parked: bool)
      modifies this`rec, this`tdata, this`revoke, this`out, this`fault, this`log
      ensures !p.Update? && !p.Ack? && (banned || p.gen != old(gen)) ==>
              Did(old(out), old(log), old(fault), Quiet(old(View()))) && !parked
      ensures !banned && p.gen == old(gen) && p.ReqCall? ==>
                Did(old(out), old(log), old(fault), Protocol.RequestCall(old(E()), old(View()), p))
                && parked == Protocol.RequestCall(old(E()), old(View()), p).parked
      ensures !banned && p.gen == old(gen) && p.ReqDmaster? ==>
                Did(old(out), old(log), old(fault), Protocol.RequestDmaster(old(E()), old(View()), p, pend)) && !parked
      ensures !banned && p.gen == old(gen) && p.ReplyDmaster? ==>
                Did(old(out), old(log), old(fault),
                    Protocol.BecomeDmaster(old(E()), old(View()), p.rsn, p.flags, p.data, pend)) && !parked
      ensures !banned && p.gen == old(gen) && p.ReplyRo? ==>
                Did(old(out), old(log), old(fault), Protocol.ReplyCallRo(old(E()), old(View()), p, pend.Pending?))
                  && !parked
      ensures p.ReplyCall? ==> Did(old(out), old(log), old(fault), Quiet(old(View()))) && !parked
      ensures p.Update? ==>
                Did(old(out), old(log), old(fault), Protocol.UpdateRecord(old(E()), old(View()), p)) && !parked
      ensures p.Ack? ==> Did(old(out), old(log), old(fault), Protocol.AckReceived(old(E()), old(View()), p)) && !parked
    {
      parked := false;
      if !p.Update? && !p.Ack? {
        if banned {
          return;
        }
        if gen != p.gen {
          return;
        }
      }
      if p.ReqCall? { parked := RequestCall(p); }
      else if p.ReplyRo? { ReplyCallRo(p, pend.Pending?); }
      else if p.ReqDmaster? { RequestDmaster(p, pend); }
      else if p.ReplyDmaster? { BecomeDmaster(p.rsn, p.flags, p.data, pend); }
      else if p.Update? { UpdateRecord(p); }
      else if p.Ack? { AckReceived(p); }
    }
  }
}
