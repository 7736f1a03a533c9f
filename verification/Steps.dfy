/** Every step of the cluster keeps the invariant, unless it is a hazard. */
module Steps {
  import opened Ltdb
  import opened Protocol
  import opened Cluster
  import opened ClusterInv
  import opened Moves
  import opened RevokeMoves

  // ---- the steps that can go wrong, by what they meet

  /** An owner other than the lmaster is asked to give an empty record away that
      never carried data. */
  predicate GivesEmpty(c: Config, s: State, p: Packet)
    requires WF(c, s) && p.ReqCall? && p.dst < c.n
  {
    var rec := s.nodes[p.dst].rec;
    && p.dst != s.lm && p.src != p.dst && !(p.ro && c.rodb && p.callid == FETCH_WITH_HEADER)
    && rec.Present? && rec.h.dmaster == p.dst && rec.d == [] && !rec.h.flags.migrated
    && (!rec.h.flags.AnyRo() || rec.h.flags.complete)
  }

  /** Such a record comes home to the lmaster for a vacuum migration whose call fails. */
  predicate LandsEmpty(c: Config, s: State, p: Packet, pend: Pending)
    requires WF(c, s) && p.ReqDmaster?
  {
    && p.dst == s.lm == p.newdm && p.data == [] && !p.flags.migrated
    && pend.Pending? && pend.vac && c.ops(pend.callid, []).Failed?
  }

  /** The steps that leave their node without a stored record: a vacuum delete,
      an empty record given away or come home, a push with nothing to replace. */
  predicate LosesCopy(c: Config, s: State, a: Action)
    requires WF(c, s)
  {
    match a
    case Delete(_, _) => true
    case Deliver(p, pend) =>
      p.gen == s.gen && p.dst < c.n
      && (match p
          case ReqCall(_, _, _, _, _, _, _) => GivesEmpty(c, s, p)
          case ReqDmaster(_, _, _, _, _, _, _, _) => LandsEmpty(c, s, p, pend)
          case Update(_, _, _, _) => s.nodes[p.dst].rec.Absent?
          case _ => false)
    case _ => false
  }

  /** The step hands the owner a read-only copy of its own record. */
  predicate GrantsSelf(c: Config, s: State, a: Action)
    requires WF(c, s)
  {
    && a.Deliver? && a.p.ReqCall? && !Stale(s, a.p)
    && a.p.dst < c.n && a.p.src == a.p.dst && a.p.ro && c.rodb
    && var h := PreHeader(EnvOf(c, s, a.p.dst), s.nodes[a.p.dst]);
    && h.dmaster == a.p.dst && !h.flags.revoking
  }

  /** A client stores other data over a record that is delegated. */
  predicate StoresOver(c: Config, s: State, a: Action)
    requires WF(c, s)
  {
    a.Store? && a.i < c.n && Delegating(s, a.i) && a.data != s.nodes[a.i].rec.d
  }

  /** The record vanishes on the lmaster. */
  predicate Resets(c: Config, s: State, a: Action)
    requires WF(c, s)
  {
    !a.Recover? && Actor(a) == s.lm && LosesCopy(c, s, a)
  }

  predicate NoReplies(s: State) { forall p <- s.net :: p.ReplyRo? ==> p.gen != s.gen }

  /** A delegation that can reach its node as the owner of a record that started
      over: on the lmaster at once, elsewhere when it is newer than the first rsn of
      an owner that was given the role. */
  predicate Outlives(s: State, p: Packet) {
    p.ReplyRo? && p.gen == s.gen && (p.dst == s.lm || p.h.rsn > 2)
  }

  predicate OnlyHere(s: State, o: nat) {
    forall i | 0 <= i < |s.nodes| && i != o :: s.nodes[i].rec.Absent?
  }

  /** The steps that put the dmaster role, or the name of its holder, at risk. */
  predicate NameHazard(c: Config, s: State, a: Action)
    requires WF(c, s)
  {
    && !a.Recover?
    && (|| GrantsSelf(c, s, a)
        || (Resets(c, s, a) && exists p <- s.net :: Outlives(s, p))
        || (a.Deliver? && LateStored(s, a.p) && (TakesName(s, a.p) || RevivesName(s, a.p))))
  }

  /** The steps that put the order of the copies at risk: the record starts over
      while there are copies of it, stored or on their way, or an old push is too new. */
  predicate OrderHazard(c: Config, s: State, a: Action)
    requires WF(c, s)
  {
    && !a.Recover?
    && (|| (Resets(c, s, a) && !(OnlyHere(s, s.lm) && NoReplies(s)))
        || (a.Deliver? && LateStored(s, a.p) && TooNew(c, s, a.p)))
  }

  /** The steps that put the agreement of read-only copies at risk. */
  predicate CopyHazard(c: Config, s: State, a: Action)
    requires WF(c, s)
  {
    && !a.Recover?
    && (|| StoresOver(c, s, a)
        || (LosesCopy(c, s, a) && Actor(a) < c.n && Actor(a) != s.lm && !NoHeld(s, Actor(a)))
        || (a.Deliver? && LateStored(s, a.p) && (Revives(s, a.p) || Unsettles(c, s, a.p))))
  }

  predicate HazardFor(full: bool, c: Config, s: State, a: Action)
    requires WF(c, s)
  {
    NameHazard(c, s, a) || (full && (OrderHazard(c, s, a) || CopyHazard(c, s, a)))
  }

  /** What every invariant says about a stored record. */
  predicate Settled(ns: NodeState, i: nat) {
    ns.rec.Present? ==>
      var f := ns.rec.h.flags;
      && !f.vacuum && !f.automatic
      && (f.deleg || f.revoking || f.complete ==> ns.rec.h.dmaster == i) && (f.ro ==> ns.rec.h.dmaster != i)
      && (ns.rec.h.dmaster == i && f.AnyRo() ==> f.deleg)
  }

  /** A call makes its node drop the record exactly when it gives away an empty one. */
  lemma RequestVanishes(c: Config, s: State, p: Packet)
    requires WF(c, s) && p.ReqCall? && p.dst < c.n && Settled(s.nodes[p.dst], p.dst) && s.nodes[p.dst].rec.Present?
    requires p.ro ==> p.callid == FETCH_WITH_HEADER
    ensures RequestCall(EnvOf(c, s, p.dst), s.nodes[p.dst], p).ns.rec.Absent? <==> GivesEmpty(c, s, p)
  {
    var e, ns := EnvOf(c, s, p.dst), s.nodes[p.dst];
    var h, ns1 := PreHeader(e, ns), PreCall(e, ns);
    assert ns1.rec.Present? && !h.flags.vacuum && !h.flags.automatic && !h.flags.complete;
    assert h.dmaster == ns.rec.h.dmaster && h.flags.migrated == ns.rec.h.flags.migrated;
    var eff := RouteCall(e, ns1, h, EffData(ns.rec), p);
    assert h.flags.AnyRo() <==> ns.rec.h.flags.AnyRo() && !ns.rec.h.flags.complete;
  }

  lemma LandVanishes(c: Config, s: State, p: Packet, pend: Pending)
    requires WF(c, s) && p.ReqDmaster? && p.newdm == s.lm && !p.flags.AnyRo() && !p.flags.vacuum && !p.flags.automatic
    requires p.dst == s.lm
    ensures BecomeDmaster(EnvOf(c, s, s.lm), s.nodes[s.lm], p.rsn, p.flags, p.data, pend).ns.rec.Absent?
            <==> LandsEmpty(c, s, p, pend)
  {
  }

  ghost function PreState(c: Config, s: State, i: nat): State
    requires WF(c, s) && i < c.n
  {
    var e := EnvOf(c, s, i);
    s.(nodes := s.nodes[i := PreCall(e, s.nodes[i])], log := s.log + PreLog(e, s.nodes[i]))
  }

  /** What a fetch does to a stored or a missing record, and to a finished revoke. */
  lemma PreEffect(c: Config, s: State, i: nat)
    requires WF(c, s) && i < c.n
    requires var rec := s.nodes[i].rec;
             rec.Present? ==>
               && !rec.h.flags.vacuum && !rec.h.flags.automatic
               && (rec.h.flags.complete ==> rec.h.dmaster == i)
    ensures var e := EnvOf(c, s, i); var rec0 := s.nodes[i].rec; var rec := PreState(c, s, i).nodes[i].rec;
            && PreHeader(e, s.nodes[i]) == EffHeader(s.lm, rec) && EffData(rec) == EffData(rec0)
            && (rec.Present? ==> !rec.h.flags.complete)
            && (rec.Absent? <==> rec0.Absent? && i != s.lm)
            && (if (rec0.Present? && rec0.h.flags.complete) || (rec0.Absent? && i == s.lm) then
                  && Plain(rec.h.flags) && rec.h.dmaster == i && rec.h.rsn == EffRsn(rec0) + 1
                  && rec.h.flags.migrated == EffHeader(s.lm, rec0).flags.migrated
                  && var tracking := if rec0.Present? then {} else s.nodes[i].tracking;
                  PreState(c, s, i) == s.(nodes := s.nodes[i := NodeState(rec, tracking, s.nodes[i].revoke)],
                                          log := s.log + if rec0.Present? then [Cleared] else [])
                else PreState(c, s, i) == s)
  {
    var ns := s.nodes[i];
    assert s.nodes[i := ns] == s.nodes && s.log + [] == s.log;
  }

  /** Fetching the record and clearing a finished revoke changes nothing a caller can see. */
  lemma PreInv(full: bool, c: Config, s: State, loc: Loc, i: nat)
    requires Inv(full, c, s, loc) && i < c.n
    ensures Inv(full, c, PreState(c, s, i), loc)
    ensures Progress(full, s, loc, PreState(c, s, i), loc)
    ensures loc.At? && Delegating(s, loc.o) ==> Delegating(PreState(c, s, i), loc.o)
    ensures var e := EnvOf(c, s, i); var rec := PreState(c, s, i).nodes[i].rec;
            && PreHeader(e, s.nodes[i]) == EffHeader(s.lm, rec) && EffData(rec) == EffData(s.nodes[i].rec)
            && (rec.Present? ==> !rec.h.flags.complete) && (loc == At(i) ==> rec.Present?)
  {
    assert NodeOk(full, c, s, loc, i);
    PreEffect(c, s, i);
    var rec0, s1 := s.nodes[i].rec, PreState(c, s, i);
    if rec0.Present? && rec0.h.flags.complete {
      PreClear(full, c, s, i);
    } else if rec0.Absent? && i == s.lm {
      OwnerSet(full, c, s, i, s1.nodes[i].rec.h, [], s.log);
      assert s1 == Written(s, i, s1.nodes[i].rec.h, [], s.log);
    }
  }

  lemma PreClear(full: bool, c: Config, s: State, o: nat)
    requires Inv(full, c, s, At(o)) && s.nodes[o].rec.Present? && s.nodes[o].rec.h.flags.complete
    ensures Inv(full, c, PreState(c, s, o), At(o))
  {
    assert NodeOk(full, c, s, At(o), o);
    PreEffect(c, s, o);
    LogSnoc(full, c.ops, s.log, Cleared);
    var rec := PreState(c, s, o).nodes[o].rec;
    assert Untouched(s.log + [Cleared]) ==> Untouched(s.log) by { assert (s.log + [Cleared])[..|s.log|] == s.log; }
    OwnerSet(full, c, s, o, rec.h, rec.d, s.log + [Cleared]);
    assert PreState(c, s, o) == Written(s, o, rec.h, rec.d, s.log + [Cleared]);
  }

  /** A header whose store by node o advances the record. */
  predicate Runnable(s: State, o: nat, h: Header)
    requires o < |s.nodes|
  {
    && Free(s.nodes[o].rec) && h.rsn >= 0 && h.rsn + 1 >= EffRsn(s.nodes[o].rec) && s.nodes[o].tracking == {}
    && (EffHeader(s.lm, s.nodes[o].rec).flags.migrated ==> h.flags.migrated)
  }

  /** The owner runs a call on its record. */
  lemma CallLocalInv(full: bool, c: Config, s: State, o: nat, h: Header, callid: nat)
    requires ValidConfig(c) && Inv(full, c, s, At(o))
    requires h.dmaster == o && !h.flags.vacuum && !h.flags.automatic
    requires var rec := s.nodes[o].rec;
             if h.flags.AnyRo() then rec.Present? && h == rec.h && callid == FETCH_WITH_HEADER
             else Runnable(s, o, h)
    ensures var s' := Take(s, o, CallLocal(EnvOf(c, s, o), s.nodes[o], h, EffData(s.nodes[o].rec), callid), s.net);
            Inv(full, c, s', At(o)) && Progress(full, s, At(o), s', At(o))
  {
    var d := EffData(s.nodes[o].rec);
    if c.ops(callid, d).Failed? {
      assert Take(s, o, CallLocal(EnvOf(c, s, o), s.nodes[o], h, d, callid), s.net) == s;
    } else if h.flags.AnyRo() {
      CallLocalRo(full, c, s, o, h);
    } else {
      CallLocalRw(full, c, s, o, h, callid);
    }
  }

  lemma CallLocalRo(full: bool, c: Config, s: State, o: nat, h: Header)
    requires ValidConfig(c) && Inv(full, c, s, At(o)) && s.nodes[o].rec.Present?
    requires h == s.nodes[o].rec.h && h.flags.AnyRo()
    requires c.ops(FETCH_WITH_HEADER, s.nodes[o].rec.d).Done?
    ensures var eff := CallLocal(EnvOf(c, s, o), s.nodes[o], h, s.nodes[o].rec.d, FETCH_WITH_HEADER);
            var s' := Take(s, o, eff, s.net);
            Inv(full, c, s', At(o)) && Progress(full, s, At(o), s', At(o))
  {
    var d := s.nodes[o].rec.d;
    var ev := Exec(FETCH_WITH_HEADER, d, d, c.ops(FETCH_WITH_HEADER, d).reply);
    assert NodeOk(full, c, s, At(o), o);
    Observe(full, c, s, At(o), ev);
    FetchEffect(c, s, o, h);
  }

  lemma FetchEffect(c: Config, s: State, o: nat, h: Header)
    requires ValidConfig(c) && WF(c, s) && o < c.n && s.nodes[o].rec.Present?
    requires h == s.nodes[o].rec.h && h.flags.AnyRo() && h.flags.Persistent() == h.flags
    requires c.ops(FETCH_WITH_HEADER, s.nodes[o].rec.d).Done?
    ensures var d := s.nodes[o].rec.d;
            Take(s, o, CallLocal(EnvOf(c, s, o), s.nodes[o], h, d, FETCH_WITH_HEADER), s.net)
            == s.(log := s.log + [Exec(FETCH_WITH_HEADER, d, d, c.ops(FETCH_WITH_HEADER, d).reply)])
  {
    assert s.net + multiset{} == s.net && s.nodes[o := s.nodes[o]] == s.nodes;
  }

  lemma CallLocalRw(full: bool, c: Config, s: State, o: nat, h: Header, callid: nat)
    requires Inv(full, c, s, At(o)) && h.dmaster == o && Plain(h.flags) && Runnable(s, o, h)
    requires c.ops(callid, EffData(s.nodes[o].rec)).Done?
    ensures var s' := Take(s, o, CallLocal(EnvOf(c, s, o), s.nodes[o], h, EffData(s.nodes[o].rec), callid), s.net);
            Inv(full, c, s', At(o)) && Progress(full, s, At(o), s', At(o))
  {
    var d := EffData(s.nodes[o].rec);
    var Done(d2, reply) := c.ops(callid, d);
    var ev := Exec(callid, d, d2, reply);
    var h' := Header(h.rsn + 1, o, h.flags);
    assert NodeOk(full, c, s, At(o), o);
    LogSnoc(full, c.ops, s.log, ev);
    assert Untouched(s.log + [ev]) ==> Untouched(s.log) by { assert (s.log + [ev])[..|s.log|] == s.log; }
    OwnerSet(full, c, s, o, h', d2, s.log + [ev]);
    CallLocalEffect(c, s, o, h, callid);
  }

  lemma CallLocalEffect(c: Config, s: State, o: nat, h: Header, callid: nat)
    requires WF(c, s) && o < c.n && h.dmaster == o && Plain(h.flags)
    requires s.nodes[o].tracking == {} && s.nodes[o].revoke == Idle && c.ops(callid, EffData(s.nodes[o].rec)).Done?
    ensures var d := EffData(s.nodes[o].rec); var r := c.ops(callid, d);
            Take(s, o, CallLocal(EnvOf(c, s, o), s.nodes[o], h, d, callid), s.net)
            == Written(s, o, Header(h.rsn + 1, o, h.flags), r.data, s.log + [Exec(callid, d, r.data, r.reply)])
  {
  }
}
