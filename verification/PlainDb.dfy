/** A database without read-only delegations: no step is a hazard, so everything
    holds in every run, whatever the vacuum does. */
module PlainDb {
  import opened Ltdb
  import opened Protocol
  import opened Cluster
  import opened ClusterInv
  import opened Steps
  import opened StepInv
  import opened Theorems
  import opened Order
  import opened Guarantees
  import opened History

  // ---- nothing is ever shared

  predicate Plainly(p: Packet) { !p.Update? && !p.ReplyRo? }

  predicate PlainEvent(ev: Event) { !ev.Delegated? && !ev.Read? }

  /** No copy was handed out or read, none is marked as one, and no packet of the
      read-only protocol is on the wire. */
  ghost predicate Unshared(s: State) {
    && (forall p <- s.net :: Plainly(p))
    && (forall i | 0 <= i < |s.nodes| :: s.nodes[i].rec.Present? ==> !s.nodes[i].rec.h.flags.ro)
    && (forall k | 0 <= k < |s.log| :: PlainEvent(s.log[k]))
  }

  ghost predicate PlainEffect(eff: Effect) {
    && (forall p <- eff.out :: Plainly(p)) && (eff.ns.rec.Present? ==> !eff.ns.rec.h.flags.ro)
    && (forall k | 0 <= k < |eff.log| :: PlainEvent(eff.log[k]))
  }

  lemma {:induction false} NobodyTracked(log: seq<Event>)
    requires forall k | 0 <= k < |log| :: PlainEvent(log[k])
    ensures DelegatedSince(log) == {}
  {
    if log != [] {
      assert PlainEvent(log[|log| - 1]);
      NobodyTracked(log[..|log| - 1]);
    }
  }

  /** Then no record carries a read-only flag. */
  lemma NoFlags(c: Config, s: State, loc: Loc, i: nat)
    requires Inv(false, c, s, loc) && Unshared(s) && i < c.n
    ensures s.nodes[i].rec.Present? ==> !s.nodes[i].rec.h.flags.AnyRo()
    ensures s.nodes[i].tracking == {} && s.nodes[i].revoke == Idle
  {
    NobodyTracked(s.log);
    assert NodeOk(false, c, s, loc, i);
  }

  lemma PlainCall(e: Env, ns: NodeState, a: Action)
    requires !e.rodb && a.Call? && (ns.rec.Present? ==> !ns.rec.h.flags.AnyRo())
    ensures PlainEffect(ClientCall(e, ns, a.ro, a.callid, a.reqid))
  {
  }

  lemma PlainRequest(e: Env, ns: NodeState, p: Packet)
    requires !e.rodb && p.ReqCall? && (ns.rec.Present? ==> !ns.rec.h.flags.AnyRo())
    ensures PlainEffect(RequestCall(e, ns, p))
  {
    var ns1, h := PreCall(e, ns), PreHeader(e, ns);
    assert !h.flags.AnyRo() && (ns1.rec.Present? ==> !ns1.rec.h.flags.AnyRo());
    PlainRoute(e, ns1, h, EffData(ns.rec), p);
    assert PreLog(e, ns) == [];
  }

  lemma PlainRoute(e: Env, ns: NodeState, h: Header, d: Data, p: Packet)
    requires !e.rodb && p.ReqCall? && !h.flags.AnyRo() && (ns.rec.Present? ==> !ns.rec.h.flags.AnyRo())
    ensures PlainEffect(RouteCall(e, ns, h, d, p))
  {
  }

  lemma PlainPacket(c: Config, s: State, p: Packet, pend: Pending)
    requires WF(c, s) && p.dst < c.n && Plainly(p) && !p.ReqCall?
    requires var rec := s.nodes[p.dst].rec; rec.Present? ==> !rec.h.flags.AnyRo()
    requires Token(p) ==> !p.flags.AnyRo()
    ensures PlainEffect(Handle(c, s, p, pend))
  {
  }

  lemma PlainStep(c: Config, s: State, loc: Loc, a: Action)
    requires Inv(false, c, s, loc) && Unshared(s) && !c.rodb && Enabled(c, s, a)
    ensures Unshared(Apply(c, s, a))
  {
    if a.Recover? {
      var o :| Recovered(c, a.lm, a.nodes, o, Value(s.log));
    } else {
      NoFlags(c, s, loc, Actor(a));
      if a.Call? {
        PlainCall(EnvOf(c, s, a.i), s.nodes[a.i], a);
      } else if a.Deliver? && !Stale(s, a.p) {
        if a.p.ReqCall? {
          PlainRequest(EnvOf(c, s, a.p.dst), s.nodes[a.p.dst], a.p);
        } else {
          PlainPacket(c, s, a.p, a.pend);
        }
      }
      PlainApplied(c, s, a);
    }
  }

  lemma PlainApplied(c: Config, s: State, a: Action)
    requires WF(c, s) && Unshared(s) && Enabled(c, s, a) && !a.Recover? && PlainEffect(EffectOf(c, s, a))
    ensures Unshared(Apply(c, s, a))
  {
  }

  // ---- no copies of a record that was never migrated with data

  /** Such a record has no copy but the owner's and perhaps the lmaster's. */
  ghost predicate Lonely(s: State, loc: Loc)
    requires LocOk(s, loc)
  {
    !CurMigrated(s, loc) ==>
      forall i | 0 <= i < |s.nodes| && i != s.lm && loc != At(i) :: s.nodes[i].rec.Absent?
  }

  /** Away from the lmaster, a copy is kept only of a record that goes out marked. */
  ghost predicate KeepsMarked(e: Env, eff: Effect) {
    e.me != e.lm && eff.ns.rec.Present? ==> forall tok <- eff.out :: Token(tok) ==> tok.flags.migrated
  }

  lemma GivenMarked(e: Env, ns: NodeState, h: Header, d: Data, to: nat, reqid: nat)
    requires h.dmaster == e.me && to != e.me && !h.flags.AnyRo() && (e.me != e.lm ==> !h.flags.automatic)
    ensures KeepsMarked(e, SendDmaster(e, ns, h, d, to, reqid))
  {
  }

  lemma RequestMarked(e: Env, ns: NodeState, p: Packet)
    requires p.ReqCall? && Settled(ns, e.me) && (ns.rec.Present? ==> !ns.rec.h.flags.AnyRo())
    ensures KeepsMarked(e, RequestCall(e, ns, p))
  {
    var ns1, h := PreCall(e, ns), PreHeader(e, ns);
    if h.dmaster == e.me && p.src != e.me { GivenMarked(e, ns1, h, EffData(ns.rec), p.src, p.reqid); }
    assert KeepsMarked(e, RouteCall(e, ns1, h, EffData(ns.rec), p));
  }

  lemma StepMarked(c: Config, s: State, loc: Loc, a: Action)
    requires Inv(false, c, s, loc) && Unshared(s) && Enabled(c, s, a) && !a.Recover?
    ensures KeepsMarked(EnvOf(c, s, Actor(a)), EffectOf(c, s, a))
  {
    NoFlags(c, s, loc, Actor(a));
    assert NodeOk(false, c, s, loc, Actor(a));
    if a.Deliver? && a.p.ReqCall? { RequestMarked(EnvOf(c, s, a.p.dst), s.nodes[a.p.dst], a.p); }
  }

  lemma StepExplained(c: Config, s: State, loc: Loc, a: Action)
    requires Inv(false, c, s, loc) && Unshared(s) && Enabled(c, s, a) && !a.Recover?
    ensures Explained(EnvOf(c, s, Actor(a)), s.nodes[Actor(a)], EffectOf(c, s, a))
  {
    var i := Actor(a);
    assert NodeOk(false, c, s, loc, i);
    if a.Call? {
      ClientRec(EnvOf(c, s, i), s.nodes[i], a.ro, a.callid, a.reqid);
    } else if a.Deliver? && a.p.gen == s.gen {
      PacketRec(c, s, loc, a);
    }
  }

  /** A step and its two ends. */
  ghost predicate PlainMove(c: Config, s: State, loc: Loc, a: Action, s': State, loc': Loc) {
    && Inv(false, c, s, loc) && Unshared(s) && Lonely(s, loc) && Enabled(c, s, a) && !a.Recover?
    && s' == Apply(c, s, a) && Inv(false, c, s', loc')
  }

  /** The node that acts does not keep a copy of an unmarked record. */
  lemma ActorLonely(c: Config, s: State, loc: Loc, a: Action, s': State, loc': Loc)
    requires PlainMove(c, s, loc, a, s', loc') && !CurMigrated(s', loc') && !CurMigrated(s, loc)
    requires Actor(a) != s.lm && loc' != At(Actor(a))
    ensures s'.nodes[Actor(a)].rec.Absent?
  {
    var i, eff := Actor(a), EffectOf(c, s, a);
    assert s'.nodes[i] == eff.ns;
    StepExplained(c, s, loc, a);
    StepMarked(c, s, loc, a);
    forall tok <- eff.out | Token(tok) && tok.gen == s.gen ensures !loc'.At? && loc'.p == tok { assert tok in s'.net; }
  }

  lemma LonelyStep(c: Config, s: State, loc: Loc, a: Action, s': State, loc': Loc)
    requires PlainMove(c, s, loc, a, s', loc') && (!Resets(c, s, a) ==> Progress(false, s, loc, s', loc'))
    ensures Lonely(s', loc')
  {
    if Resets(c, s, a) { ResetUnmarked(c, s, loc, a); }
    if !CurMigrated(s', loc') {
      forall i | 0 <= i < c.n && i != s'.lm && loc' != At(i) ensures s'.nodes[i].rec.Absent? {
        if i == Actor(a) { ActorLonely(c, s, loc, a, s', loc'); } else { assert s'.nodes[i] == s.nodes[i]; }
      }
    }
  }

  lemma ResetUnmarked(c: Config, s: State, loc: Loc, a: Action)
    requires Inv(false, c, s, loc) && Enabled(c, s, a) && Resets(c, s, a)
    ensures !CurMigrated(s, loc) && loc == OnReq(a.p)
  {
    assert NodeOk(false, c, s, loc, s.lm);
  }

  lemma RecoveredLonely(c: Config, s: State, a: Action, loc': Loc)
    requires WF(c, s) && a.Recover? && Enabled(c, s, a) && Inv(false, c, Apply(c, s, a), loc')
    ensures Lonely(Apply(c, s, a), loc')
  {
    var o :| Recovered(c, a.lm, a.nodes, o, Value(s.log));
    assert loc' == At(o);
  }

  // ---- no hazards

  /** There is nothing to revoke, to delegate or to push, and a record that vanishes
      on the lmaster leaves no copy behind. */
  lemma NoHazard(c: Config, s: State, loc: Loc, a: Action)
    requires Inv(false, c, s, loc) && Unshared(s) && Lonely(s, loc) && !c.rodb && Enabled(c, s, a)
    ensures !HazardFor(true, c, s, a)
  {
    if !a.Recover? {
      NoFlags(c, s, loc, Actor(a));
      if Resets(c, s, a) { ResetUnmarked(c, s, loc, a); }
    }
  }

  lemma {:induction false} PlainRun(c: Config, ss: seq<State>, acts: seq<Action>, k: nat) returns (loc: Loc)
    requires Run(c, ss, acts) && !c.rodb && k < |ss|
    ensures Inv(false, c, ss[k], loc) && Unshared(ss[k]) && Lonely(ss[k], loc)
  {
    if k == 0 {
      loc := At(ss[0].lm);
      InitInv(false, c, ss[0]);
    } else {
      var m := k - 1;
      var loc0 := PlainRun(c, ss, acts, m);
      assert Enabled(c, ss[m], acts[m]) && ss[m + 1] == Apply(c, ss[m], acts[m]);
      NoHazard(c, ss[m], loc0, acts[m]);
      PlainStep(c, ss[m], loc0, acts[m]);
      loc := StepKeepsInv(false, c, ss[m], loc0, acts[m]);
      if acts[m].Recover? {
        RecoveredLonely(c, ss[m], acts[m], loc);
      } else {
        LonelyStep(c, ss[m], loc0, acts[m], ss[k], loc);
      }
    }
  }

  /** No step of any run is a hazard of any kind. */
  lemma PlainIsSafe(c: Config, ss: seq<State>, acts: seq<Action>)
    requires Run(c, ss, acts) && !c.rodb
    ensures Safe(true, c, ss, acts) && Safe(false, c, ss, acts) && Orderly(c, ss, acts)
  {
    forall m | 0 <= m < |acts| ensures !HazardFor(true, c, ss[m], acts[m]) {
      var loc := PlainRun(c, ss, acts, m);
      NoHazard(c, ss[m], loc, acts[m]);
    }
  }

  // ---- what follows

  /** In every state of every run exactly one node or packet holds the role, and the
      lmaster names it. */
  lemma SingleOwnerAlways(c: Config, ss: seq<State>, acts: seq<Action>, k: nat)
    requires Run(c, ss, acts) && !c.rodb && k < |ss|
    ensures |Owners(c, ss[k])| + |Tokens(ss[k])| == 1
    ensures var s := ss[k]; var named := EffDm(s.lm, s.nodes[s.lm].rec);
            || Owners(c, s) == {named}
            || exists p <- Tokens(s) :: named == if p.ReqDmaster? then p.src else p.dst
  {
    PlainIsSafe(c, ss, acts);
    SingleOwner(c, ss, acts, k);
  }

  /** A dmaster request never comes from a node that is not the dmaster. */
  lemma RequestsInOrderAlways(c: Config, ss: seq<State>, acts: seq<Action>, k: nat)
    requires Run(c, ss, acts) && !c.rodb && k < |acts|
    requires acts[k].Deliver? && Token(acts[k].p) && !Stale(ss[k], acts[k].p)
    ensures !EffectOf(c, ss[k], acts[k]).fault
  {
    PlainIsSafe(c, ss, acts);
    NeverFaults(c, ss, acts, k);
  }

  /** The cluster is one atomic register in every run. */
  lemma AtomicRegisterAlways(c: Config, ss: seq<State>, acts: seq<Action>, k: nat)
    requires Run(c, ss, acts) && !c.rodb && k < |ss|
    ensures Atomic(true, c.ops, ss[k].log)
    ensures forall o <- Owners(c, ss[k]) :: EffData(ss[k].nodes[o].rec) == Value(ss[k].log)
    ensures forall p <- Tokens(ss[k]) :: p.data == Value(ss[k].log)
  {
    PlainIsSafe(c, ss, acts);
    AtomicRegister(c, ss, acts, k);
    ReadsAreCurrent(c, ss, acts, k);
  }

  /** A call to any node reaches the owner after at most two redirects. */
  lemma BoundedRoutingAlways(c: Config, ss: seq<State>, acts: seq<Action>, k: nat, o: nat, x: nat)
    requires Run(c, ss, acts) && !c.rodb && k < |ss| && o in Owners(c, ss[k]) && x < c.n
    ensures x == o || NextHop(c, ss[k], x) == o
            || (NextHop(c, ss[k], x) < c.n && NextHop(c, ss[k], NextHop(c, ss[k], x)) == o)
  {
    PlainIsSafe(c, ss, acts);
    BoundedRouting(c, ss, acts, k, o, x);
  }

  /** Every other copy is older than the record in every run. */
  lemma RsnOrderAlways(c: Config, ss: seq<State>, acts: seq<Action>, k: nat, i: nat)
    requires Run(c, ss, acts) && !c.rodb && k < |ss| && i < c.n && ss[k].nodes[i].rec.Present?
    ensures Ordered(c, ss[k], i)
  {
    PlainIsSafe(c, ss, acts);
    RsnOrder(c, ss, acts, k, i);
  }

  // ---- the newest copy

  lemma {:induction false} UntouchedRun(c: Config, ss: seq<State>, acts: seq<Action>, k: nat)
    requires Run(c, ss, acts) && !c.rodb && k < |ss| && forall m | 0 <= m < |acts| :: !acts[m].Delete?
    ensures Untouched(ss[k].log)
  {
    if k > 0 {
      var m := k - 1;
      UntouchedRun(c, ss, acts, m);
      OnlyCallsAndStores(c, ss, acts, m);
      StaysUntouched(c, ss[m].log, ss[k].log, acts[m]);
    }
  }

  lemma StaysUntouched(c: Config, l: seq<Event>, l': seq<Event>, a: Action)
    requires Untouched(l) && l <= l' && AllBy(c, a, l'[|l|..]) && !c.rodb && !a.Delete?
    ensures Untouched(l')
  {
    forall k | 0 <= k < |l'| ensures !l'[k].Delegated? && !l'[k].Dropped? {
      if k >= |l| { assert l'[k] == l'[|l|..][k - |l|]; }
    }
  }

  /** Unless it was vacuumed, a record that is not empty always has a stored copy. */
  lemma ValueIsStored(c: Config, ss: seq<State>, acts: seq<Action>, k: nat)
    requires Run(c, ss, acts) && k < |ss|
    requires !c.rodb && (forall m | 0 <= m < |acts| :: !acts[m].Delete?) && Value(ss[k].log) != []
    ensures exists i :: 0 <= i < c.n && ss[k].nodes[i].rec.Present? && ss[k].nodes[i].rec.d == Value(ss[k].log)
  {
    PlainIsSafe(c, ss, acts);
    UntouchedRun(c, ss, acts, k);
    var loc := RunKeepsInv(true, c, ss, acts, k);
    var s := ss[k];
    var i := match loc case At(o) => o case OnReq(p) => p.src case OnReply(_) => s.lm;
    assert s.nodes[i].rec.Present? && s.nodes[i].rec.d == Value(s.log);
  }

  /** Without vacuum deletes, a stored copy with the highest rsn carries the current
      value, even while the record is on the wire; or the value is empty and so is
      every copy. */
  lemma NewestIsCurrent(c: Config, ss: seq<State>, acts: seq<Action>, k: nat, i: nat)
    requires Run(c, ss, acts) && k < |ss| && i < c.n
    requires !c.rodb && forall m | 0 <= m < |acts| :: !acts[m].Delete?
    requires ss[k].nodes[i].rec.Present?
    requires forall j | 0 <= j < c.n && ss[k].nodes[j].rec.Present? ::
               ss[k].nodes[j].rec.h.rsn <= ss[k].nodes[i].rec.h.rsn
    ensures var s := ss[k];
            || s.nodes[i].rec.d == Value(s.log)
            || (Value(s.log) == [] && forall j | 0 <= j < c.n && s.nodes[j].rec.Present? :: s.nodes[j].rec.d == [])
  {
    PlainIsSafe(c, ss, acts);
    UntouchedRun(c, ss, acts, k);
    var loc := RunKeepsInv(true, c, ss, acts, k);
    assert NodeOk(true, c, ss[k], loc, i);
    if loc.At? { assert NodeOk(true, c, ss[k], loc, loc.o); }
  }
}
