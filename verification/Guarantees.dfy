/** Sequence numbers under delegation, the register, routing and generations. What
    needs only the role to be safe holds over every run without a name hazard. */
module Guarantees {
  import opened Ltdb
  import opened Protocol
  import opened Cluster
  import opened ClusterInv
  import opened RevokeMoves
  import opened Steps
  import opened StepInv
  import opened Theorems

  // ---- rsn order

  /** r is the rsn of the record itself: its owner's, or the one on the wire. */
  ghost predicate RecordRsn(c: Config, s: State, r: int)
    requires WF(c, s)
  {
    || (exists o <- Owners(c, s) :: o < c.n && r == EffRsn(s.nodes[o].rec))
    || (exists p <- Tokens(s) :: r == p.rsn)
  }

  lemma RecordRsnIs(c: Config, s: State, loc: Loc, r: int)
    requires Inv(false, c, s, loc)
    ensures RecordRsn(c, s, r) <==> r == CurRsn(s, loc)
  {
    if loc.At? { assert loc.o in Owners(c, s); } else { assert loc.p in Tokens(s); }
  }

  /** Until the next recovery, or until it vanishes on the lmaster, the rsn of the
      record never goes back. */
  lemma RsnNeverDecreases(c: Config, ss: seq<State>, acts: seq<Action>, j: nat, k: nat, r: int, r': int)
    requires Run(c, ss, acts) && Safe(false, c, ss, acts) && j <= k < |ss|
    requires forall m | j <= m < k :: !acts[m].Recover? && !Resets(c, ss[m], acts[m])
    requires RecordRsn(c, ss[j], r) && RecordRsn(c, ss[k], r')
    ensures r <= r'
  {
    var loc := RunKeepsInv(false, c, ss, acts, j);
    var loc' := RunKeepsInv(false, c, ss, acts, k);
    RecordRsnIs(c, ss[j], loc, r);
    RecordRsnIs(c, ss[k], loc', r');
    RsnChain(c, ss, acts, j, k, loc, loc');
  }

  lemma {:induction false} RsnChain(c: Config, ss: seq<State>, acts: seq<Action>, j: nat, k: nat, loc: Loc, loc': Loc)
    requires Run(c, ss, acts) && Safe(false, c, ss, acts) && j <= k < |ss|
    requires forall m | j <= m < k :: !acts[m].Recover? && !Resets(c, ss[m], acts[m])
    requires Inv(false, c, ss[j], loc) && Inv(false, c, ss[k], loc')
    ensures CurRsn(ss[j], loc) <= CurRsn(ss[k], loc')
    decreases k
  {
    if j == k {
      SameRsn(c, ss[k], loc, loc');
    } else {
      var m := k - 1;
      var loc0 := RunKeepsInv(false, c, ss, acts, m);
      RsnChain(c, ss, acts, j, m, loc, loc0);
      StepOf(c, ss, acts, m);
      assert ss[m + 1] == ss[k] && !acts[m].Recover? && !Resets(c, ss[m], acts[m]);
      StepRsn(c, ss[m], loc0, acts[m], ss[k], loc');
    }
  }

  lemma StepOf(c: Config, ss: seq<State>, acts: seq<Action>, m: nat)
    requires Run(c, ss, acts) && Safe(false, c, ss, acts) && m < |acts|
    ensures WF(c, ss[m]) && Enabled(c, ss[m], acts[m]) && !HazardFor(false, c, ss[m], acts[m])
    ensures ss[m + 1] == Apply(c, ss[m], acts[m])
  {
  }

  lemma SameRsn(c: Config, s: State, loc: Loc, loc': Loc)
    requires Inv(false, c, s, loc) && Inv(false, c, s, loc')
    ensures CurRsn(s, loc) == CurRsn(s, loc')
  {
    RecordRsnIs(c, s, loc, CurRsn(s, loc));
    RecordRsnIs(c, s, loc', CurRsn(s, loc));
  }

  lemma StepRsn(c: Config, s: State, loc: Loc, a: Action, s': State, loc': Loc)
    requires ValidConfig(c) && Inv(false, c, s, loc) && Enabled(c, s, a) && !HazardFor(false, c, s, a)
    requires !a.Recover? && !Resets(c, s, a)
    requires s' == Apply(c, s, a) && Inv(false, c, s', loc')
    ensures CurRsn(s, loc) <= CurRsn(s', loc')
  {
    var loc1 := StepKeepsInv(false, c, s, loc, a);
    SameRsn(c, s', loc1, loc');
  }

  /** With delegating rsn M, read-only copies sit at M-2, all others below, but for
      the revoked ones: they are the pushed record at M-1, and no push to them is
      on its way. */
  lemma DelegationOrder(c: Config, ss: seq<State>, acts: seq<Action>, k: nat, o: nat, i: nat)
    requires Run(c, ss, acts) && Safe(true, c, ss, acts) && k < |ss| && i < c.n && ss[k].nodes[i].rec.Present?
    requires o in Owners(c, ss[k]) && o != i && Delegating(ss[k], o)
    ensures InStep(ss[k], o, i)
  {
    var loc := RunKeepsInv(true, c, ss, acts, k);
    assert NodeOk(true, c, ss[k], loc, i);
  }

  ghost predicate InStep(s: State, o: nat, i: nat)
    requires o < |s.nodes| && i < |s.nodes| && s.nodes[i].rec.Present? && s.nodes[o].rec.Present?
  {
    var rec, own := s.nodes[i].rec, s.nodes[o].rec;
    if rec.h.flags.ro then rec.h.rsn == own.h.rsn - 2
    else rec.h.rsn < own.h.rsn - 2
         || (own.h.flags.revoking && rec == Present(PushedHeader(own.h), own.d) && TheUpdate(s, o, i) !in s.net)
  }

  /** A delegation to a node without a read-only copy is newer than whatever
      stale copy that node holds, unless it has been revoked already. */
  lemma DelegationIsNewer(c: Config, ss: seq<State>, acts: seq<Action>, k: nat, o: nat, p: Packet)
    requires Run(c, ss, acts) && Safe(true, c, ss, acts) && k < |ss| && p.ReplyRo? && p.dst < c.n
    requires o in Owners(c, ss[k]) && o != p.dst && Delegating(ss[k], o) && !ss[k].nodes[o].rec.h.flags.revoking
    requires p.h == RoHeader(ss[k].nodes[o].rec.h)
    requires ss[k].nodes[p.dst].rec.Present? ==> !ss[k].nodes[p.dst].rec.h.flags.ro
    ensures p.h.rsn > EffRsn(ss[k].nodes[p.dst].rec)
  {
    var loc := RunKeepsInv(true, c, ss, acts, k);
    assert NodeOk(true, c, ss[k], loc, p.dst);
  }

  /** Every delegate accepts the pushed record. */
  lemma RevokeNeverRefused(c: Config, ss: seq<State>, acts: seq<Action>, k: nat)
    requires Run(c, ss, acts) && Safe(true, c, ss, acts) && k < |acts|
    requires acts[k].Deliver? && acts[k].p.Update? && acts[k].p.gen == ss[k].gen
    ensures exists o ::
              && o in Owners(c, ss[k])
              && EffectOf(c, ss[k], acts[k]).out == multiset{Ack(ss[k].gen, o, acts[k].p.dst, true)}
  {
    var loc := RunKeepsInv(true, c, ss, acts, k);
    var s, a, u := ss[k], acts[k], acts[k].p;
    assert PacketOk(true, c, s, loc, u) && NodeOk(true, c, s, loc, loc.o);
    if s.nodes[u.dst].rec.Absent? { assert LosesCopy(c, s, a); }
    PushAccepted(true, c, s, loc.o, u);
    assert loc.o in Owners(c, s);
  }

  // ---- the register

  /** The cluster is one atomic register: the history of calls, stores and
      delegations is one a single register could have, and the register's value
      is what the owner stores or the wire carries. */
  lemma AtomicRegister(c: Config, ss: seq<State>, acts: seq<Action>, k: nat)
    requires Run(c, ss, acts) && Safe(false, c, ss, acts) && k < |ss|
    ensures Atomic(false, c.ops, ss[k].log)
    ensures forall o <- Owners(c, ss[k]) :: EffData(ss[k].nodes[o].rec) == Value(ss[k].log)
    ensures forall p <- Tokens(ss[k]) :: p.data == Value(ss[k].log)
  {
    var loc := RunKeepsInv(false, c, ss, acts, k);
  }

  /** So are the reads of read-only copies. */
  lemma ReadsAreCurrent(c: Config, ss: seq<State>, acts: seq<Action>, k: nat)
    requires Run(c, ss, acts) && Safe(true, c, ss, acts) && k < |ss|
    ensures Atomic(true, c.ops, ss[k].log)
  {
    var loc := RunKeepsInv(true, c, ss, acts, k);
  }

  // ---- routing

  /** Where a call that node x cannot answer goes next. */
  function NextHop(c: Config, s: State, x: nat): nat
    requires WF(c, s) && x < c.n
  {
    Redirect(EnvOf(c, s, x), EffHeader(s.lm, s.nodes[x].rec))
  }

  /** With the record at rest, a call sent to any node, however stale the
      header that chose it, reaches the owner after at most two redirects. */
  lemma BoundedRouting(c: Config, ss: seq<State>, acts: seq<Action>, k: nat, o: nat, x: nat)
    requires Run(c, ss, acts) && Safe(false, c, ss, acts) && k < |ss| && o in Owners(c, ss[k]) && x < c.n
    ensures x == o || NextHop(c, ss[k], x) == o
            || (NextHop(c, ss[k], x) < c.n && NextHop(c, ss[k], NextHop(c, ss[k], x)) == o)
    ensures EffDm(ss[k].lm, ss[k].nodes[x].rec) < c.n
  {
    var loc := RunKeepsInv(false, c, ss, acts, k);
    assert NodeOk(false, c, ss[k], loc, x);
  }

  /** A node that is not the owner passes a call on, unchanged but for its
      destination and hop count, and keeps its own state. */
  lemma RedirectStep(c: Config, ss: seq<State>, acts: seq<Action>, k: nat)
    requires Run(c, ss, acts) && Safe(false, c, ss, acts) && k < |acts|
    requires acts[k].Deliver? && acts[k].p.ReqCall? && !Stale(ss[k], acts[k].p)
    requires acts[k].p.dst !in Owners(c, ss[k])
    ensures var s, p := ss[k], acts[k].p;
            && ss[k + 1].nodes == s.nodes && ss[k + 1].log == s.log
            && ss[k + 1].net
               == s.net - multiset{p}
                  + multiset{p.(ro := p.ro && c.rodb, dst := NextHop(c, s, p.dst), hops := p.hops + 1)}
  {
    var loc := RunKeepsInv(false, c, ss, acts, k);
    PlainHeader(c, ss[k], loc, acts[k].p.dst);
    RedirectEffect(c, ss[k], acts[k].p, acts[k].pend);
  }

  /** A node that is not the owner has no flag that would stop it from passing a
      call on. */
  lemma PlainHeader(c: Config, s: State, loc: Loc, i: nat)
    requires Inv(false, c, s, loc) && i < c.n && EffDm(s.lm, s.nodes[i].rec) != i
    ensures var h := EffHeader(s.lm, s.nodes[i].rec);
            h.dmaster != i && !h.flags.deleg && !h.flags.revoking && !h.flags.complete
  {
    assert NodeOk(false, c, s, loc, i);
  }

  lemma RedirectEffect(c: Config, s: State, p: Packet, pend: Pending)
    requires WF(c, s) && p in s.net && p.ReqCall? && !Stale(s, p) && p.dst < c.n
    requires var h := EffHeader(s.lm, s.nodes[p.dst].rec);
             h.dmaster != p.dst && !h.flags.deleg && !h.flags.revoking && !h.flags.complete
    ensures var q := p.(ro := p.ro && c.rodb, dst := NextHop(c, s, p.dst), hops := p.hops + 1);
            Apply(c, s, Deliver(p, pend)) == s.(net := s.net - multiset{p} + multiset{q})
  {
    var i := p.dst;
    assert PreCall(EnvOf(c, s, i), s.nodes[i]) == s.nodes[i];
    assert s.nodes[i := s.nodes[i]] == s.nodes && s.log + ([] + []) == s.log;
  }

  // ---- generations

  /** What the gate drops changes no record and no history. */
  lemma StaleIgnored(c: Config, s: State, p: Packet, pend: Pending)
    requires WF(c, s) && p in s.net && p.dst < c.n && Stale(s, p)
    ensures Apply(c, s, Deliver(p, pend)) == s.(net := s.net - multiset{p})
  {
    assert s.nodes[p.dst := s.nodes[p.dst]] == s.nodes;
  }

  lemma OutStamped(c: Config, s: State, a: Action, q: Packet)
    requires WF(c, s) && Enabled(c, s, a) && !a.Recover? && q in EffectOf(c, s, a).out
    ensures q.gen == s.gen || q.Ack?
  {
    if a.Deliver? { ReplyStamped(c, s, a.p, a.pend, q); }
  }

  lemma ReplyStamped(c: Config, s: State, p: Packet, pend: Pending, q: Packet)
    requires WF(c, s) && p in s.net && p.dst < c.n && q in EffectOf(c, s, Deliver(p, pend)).out
    ensures q.gen == s.gen || q.Ack?
  {
  }

  /** A call or dmaster packet sent in one generation, however long it was
      parked, never changes anything in another one. */
  lemma GenerationIsolated(c: Config, ss: seq<State>, acts: seq<Action>, j: nat, k: nat)
    requires Run(c, ss, acts) && j < |acts| && k < |acts| && acts[k].Deliver?
    requires ss[j + 1].net[acts[k].p] > ss[j].net[acts[k].p]  // sent by step j
    requires !acts[k].p.Update? && !acts[k].p.Ack? && ss[k].gen != ss[j].gen
    ensures ss[k + 1].nodes == ss[k].nodes && ss[k + 1].log == ss[k].log
  {
    var p := acts[k].p;
    assert ss[j + 1] == Apply(c, ss[j], acts[j]);
    assert !acts[j].Recover? && p in EffectOf(c, ss[j], acts[j]).out;
    OutStamped(c, ss[j], acts[j], p);
    StaleIgnored(c, ss[k], p, acts[k].pend);
  }
}
