/** How the protocol ends where it does not go through: a role that is refused, a copy
    that is not installed, a revoke that is spoiled. */
module Outcomes {
  import opened Ltdb
  import opened Protocol
  import opened Cluster
  import opened ClusterInv
  import opened Theorems
  import opened Guarantees

  // ---- the role

  /** The lmaster takes the role from a node other than the one it has on record only
      for a record that was never stored by an owner. */
  predicate Mismatch(s: State, p: Packet)
    requires s.lm < |s.nodes| && p.ReqDmaster?
  {
    var rec := s.nodes[s.lm].rec;
    && p.src != EffDm(s.lm, rec)
    && !(rec.Present? && rec.h.rsn == 0 && rec.h.dmaster == s.lm)
  }

  lemma RefusedWhen(c: Config, s: State, p: Packet, pend: Pending)
    requires WF(c, s) && p.ReqDmaster? && p.gen == s.gen && p.dst < c.n
    ensures var eff := EffectOf(c, s, Deliver(p, pend));
            && (eff.fault <==> p.dst != s.lm || Mismatch(s, p))
            && (eff.fault ==> eff == Quiet(s.nodes[p.dst].(rec := FetchRec(p.dst, s.lm, s.nodes[p.dst].rec)))
                                     .(fault := true))
  {
    assert FetchHeader(p.dst, s.lm, s.nodes[p.dst].rec).dmaster == EffDm(s.lm, s.nodes[p.dst].rec);
  }

  /** A REQ_DMASTER is refused exactly when it comes to another node than the lmaster or
      from another one than the lmaster has on record. Then no role moves: the owner on
      record, the data and the history stay, and nothing is sent. */
  lemma RoleRefused(c: Config, s: State, p: Packet, pend: Pending, i: nat)
    requires WF(c, s) && p in s.net && p.ReqDmaster? && p.gen == s.gen && p.dst < c.n && i < c.n
    ensures var eff, s' := EffectOf(c, s, Deliver(p, pend)), Apply(c, s, Deliver(p, pend));
            && (eff.fault <==> p.dst != s.lm || Mismatch(s, p))
            && (eff.fault ==>
                  && s'.net == s.net - multiset{p} && s'.log == s.log
                  && EffDm(s'.lm, s'.nodes[i].rec) == EffDm(s.lm, s.nodes[i].rec)
                  && EffData(s'.nodes[i].rec) == EffData(s.nodes[i].rec))
  {
    RefusedWhen(c, s, p, pend);
    FetchIdempotent(p.dst, s.lm, s.nodes[p.dst].rec);
  }

  // ---- a read-only copy

  /** A copy is installed exactly when its request is still known, it is marked as a
      copy and it is newer than what the node stores; otherwise neither the data nor the
      owner on record changes. */
  lemma CopyInstalled(c: Config, s: State, p: Packet, pend: Pending)
    requires WF(c, s) && p in s.net && p.ReplyRo? && p.gen == s.gen && p.dst < c.n
    ensures var s', rec := Apply(c, s, Deliver(p, pend)), FetchRec(p.dst, s.lm, s.nodes[p.dst].rec);
            && s'.net == s.net - multiset{p} && s'.log == s.log
            && (if pend.Pending? && p.h.flags.ro && EffRsn(rec) < p.h.rsn
                then s'.nodes == s.nodes[p.dst := s.nodes[p.dst].(rec := StoreRec(p.dst, s.lm, p.h, p.data))]
                else s'.nodes == s.nodes || s'.nodes == s.nodes[p.dst := s.nodes[p.dst].(rec := rec)])
  {
    assert s.nodes[p.dst := s.nodes[p.dst]] == s.nodes;
  }

  // ---- the end of a revoke

  /** The record is still the one whose revoke was started. */
  predicate Unchanged(ns: NodeState)
    requires ns.revoke.Running?
  {
    ns.rec.Present? && ns.rec.h.rsn <= ns.revoke.rsn && ns.rec.h.flags.revoking && ns.rec.h.flags.deleg
  }

  /** A revoke is completed exactly when all answers were good and the record has not
      changed: the mark goes into the record, one rsn higher. Otherwise the record stays
      marked as revoking, and a recovery is asked for if it was changed. */
  lemma RevokeEnds(c: Config, s: State, i: nat)
    requires WF(c, s) && Enabled(c, s, Finish(i))
    ensures var ns, eff := s.nodes[i], EffectOf(c, s, Finish(i));
            && eff.out == multiset{} && eff.log == [] && eff.ns.tracking == ns.tracking
            && (eff.ns.revoke == Idle <==> !ns.revoke.failed && Unchanged(ns))
            && (eff.ns.revoke == Idle ==>
                  && eff.ns.rec.Present? && eff.ns.rec.d == ns.rec.d && eff.ns.rec.h.rsn == ns.rec.h.rsn + 1
                  && eff.ns.rec.h.flags.complete && eff.ns.rec.h.dmaster == ns.rec.h.dmaster)
            && (eff.ns.revoke != Idle ==>
                  && eff.ns.revoke == Stuck && eff.ns.rec == (if ns.revoke.failed then ns.rec
                                                              else FetchRec(i, s.lm, ns.rec)))
            && (eff.fault <==> !ns.revoke.failed && !Unchanged(ns))
  {
  }

  /** The deadline of a revoke, or a node that refuses, spoils it. */
  predicate Spoiled(r: Revoke) { r.Stuck? || (r.Running? && r.failed) }

  lemma AnswerCounts(c: Config, s: State, p: Packet, pend: Pending)
    requires WF(c, s) && p in s.net && p.Ack? && p.dst < c.n
    ensures var r, r' := s.nodes[p.dst].revoke, Apply(c, s, Deliver(p, pend)).nodes[p.dst].revoke;
            if r.Running? && p.gen == s.gen then
              r'.Running? && r'.waiting == r.waiting - {p.src} && (Spoiled(r') <==> Spoiled(r) || !p.ok)
            else r' == r
  {
  }

  lemma DeadlineSpoils(c: Config, s: State, i: nat)
    requires WF(c, s) && Enabled(c, s, Timeout(i))
    ensures var s' := Apply(c, s, Timeout(i));
            s'.nodes == s.nodes[i := s.nodes[i].(revoke := Stuck)] && s'.net == s.net && s'.log == s.log
  {
  }

  /** The record of a spoiled revoke is marked. */
  lemma SpoiledIsMarked(c: Config, s: State, loc: Loc, i: nat)
    requires Inv(false, c, s, loc) && i < c.n && Spoiled(s.nodes[i].revoke)
    ensures var rec := s.nodes[i].rec; rec.Present? && rec.h.flags.revoking && !rec.h.flags.complete
  {
    assert NodeOk(false, c, s, loc, i);
  }

  lemma StepSpoiled(c: Config, s: State, loc: Loc, a: Action, i: nat)
    requires Inv(false, c, s, loc) && Enabled(c, s, a) && !a.Recover? && i < c.n && Spoiled(s.nodes[i].revoke)
    ensures Spoiled(Apply(c, s, a).nodes[i].revoke)
  {
    SpoiledIsMarked(c, s, loc, i);
  }

  ghost predicate SpoiledAt(ss: seq<State>, i: nat, m: nat) {
    m < |ss| && i < |ss[m].nodes| && Spoiled(ss[m].nodes[i].revoke)
  }

  lemma RunSpoiled(c: Config, ss: seq<State>, acts: seq<Action>, m: nat, i: nat)
    requires Run(c, ss, acts) && Safe(false, c, ss, acts) && m < |acts| && !acts[m].Recover? && i < c.n
    requires SpoiledAt(ss, i, m)
    ensures SpoiledAt(ss, i, m + 1)
  {
    var loc := RunKeepsInv(false, c, ss, acts, m);
    StepOf(c, ss, acts, m);
    StepSpoiled(c, ss[m], loc, acts[m], i);
  }

  lemma {:induction false} SpoiledOn(ss: seq<State>, j: nat, k: nat, i: nat)
    requires j <= k && SpoiledAt(ss, i, j) && forall m | j <= m < k :: SpoiledAt(ss, i, m) ==> SpoiledAt(ss, i, m + 1)
    ensures SpoiledAt(ss, i, k)
    decreases k
  {
    if j < k {
      SpoiledOn(ss, j, k - 1, i);
      assert SpoiledAt(ss, i, k - 1 + 1);
    }
  }

  /** A revoke that is spoiled is never completed: until the cluster recovers the
      record stays marked as revoking, so that every call for it waits. */
  lemma SpoiledStays(c: Config, ss: seq<State>, acts: seq<Action>, j: nat, k: nat, i: nat)
    requires Run(c, ss, acts) && Safe(false, c, ss, acts) && j <= k < |ss| && i < c.n
    requires SpoiledAt(ss, i, j) && forall m | j <= m < k :: !acts[m].Recover?
    ensures SpoiledAt(ss, i, k)
    ensures var rec := ss[k].nodes[i].rec; rec.Present? && rec.h.flags.revoking && !rec.h.flags.complete
  {
    forall m | j <= m < k && SpoiledAt(ss, i, m) ensures SpoiledAt(ss, i, m + 1) { RunSpoiled(c, ss, acts, m, i); }
    SpoiledOn(ss, j, k, i);
    var loc := RunKeepsInv(false, c, ss, acts, k);
    SpoiledIsMarked(c, ss[k], loc, i);
  }
}
