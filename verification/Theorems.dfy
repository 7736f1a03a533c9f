/** What the protocol guarantees: ownership over every run without a name hazard,
    the agreement of read-only copies over every run without any hazard. */
module Theorems {
  import opened Ltdb
  import opened Protocol
  import opened Cluster
  import opened ClusterInv
  import opened Steps
  import opened StepInv

  /** A run: states and the actions between them, from an empty database. */
  ghost predicate Run(c: Config, ss: seq<State>, acts: seq<Action>) {
    && ValidConfig(c) && |ss| == |acts| + 1 && Init(c, ss[0])
    && (forall k | 0 <= k < |ss| :: WF(c, ss[k]))
    && (forall k | 0 <= k < |acts| :: Enabled(c, ss[k], acts[k]) && ss[k + 1] == Apply(c, ss[k], acts[k]))
  }

  /** No step of the run is a name hazard; with `full`, no hazard at all. */
  ghost predicate Safe(full: bool, c: Config, ss: seq<State>, acts: seq<Action>)
    requires Run(c, ss, acts)
  {
    forall k | 0 <= k < |acts| :: !HazardFor(full, c, ss[k], acts[k])
  }

  lemma InitInv(full: bool, c: Config, s: State)
    requires Init(c, s)
    ensures Inv(full, c, s, At(s.lm))
  {
  }

  /** Every state of a safe run satisfies the invariant. */
  lemma {:induction false} RunKeepsInv(full: bool, c: Config, ss: seq<State>, acts: seq<Action>, k: nat)
    returns (loc: Loc)
    requires Run(c, ss, acts) && Safe(full, c, ss, acts) && k < |ss|
    ensures Inv(full, c, ss[k], loc)
  {
    if k == 0 {
      InitInv(full, c, ss[0]);
      loc := At(ss[0].lm);
    } else {
      var loc0 := RunKeepsInv(full, c, ss, acts, k - 1);
      loc := StepKeepsInv(full, c, ss[k - 1], loc0, acts[k - 1]);
    }
  }

  // ---- single owner

  ghost function Owners(c: Config, s: State): set<nat>
    requires WF(c, s)
  {
    set i | 0 <= i < c.n && EffDm(s.lm, s.nodes[i].rec) == i
  }

  ghost function Tokens(s: State): set<Packet> {
    set p | p in s.net && Token(p) && p.gen == s.gen
  }

  /** The nodes that take themselves for the dmaster and the packets that carry
      the role are one altogether, and the lmaster's header names the holder,
      the sender or the addressee. */
  lemma SingleOwner(c: Config, ss: seq<State>, acts: seq<Action>, k: nat)
    requires Run(c, ss, acts) && Safe(false, c, ss, acts) && k < |ss|
    ensures |Owners(c, ss[k])| + |Tokens(ss[k])| == 1
    ensures forall p <- Tokens(ss[k]) :: ss[k].net[p] == 1
    ensures var s := ss[k]; var named := EffDm(s.lm, s.nodes[s.lm].rec);
            || Owners(c, s) == {named}
            || exists p <- Tokens(s) :: named == if p.ReqDmaster? then p.src else p.dst
  {
    var loc := RunKeepsInv(false, c, ss, acts, k);
    var s := ss[k];
    if loc.At? {
      assert Owners(c, s) == {loc.o} && Tokens(s) == {};
    } else {
      assert Owners(c, s) == {} && Tokens(s) == {loc.p};
    }
  }

  /** No daemon ever asks for a recovery: a dmaster request never comes from a
      node that is not the dmaster, and a revoke never finds a changed record. */
  lemma NeverFaults(c: Config, ss: seq<State>, acts: seq<Action>, k: nat)
    requires Run(c, ss, acts) && Safe(false, c, ss, acts) && k < |acts| && !acts[k].Recover?
    ensures acts[k].Deliver? && acts[k].p.ReqDmaster? && !Stale(ss[k], acts[k].p)
            ==> !EffectOf(c, ss[k], acts[k]).fault
    ensures acts[k].Finish? ==> !EffectOf(c, ss[k], acts[k]).fault
  {
    var loc := RunKeepsInv(false, c, ss, acts, k);
    var s, a := ss[k], acts[k];
    if a.Deliver? && a.p.ReqDmaster? && !Stale(s, a.p) {
      var _ := RequestDmasterInv(false, c, s, loc, a.p, a.pend);
    }
    if a.Finish? { FinishInv(false, c, s, loc, a.i); }
  }

  // ---- read-only coherence

  /** Node o owns the record and node i may read its copy of it. */
  ghost predicate Shares(c: Config, s: State, o: nat, i: nat)
    requires WF(c, s) && o < c.n && i < c.n && s.nodes[i].rec.Present?
  {
    && EffDm(s.lm, s.nodes[o].rec) == o && o != i && Delegating(s, o) && i in s.nodes[o].tracking
    && s.nodes[i].rec.d == s.nodes[o].rec.d
    && s.nodes[i].rec.h.rsn == s.nodes[o].rec.h.rsn - 2
    && (s.nodes[o].rec.h.flags.revoking ==> TheUpdate(s, o, i) in s.net)
  }

  /** Every read-only copy agrees with the record, is tracked by its owner and
      has not been revoked. */
  lemma ReadOnlyCoherent(c: Config, ss: seq<State>, acts: seq<Action>, k: nat, i: nat) returns (o: nat)
    requires Run(c, ss, acts) && Safe(true, c, ss, acts) && k < |ss| && i < c.n
    requires ss[k].nodes[i].rec.Present? && ss[k].nodes[i].rec.h.flags.ro
    ensures o < c.n && Shares(c, ss[k], o, i)
    ensures ss[k].nodes[i].rec.d == Value(ss[k].log)
  {
    var loc := RunKeepsInv(true, c, ss, acts, k);
    assert NodeOk(true, c, ss[k], loc, i);
    o := loc.o;
  }

  /** The tracking record of the owner names exactly the nodes delegated to
      since it was last cleared; no other node tracks anything. */
  lemma TrackingExact(c: Config, ss: seq<State>, acts: seq<Action>, k: nat, i: nat)
    requires Run(c, ss, acts) && Safe(false, c, ss, acts) && k < |ss| && i < c.n
    ensures ss[k].nodes[i].tracking == if i in Owners(c, ss[k]) then DelegatedSince(ss[k].log) else {}
  {
    var loc := RunKeepsInv(false, c, ss, acts, k);
    assert NodeOk(false, c, ss[k], loc, i);
  }

  /** While the record is delegated it stays with its owner; it takes the answers
      of all delegates to end the revoke. */
  lemma OwnerStaysDelegated(c: Config, ss: seq<State>, acts: seq<Action>, k: nat, o: nat)
    requires Run(c, ss, acts) && Safe(false, c, ss, acts) && k < |acts| && !acts[k].Recover?
    requires o in Owners(c, ss[k]) && Delegating(ss[k], o)
    ensures o in Owners(c, ss[k + 1])
    ensures !Delegating(ss[k + 1], o) ==>
              && acts[k] == Finish(o) && ss[k].nodes[o].revoke.Running? && ss[k].nodes[o].revoke.waiting == {}
              && ss[k + 1].nodes[o].rec.Present? && ss[k + 1].nodes[o].rec.h.rsn == ss[k].nodes[o].rec.h.rsn + 1
  {
    var loc := RunKeepsInv(false, c, ss, acts, k);
    var s, a := ss[k], acts[k];
    var loc' := StepKeepsInv(false, c, s, loc, a);
    assert loc == At(o) && loc' == loc;
    DelegatingStays(c, s, o, a);
  }

  /** And its value cannot change, whatever step is taken. */
  lemma NoChangeUnderDelegation(c: Config, ss: seq<State>, acts: seq<Action>, k: nat, o: nat)
    requires Run(c, ss, acts) && Safe(true, c, ss, acts) && k < |acts| && !acts[k].Recover?
    requires o in Owners(c, ss[k]) && Delegating(ss[k], o)
    ensures Value(ss[k + 1].log) == Value(ss[k].log) == ss[k].nodes[o].rec.d
  {
    var loc := RunKeepsInv(true, c, ss, acts, k);
    var loc' := StepKeepsInv(true, c, ss[k], loc, acts[k]);
    assert loc == At(o) && loc' == loc;
  }

  lemma DelegatingStays(c: Config, s: State, o: nat, a: Action)
    requires ValidConfig(c) && Inv(false, c, s, At(o)) && Delegating(s, o) && Enabled(c, s, a)
             && !HazardFor(false, c, s, a) && !a.Recover?
    ensures Delegating(Apply(c, s, a), o) || a == Finish(o)
    ensures a == Finish(o) && !Delegating(Apply(c, s, a), o) ==>
            Apply(c, s, a).nodes[o].rec.Present? && Apply(c, s, a).nodes[o].rec.h.rsn == s.nodes[o].rec.h.rsn + 1
  {
    assert NodeOk(false, c, s, At(o), o);
    if Actor(a) == o && a != Finish(o) {
      OwnerStays(c, s, o, a);
    } else if a == Finish(o) {
      FinishInv(false, c, s, At(o), o);
    }
  }

  lemma OwnerStays(c: Config, s: State, o: nat, a: Action)
    requires Inv(false, c, s, At(o)) && Delegating(s, o) && Enabled(c, s, a) && !HazardFor(false, c, s, a)
             && !a.Recover?
    requires Actor(a) == o && !a.Finish?
    ensures Delegating(Apply(c, s, a), o)
  {
    assert NodeOk(false, c, s, At(o), o);
    if a.Deliver? && a.p.gen == s.gen {
      assert PacketOk(false, c, s, At(o), a.p);
      assert !Token(a.p);
    }
  }

  /** A delegation that would be installed is one that still holds: its data
      is the current value and the owner still tracks its addressee. One that
      was delayed past its revoke is never installed. */
  lemma LateDelegation(c: Config, ss: seq<State>, acts: seq<Action>, k: nat, p: Packet) returns (o: nat)
    requires Run(c, ss, acts) && Safe(true, c, ss, acts) && k < |ss|
    requires p in ss[k].net && p.ReplyRo? && p.gen == ss[k].gen && p.dst < c.n
    requires p.h.rsn > EffRsn(ss[k].nodes[p.dst].rec)
    ensures o in Owners(c, ss[k]) && o != p.dst && Delegating(ss[k], o) && p.dst in ss[k].nodes[o].tracking
    ensures p.data == ss[k].nodes[o].rec.d == Value(ss[k].log)
    ensures ss[k].nodes[o].rec.h.flags.revoking ==> TheUpdate(ss[k], o, p.dst) in ss[k].net
  {
    var loc := RunKeepsInv(true, c, ss, acts, k);
    assert PacketOk(true, c, ss[k], loc, p);
    o := loc.o;
  }
}
