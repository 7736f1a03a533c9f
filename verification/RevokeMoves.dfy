/** The moves of a revoke, of a late delegation and of a lost copy. */
module RevokeMoves {
  import opened Ltdb
  import opened Protocol
  import opened Cluster
  import opened ClusterInv
  import opened Moves

  // ---- a delegate takes the pushed record

  /** The record an UPDATE_RECORD leaves, and its answer. */
  function PushOk(rec: Rec, u: Packet): bool
    requires u.Update?
  {
    rec.Absent? || rec.h.rsn < u.h.rsn || rec.d == u.data
  }

  function PushedRec(rec: Rec, u: Packet): Rec
    requires u.Update?
  {
    if rec.Present? && PushOk(rec, u) then Present(u.h, u.data) else rec
  }

  ghost predicate MayPush(full: bool, c: Config, s: State, o: nat, u: Packet) {
    && Inv(full, c, s, At(o)) && u in s.net && u.Update? && u.gen == s.gen
    && u.dst < c.n
    && (full && s.nodes[u.dst].rec.Absent? ==> NoHeld(s, u.dst))
  }

  ghost function Pushed(s: State, o: nat, u: Packet): State
    requires u.Update? && u.dst < |s.nodes|
  {
    var rec := s.nodes[u.dst].rec;
    s.(nodes := s.nodes[u.dst := s.nodes[u.dst].(rec := PushedRec(rec, u))],
       net := s.net - multiset{u} + multiset{Ack(s.gen, o, u.dst, PushOk(rec, u))})
  }

  lemma Push(full: bool, c: Config, s: State, o: nat, u: Packet)
    requires MayPush(full, c, s, o, u)
    ensures Inv(full, c, Pushed(s, o, u), At(o))
  {
    var s' := Pushed(s, o, u);
    assert PacketOk(full, c, s, At(o), u);
    if Untouched(s.log) { UntouchedNotRo(full, c, s, At(o)); }
    PushTokens(full, c, s, o, u);
    PushPackets(full, c, s, o, u);
    forall i | 0 <= i < c.n ensures NodeOk(full, c, s', At(o), i) { PushNodes(full, c, s, o, u, i); }
    if !s.nodes[o].revoke.Idle? {
      forall t: nat ensures RunAt(full, s', o, t) { PushRun(full, c, s, o, u, t); }
    }
  }

  /** No delegate refuses the pushed record. */
  lemma PushAccepted(full: bool, c: Config, s: State, o: nat, u: Packet)
    requires full && MayPush(full, c, s, o, u)
    ensures PushOk(s.nodes[u.dst].rec, u)
  {
    assert PacketOk(full, c, s, At(o), u);
    assert NodeOk(full, c, s, At(o), u.dst);
  }

  lemma PushTokens(full: bool, c: Config, s: State, o: nat, u: Packet)
    requires MayPush(full, c, s, o, u)
    ensures TokenInv(c, Pushed(s, o, u), At(o))
  {
    assert PacketOk(full, c, s, At(o), u);
    assert NodeOk(full, c, s, At(o), o);
  }

  lemma PushNodes(full: bool, c: Config, s: State, o: nat, u: Packet, i: nat)
    requires MayPush(full, c, s, o, u) && i < c.n
    ensures NodeOk(full, c, Pushed(s, o, u), At(o), i)
  {
    assert PacketOk(full, c, s, At(o), u);
    assert NodeOk(full, c, s, At(o), i) && NodeOk(full, c, s, At(o), o) && RunAt(full, s, o, u.dst);
  }

  lemma PushRun(full: bool, c: Config, s: State, o: nat, u: Packet, t: nat)
    requires MayPush(full, c, s, o, u) && !s.nodes[o].revoke.Idle? && s.nodes[o].rec.Present?
    ensures u.dst != o && RunAt(full, Pushed(s, o, u), o, t)
  {
    assert PacketOk(full, c, s, At(o), u);
    if full { PushAccepted(full, c, s, o, u); }
    assert RunAt(full, s, o, t);
  }

  lemma PushPackets(full: bool, c: Config, s: State, o: nat, u: Packet)
    requires MayPush(full, c, s, o, u)
    ensures NetInv(full, c, Pushed(s, o, u), At(o))
  {
    var s' := Pushed(s, o, u);
    assert PacketOk(full, c, s, At(o), u);
    assert NodeOk(full, c, s, At(o), u.dst);
    if full { PushAccepted(full, c, s, o, u); }
    forall q <- s'.net | q.gen == s'.gen ensures PacketOk(full, c, s', At(o), q) {
      if q in s.net { assert PacketOk(full, c, s, At(o), q); }
    }
  }

  // ---- the answers reach the owner

  /** The child counts an answer off. */
  function CountOff(ns: NodeState, a: Packet): NodeState
    requires a.Ack?
  {
    if ns.revoke.Running? then
      ns.(revoke := ns.revoke.(waiting := ns.revoke.waiting - {a.src}, failed := ns.revoke.failed || !a.ok))
    else ns
  }

  ghost function Answered(s: State, o: nat, a: Packet): State
    requires a.Ack? && o < |s.nodes|
  {
    s.(nodes := s.nodes[o := CountOff(s.nodes[o], a)], net := s.net - multiset{a})
  }

  lemma Answer(full: bool, c: Config, s: State, loc: Loc, a: Packet)
    requires Inv(full, c, s, loc) && a in s.net && a.Ack? && a.gen == s.gen
    ensures loc == At(a.dst) && Inv(full, c, Answered(s, a.dst, a), loc)
  {
    assert PacketOk(full, c, s, loc, a);
    var o := a.dst;
    var s' := Answered(s, o, a);
    if Untouched(s.log) { UntouchedNotRo(full, c, s, loc); }
    forall i | 0 <= i < c.n ensures NodeOk(full, c, s', loc, i) { AnswerNodes(full, c, s, o, a, i); }
    AnswerPackets(full, c, s, o, a);
    if !s.nodes[o].revoke.Idle? {
      forall t: nat ensures RunAt(full, s', o, t) { AnswerRun(full, c, s, o, a, t); }
    }
  }

  lemma AnswerNodes(full: bool, c: Config, s: State, o: nat, a: Packet, i: nat)
    requires Inv(full, c, s, At(o)) && a in s.net && a.Ack? && a.gen == s.gen && a.dst == o && i < c.n
    ensures NodeOk(full, c, Answered(s, o, a), At(o), i)
  {
    assert NodeOk(full, c, s, At(o), i);
  }

  lemma AnswerPackets(full: bool, c: Config, s: State, o: nat, a: Packet)
    requires Inv(full, c, s, At(o)) && a in s.net && a.Ack? && a.gen == s.gen && a.dst == o
    ensures NetInv(full, c, Answered(s, o, a), At(o))
  {
    var s' := Answered(s, o, a);
    forall q <- s'.net | q.gen == s'.gen ensures PacketOk(full, c, s', At(o), q) {
      assert q in s.net && PacketOk(full, c, s, At(o), q);
    }
  }

  lemma AnswerRun(full: bool, c: Config, s: State, o: nat, a: Packet, t: nat)
    requires Inv(full, c, s, At(o)) && a in s.net && a.Ack? && a.gen == s.gen && a.dst == o
    requires !s.nodes[o].revoke.Idle? && s.nodes[o].rec.Present?
    ensures RunAt(full, Answered(s, o, a), o, t)
  {
    assert RunAt(full, s, o, t) && RunAt(full, s, o, a.src);
  }

  // ---- the revoke ends

  /** Nothing of the revoke is on the wire once every node has answered. */
  lemma NoneWaits(full: bool, c: Config, s: State, o: nat)
    requires Inv(full, c, s, At(o)) && s.nodes[o].revoke.Running? && s.nodes[o].revoke.waiting == {}
    ensures forall q <- s.net :: q.gen == s.gen ==> !q.Update? && !q.Ack?
  {
    forall q <- s.net | q.gen == s.gen ensures !q.Update? && !q.Ack? {
      assert PacketOk(full, c, s, At(o), q);
      assert q.Update? ==> RunAt(full, s, o, q.dst);
      assert q.Ack? ==> RunAt(full, s, o, q.src);
    }
  }

  /** Nothing read-only is left once every node has answered. */
  lemma AllAnswered(full: bool, c: Config, s: State, o: nat)
    requires full && Inv(full, c, s, At(o)) && s.nodes[o].revoke.Running? && s.nodes[o].revoke.waiting == {}
    ensures forall i | 0 <= i < c.n :: s.nodes[i].rec.Present? ==> !s.nodes[i].rec.h.flags.ro
    ensures forall q <- s.net :: q.gen == s.gen && q.ReplyRo? ==> q.dst < c.n && Dead(c, s, q)
  {
    assert forall t: nat :: RunAt(full, s, o, t) ==> TheUpdate(s, o, t) !in s.net;
    forall i | 0 <= i < c.n ensures s.nodes[i].rec.Present? ==> !s.nodes[i].rec.h.flags.ro {
      assert NodeOk(full, c, s, At(o), i) && RunAt(full, s, o, i);
    }
    forall q <- s.net | q.gen == s.gen && q.ReplyRo?
      ensures q.dst < c.n && Dead(c, s, q)
    {
      assert PacketOk(full, c, s, At(o), q) && RunAt(full, s, o, q.dst);
    }
  }

  ghost function Completed(s: State, o: nat): State
    requires o < |s.nodes| && s.nodes[o].rec.Present?
  {
    var h := s.nodes[o].rec.h;
    s.(nodes := s.nodes[o := NodeState(
      Present(h.(rsn := h.rsn + 1, flags := h.flags.(complete := true)), s.nodes[o].rec.d), s.nodes[o].tracking, Idle)])
  }

  lemma Complete(full: bool, c: Config, s: State, o: nat)
    requires Inv(full, c, s, At(o)) && s.nodes[o].revoke.Running? && s.nodes[o].revoke.waiting == {}
    ensures s.nodes[o].rec.Present? && s.nodes[o].rec.h.flags.revoking && s.nodes[o].rec.h.flags.deleg
    ensures s.nodes[o].rec.h.rsn == s.nodes[o].revoke.rsn && (full ==> !s.nodes[o].revoke.failed)
    ensures Inv(full, c, Completed(s, o), At(o))
  {
    NoneWaits(full, c, s, o);
    if full { AllAnswered(full, c, s, o); }
    if Untouched(s.log) { UntouchedNotRo(full, c, s, At(o)); }
    var s' := Completed(s, o);
    forall q <- s'.net | q.gen == s'.gen ensures PacketOk(full, c, s', At(o), q) {
      assert PacketOk(full, c, s, At(o), q);
    }
    forall i | 0 <= i < c.n ensures NodeOk(full, c, s', At(o), i) {
      assert NodeOk(full, c, s, At(o), i);
    }
  }

  /** A failed revoke leaves the record revoking for good. */
  lemma Fail(full: bool, c: Config, s: State, loc: Loc, o: nat)
    requires Inv(full, c, s, loc) && o < c.n && s.nodes[o].revoke.Running?
    ensures loc == At(o)
    ensures Inv(full, c, s.(nodes := s.nodes[o := s.nodes[o].(revoke := Stuck)]), loc)
  {
    var s' := s.(nodes := s.nodes[o := s.nodes[o].(revoke := Stuck)]);
    assert NodeOk(full, c, s, loc, o);
    if Untouched(s.log) { UntouchedNotRo(full, c, s, loc); }
    forall q <- s'.net | q.gen == s'.gen ensures PacketOk(full, c, s', loc, q) {
      assert PacketOk(full, c, s, loc, q);
    }
    forall i | 0 <= i < c.n ensures NodeOk(full, c, s', loc, i) {
      assert NodeOk(full, c, s, loc, i);
    }
    forall t: nat ensures RunAt(full, s', o, t) { assert RunAt(full, s, o, t); }
  }

  // ---- a delegation arrives

  ghost function Installed(s: State, p: Packet): State
    requires p.ReplyRo? && p.dst < |s.nodes|
  {
    s.(nodes := s.nodes[p.dst := s.nodes[p.dst].(rec := Present(p.h, p.data))], net := s.net - multiset{p})
  }

  /** A delegation newer than the local copy is one that still matches the owner. */
  lemma Install(full: bool, c: Config, s: State, loc: Loc, p: Packet)
    requires Inv(full, c, s, loc) && p in s.net && p.ReplyRo? && p.gen == s.gen && p.dst < c.n
    requires p.h.rsn > EffRsn(s.nodes[p.dst].rec)
    ensures loc != At(p.dst) && (full ==> Live(c, s, loc, p))
    ensures !(s.nodes[p.dst].rec.Absent? && p.dst == s.lm)
    ensures Inv(full, c, Installed(s, p), loc)
  {
    assert PacketOk(full, c, s, loc, p);
    assert full ==> !Dead(c, s, p);
    Consume(full, c, s, loc, p);
    var s1 := s.(net := s.net - multiset{p});
    InstallNode(full, c, s1, loc, p);
  }

  ghost predicate MayInstall(full: bool, c: Config, s: State, loc: Loc, p: Packet) {
    && Inv(full, c, s, loc) && p.ReplyRo? && PacketOk(full, c, s, loc, p) && (full ==> Live(c, s, loc, p))
    && p.h.rsn > EffRsn(s.nodes[p.dst].rec)
  }

  ghost function WithCopy(s: State, p: Packet): State
    requires p.ReplyRo? && p.dst < |s.nodes|
  {
    s.(nodes := s.nodes[p.dst := s.nodes[p.dst].(rec := Present(p.h, p.data))])
  }

  lemma InstallNode(full: bool, c: Config, s: State, loc: Loc, p: Packet)
    requires MayInstall(full, c, s, loc, p)
    ensures Inv(full, c, WithCopy(s, p), loc)
  {
    var s' := WithCopy(s, p);
    InstallTokens(full, c, s, loc, p);
    if Untouched(s.log) { UntouchedNotRo(full, c, s, loc); }
    InstallPackets(full, c, s, loc, p);
    forall i | 0 <= i < c.n ensures NodeOk(full, c, s', loc, i) { InstallNodes(full, c, s, loc, p, i); }
    if loc.At? && !s.nodes[loc.o].revoke.Idle? && s.nodes[loc.o].rec.Present? {
      forall t: nat ensures RunAt(full, s', loc.o, t) { assert RunAt(full, s, loc.o, t); }
    }
  }

  lemma InstallTokens(full: bool, c: Config, s: State, loc: Loc, p: Packet)
    requires MayInstall(full, c, s, loc, p)
    ensures LocOk(WithCopy(s, p), loc) && TokenInv(c, WithCopy(s, p), loc) && loc != At(p.dst)
  {
    assert NodeOk(full, c, s, loc, p.dst);
  }

  lemma InstallNodes(full: bool, c: Config, s: State, loc: Loc, p: Packet, i: nat)
    requires MayInstall(full, c, s, loc, p) && i < c.n
    ensures LocOk(WithCopy(s, p), loc) && NodeOk(full, c, WithCopy(s, p), loc, i)
  {
    InstallTokens(full, c, s, loc, p);
    assert NodeOk(full, c, s, loc, i);
    if loc.At? { assert NodeOk(full, c, s, loc, loc.o); }
  }

  lemma InstallPackets(full: bool, c: Config, s: State, loc: Loc, p: Packet)
    requires MayInstall(full, c, s, loc, p)
    ensures LocOk(WithCopy(s, p), loc) && NetInv(full, c, WithCopy(s, p), loc)
  {
    var s' := WithCopy(s, p);
    InstallTokens(full, c, s, loc, p);
    forall q <- s'.net | q.gen == s'.gen ensures PacketOk(full, c, s', loc, q) {
      assert PacketOk(full, c, s, loc, q);
    }
  }

  // ---- a copy is lost

  ghost predicate MayLose(full: bool, c: Config, s: State, loc: Loc, i: nat) {
    && Inv(full, c, s, loc) && i < c.n && i != s.lm && (full ==> NoHeld(s, i))
    && s.nodes[i].rec.Present? && s.nodes[i].rec.h.dmaster != i
  }

  ghost function Lost(s: State, i: nat): State
    requires i < |s.nodes|
  {
    s.(nodes := s.nodes[i := s.nodes[i].(rec := Absent)], log := s.log + [Dropped])
  }

  lemma Lose(full: bool, c: Config, s: State, loc: Loc, i: nat)
    requires MayLose(full, c, s, loc, i)
    ensures Inv(full, c, Lost(s, i), loc)
  {
    var s' := Lost(s, i);
    LogSnoc(full, c.ops, s.log, Dropped);
    assert s'.log[|s.log|].Dropped?;
    LosePackets(full, c, s, loc, i);
    LoseTokens(full, c, s, loc, i);
    forall j | 0 <= j < c.n ensures NodeOk(full, c, s', loc, j) { LoseNodes(full, c, s, loc, i, j); }
    if loc.At? && !s.nodes[loc.o].revoke.Idle? && s.nodes[loc.o].rec.Present? {
      forall t: nat ensures RunAt(full, s', loc.o, t) { assert RunAt(full, s, loc.o, t); }
    }
  }

  lemma LoseTokens(full: bool, c: Config, s: State, loc: Loc, i: nat)
    requires MayLose(full, c, s, loc, i)
    ensures LocOk(Lost(s, i), loc) && TokenInv(c, Lost(s, i), loc)
  {
  }

  lemma LoseNodes(full: bool, c: Config, s: State, loc: Loc, i: nat, j: nat)
    requires MayLose(full, c, s, loc, i) && j < c.n
    ensures NodeOk(full, c, Lost(s, i), loc, j)
  {
    assert NodeOk(full, c, s, loc, i) && NodeOk(full, c, s, loc, j);
  }

  lemma LosePackets(full: bool, c: Config, s: State, loc: Loc, i: nat)
    requires MayLose(full, c, s, loc, i)
    ensures NetInv(full, c, Lost(s, i), loc)
  {
    var s' := Lost(s, i);
    forall q <- s'.net | q.gen == s'.gen ensures PacketOk(full, c, s', loc, q) {
      assert PacketOk(full, c, s, loc, q);
    }
  }

  // ---- a client stores

  ghost function Stored(s: State, o: nat, d: Data): State
    requires o < |s.nodes| && s.nodes[o].rec.Present?
  {
    s.(nodes := s.nodes[o := s.nodes[o].(rec := Present(s.nodes[o].rec.h, d))], log := s.log + [Write(d)])
  }

  /** A store on the owner is harmless to the role; with other data it must not
      meet a delegated record. */
  lemma StoreMove(full: bool, c: Config, s: State, o: nat, d: Data)
    requires Inv(full, c, s, At(o)) && s.nodes[o].rec.Present?
    requires full && Delegating(s, o) ==> d == s.nodes[o].rec.d
    ensures Inv(full, c, Stored(s, o, d), At(o))
  {
    var s' := Stored(s, o, d);
    LogSnoc(full, c.ops, s.log, Write(d));
    if Untouched(s.log) { UntouchedNotRo(full, c, s, At(o)); }
    StorePackets(full, c, s, o, d);
    forall i | 0 <= i < c.n ensures NodeOk(full, c, s', At(o), i) { StoreNodes(full, c, s, o, d, i); }
    if !s.nodes[o].revoke.Idle? {
      forall t: nat ensures RunAt(full, s', o, t) { StoreRun(full, c, s, o, d, t); }
    }
  }

  ghost predicate MayStore(full: bool, c: Config, s: State, o: nat, d: Data) {
    Inv(full, c, s, At(o)) && s.nodes[o].rec.Present? && (full && Delegating(s, o) ==> d == s.nodes[o].rec.d)
  }

  lemma StoreNodes(full: bool, c: Config, s: State, o: nat, d: Data, i: nat)
    requires MayStore(full, c, s, o, d) && i < c.n
    ensures NodeOk(full, c, Stored(s, o, d), At(o), i)
  {
    assert NodeOk(full, c, s, At(o), i) && NodeOk(full, c, s, At(o), o);
  }

  lemma StoreRun(full: bool, c: Config, s: State, o: nat, d: Data, t: nat)
    requires MayStore(full, c, s, o, d) && !s.nodes[o].revoke.Idle?
    ensures RunAt(full, Stored(s, o, d), o, t)
  {
    assert RunAt(full, s, o, t);
  }

  lemma StorePackets(full: bool, c: Config, s: State, o: nat, d: Data)
    requires MayStore(full, c, s, o, d)
    ensures NetInv(full, c, Stored(s, o, d), At(o))
  {
    var s' := Stored(s, o, d);
    forall q <- s'.net | q.gen == s'.gen ensures PacketOk(full, c, s', At(o), q) {
      assert PacketOk(full, c, s, At(o), q);
    }
  }

  // ---- a push of an earlier generation arrives

  /** A push of another generation that its node stores. */
  predicate LateStored(s: State, u: Packet) {
    u.Update? && u.gen != s.gen && u.dst < |s.nodes| && s.nodes[u.dst].rec.Present? && PushOk(s.nodes[u.dst].rec, u)
  }

  /** It makes the owner, or the lmaster, name another node than before. */
  predicate TakesName(s: State, u: Packet)
    requires LateStored(s, u)
  {
    var h := s.nodes[u.dst].rec.h;
    (h.dmaster == u.dst || u.dst == s.lm) && u.h.dmaster != h.dmaster
  }

  /** It lets the lmaster install a delegation that names another node. */
  predicate RevivesName(s: State, u: Packet)
    requires LateStored(s, u)
  {
    u.dst == s.lm
    && exists q <- s.net ::
         && q.ReplyRo? && q.gen == s.gen && q.dst == s.lm && u.h.rsn < q.h.rsn
         && q.h.dmaster != u.h.dmaster
  }

  /** It is not older than the record, on its owner or on the wire. */
  predicate TooNew(c: Config, s: State, u: Packet)
    requires WF(c, s) && LateStored(s, u)
  {
    || (exists o | 0 <= o < c.n :: EffDm(s.lm, s.nodes[o].rec) == o && u.h.rsn >= EffRsn(s.nodes[o].rec))
    || (exists q <- s.net :: Token(q) && q.gen == s.gen && u.h.rsn > q.rsn)
  }

  /** It lets its node install a delegation that the stored copy held off. */
  predicate Revives(s: State, u: Packet)
    requires LateStored(s, u)
  {
    var h := s.nodes[u.dst].rec.h;
    exists q <- s.net :: q.ReplyRo? && q.gen == s.gen && q.dst == u.dst && u.h.rsn < q.h.rsn
                         && (if h.flags.ro then q.h.rsn < h.rsn else q.h.rsn <= h.rsn)
  }

  /** While the record is delegated it is too new for a copy that was not
      revoked, and is not the pushed record of this revoke either. */
  predicate Unsettles(c: Config, s: State, u: Packet)
    requires WF(c, s) && LateStored(s, u)
  {
    exists o | 0 <= o < c.n ::
      && EffDm(s.lm, s.nodes[o].rec) == o && Delegating(s, o) && u.h.rsn > s.nodes[o].rec.h.rsn - 3
      && !(s.nodes[o].rec.h.flags.revoking
           && Present(u.h, u.data) == Present(PushedHeader(s.nodes[o].rec.h), s.nodes[o].rec.d)
           && TheUpdate(s, o, u.dst) !in s.net)
  }

  ghost predicate MayArriveLate(full: bool, c: Config, s: State, loc: Loc, u: Packet) {
    && Inv(full, c, s, loc) && u.Update? && PushForm(c, u) && !Untouched(s.log) && LateStored(s, u)
    && !TakesName(s, u) && !RevivesName(s, u)
    && (full ==> !TooNew(c, s, u) && !Revives(s, u) && !Unsettles(c, s, u))
  }

  ghost function WithPush(s: State, u: Packet): State
    requires u.Update? && u.dst < |s.nodes|
  {
    s.(nodes := s.nodes[u.dst := s.nodes[u.dst].(rec := Present(u.h, u.data))])
  }

  lemma LatePush(full: bool, c: Config, s: State, loc: Loc, u: Packet)
    requires MayArriveLate(full, c, s, loc, u)
    ensures Inv(full, c, WithPush(s, u), loc)
  {
    var s' := WithPush(s, u);
    LateTokens(full, c, s, loc, u);
    LatePackets(full, c, s, loc, u);
    forall i | 0 <= i < c.n ensures NodeOk(full, c, s', loc, i) { LateNodes(full, c, s, loc, u, i); }
    if loc.At? && !s.nodes[loc.o].revoke.Idle? && s.nodes[loc.o].rec.Present? {
      forall t: nat ensures RunAt(full, s', loc.o, t) { assert RunAt(full, s, loc.o, t); }
    }
  }

  lemma LateTokens(full: bool, c: Config, s: State, loc: Loc, u: Packet)
    requires MayArriveLate(full, c, s, loc, u)
    ensures LocOk(WithPush(s, u), loc) && TokenInv(c, WithPush(s, u), loc) && loc != At(u.dst)
    ensures full ==> if loc.At? then u.h.rsn < CurRsn(s, loc) else u.h.rsn <= CurRsn(s, loc)
  {
    assert NodeOk(full, c, s, loc, u.dst);
  }

  lemma LateNodes(full: bool, c: Config, s: State, loc: Loc, u: Packet, i: nat)
    requires MayArriveLate(full, c, s, loc, u) && i < c.n
    ensures LocOk(WithPush(s, u), loc) && NodeOk(full, c, WithPush(s, u), loc, i)
  {
    LateTokens(full, c, s, loc, u);
    assert NodeOk(full, c, s, loc, i);
  }

  lemma LatePackets(full: bool, c: Config, s: State, loc: Loc, u: Packet)
    requires MayArriveLate(full, c, s, loc, u)
    ensures LocOk(WithPush(s, u), loc) && NetInv(full, c, WithPush(s, u), loc)
  {
    var s' := WithPush(s, u);
    LateTokens(full, c, s, loc, u);
    assert NodeOk(full, c, s, loc, u.dst);
    forall q <- s'.net | q.gen == s'.gen ensures PacketOk(full, c, s', loc, q) {
      assert PacketOk(full, c, s, loc, q);
    }
  }
}
