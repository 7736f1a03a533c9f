/** The global invariant of the migration and delegation protocol. With `full` it
    speaks of everything; without it, it leaves out whether read-only copies
    agree with the record, and survives the steps that let them go astray. */
module ClusterInv {
  import opened Ltdb
  import opened Protocol
  import opened Cluster

  /** Where the dmaster role is: on a node, or on the wire. */
  datatype Loc = At(o: nat) | OnReq(p: Packet) | OnReply(p: Packet)

  predicate Token(p: Packet) { p.ReqDmaster? || p.ReplyDmaster? }

  predicate LocOk(s: State, loc: Loc) {
    match loc
    case At(o) => o < |s.nodes|
    case OnReq(p) => p.ReqDmaster?
    case OnReply(p) => p.ReplyDmaster?
  }

  function CurRsn(s: State, loc: Loc): int
    requires LocOk(s, loc)
  {
    if loc.At? then EffRsn(s.nodes[loc.o].rec) else loc.p.rsn
  }

  function CurMigrated(s: State, loc: Loc): bool
    requires LocOk(s, loc)
  {
    if loc.At? then EffHeader(s.lm, s.nodes[loc.o].rec).flags.migrated else loc.p.flags.migrated
  }

  function CurData(s: State, loc: Loc): Data
    requires LocOk(s, loc)
  {
    if loc.At? then EffData(s.nodes[loc.o].rec) else loc.p.data
  }

  /** The node whose name the lmaster's header carries. */
  function Named(loc: Loc): nat
    requires loc.At? || (loc.OnReq? && loc.p.ReqDmaster?) || (loc.OnReply? && loc.p.ReplyDmaster?)
  {
    match loc
    case At(o) => o
    case OnReq(p) => p.src
    case OnReply(p) => p.dst
  }

  ghost predicate TokenInv(c: Config, s: State, loc: Loc)
    requires WF(c, s) && LocOk(s, loc)
  {
    && EffDm(s.lm, s.nodes[s.lm].rec) == Named(loc)
    && (loc.At? ==> EffDm(s.lm, s.nodes[loc.o].rec) == loc.o)
    && (!loc.At? ==> s.net[loc.p] == 1 && loc.p.gen == s.gen && loc.p.rsn >= 1 && !loc.p.flags.AnyRo()
                     && !loc.p.flags.vacuum && !loc.p.flags.automatic)
    && (loc.OnReq? ==>
          && loc.p.dst == s.lm && loc.p.src < c.n && loc.p.src != s.lm
          && loc.p.newdm < c.n && loc.p.newdm != loc.p.src)
    && (loc.OnReply? ==> loc.p.dst < c.n && loc.p.dst != s.lm)
    && (forall i | 0 <= i < c.n :: EffDm(s.lm, s.nodes[i].rec) == i ==> loc == At(i))
    && (forall p <- s.net :: Token(p) && p.gen == s.gen ==> !loc.At? && p == loc.p)
  }

  /** The read-only copies are valid: nothing has been revoked completely. */
  predicate Delegating(s: State, o: nat)
    requires o < |s.nodes|
  {
    var rec := s.nodes[o].rec;
    rec.Present? && rec.h.flags.deleg && !rec.h.flags.complete
  }

  function TheUpdate(s: State, o: nat, t: nat): Packet
    requires o < |s.nodes| && s.nodes[o].rec.Present?
  {
    var ns := s.nodes[o];
    Update(s.gen, t, PushedHeader(ns.rec.h), if ns.revoke.Running? then ns.revoke.data else ns.rec.d)
  }

  /** Node t may still read its copy: its revoke, if one runs, is under way. */
  ghost predicate Outstanding(s: State, o: nat, t: nat)
    requires o < |s.nodes| && s.nodes[o].rec.Present?
  {
    && t != o && t in s.nodes[o].tracking
    && (!s.nodes[o].revoke.Idle? ==> TheUpdate(s, o, t) in s.net)
  }

  function RoHeader(h: Header): Header {
    h.(rsn := h.rsn - 2, flags := h.flags.(ro := true, deleg := false, revoking := false))
  }

  /** A copy is older than the record: strictly, once the record has an owner;
      while it is delegated, a read-only copy is two behind, a revoked one is
      the pushed record, any other copy is at least three behind. */
  predicate RsnOk(s: State, loc: Loc, rec: Rec)
    requires LocOk(s, loc)
  {
    rec.Present? ==>
      if loc.At? && Delegating(s, loc.o) then
        var o := s.nodes[loc.o].rec;
        || rec.h.rsn <= (if rec.h.flags.ro then o.h.rsn - 2 else o.h.rsn - 3)
        || (o.h.flags.revoking && rec == Present(PushedHeader(o.h), o.d))
      else if loc.At? then rec.h.rsn < CurRsn(s, loc)
      else rec.h.rsn <= CurRsn(s, loc)
  }

  ghost predicate NodeOk(full: bool, c: Config, s: State, loc: Loc, i: nat)
    requires WF(c, s) && LocOk(s, loc) && i < c.n
  {
    var ns := s.nodes[i];
    && (ns.rec.Present? ==> ns.rec.h.rsn >= 1)
    && (loc != At(i) ==> ns.tracking == {} && ns.revoke == Idle && (full ==> RsnOk(s, loc, ns.rec)))
    && (full && loc.At? && loc.o != i && Delegating(s, loc.o) && ns.rec.Present?
        && ns.rec.h.rsn == s.nodes[loc.o].rec.h.rsn - 1 ==>
          TheUpdate(s, loc.o, i) !in s.net)
    && (ns.rec.Present? ==>
          var f := ns.rec.h.flags;
          && ns.rec.h.dmaster < c.n && !f.vacuum && !f.automatic
          && (f.deleg || f.revoking || f.complete ==> loc == At(i))
          && (f.ro ==> loc != At(i))
          && (full && f.ro ==>
                && loc.At? && loc.o != i && Delegating(s, loc.o) && Outstanding(s, loc.o, i)
                && ns.rec.d == s.nodes[loc.o].rec.d
                && ns.rec.h == RoHeader(s.nodes[loc.o].rec.h)))
  }

  ghost predicate OwnerOk(full: bool, c: Config, s: State, o: nat)
    requires WF(c, s) && o < c.n
  {
    var ns := s.nodes[o];
    if ns.rec.Absent? || !ns.rec.h.flags.AnyRo() then ns.tracking == {} && ns.revoke == Idle
    else
      var f := ns.rec.h.flags;
      && f.deleg && !f.ro && ns.rec.h.rsn >= 4
      && ns.tracking != {} && o !in ns.tracking && (forall t <- ns.tracking :: t < c.n)
      && (f.complete ==> f.revoking)
      && (if f.revoking && !f.complete
          then ns.revoke.Stuck?
               || (ns.revoke.Running? && ns.revoke.rsn == ns.rec.h.rsn
                   && (full ==> ns.revoke.data == ns.rec.d && !ns.revoke.failed))
          else ns.revoke == Idle)
  }

  ghost predicate RunAt(full: bool, s: State, o: nat, t: nat)
    requires o < |s.nodes| && s.nodes[o].rec.Present?
  {
    var k := s.net[TheUpdate(s, o, t)] + s.net[Ack(s.gen, o, t, true)] + s.net[Ack(s.gen, o, t, false)];
    if s.nodes[o].revoke.Running? then k == if t in s.nodes[o].revoke.waiting then 1 else 0
    else full ==> k <= 1
  }

  /** One packet per node that has not answered: the push or its answer. */
  ghost predicate RunOk(full: bool, c: Config, s: State, o: nat)
    requires WF(c, s) && o < c.n && s.nodes[o].rec.Present?
  {
    && (s.nodes[o].revoke.Running? ==> s.nodes[o].revoke.waiting <= s.nodes[o].tracking)
    && forall t: nat :: RunAt(full, s, o, t)
  }

  /** A delegation on the wire that still matches the owner's record. */
  ghost predicate Live(c: Config, s: State, loc: Loc, p: Packet)
    requires WF(c, s) && LocOk(s, loc) && p.ReplyRo?
  {
    && loc.At? && Delegating(s, loc.o) && Outstanding(s, loc.o, p.dst)
    && p.h == RoHeader(s.nodes[loc.o].rec.h) && p.data == s.nodes[loc.o].rec.d
  }

  /** A delegation that its addressee will not install. */
  predicate Dead(c: Config, s: State, p: Packet)
    requires WF(c, s) && p.ReplyRo? && p.dst < c.n
  {
    s.nodes[p.dst].rec.Present? && p.h.rsn <= s.nodes[p.dst].rec.h.rsn
  }

  /** A delegation to the lmaster that would make it name another node than it
      does now is one that it will not install. */
  predicate NamesRight(s: State, p: Packet)
    requires s.lm < |s.nodes| && p.ReplyRo?
  {
    p.dst == s.lm ==> p.h.dmaster == EffDm(s.lm, s.nodes[s.lm].rec) || p.h.rsn <= EffRsn(s.nodes[s.lm].rec)
  }

  /** A delegation that a record which started over has not caught up with, but that
      its node will never install as the owner. */
  predicate Harmless(s: State, loc: Loc, p: Packet)
    requires LocOk(s, loc) && p.ReplyRo?
  {
    p.h.rsn <= 2 && p.dst != s.lm && (loc == At(p.dst) ==> CurRsn(s, loc) >= 2)
  }

  /** A delegation that is not older than the present round belongs to it. */
  predicate InRound(s: State, loc: Loc, p: Packet)
    requires LocOk(s, loc) && p.ReplyRo?
  {
    loc.At? && Delegating(s, loc.o) && p.h.rsn > s.nodes[loc.o].rec.h.rsn - 3 ==>
      p.h == RoHeader(s.nodes[loc.o].rec.h) && p.data == s.nodes[loc.o].rec.d
  }

  ghost predicate PacketOk(full: bool, c: Config, s: State, loc: Loc, p: Packet)
    requires WF(c, s) && LocOk(s, loc)
  {
    match p
    case ReqCall(_, src, _, _, ro, callid, _) => src < c.n && (ro ==> callid == FETCH_WITH_HEADER)
    case ReplyRo(_, dst, _, h, _) =>
      && dst < c.n && h.dmaster < c.n && h.dmaster != dst
      && h.flags == NO_FLAGS.(ro := true, migrated := h.flags.migrated)
      && h.rsn >= 2 && (h.rsn + 2 <= CurRsn(s, loc) || (!full && Harmless(s, loc, p))) && NamesRight(s, p)
      && (full ==> InRound(s, loc, p) && (Live(c, s, loc, p) || Dead(c, s, p)))
    case Update(_, dst, _, _) =>
      && loc.At? && Delegating(s, loc.o) && s.nodes[loc.o].rec.h.flags.revoking
      && dst in s.nodes[loc.o].tracking && p.h == PushedHeader(s.nodes[loc.o].rec.h)
      && (full || s.nodes[loc.o].revoke.Running? ==> p == TheUpdate(s, loc.o, dst))
    case Ack(_, dst, _, ok) =>
      (full ==> ok) && loc.At? && dst == loc.o && Delegating(s, loc.o) && s.nodes[loc.o].rec.h.flags.revoking
    case _ => true
  }

  ghost predicate NetInv(full: bool, c: Config, s: State, loc: Loc)
    requires WF(c, s) && LocOk(s, loc)
  {
    forall p <- s.net :: p.gen == s.gen ==> PacketOk(full, c, s, loc, p)
  }

  /** A pushed record, of whatever generation, names another node than its addressee. */
  predicate PushForm(c: Config, p: Packet)
    requires p.Update?
  {
    p.h.rsn >= 1 && p.h.dmaster < c.n && p.h.dmaster != p.dst && p.h.flags == NO_FLAGS.(migrated := true)
  }

  ghost predicate HistInv(full: bool, c: Config, s: State, loc: Loc)
    requires WF(c, s) && LocOk(s, loc)
  {
    && Atomic(full, c.ops, s.log)
    && Value(s.log) == CurData(s, loc)
    && DelegatedSince(s.log) == if loc.At? then s.nodes[loc.o].tracking else {}
  }

  /** What every step does to the record: its rsn never goes back, a record that was
      migrated with data stays marked as such, and neither its owner nor its data
      change while copies of it may be read. */
  predicate Progress(full: bool, s: State, loc: Loc, s': State, loc': Loc)
    requires LocOk(s, loc)
  {
    && LocOk(s', loc') && CurRsn(s', loc') >= CurRsn(s, loc) && (CurMigrated(s, loc) ==> CurMigrated(s', loc'))
    && (loc.At? && Delegating(s, loc.o) ==> loc' == loc && (full ==> CurData(s', loc') == CurData(s, loc)))
    && (!loc.At? && loc'.At? ==> CurRsn(s', loc') > CurRsn(s, loc))
  }

  /** No copy was ever handed out read-only or vacuumed away. */
  predicate Untouched(log: seq<Event>) { forall k | 0 <= k < |log| :: !log[k].Delegated? && !log[k].Dropped? }

  ghost predicate PushesOk(c: Config, s: State) {
    forall p <- s.net :: p.Update? ==> PushForm(c, p) && !Untouched(s.log)
  }

  /** The copies left behind by migrations: those with the rsn of a record on
      the wire carry its data, and a record that was never migrated with data
      has left no data anywhere. */
  ghost predicate TrailInv(c: Config, s: State, loc: Loc)
    requires WF(c, s) && LocOk(s, loc) && TokenInv(c, s, loc)
  {
    && (forall i | 0 <= i < c.n && loc != At(i) && s.nodes[i].rec.Present? ::
         && (CurMigrated(s, loc) || s.nodes[i].rec.d == [])
         && (!loc.At? && s.nodes[i].rec.h.rsn == loc.p.rsn ==> s.nodes[i].rec.d == loc.p.data))
    && (loc.OnReq? && (loc.p.data != [] || loc.p.flags.migrated) ==>
          s.nodes[loc.p.src].rec.Present? && s.nodes[loc.p.src].rec.h.rsn == loc.p.rsn)
    && (!loc.At? && loc.p.data != [] ==> loc.p.flags.migrated)
    && (loc.OnReply? ==> s.nodes[s.lm].rec.Present? && s.nodes[s.lm].rec.h.rsn == loc.p.rsn)
  }

  ghost predicate Inv(full: bool, c: Config, s: State, loc: Loc) {
    && WF(c, s) && LocOk(s, loc)
    && TokenInv(c, s, loc)
    && (forall i | 0 <= i < c.n :: NodeOk(full, c, s, loc, i))
    && (loc.At? ==> OwnerOk(full, c, s, loc.o))
    && (loc.At? && s.nodes[loc.o].rec.Present? && !s.nodes[loc.o].revoke.Idle? ==> RunOk(full, c, s, loc.o))
    && NetInv(full, c, s, loc) && PushesOk(c, s)
    && HistInv(full, c, s, loc)
    && (full && Untouched(s.log) ==> TrailInv(c, s, loc))
  }
}
