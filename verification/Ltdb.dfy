/** The local database record of one key: its header, the rule that decides
    whether a record is stored or deleted, and the fetch that stands in a
    default header for a missing record. */
module Ltdb {

  newtype byte = x: int | 0 <= x < 256

  /** Record contents; `[]` is a record with dsize 0. */
  type Data = seq<byte>

  datatype Flags = Flags(
    migrated: bool,   // MIGRATED_WITH_DATA
    vacuum: bool,     // VACUUM_MIGRATED
    automatic: bool,  // AUTOMATIC
    deleg: bool,      // RO_HAVE_DELEGATIONS
    ro: bool,         // RO_HAVE_READONLY
    revoking: bool,   // RO_REVOKING_READONLY
    complete: bool)   // RO_REVOKE_COMPLETE
  {
    /** Any of the flags in CTDB_REC_RO_FLAGS. */
    predicate AnyRo() { deleg || ro || revoking || complete }

    function ClearRo(): Flags {
      this.(deleg := false, ro := false, revoking := false, complete := false)
    }

    /** What enters the database: the two temporary flags never do. */
    function Persistent(): Flags { this.(vacuum := false, automatic := false) }
  }

  const NO_FLAGS := Flags(false, false, false, false, false, false, false)

  datatype Header = Header(rsn: int, dmaster: nat, flags: Flags)

  datatype Rec = Absent | Present(h: Header, d: Data)

  /** A volatile record is deleted instead of stored exactly when it is empty,
      carries no flag that asks to keep it, and either sits on a node that is
      neither its lmaster nor its dmaster, or came home to a dmaster that is
      also the lmaster through a vacuum migration. */
  predicate Keep(me: nat, lm: nat, h: Header, d: Data) {
    || d != []
    || h.flags.AnyRo() || h.flags.automatic || h.flags.migrated
    || (if me == lm then h.flags.vacuum ==> me != h.dmaster else me == h.dmaster)
  }

  /** The caller's header after a store: a dmaster that keeps a record without
      read-only flags advances the rsn. */
  function StoredHeader(me: nat, lm: nat, h: Header, d: Data): Header {
    Header(
      if Keep(me, lm, h, d) && me == h.dmaster && !h.flags.AnyRo() then h.rsn + 1 else h.rsn,
      h.dmaster,
      h.flags.Persistent())
  }

  function StoreRec(me: nat, lm: nat, h: Header, d: Data): Rec {
    if Keep(me, lm, h, d) then Present(StoredHeader(me, lm, h, d), d) else Absent
  }

  /** The header a missing record stands for. */
  function InitialHeader(lm: nat): Header { Header(0, lm, NO_FLAGS.(automatic := true)) }

  function EffHeader(lm: nat, rec: Rec): Header {
    if rec.Absent? then InitialHeader(lm) else rec.h
  }

  function EffDm(lm: nat, rec: Rec): nat { EffHeader(lm, rec).dmaster }

  function EffData(rec: Rec): Data { if rec.Absent? then [] else rec.d }

  function EffRsn(rec: Rec): int { if rec.Absent? then 0 else rec.h.rsn }

  /** The record left in the database by a fetch: an lmaster materialises the
      initial header of a missing record. */
  function FetchRec(me: nat, lm: nat, rec: Rec): Rec {
    if rec.Absent? && lm == me then StoreRec(me, lm, InitialHeader(lm), []) else rec
  }

  /** The header a fetch returns. */
  function FetchHeader(me: nat, lm: nat, rec: Rec): Header {
    if rec.Absent? && lm == me then StoredHeader(me, lm, InitialHeader(lm), [])
    else EffHeader(lm, rec)
  }

  /** Deleting instead of storing is invisible to the next fetch: it gives the
      same data and the same answer to "am I the dmaster", and a fetch never
      changes either answer. */
  lemma FetchAfterStore(me: nat, lm: nat, h: Header, d: Data)
    ensures var rec := StoreRec(me, lm, h, d);
            && EffData(rec) == d
            && (FetchHeader(me, lm, rec).dmaster == me <==> h.dmaster == me)
            && (rec.Present? ==> FetchHeader(me, lm, rec) == StoredHeader(me, lm, h, d))
            && (rec.Absent? ==> d == [] && !h.flags.migrated && !h.flags.AnyRo())
  {
  }

  /** What a store leaves: nothing, exactly for an empty record without a flag that asks
      to keep it, on a node that is neither lmaster nor dmaster or on one that is both
      and got it by a vacuum migration; otherwise the data under the same dmaster, without
      the temporary flags, one rsn higher if the dmaster stores it and no copy is out. */
  lemma StoredExactly(me: nat, lm: nat, h: Header, d: Data)
    ensures var rec, f := StoreRec(me, lm, h, d), h.flags;
            && (rec.Absent? <==>
                  && d == [] && !f.migrated && !f.automatic && !f.deleg && !f.ro && !f.revoking && !f.complete
                  && ((me != lm && me != h.dmaster) || (me == lm == h.dmaster && f.vacuum)))
            && (rec.Absent? ==> StoredHeader(me, lm, h, d) == h.(flags := f.(vacuum := false)))
            && (rec.Present? ==>
                  && rec.d == d && rec.h.dmaster == h.dmaster && rec.h == StoredHeader(me, lm, h, d)
                  && rec.h.flags == Flags(f.migrated, false, false, f.deleg, f.ro, f.revoking, f.complete)
                  && rec.h.rsn == h.rsn + (if me == h.dmaster && !f.deleg && !f.ro && !f.revoking && !f.complete
                                           then 1 else 0))
  {
  }

  /** A fetch of a missing record makes its lmaster the owner of an empty one, and no
      other node stores anything. */
  lemma FetchedExactly(me: nat, lm: nat, rec: Rec)
    ensures rec.Present? ==> FetchRec(me, lm, rec) == rec && FetchHeader(me, lm, rec) == rec.h
    ensures rec.Absent? && me == lm ==>
              FetchRec(me, lm, rec) == Present(Header(1, lm, NO_FLAGS), []) && FetchHeader(me, lm, rec).rsn == 1
    ensures rec.Absent? && me != lm ==>
              FetchRec(me, lm, rec) == Absent && FetchHeader(me, lm, rec) == Header(0, lm, NO_FLAGS.(automatic := true))
    ensures rec.Absent? ==> FetchHeader(me, lm, rec).dmaster == lm && !FetchHeader(me, lm, rec).flags.AnyRo()
  {
  }

  lemma FetchIdempotent(me: nat, lm: nat, rec: Rec)
    ensures EffData(FetchRec(me, lm, rec)) == EffData(rec)
    ensures EffDm(lm, FetchRec(me, lm, rec)) == EffDm(lm, rec)
    ensures FetchRec(me, lm, FetchRec(me, lm, rec)) == FetchRec(me, lm, rec)
    ensures FetchHeader(me, lm, FetchRec(me, lm, rec)) == FetchHeader(me, lm, rec)
  {
  }
}
