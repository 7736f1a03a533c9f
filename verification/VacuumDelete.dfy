/** Deleting empty copies on behalf of the lmaster: the records that may not be
    deleted are sent back. */
module VacuumDelete {
  import Protocol
  import opened PacketStream
  import opened Marshall
  import opened RecordHeader

  /** What the local database holds for a key. */
  datatype Stored = Corrupt | Good(h: Ltdb.Header)

  /** Whether the two non-blocking locks and the delete itself succeed. */
  datatype Luck = Luck(chainLock: bool, listLock: bool, deletes: bool)

  datatype Node = Node(pnn: nat, lmaster: Bytes -> nat)

  /** The reasons of delete_tdb_record to refuse, in its order. */
  predicate Refuses(n: Node, store: map<Bytes, Stored>, r: Rec, l: Luck) {
    || n.lmaster(r.key) == n.pnn
    || |r.body| != LTDB_HEADER
    || !l.chainLock
    || (r.key in store && store[r.key].Good?
        && (|| store[r.key].h.rsn > HeaderOf(r.body).rsn || HeaderOf(r.body).flags.AnyRo()
            || store[r.key].h.flags.AnyRo() || store[r.key].h.dmaster == n.pnn || !l.listLock || !l.deletes))
  }

  function After(n: Node, store: map<Bytes, Stored>, r: Rec, l: Luck): map<Bytes, Stored> {
    if Refuses(n, store, r, l) || !l.listLock || !l.deletes then store else store - {r.key}
  }

  /** Exactly when a record disappears, in terms of the header that was sent: it is
      the one named, this node is not its lmaster, the locks and the delete succeed,
      and what is stored is corrupt or a copy that is not newer, not this node's own
      and takes no part in read-only delegations, as the one sent does not either. */
  lemma DeletedExactly(n: Node, store: map<Bytes, Stored>, r: Rec, l: Luck, key: Bytes, h: Ltdb.Header, reserved: nat,
                       padding: nat)
    requires key in store && HeaderFits(h, reserved, padding) && r.body == HeaderBytes(h, reserved, padding)
    ensures key !in After(n, store, r, l) <==>
              && key == r.key && n.lmaster(key) != n.pnn && l == Luck(true, true, true)
              && (store[key].Good? ==>
                    && store[key].h.rsn <= h.rsn && store[key].h.dmaster != n.pnn
                    && !h.flags.AnyRo() && !store[key].h.flags.AnyRo())
  {
    HeaderReadBack(h, reserved, padding);
  }

  /** With a good record, these are the deletes the cluster protocol allows. */
  lemma DeletesAreAllowed(n: Node, store: map<Bytes, Stored>, r: Rec, l: Luck, h: Ltdb.Header, d: Ltdb.Data,
                          e: Protocol.Env)
    requires r.key in store && store[r.key].Good? && HeaderFits(h, 0, 0) && r.body == HeaderBytes(h, 0, 0)
    requires e.me == n.pnn && e.lm == n.lmaster(r.key)
    ensures r.key !in After(n, store, r, l) <==>
              && l == Luck(true, true, true)
              && Protocol.MayDelete(e, Protocol.NodeState(Ltdb.Present(store[r.key].h, d), {}, Protocol.Idle), h)
  {
    DeletedExactly(n, store, r, l, r.key, h, 0, 0);
  }

  /** Neither the lmaster's nor the owner's copy is ever removed, nor one that is
      newer or takes part in read-only delegations, nor any other record. */
  lemma MastersKept(n: Node, store: map<Bytes, Stored>, r: Rec, l: Luck, key: Bytes)
    requires key in store && key !in After(n, store, r, l)
    ensures key == r.key && n.lmaster(key) != n.pnn && |r.body| == LTDB_HEADER
    ensures store[key].Good? ==>
              && store[key].h.dmaster != n.pnn && !store[key].h.flags.AnyRo()
              && store[key].h.rsn <= HeaderOf(r.body).rsn && !HeaderOf(r.body).flags.AnyRo()
  {
  }

  /** After success the record is gone, except for a corrupt one that could not be
      deleted: that is reported as success too. */
  lemma SuccessMeansGone(n: Node, store: map<Bytes, Stored>, r: Rec, l: Luck)
    requires !Refuses(n, store, r, l)
    ensures r.key !in After(n, store, r, l)
            <==> !(r.key in store && store[r.key].Corrupt? && !(l.listLock && l.deletes))
  {
  }

  /** Success is told exactly when this node is not the lmaster, the record was a
      header, the chain was locked, and then the record is gone or was corrupt. */
  lemma SuccessExactly(n: Node, store: map<Bytes, Stored>, r: Rec, l: Luck)
    ensures !Refuses(n, store, r, l) <==>
              && n.lmaster(r.key) != n.pnn && |r.body| == LTDB_HEADER && l.chainLock
              && (r.key in After(n, store, r, l) ==> store[r.key].Corrupt?)
  {
  }

  // ---- the whole request

  ghost function Store(n: Node, store: map<Bytes, Stored>, rs: seq<Rec>, ls: seq<Luck>): map<Bytes, Stored>
    requires |ls| == |rs|
  {
    if rs == [] then store
    else
      var k := |rs| - 1;
      After(n, Store(n, store, rs[..k], ls[..k]), rs[k], ls[k])
  }

  /** The refused records, in the order they were sent. */
  ghost function Kept(n: Node, store: map<Bytes, Stored>, rs: seq<Rec>, ls: seq<Luck>): seq<Rec>
    requires |ls| == |rs|
  {
    if rs == [] then []
    else
      var k := |rs| - 1;
      var kept := Kept(n, store, rs[..k], ls[..k]);
      if Refuses(n, Store(n, store, rs[..k], ls[..k]), rs[k], ls[k]) then kept + [rs[k]] else kept
  }

  /** a is b with some records left out. */
  ghost predicate Subsequence(a: seq<Rec>, b: seq<Rec>)
    decreases |b|
  {
    if a == [] then true
    else if b == [] then false
    else
      var x, y := |a| - 1, |b| - 1;
      (a[x] == b[y] && Subsequence(a[..x], b[..y])) || Subsequence(a, b[..y])
  }

  lemma {:induction false} KeptIsSubsequence(n: Node, store: map<Bytes, Stored>, rs: seq<Rec>, ls: seq<Luck>)
    requires |ls| == |rs|
    ensures Subsequence(Kept(n, store, rs, ls), rs)
  {
    if rs != [] {
      var k := |rs| - 1;
      KeptIsSubsequence(n, store, rs[..k], ls[..k]);
      var kept := Kept(n, store, rs[..k], ls[..k]);
      assert (kept + [rs[k]])[..|kept|] == kept;
    }
  }

  /** Record i of the request is refused when its turn comes. */
  ghost predicate RefusedAt(n: Node, store: map<Bytes, Stored>, rs: seq<Rec>, ls: seq<Luck>, i: nat)
    requires |ls| == |rs| && i < |rs|
  {
    Refuses(n, Store(n, store, rs[..i], ls[..i]), rs[i], ls[i])
  }

  ghost predicate SomeRefused(n: Node, store: map<Bytes, Stored>, rs: seq<Rec>, ls: seq<Luck>, r: Rec)
    requires |ls| == |rs|
  {
    exists i | 0 <= i < |rs| :: rs[i] == r && RefusedAt(n, store, rs, ls, i)
  }

  lemma {:induction false} EarlierRefused(n: Node, store: map<Bytes, Stored>, rs: seq<Rec>, ls: seq<Luck>, k: nat,
                                          i: nat)
    requires |ls| == |rs| && i < k <= |rs|
    ensures RefusedAt(n, store, rs[..k], ls[..k], i) <==> RefusedAt(n, store, rs, ls, i)
  {
    assert rs[..k][..i] == rs[..i] && ls[..k][..i] == ls[..i];
  }

  lemma {:induction false} LastRefused(n: Node, store: map<Bytes, Stored>, rs: seq<Rec>, ls: seq<Luck>, r: Rec)
    requires |ls| == |rs| > 0
    ensures var k := |rs| - 1;
            SomeRefused(n, store, rs, ls, r)
            <==> SomeRefused(n, store, rs[..k], ls[..k], r) || (rs[k] == r && RefusedAt(n, store, rs, ls, k))
  {
    var k := |rs| - 1;
    forall i | 0 <= i < k ensures RefusedAt(n, store, rs[..k], ls[..k], i) <==> RefusedAt(n, store, rs, ls, i) {
      EarlierRefused(n, store, rs, ls, k, i);
    }
    if SomeRefused(n, store, rs[..k], ls[..k], r) {
      var i :| 0 <= i < k && rs[..k][i] == r && RefusedAt(n, store, rs[..k], ls[..k], i);
      assert rs[i] == r && RefusedAt(n, store, rs, ls, i);
    }
  }

  /** The reply has the records that were refused, and no others. */
  lemma {:induction false} KeptExactly(n: Node, store: map<Bytes, Stored>, rs: seq<Rec>, ls: seq<Luck>, r: Rec)
    requires |ls| == |rs|
    ensures r in Kept(n, store, rs, ls) <==> SomeRefused(n, store, rs, ls, r)
  {
    if rs != [] {
      var k := |rs| - 1;
      KeptExactly(n, store, rs[..k], ls[..k], r);
      Unfold(n, store, rs, ls);
      LastRefused(n, store, rs, ls, r);
    }
  }

  lemma {:induction false} StaysGone(n: Node, store: map<Bytes, Stored>, rs: seq<Rec>, ls: seq<Luck>, i: nat,
                                     key: Bytes)
    requires |ls| == |rs| && i <= |rs| && key !in Store(n, store, rs[..i], ls[..i])
    ensures key !in Store(n, store, rs, ls)
    decreases |rs|
  {
    if i == |rs| {
      assert rs[..i] == rs && ls[..i] == ls;
    } else {
      var k := |rs| - 1;
      assert rs[..k][..i] == rs[..i] && ls[..k][..i] == ls[..i];
      StaysGone(n, store, rs[..k], ls[..k], i, key);
    }
  }

  /** A record that the reply does not send back is gone after the request, or it was
      stored corrupt. */
  lemma UnkeptIsGone(n: Node, store: map<Bytes, Stored>, rs: seq<Rec>, ls: seq<Luck>, i: nat)
    requires |ls| == |rs| && i < |rs| && rs[i] !in Kept(n, store, rs, ls)
    ensures rs[i].key !in Store(n, store, rs, ls) || (rs[i].key in store && store[rs[i].key].Corrupt?)
  {
    var before, key := Store(n, store, rs[..i], ls[..i]), rs[i].key;
    KeptExactly(n, store, rs, ls, rs[i]);
    assert !RefusedAt(n, store, rs, ls, i);
    SuccessExactly(n, before, rs[i], ls[i]);
    if key in After(n, before, rs[i], ls[i]) {
      OnlyRemoved(n, store, rs[..i], ls[..i], key);
    } else {
      assert rs[..i + 1][..i] == rs[..i] && ls[..i + 1][..i] == ls[..i];
      StaysGone(n, store, rs, ls, i + 1, key);
    }
  }

  /** A record of the request for this key whose header is not older than what is
      stored and carries no read-only flag. */
  ghost predicate Names(r: Rec, key: Bytes, stored: Stored) {
    && r.key == key && |r.body| == LTDB_HEADER
    && (stored.Good? ==> stored.h.rsn <= HeaderOf(r.body).rsn && !HeaderOf(r.body).flags.AnyRo())
  }

  /** Over a whole request: a copy that disappears was named by it, and was neither
      newer nor the lmaster's nor the owner's. */
  lemma {:induction false} RequestKeepsMasters(n: Node, store: map<Bytes, Stored>, rs: seq<Rec>, ls: seq<Luck>,
                                               key: Bytes)
    requires |ls| == |rs| && key in store && key !in Store(n, store, rs, ls)
    ensures n.lmaster(key) != n.pnn && exists i :: 0 <= i < |rs| && Names(rs[i], key, store[key])
    ensures store[key].Good? ==> store[key].h.dmaster != n.pnn && !store[key].h.flags.AnyRo()
  {
    var k := |rs| - 1;
    var before := Store(n, store, rs[..k], ls[..k]);
    if key !in before {
      RequestKeepsMasters(n, store, rs[..k], ls[..k], key);
      var i :| 0 <= i < |rs[..k]| && Names(rs[..k][i], key, store[key]);
      assert Names(rs[i], key, store[key]);
    } else {
      OnlyRemoved(n, store, rs[..k], ls[..k], key);
      MastersKept(n, before, rs[k], ls[k], key);
      assert Names(rs[k], key, store[key]);
    }
  }

  /** A request stores nothing. */
  lemma {:induction false} OnlyRemoved(n: Node, store: map<Bytes, Stored>, rs: seq<Rec>, ls: seq<Luck>, key: Bytes)
    requires |ls| == |rs| && key in Store(n, store, rs, ls)
    ensures key in store && Store(n, store, rs, ls)[key] == store[key]
  {
    if rs != [] { OnlyRemoved(n, store, rs[..|rs| - 1], ls[..|rs| - 1], key); }
  }

  /** What has been done after i records of a request. */
  ghost predicate Done(n: Node, was: map<Bytes, Stored>, rs: seq<Rec>, ls: seq<Luck>, i: nat, now: map<Bytes, Stored>,
                       reply: Buffer)
    requires |ls| == |rs| && i <= |rs|
  {
    now == Store(n, was, rs[..i], ls[..i]) && Holds(reply, Kept(n, was, rs[..i], ls[..i]))
  }

  lemma OneMore(n: Node, was: map<Bytes, Stored>, rs: seq<Rec>, ls: seq<Luck>, i: nat, now: map<Bytes, Stored>,
                reply: Buffer)
    requires |ls| == |rs| && i < |rs| && Fits(rs[i]) && Done(n, was, rs, ls, i, now, reply)
    ensures Done(n, was, rs, ls, i + 1, After(n, now, rs[i], ls[i]),
                 if Refuses(n, now, rs[i], ls[i]) then Appended(reply, rs[i]) else reply)
  {
    Unfold(n, was, rs[..i + 1], ls[..i + 1]);
    assert rs[..i + 1][..i] == rs[..i] && ls[..i + 1][..i] == ls[..i];
    AppendHolds(reply, Kept(n, was, rs[..i], ls[..i]), rs[i]);
  }

  lemma Unfold(n: Node, was: map<Bytes, Stored>, rs: seq<Rec>, ls: seq<Luck>)
    requires |ls| == |rs| > 0
    ensures var k := |rs| - 1; var before := Store(n, was, rs[..k], ls[..k]);
            && Store(n, was, rs, ls) == After(n, before, rs[k], ls[k])
            && Kept(n, was, rs, ls)
               == Kept(n, was, rs[..k], ls[..k]) + if Refuses(n, before, rs[k], ls[k]) then [rs[k]] else []
  {
  }

  /** Every record has room for a header. */
  ghost predicate AllLong(rs: seq<Rec>) { forall i | 0 <= i < |rs| :: |rs[i].body| >= LTDB_HEADER }

  lemma LongMore(rs: seq<Rec>, i: nat)
    requires i < |rs| && AllLong(rs[..i]) && |rs[i].body| >= LTDB_HEADER
    ensures AllLong(rs[..i + 1])
  {
    assert rs[..i + 1] == rs[..i] + [rs[i]];
  }

  class Vacuum {
    const node: Node
    var store: map<Bytes, Stored>

    constructor (node: Node, store: map<Bytes, Stored>)
      ensures this.node == node && this.store == store
    {
      this.node, this.store := node, store;
    }

    /** delete_tdb_record */
    method DeleteTdbRecord(r: Rec, l: Luck) returns (ok: bool)
      modifies this`store
      ensures ok == !Refuses(node, old(store), r, l) && store == After(node, old(store), r, l)
    {
      if node.lmaster(r.key) == node.pnn {
        return false;
      }
      if |r.body| != LTDB_HEADER {
        return false;
      }
      if !l.chainLock {
        return false;
      }
      if r.key !in store {
        assert store - {r.key} == store;
        return true;
      }
      var stored := store[r.key];
      if stored.Corrupt? {
        if l.listLock {
          if l.deletes {
            store := store - {r.key};
          }
        }
        return true;
      }
      var sent := HeaderOf(r.body);
      if stored.h.rsn > sent.rsn {
        return false;
      }
      if sent.flags.AnyRo() {
        return false;
      }
      if stored.h.flags.AnyRo() {
        return false;
      }
      if stored.h.dmaster == node.pnn {
        return false;
      }
      if !l.listLock {
        return false;
      }
      if !l.deletes {
        return false;
      }
      store := store - {r.key};
      return true;
    }

    /** One record: if it cannot be deleted it goes into the reply as it came. */
    method TryOne(r: Rec, l: Luck, records: Buffer) returns (reply: Buffer)
      requires Fits(r)
      modifies this`store
      ensures store == After(node, old(store), r, l)
      ensures reply == if Refuses(node, old(store), r, l) then Appended(records, r) else records
    {
      var deleted := DeleteTdbRecord(r, l);
      reply := records;
      if !deleted {
        reply := Appended(records, r);
      }
    }

    /** ctdb_control_try_delete_records, with the outcome of the locks and deletes
        for each record. A record too short for a header ends the request. */
    method TryDeleteRecords(m: Buffer, ls: seq<Luck>, ghost rs: seq<Rec>) returns (reply: Option<Buffer>)
      requires Holds(m, rs) && |ls| == |rs|
      modifies this`store
      ensures reply.Some? <==> AllLong(rs)
      ensures reply.Some? ==>
                && reply.value.dbId == m.dbId
                && Holds(reply.value, Kept(node, old(store), rs, ls)) && store == Store(node, old(store), rs, ls)
      ensures reply.None? ==>
                exists k ::
                  && 0 <= k < |rs| && |rs[k].body| < LTDB_HEADER
                  && store == Store(node, old(store), rs[..k], ls[..k])
    {
      var records := Buffer(m.dbId, 0, []);
      var at := 0;
      for i := 0 to m.count
        invariant at == |EncodeAll(rs[..i])| && AllLong(rs[..i])
        invariant records.dbId == m.dbId && Done(node, old(store), rs, ls, i, store, records)
      {
        var r;
        r, at := LoopNext(m.data, at, rs, i);
        if |r.body| < LTDB_HEADER {
          return None;
        }
        LongMore(rs, i);
        OneMore(node, old(store), rs, ls, i, store, records);
        records := TryOne(r, ls[i], records);
      }
      assert rs[..m.count] == rs && ls[..m.count] == ls;
      return Some(records);
    }
  }

  function Appended(m: Buffer, r: Rec): Buffer
    requires Fits(r)
  {
    m.(count := m.count + 1, data := m.data + Encode(r))
  }

  lemma AppendHolds(m: Buffer, rs: seq<Rec>, r: Rec)
    requires Holds(m, rs) && Fits(r)
    ensures Holds(Appended(m, r), rs + [r])
  {
    AddHolds(m, rs, m.dbId, r.reqid, r.key, None, r.body);
    assert Rec(r.reqid, r.key, Body(None, r.body)) == r;
  }
}
