/** Records in one buffer: four 32-bit words (length, request id, key length, data
    length), the key, and the data, which may begin with a record header. */
module Marshall {
  import opened PacketStream
  import opened RecordHeader

  const REC_HEADER := 16
  const LIMIT := 0x1_0000_0000

  /** body: the header, if there is one, and the data. */
  datatype Rec = Rec(reqid: nat, key: Bytes, body: Bytes)

  datatype Option<T> = None | Some(value: T)

  predicate Fits(r: Rec) {
    r.reqid < LIMIT && REC_HEADER + |r.key| + |r.body| < LIMIT
  }

  function Body(header: Option<Bytes>, data: Bytes): Bytes {
    match header case None => data case Some(h) => h + data
  }

  /** ctdb_marshall_record */
  function Encode(r: Rec): (b: Bytes)
    requires Fits(r)
    ensures |b| == REC_HEADER + |r.key| + |r.body|
  {
    SizeWord(REC_HEADER + |r.key| + |r.body|) + SizeWord(r.reqid) + SizeWord(|r.key|) + SizeWord(|r.body|)
    + r.key + r.body
  }

  /** The word at a place of the buffer. */
  function WordAt(b: Bytes, at: nat): nat
    requires at + WORD <= |b|
  {
    Size(b[at..at + WORD])
  }

  datatype Next = Next(rec: Rec, at: nat) | PastEnd

  /** ctdb_marshall_loop_next: the record at a place and the place of the next;
      PastEnd is where the program would read outside the buffer. */
  function ReadRec(b: Bytes, at: nat): Next {
    if at + REC_HEADER > |b| then PastEnd
    else
      var length, reqid, keylen, datalen := WordAt(b, at), WordAt(b, at + 4), WordAt(b, at + 8), WordAt(b, at + 12);
      var k := at + REC_HEADER;
      if k + keylen + datalen > |b| then PastEnd
      else Next(Rec(reqid, b[k..k + keylen], b[k + keylen..k + keylen + datalen]), at + length)
  }

  predicate AllFit(rs: seq<Rec>) { forall i | 0 <= i < |rs| :: Fits(rs[i]) }

  function EncodeAll(rs: seq<Rec>): Bytes
    requires AllFit(rs)
  {
    if rs == [] then [] else EncodeAll(rs[..|rs| - 1]) + Encode(rs[|rs| - 1])
  }

  /** Words written one after the other are read back. */
  lemma FourWords(a: nat, b: nat, c: nat, d: nat, pre: Bytes, post: Bytes)
    requires a < LIMIT && b < LIMIT && c < LIMIT && d < LIMIT
    ensures var s := pre + (SizeWord(a) + SizeWord(b) + SizeWord(c) + SizeWord(d)) + post;
            && |pre| + REC_HEADER <= |s|
            && WordAt(s, |pre|) == a && WordAt(s, |pre| + 4) == b && WordAt(s, |pre| + 8) == c
            && WordAt(s, |pre| + 12) == d
  {
    var s, n := pre + (SizeWord(a) + SizeWord(b) + SizeWord(c) + SizeWord(d)) + post, |pre|;
    assert s[n..n + 4] == SizeWord(a);
    assert s[n + 4..n + 8] == SizeWord(b);
    assert s[n + 8..n + 12] == SizeWord(c);
    assert s[n + 12..n + 16] == SizeWord(d);
  }

  /** Where everything is: length, request id, key length and data length, a word each,
      then the key and the data. */
  lemma EncodeLayout(r: Rec)
    requires Fits(r)
    ensures var b := Encode(r);
            && WordAt(b, 0) == |b| && WordAt(b, 4) == r.reqid && WordAt(b, 8) == |r.key| && WordAt(b, 12) == |r.body|
            && b[REC_HEADER..REC_HEADER + |r.key|] == r.key && b[REC_HEADER + |r.key|..] == r.body
  {
    var words := SizeWord(REC_HEADER + |r.key| + |r.body|) + SizeWord(r.reqid) + SizeWord(|r.key|) + SizeWord(|r.body|);
    Parts(words, r.key, r.body);
    FourWords(REC_HEADER + |r.key| + |r.body|, r.reqid, |r.key|, |r.body|, [], []);
    SameWords([] + words + [], Encode(r));
  }

  lemma Parts(words: Bytes, key: Bytes, body: Bytes)
    ensures var b := words + key + body;
            && words <= b && b[|words|..|words| + |key|] == key && b[|words| + |key|..] == body
  {
  }

  lemma SameWords(a: Bytes, b: Bytes)
    requires |a| >= REC_HEADER && a <= b
    ensures WordAt(a, 0) == WordAt(b, 0) && WordAt(a, 4) == WordAt(b, 4)
    ensures WordAt(a, 8) == WordAt(b, 8) && WordAt(a, 12) == WordAt(b, 12)
  {
  }

  /** A record is read back from wherever it was put. */
  lemma ReadBackRec(pre: Bytes, r: Rec, post: Bytes)
    requires Fits(r)
    ensures ReadRec(pre + Encode(r) + post, |pre|) == Next(r, |pre| + |Encode(r)|)
  {
    var s := pre + Encode(r) + post;
    var words := SizeWord(REC_HEADER + |r.key| + |r.body|) + SizeWord(r.reqid) + SizeWord(|r.key|) + SizeWord(|r.body|);
    assert Encode(r) == words + r.key + r.body;
    Regroup(pre, words, r.key, r.body, post);
    FourWords(REC_HEADER + |r.key| + |r.body|, r.reqid, |r.key|, |r.body|, pre, r.key + r.body + post);
    ReadParts(s, |pre|, r);
  }

  lemma ReadParts(s: Bytes, at: nat, r: Rec)
    requires at + REC_HEADER + |r.key| + |r.body| <= |s|
    requires WordAt(s, at) == REC_HEADER + |r.key| + |r.body| && WordAt(s, at + 4) == r.reqid
    requires WordAt(s, at + 8) == |r.key| && WordAt(s, at + 12) == |r.body|
    requires s[at + REC_HEADER..at + REC_HEADER + |r.key|] == r.key
    requires s[at + REC_HEADER + |r.key|..at + REC_HEADER + |r.key| + |r.body|] == r.body
    ensures ReadRec(s, at) == Next(r, at + REC_HEADER + |r.key| + |r.body|)
  {
  }

  lemma Regroup(pre: Bytes, words: Bytes, key: Bytes, body: Bytes, post: Bytes)
    ensures var s := pre + (words + key + body) + post; var k := |pre| + |words|;
            && s == pre + words + (key + body + post)
            && s[k..k + |key|] == key && s[k + |key|..k + |key| + |body|] == body
  {
  }

  // ---- the buffer

  datatype Buffer = Buffer(dbId: nat, count: nat, data: Bytes)

  /** ctdb_marshall_add; None is the buffer that does not exist yet. */
  function Add(m: Option<Buffer>, dbId: nat, reqid: nat, key: Bytes, header: Option<Bytes>, data: Bytes): Buffer
    requires Fits(Rec(reqid, key, Body(header, data)))
  {
    var b := match m case None => Buffer(dbId, 0, []) case Some(b) => b;
    Buffer(b.dbId, b.count + 1, b.data + Encode(Rec(reqid, key, Body(header, data))))
  }

  /** The buffer holds exactly these records. */
  ghost predicate Holds(m: Buffer, rs: seq<Rec>) {
    AllFit(rs) && m.count == |rs| && m.data == EncodeAll(rs)
  }

  lemma AddHolds(m: Buffer, rs: seq<Rec>, dbId: nat, reqid: nat, key: Bytes, header: Option<Bytes>, data: Bytes)
    requires Holds(m, rs) && Fits(Rec(reqid, key, Body(header, data)))
    ensures Holds(Add(Some(m), dbId, reqid, key, header, data), rs + [Rec(reqid, key, Body(header, data))])
  {
    var r := Rec(reqid, key, Body(header, data));
    assert (rs + [r])[..|rs + [r]| - 1] == rs;
  }

  datatype Item = Item(reqid: nat, key: Bytes, header: Option<Bytes>, data: Bytes)

  function RecOf(i: Item): Rec { Rec(i.reqid, i.key, Body(i.header, i.data)) }

  function Recs(items: seq<Item>): (rs: seq<Rec>)
    ensures |rs| == |items| && forall i | 0 <= i < |rs| :: rs[i] == RecOf(items[i])
  {
    seq(|items|, i requires 0 <= i < |items| => RecOf(items[i]))
  }

  /** A buffer made by any sequence of adds. */
  function AddAll(dbId: nat, items: seq<Item>): Option<Buffer>
    requires AllFit(Recs(items))
  {
    if items == [] then None
    else
      var i := items[|items| - 1];
      assert Recs(items)[|items| - 1] == RecOf(i);
      var rest := items[..|items| - 1];
      assert forall k | 0 <= k < |rest| :: Recs(rest)[k] == Recs(items)[k];
      Some(Add(AddAll(dbId, rest), dbId, i.reqid, i.key, i.header, i.data))
  }

  lemma {:induction false} AddAllHolds(dbId: nat, items: seq<Item>)
    requires AllFit(Recs(items)) && items != []
    ensures var m := AddAll(dbId, items); m.Some? && m.value.dbId == dbId && Holds(m.value, Recs(items))
  {
    var i, rest := items[|items| - 1], items[..|items| - 1];
    assert Recs(items)[|items| - 1] == RecOf(i);
    assert forall k | 0 <= k < |rest| :: Recs(rest)[k] == Recs(items)[k];
    assert Recs(items) == Recs(rest) + [RecOf(i)];
    if rest == [] {
      AddHolds(Buffer(dbId, 0, []), [], dbId, i.reqid, i.key, i.header, i.data);
    } else {
      AddAllHolds(dbId, rest);
      AddHolds(AddAll(dbId, rest).value, Recs(rest), dbId, i.reqid, i.key, i.header, i.data);
    }
  }

  lemma {:induction false} EncodeAllAt(rs: seq<Rec>, i: nat)
    requires AllFit(rs) && i < |rs|
    ensures EncodeAll(rs[..i + 1]) <= EncodeAll(rs)
    ensures EncodeAll(rs[..i + 1]) == EncodeAll(rs[..i]) + Encode(rs[i])
    decreases |rs|
  {
    var p := rs[..i + 1];
    assert p[..|p| - 1] == rs[..i] && p[|p| - 1] == rs[i];
    if i + 1 < |rs| {
      var q := rs[..|rs| - 1];
      EncodeAllAt(q, i);
      assert q[..i + 1] == p;
    } else {
      assert p == rs;
    }
  }

  lemma NextRec(data: Bytes, rs: seq<Rec>, i: nat)
    requires AllFit(rs) && data == EncodeAll(rs) && i < |rs|
    ensures ReadRec(data, |EncodeAll(rs[..i])|) == Next(rs[i], |EncodeAll(rs[..i + 1])|)
  {
    EncodeAllAt(rs, i);
    var pre, all := EncodeAll(rs[..i]), EncodeAll(rs[..i + 1]);
    var post := data[|all|..];
    assert data == all + post;
    ReadBackRec(pre, rs[i], post);
  }

  /** One round of a loop over a buffer. */
  method LoopNext(data: Bytes, at: nat, ghost rs: seq<Rec>, ghost i: nat) returns (r: Rec, next: nat)
    requires AllFit(rs) && data == EncodeAll(rs) && i < |rs| && at == |EncodeAll(rs[..i])|
    ensures r == rs[i] && next == |EncodeAll(rs[..i + 1])|
  {
    NextRec(data, rs, i);
    var n := ReadRec(data, at);
    return n.rec, n.at;
  }

  /** Looping count times gives back the records, in order. */
  method Loop(m: Buffer, ghost rs: seq<Rec>) returns (out: seq<Rec>)
    requires Holds(m, rs)
    ensures out == rs
  {
    out := [];
    var at := 0;
    for i := 0 to m.count
      invariant out == rs[..i] && at == |EncodeAll(rs[..i])|
    {
      var r;
      r, at := LoopNext(m.data, at, rs, i);
      out := out + [r];
    }
  }

  /** The caller's view of a record when it asks for the header: none if the data
      is too short for one. */
  function Headed(r: Rec): Option<(Bytes, Bytes)> {
    if |r.body| < LTDB_HEADER then None else Some((r.body[..LTDB_HEADER], r.body[LTDB_HEADER..]))
  }

  /** A header that was put in comes out again, and so does the data. */
  lemma HeaderComesBack(reqid: nat, key: Bytes, h: Bytes, data: Bytes)
    requires |h| == LTDB_HEADER
    ensures Headed(Rec(reqid, key, Body(Some(h), data))) == Some((h, data))
  {
    assert (h + data)[..LTDB_HEADER] == h && (h + data)[LTDB_HEADER..] == data;
  }
}
