/** What every send and every completion keeps: no message overtakes another, the
    credit is never exceeded, and a slot is busy as long as one of its fragments
    is posted or waits. */
module IbSendInv {
  import opened PacketStream
  import opened IbSend

  /** The bytes of ref fragments, all full but the last. */
  function Len(ref: nat, rlen: nat, bufsize: nat): nat {
    if ref == 0 then 0 else if ref == 1 then rlen else bufsize + Len(ref - 1, rlen, bufsize)
  }

  lemma {:induction false} LenGrow(ref: nat, rlen: nat, bufsize: nat)
    ensures Len(ref + 1, rlen, bufsize) == Len(ref, bufsize, bufsize) + rlen
  {
    if ref > 1 { LenGrow(ref - 1, rlen, bufsize); }
  }

  ghost function Waiting(x: Slot, bufsize: nat): Bytes {
    var end := x.queuedAt + Len(x.queuedRef, x.queuedRlen, bufsize);
    if end <= |x.msg| then x.msg[x.queuedAt..end] else []
  }

  /** All bytes that wait, in the order of the queue. */
  ghost function Queued(slots: map<nat, Slot>, q: seq<nat>, bufsize: nat): Bytes {
    if q == [] then []
    else (if q[0] in slots then Waiting(slots[q[0]], bufsize) else []) + Queued(slots, q[1..], bufsize)
  }

  ghost function Posted(posts: seq<Frag>): Bytes {
    if posts == [] then [] else Posted(posts[..|posts| - 1]) + posts[|posts| - 1].bytes
  }

  ghost predicate ListAt(s: Sender, id: nat) {
    && (id in s.slots <==> id < s.max + s.extraMax)
    && (id in s.avail || id in s.used <==> id < s.max) && !(id in s.avail && id in s.used)
    && (id in s.extraAvail || id in s.extraSent <==> s.max <= id < s.max + s.extraMax)
    && !(id in s.extraAvail && id in s.extraSent)
    && (id in s.handed ==> id in s.used || id in s.extraSent)
  }

  /** Every slot is in exactly one list. */
  ghost predicate Lists(s: Sender) {
    s.max > 0 && s.bufsize > 0 && forall id {:trigger ListAt(s, id)} :: ListAt(s, id)
  }

  lemma SameLists(s: Sender, t: Sender)
    requires Lists(s) && t.max == s.max && t.bufsize == s.bufsize && t.slots.Keys == s.slots.Keys
             && t.extraMax == s.extraMax
    requires t.avail == s.avail && t.used == s.used && t.extraAvail == s.extraAvail && t.extraSent == s.extraSent
    requires t.handed <= s.handed
    ensures Lists(t)
  {
    forall id: nat ensures ListAt(t, id) { assert ListAt(s, id); }
  }

  ghost predicate Busy(s: Sender, id: nat) { (id in s.used || id in s.extraSent) && id !in s.handed }

  /** Fragments of the slot that are posted or wait. */
  ghost function Pending(s: Sender, id: nat): nat
    requires id in s.slots
  {
    s.inflight[id] + s.slots[id].queuedRef
  }

  ghost predicate SlotOk(s: Sender, id: nat)
    requires id in s.slots
  {
    var x := s.slots[id];
    && (Busy(s, id) ==> Pending(s, id) == x.refCnt + 1 && (x.refCnt > 0 ==> x.large))
    && (!Busy(s, id) ==> Pending(s, id) == 0 && x.refCnt == 0)
    && (id in s.extraSent ==> x.large) && (id in s.avail || id in s.extraAvail ==> !x.large)
    && (x.queuedRef > 0 ==> 0 < x.queuedRlen <= s.bufsize
                            && x.queuedAt + Len(x.queuedRef, x.queuedRlen, s.bufsize) == |x.msg|)
  }

  /** The slot whose message is being sent: the bytes before at have been posted
      or wait, and lag says whether the last of them is counted already. */
  ghost predicate MidOk(s: Sender, id: nat, at: nat, lag: nat)
    requires id in s.slots
  {
    var x := s.slots[id];
    && Busy(s, id) && Pending(s, id) == x.refCnt + lag && at <= |x.msg|
    && (x.refCnt > 0 ==> x.large) && (id in s.extraSent ==> x.large)
    && (x.queuedRef > 0 ==>
          && 0 < x.queuedRlen <= s.bufsize && (at < |x.msg| ==> x.queuedRlen == s.bufsize)
          && x.queuedAt + Len(x.queuedRef, x.queuedRlen, s.bufsize) == at
          && s.queue != [] && s.queue[|s.queue| - 1] == id)
  }

  ghost predicate Credit(s: Sender) {
    s.wrSent == |s.inflight| <= s.max && (s.queue != [] ==> s.wrSent == s.max)
  }

  ghost predicate QueueAt(s: Sender, id: nat) {
    && (id in s.queue <==> id in s.slots && s.slots[id].queuedRef > 0)
    && (id in s.inflight ==> id in s.slots)
  }

  /** The queue holds, once each, the slots with waiting fragments. */
  ghost predicate QueueOk(s: Sender) {
    Once(s.queue) && forall id {:trigger QueueAt(s, id)} :: QueueAt(s, id)
  }

  ghost predicate Once(q: seq<nat>) {
    q != [] ==> q[0] !in q[1..] && Once(q[1..])
  }

  lemma {:induction false} OnceLast(q: seq<nat>)
    requires Once(q) && q != []
    ensures q[|q| - 1] !in q[..|q| - 1]
  {
    if |q| > 1 {
      OnceLast(q[1..]);
      assert q[..|q| - 1] == [q[0]] + q[1..][..|q| - 2];
    }
  }

  lemma {:induction false} OnceAdd(q: seq<nat>, id: nat)
    requires Once(q) && id !in q
    ensures Once(q + [id])
  {
    if q != [] {
      OnceAdd(q[1..], id);
      assert (q + [id])[1..] == q[1..] + [id];
    }
  }

  ghost predicate FragsOk(s: Sender) { forall f <- s.posts :: 0 < |f.bytes| <= s.bufsize }

  ghost predicate Stream(s: Sender, rest: Bytes) {
    Posted(s.posts) + Queued(s.slots, s.queue, s.bufsize) + rest == Flatten(s.messages)
  }

  ghost predicate Inv(s: Sender) {
    && Lists(s) && Credit(s) && QueueOk(s) && FragsOk(s) && Stream(s, [])
    && forall id {:trigger SlotOk(s, id)} :: id in s.slots ==> SlotOk(s, id)
  }

  ghost predicate Mid(s: Sender, id: nat, at: nat, lag: nat) {
    && Lists(s) && Credit(s) && QueueOk(s) && FragsOk(s)
    && id in s.slots && MidOk(s, id, at, lag) && Stream(s, s.slots[id].msg[at..])
    && forall k {:trigger SlotOk(s, k)} :: k in s.slots && k != id ==> SlotOk(s, k)
  }

  // ---- queue bookkeeping

  lemma {:induction false} QueuedFrame(a: map<nat, Slot>, b: map<nat, Slot>, q: seq<nat>, bufsize: nat)
    requires forall id <- q ::
               (id in a <==> id in b) && (id in a ==> Waiting(a[id], bufsize) == Waiting(b[id], bufsize))
    ensures Queued(a, q, bufsize) == Queued(b, q, bufsize)
  {
    if q != [] { QueuedFrame(a, b, q[1..], bufsize); }
  }

  lemma {:induction false} QueuedLast(slots: map<nat, Slot>, q: seq<nat>, id: nat, bufsize: nat)
    requires id in slots
    ensures Queued(slots, q + [id], bufsize) == Queued(slots, q, bufsize) + Waiting(slots[id], bufsize)
  {
    if q == [] {
      assert q + [id] == [id];
      assert Queued(slots, [id][1..], bufsize) == [];
    } else {
      QueuedLast(slots, q[1..], id, bufsize);
      assert (q + [id])[1..] == q[1..] + [id];
      assert (q + [id])[0] == q[0];
      var w := if q[0] in slots then Waiting(slots[q[0]], bufsize) else [];
      Assoc(w, Queued(slots, q[1..], bufsize), Waiting(slots[id], bufsize));
    }
  }

  lemma Assoc(a: Bytes, b: Bytes, c: Bytes)
    ensures (a + b) + c == a + (b + c)
  {
  }

  lemma PostedAdd(posts: seq<Frag>, f: Frag)
    ensures Posted(posts + [f]) == Posted(posts) + f.bytes
  {
    assert (posts + [f])[..|posts + [f]| - 1] == posts;
  }

  // ---- one fragment of a message

  lemma Cut(msg: Bytes, at: nat, len: nat)
    requires at + len <= |msg|
    ensures msg[at..at + len] + msg[at + len..] == msg[at..]
  {
  }

  lemma PostMid(s: Sender, id: nat, at: nat, len: nat)
    requires Mid(s, id, at, 0) && s.wrSent < s.max && 0 < len <= s.bufsize && at + len <= |s.slots[id].msg|
    ensures Mid(Post(s, id, s.slots[id].msg[at..at + len]), id, at + len, 1)
  {
    var bytes := s.slots[id].msg[at..at + len];
    var t := Post(s, id, bytes);
    PostedAdd(s.posts, Frag(id, bytes));
    Cut(s.slots[id].msg, at, len);
    assert s.queue == [];
    assert Posted(s.posts) + [] == Posted(s.posts) && Posted(t.posts) + [] == Posted(t.posts);
    Assoc(Posted(s.posts), bytes, s.slots[id].msg[at + len..]);
    SameLists(s, t);
    forall k: nat ensures QueueAt(t, k) { assert QueueAt(s, k); }
    forall k | k in t.slots && k != id ensures SlotOk(t, k) { assert SlotOk(s, k); }
  }

  lemma FirstWaits(s: Sender, id: nat, at: nat, len: nat)
    requires Mid(s, id, at, 0) && 0 < len <= s.bufsize && at + len <= |s.slots[id].msg| && s.slots[id].queuedRef == 0
    ensures var t := Enqueue(s, id, at, len);
            && t.slots[id].queuedAt + Len(t.slots[id].queuedRef, len, s.bufsize) == at + len
            && Queued(t.slots, t.queue, s.bufsize)
               == Queued(s.slots, s.queue, s.bufsize) + s.slots[id].msg[at..at + len]
  {
    var t := Enqueue(s, id, at, len);
    assert QueueAt(s, id);
    QueuedFrame(s.slots, t.slots, s.queue, s.bufsize);
    QueuedLast(t.slots, s.queue, id, s.bufsize);
  }

  lemma MoreWaits(s: Sender, id: nat, at: nat, len: nat)
    requires Mid(s, id, at, 0) && 0 < len <= s.bufsize && at + len <= |s.slots[id].msg| && s.slots[id].queuedRef > 0
    ensures var t := Enqueue(s, id, at, len);
            && t.slots[id].queuedAt + Len(t.slots[id].queuedRef, len, s.bufsize) == at + len
            && Queued(t.slots, t.queue, s.bufsize)
               == Queued(s.slots, s.queue, s.bufsize) + s.slots[id].msg[at..at + len]
  {
    var t, x := Enqueue(s, id, at, len), s.slots[id];
    var q := s.queue[..|s.queue| - 1];
    LenGrow(x.queuedRef, len, s.bufsize);
    assert s.queue == q + [id];
    OnceLast(s.queue);
    QueuedFrame(s.slots, t.slots, q, s.bufsize);
    QueuedLast(t.slots, q, id, s.bufsize);
    QueuedLast(s.slots, q, id, s.bufsize);
    assert Waiting(t.slots[id], s.bufsize) == Waiting(x, s.bufsize) + x.msg[at..at + len];
    Assoc(Queued(s.slots, q, s.bufsize), Waiting(x, s.bufsize), x.msg[at..at + len]);
  }

  lemma EnqueueMid(s: Sender, id: nat, at: nat, len: nat)
    requires Mid(s, id, at, 0) && s.wrSent == s.max && 0 < len <= s.bufsize && at + len <= |s.slots[id].msg|
    requires at + len < |s.slots[id].msg| ==> len == s.bufsize
    ensures Mid(Enqueue(s, id, at, len), id, at + len, 1)
  {
    var t, msg := Enqueue(s, id, at, len), s.slots[id].msg;
    if s.slots[id].queuedRef == 0 { FirstWaits(s, id, at, len); } else { MoreWaits(s, id, at, len); }
    Cut(msg, at, len);
    var p, q := Posted(s.posts), Queued(s.slots, s.queue, s.bufsize);
    Assoc(p, q, msg[at..at + len]);
    Assoc(p + q, msg[at..at + len], msg[at + len..]);
    EnqueueRest(s, id, at, len);
  }

  lemma EnqueueRest(s: Sender, id: nat, at: nat, len: nat)
    requires Mid(s, id, at, 0)
    ensures var t := Enqueue(s, id, at, len);
            Lists(t) && QueueOk(t) && forall k {:trigger SlotOk(t, k)} :: k in t.slots && k != id ==> SlotOk(t, k)
  {
    var t := Enqueue(s, id, at, len);
    SameLists(s, t);
    assert QueueAt(s, id);
    if s.slots[id].queuedRef == 0 { OnceAdd(s.queue, id); }
    forall k: nat ensures QueueAt(t, k) { assert QueueAt(s, k); }
    forall k | k in t.slots && k != id ensures SlotOk(t, k) { assert SlotOk(s, k); }
  }

  lemma SendPacketMid(s: Sender, id: nat, at: nat, len: nat)
    requires Mid(s, id, at, 0) && 0 < len <= s.bufsize && at + len <= |s.slots[id].msg|
    requires at + len < |s.slots[id].msg| ==> len == s.bufsize
    ensures Mid(SendPacket(s, id, at, len), id, at + len, 1)
  {
    if s.wrSent < s.max { PostMid(s, id, at, len); } else { EnqueueMid(s, id, at, len); }
  }

  lemma AddRefMid(s: Sender, id: nat, at: nat, lag: nat, n: int)
    requires Mid(s, id, at, lag) && lag - n >= 0 && s.slots[id].refCnt + n >= 0 && (n > 0 ==> s.slots[id].large)
    ensures Mid(AddRef(s, id, n), id, at, lag - n)
  {
    var t := AddRef(s, id, n);
    QueuedFrame(s.slots, t.slots, s.queue, s.bufsize);
    SameLists(s, t);
    forall k: nat ensures QueueAt(t, k) { assert QueueAt(s, k); }
    forall k | k in t.slots && k != id ensures SlotOk(t, k) { assert SlotOk(s, k); }
  }

  // An ensures clause of the form Mid(...) == true keeps the predicate whole for the verifier.

  lemma {:induction false} SendFragsMid(s: Sender, id: nat, at: nat) returns (t: Sender)
    requires Mid(s, id, at, 0) && at < |s.slots[id].msg| && s.slots[id].large
    ensures t == SendFrags(s, id, at) && Mid(t, id, |s.slots[id].msg|, 0) == true && t.slots[id].msg == s.slots[id].msg
    decreases |s.slots[id].msg| - at, 1
  {
    var rlen := |s.slots[id].msg| - at;
    if rlen > s.bufsize {
      t := SendMoreFragsMid(s, id, at);
    } else {
      FragsLast(s, id, at);
      t := FragMid(s, id, at, rlen);
    }
  }

  lemma {:induction false} SendMoreFragsMid(s: Sender, id: nat, at: nat) returns (t: Sender)
    requires Mid(s, id, at, 0) && |s.slots[id].msg| - at > s.bufsize && s.slots[id].large
    ensures t == SendFrags(s, id, at) && Mid(t, id, |s.slots[id].msg|, 0) == true && t.slots[id].msg == s.slots[id].msg
    decreases |s.slots[id].msg| - at, 0
  {
    var u := NextFragMid(s, id, at);
    t := SendFragsMid(u, id, at + s.bufsize);
  }

  lemma NextFragMid(s: Sender, id: nat, at: nat) returns (u: Sender)
    requires Mid(s, id, at, 0) && |s.slots[id].msg| - at > s.bufsize && s.slots[id].large
    ensures Mid(u, id, at + s.bufsize, 0) == true && u.slots[id].large
    ensures u.slots[id].msg == s.slots[id].msg && u.bufsize == s.bufsize > 0
    ensures SendFrags(s, id, at) == SendFrags(u, id, at + s.bufsize)
  {
    FragsStep(s, id, at);
    u := FragMid(s, id, at, s.bufsize);
  }

  lemma FragsStep(s: Sender, id: nat, at: nat)
    requires id in s.slots && s.bufsize > 0 && |s.slots[id].msg| - at > s.bufsize
    ensures SendFrags(s, id, at) == SendFrags(AddRef(SendPacket(s, id, at, s.bufsize), id, 1), id, at + s.bufsize)
  {
  }

  lemma FragsLast(s: Sender, id: nat, at: nat)
    requires id in s.slots && s.bufsize > 0 && 0 < |s.slots[id].msg| - at <= s.bufsize
    ensures SendFrags(s, id, at) == AddRef(SendPacket(s, id, at, |s.slots[id].msg| - at), id, 1)
  {
  }

  lemma FragMid(s: Sender, id: nat, at: nat, len: nat) returns (t: Sender)
    requires Mid(s, id, at, 0) && 0 < len <= s.bufsize && at + len <= |s.slots[id].msg| && s.slots[id].large
    requires at + len < |s.slots[id].msg| ==> len == s.bufsize
    ensures t == AddRef(SendPacket(s, id, at, len), id, 1) && Mid(t, id, at + len, 0) == true
    ensures t.slots[id].msg == s.slots[id].msg && t.slots[id].large && t.bufsize == s.bufsize
  {
    if s.wrSent < s.max {
      PostMid(s, id, at, len);
      t := CountedMid(s, Post(s, id, s.slots[id].msg[at..at + len]), id, at + len);
    } else {
      EnqueueMid(s, id, at, len);
      t := CountedMid(s, Enqueue(s, id, at, len), id, at + len);
    }
  }

  lemma CountedMid(s: Sender, u: Sender, id: nat, at: nat) returns (t: Sender)
    requires Mid(u, id, at, 1) == true && id in s.slots && u.slots[id].msg == s.slots[id].msg && u.slots[id].large
             && u.bufsize == s.bufsize
    ensures t == AddRef(u, id, 1) && Mid(t, id, at, 0) == true
    ensures t.slots[id].msg == s.slots[id].msg && t.slots[id].large && t.bufsize == s.bufsize
  {
    AddRefMid(u, id, at, 1, 1);
    t := AddRef(u, id, 1);
  }

  lemma MidDone(s: Sender, id: nat, at: nat)
    requires Mid(s, id, at, 1) && at == |s.slots[id].msg|
    ensures Inv(s)
  {
    assert s.slots[id].msg[at..] == [];
    assert ListAt(s, id);
    assert SlotOk(s, id);
  }

  lemma FilledMid(s: Sender, id: nat, msg: Bytes)
    requires Inv(s) && id in s.handed && |msg| > 0
    ensures id in s.slots && Mid(Filled(s, id, msg), id, 0, 0)
  {
    assert ListAt(s, id);
    assert SlotOk(s, id);
    var t := Filled(s, id, msg);
    QueuedFrame(s.slots, t.slots, s.queue, s.bufsize);
    FlattenAdd(s.messages, [msg]);
    FlattenOne(msg);
    var p := Posted(s.posts) + Queued(s.slots, s.queue, s.bufsize);
    assert p + [] == p && msg[0..] == msg;
    SameLists(s, t);
    forall k: nat ensures QueueAt(t, k) { assert QueueAt(s, k); }
    forall k | k in t.slots && k != id ensures SlotOk(t, k) { assert SlotOk(s, k); }
  }

  /** A send keeps the invariant; a large message needs a large buffer. */
  lemma SendKeepsInv(s: Sender, id: nat, msg: Bytes)
    requires Inv(s) && id in s.handed && |msg| > 0
    requires id in s.slots && (|msg| > s.bufsize ==> s.slots[id].large)
    ensures var t := Send(s, id, msg);
            Inv(t) && t.messages == s.messages + [msg] && t.max == s.max && t.bufsize == s.bufsize
  {
    var t := Filled(s, id, msg);
    FilledMid(s, id, msg);
    if |msg| > s.bufsize {
      var u := SendFragsMid(t, id, 0);
      AddRefMid(u, id, |msg|, 0, -1);
      MidDone(AddRef(u, id, -1), id, |msg|);
      FragsMessages(t, id, 0);
    } else {
      SendPacketMid(t, id, 0, |msg|);
      MidDone(SendPacket(t, id, 0, |msg|), id, |msg|);
    }
  }

  lemma {:induction false} FragsMessages(s: Sender, id: nat, at: nat)
    requires id in s.slots && at < |s.slots[id].msg| && s.bufsize > 0
    ensures var t := SendFrags(s, id, at);
            && t.messages == s.messages && t.max == s.max && t.bufsize == s.bufsize
            && t.used == s.used && t.extraSent == s.extraSent && t.handed == s.handed
    decreases |s.slots[id].msg| - at
  {
    if |s.slots[id].msg| - at > s.bufsize {
      FragsMessages(AddRef(SendPacket(s, id, at, s.bufsize), id, 1), id, at + s.bufsize);
    }
  }

  // ---- completions

  /** One fragment of credit is free again. */
  ghost predicate Due(s: Sender) {
    && Lists(s) && s.wrSent == |s.inflight| < s.max && (s.queue != [] ==> s.wrSent == s.max - 1)
    && QueueOk(s) && FragsOk(s) && Stream(s, [])
    && forall id {:trigger SlotOk(s, id)} :: id in s.slots ==> SlotOk(s, id)
  }

  /** The slot is released with its last fragment, and only then. */
  lemma CompleteDue(s: Sender, id: nat)
    requires Inv(s) && id in s.inflight
    ensures id in s.slots && s.wrSent > 0 && Due(Completed(s, id))
    ensures Busy(s, id) && (Busy(Completed(s, id), id) <==> Pending(s, id) > 1)
  {
    assert QueueAt(s, id) && SlotOk(s, id) && ListAt(s, id);
    assert multiset{id} <= s.inflight;
    var t := Completed(s, id);
    QueuedFrame(s.slots, t.slots, s.queue, s.bufsize);
    if s.slots[id].refCnt > 0 { StillBusy(s, id); } else { LastFragment(s, id); }
  }

  lemma StillBusy(s: Sender, id: nat)
    requires Inv(s) && id in s.inflight && id in s.slots && s.wrSent > 0 && s.slots[id].refCnt > 0
    ensures var t := Completed(s, id);
            Lists(t) && QueueOk(t) && Busy(t, id) && forall k {:trigger SlotOk(t, k)} :: k in t.slots ==> SlotOk(t, k)
  {
    assert SlotOk(s, id) && ListAt(s, id);
    var t := Completed(s, id);
    assert t.slots.Keys == s.slots.Keys;
    SameLists(s, t);
    forall k: nat ensures QueueAt(t, k) { assert QueueAt(s, k); }
    forall k | k in t.slots ensures SlotOk(t, k) { assert SlotOk(s, k); }
  }

  lemma LastFragment(s: Sender, id: nat)
    requires Inv(s) && id in s.inflight && id in s.slots && s.wrSent > 0 && s.slots[id].refCnt == 0
    ensures var t := Completed(s, id);
            Lists(t) && QueueOk(t) && !Busy(t, id) && forall k {:trigger SlotOk(t, k)} :: k in t.slots ==> SlotOk(t, k)
  {
    assert SlotOk(s, id) && ListAt(s, id) && QueueAt(s, id);
    var t := Completed(s, id);
    assert t.slots.Keys == s.slots.Keys;
    forall k: nat ensures ListAt(t, k) { assert ListAt(s, k); }
    forall k: nat ensures QueueAt(t, k) { assert QueueAt(s, k); }
    forall k | k in t.slots ensures SlotOk(t, k) { assert SlotOk(s, k) && ListAt(s, k); }
  }

  lemma HeadReady(s: Sender)
    requires Due(s) && s.queue != []
    ensures var id := s.queue[0];
            && id in s.slots && s.slots[id].queuedRef > 0 && 0 < NextLen(s, id) <= s.bufsize
            && s.slots[id].queuedAt + NextLen(s, id) <= |s.slots[id].msg|
  {
    var id := s.queue[0];
    assert QueueAt(s, id) && SlotOk(s, id);
  }

  lemma FirstOfMany(x: Slot, bufsize: nat)
    requires x.queuedRef > 1 && x.queuedAt + Len(x.queuedRef, x.queuedRlen, bufsize) == |x.msg|
    ensures var y := x.(queuedRef := x.queuedRef - 1, queuedAt := x.queuedAt + bufsize);
            && x.queuedAt + bufsize <= |x.msg| && Waiting(y, bufsize) == x.msg[x.queuedAt + bufsize..]
            && Waiting(x, bufsize) == x.msg[x.queuedAt..x.queuedAt + bufsize] + x.msg[x.queuedAt + bufsize..]
  {
  }

  /** The bytes of the queue before and after: the fragment, the rest of its slot
      and the other slots. */
  ghost predicate Shorter(s: Sender, t: Sender, bytes: Bytes) {
    exists tail, q ::
      Queued(s.slots, s.queue, s.bufsize) == (bytes + tail) + q && Queued(t.slots, t.queue, s.bufsize) == tail + q
  }

  lemma PopMore(s: Sender, t: Sender, id: nat)
    requires QueueOk(s) && Popped(s, t, id) && SlotOk(s, id) && s.slots[id].queuedRef > 1
    ensures var x := s.slots[id];
            x.queuedAt + s.bufsize <= |x.msg| && Shorter(s, t, x.msg[x.queuedAt..x.queuedAt + s.bufsize])
  {
    var x := s.slots[id];
    FirstOfMany(x, s.bufsize);
    var bytes, tail := x.msg[x.queuedAt..x.queuedAt + s.bufsize], x.msg[x.queuedAt + s.bufsize..];
    var q := Queued(s.slots, s.queue[1..], s.bufsize);
    assert id !in s.queue[1..];
    QueuedFrame(s.slots, t.slots, s.queue[1..], s.bufsize);
    assert Queued(s.slots, s.queue, s.bufsize) == (bytes + tail) + q;
    assert Queued(t.slots, t.queue, s.bufsize) == tail + q;
  }

  lemma PopLast(s: Sender, t: Sender, id: nat)
    requires QueueOk(s) && Popped(s, t, id) && SlotOk(s, id) && s.slots[id].queuedRef == 1
    ensures var x := s.slots[id];
            x.queuedAt + x.queuedRlen <= |x.msg| && Shorter(s, t, x.msg[x.queuedAt..x.queuedAt + x.queuedRlen])
  {
    var x := s.slots[id];
    var bytes, q := x.msg[x.queuedAt..x.queuedAt + x.queuedRlen], Queued(s.slots, s.queue[1..], s.bufsize);
    assert id !in s.queue[1..];
    QueuedFrame(s.slots, t.slots, s.queue[1..], s.bufsize);
    assert Waiting(x, s.bufsize) == bytes && bytes + [] == bytes && [] + q == q;
    assert Queued(s.slots, s.queue, s.bufsize) == (bytes + []) + q;
    assert Queued(t.slots, t.queue, s.bufsize) == [] + q;
  }

  lemma PopStream(s: Sender)
    requires Due(s) && s.queue != []
    ensures s.queue[0] in s.slots && s.slots[s.queue[0]].queuedAt + NextLen(s, s.queue[0]) <= |s.slots[s.queue[0]].msg|
    ensures s.slots[s.queue[0]].queuedRef > 0 && Stream(ProcessQueue(s), [])
  {
    HeadReady(s);
    var id := s.queue[0];
    assert SlotOk(s, id);
    PopShape(s, id);
    PopMoves(s, ProcessQueue(s), id);
  }

  /** The fragment that leaves the queue is the next one of the stream. */
  lemma PopMoves(s: Sender, t: Sender, id: nat)
    requires QueueOk(s) && Popped(s, t, id) && SlotOk(s, id) && Stream(s, [])
    ensures Stream(t, [])
  {
    if s.slots[id].queuedRef > 1 { PopMore(s, t, id); } else { PopLast(s, t, id); }
    var x := s.slots[id];
    PopPosted(s, t, id, x.msg[x.queuedAt..x.queuedAt + NextLen(s, id)]);
  }

  lemma PopPosted(s: Sender, t: Sender, id: nat, bytes: Bytes)
    requires Stream(s, []) && Shorter(s, t, bytes) && t.posts == s.posts + [Frag(id, bytes)]
    requires t.messages == s.messages && t.bufsize == s.bufsize
    ensures Stream(t, [])
  {
    var tail, q :| Queued(s.slots, s.queue, s.bufsize) == (bytes + tail) + q
                   && Queued(t.slots, t.queue, s.bufsize) == tail + q;
    PostedAdd(s.posts, Frag(id, bytes));
    Regroup(Posted(s.posts), bytes, tail, q);
  }

  lemma Regroup(p: Bytes, b: Bytes, t: Bytes, q: Bytes)
    ensures p + ((b + t) + q) + [] == (p + b) + (t + q) + [] && (t == [] ==> t + q == q)
  {
  }

  lemma PopSlots(s: Sender)
    requires Due(s) && s.queue != []
    ensures s.queue[0] in s.slots && s.slots[s.queue[0]].queuedAt + NextLen(s, s.queue[0]) <= |s.slots[s.queue[0]].msg|
    ensures s.slots[s.queue[0]].queuedRef > 0
    ensures var t := ProcessQueue(s);
            QueueOk(t) && Lists(t) && forall k {:trigger SlotOk(t, k)} :: k in t.slots ==> SlotOk(t, k)
  {
    HeadReady(s);
    var id, t := s.queue[0], ProcessQueue(s);
    assert QueueAt(s, id) && SlotOk(s, id);
    PopShape(s, id);
    SameLists(s, t);
    PoppedQueue(s, t, id);
    PoppedSlots(s, t, id);
  }

  /** t is s after a fragment of the slot at the head has been posted. */
  ghost predicate Popped(s: Sender, t: Sender, id: nat) {
    && s.queue != [] && id == s.queue[0] && id in s.slots && id in t.slots && s.slots[id].queuedRef > 0
    && var x := s.slots[id];
    && t == s.(slots := t.slots, wrSent := s.wrSent + 1, posts := t.posts, queue := t.queue,
               inflight := s.inflight + multiset{id})
    && t.slots == s.slots[id := t.slots[id]] && t.slots.Keys == s.slots.Keys
    && t.queue == (if x.queuedRef > 1 then s.queue else s.queue[1..])
    && t.slots[id] == x.(queuedRef := x.queuedRef - 1,
                         queuedAt := if x.queuedRef > 1 then x.queuedAt + s.bufsize else x.queuedAt)
    && x.queuedAt + NextLen(s, id) <= |x.msg|
    && t.posts == s.posts + [Frag(id, x.msg[x.queuedAt..x.queuedAt + NextLen(s, id)])]
  }

  lemma PoppedQueue(s: Sender, t: Sender, id: nat)
    requires QueueOk(s) && Popped(s, t, id)
    ensures QueueOk(t)
  {
    assert s.queue == [id] + s.queue[1..] && id !in s.queue[1..];
    forall k: nat ensures QueueAt(t, k) { assert QueueAt(s, k); }
  }

  lemma PoppedSlots(s: Sender, t: Sender, id: nat)
    requires Popped(s, t, id) && forall k {:trigger SlotOk(s, k)} :: k in s.slots ==> SlotOk(s, k)
    ensures forall k {:trigger SlotOk(t, k)} :: k in t.slots ==> SlotOk(t, k)
  {
    forall k | k in t.slots ensures SlotOk(t, k) { assert SlotOk(s, k); }
  }

  /** What taking a fragment from the queue changes. */
  lemma PopShape(s: Sender, id: nat)
    requires Due(s) && s.queue != [] && id == s.queue[0] && id in s.slots && s.slots[id].queuedRef > 0
    requires s.slots[id].queuedAt + NextLen(s, id) <= |s.slots[id].msg|
    ensures Popped(s, ProcessQueue(s), id)
  {
    var t := ProcessQueue(s);
    assert t.slots == s.slots[id := t.slots[id]];
  }

  /** The head of the queue takes the free credit. */
  lemma ProcessKeepsInv(s: Sender)
    requires Due(s)
    ensures s.queue != [] ==> s.queue[0] in s.slots && s.slots[s.queue[0]].queuedRef > 0
                              && s.slots[s.queue[0]].queuedAt + NextLen(s, s.queue[0]) <= |s.slots[s.queue[0]].msg|
    ensures Inv(ProcessQueue(s))
  {
    if s.queue != [] {
      HeadReady(s);
      PopStream(s);
      PopSlots(s);
    }
  }
}
