/** Whole runs of the sender, both ends together, and the connection object. */
module IbConn {
  import opened PacketStream
  import opened IbSend
  import opened IbSendInv
  import IbReceive

  lemma AllocPoolKeepsInv(s: Sender, id: nat, len: nat)
    requires Inv(s) && id in s.avail
    ensures id in s.slots && Inv(AllocPool(s, id, len)) && id in AllocPool(s, id, len).handed
  {
    assert ListAt(s, id) && SlotOk(s, id);
    var t := AllocPool(s, id, len);
    QueuedFrame(s.slots, t.slots, s.queue, s.bufsize);
    forall k: nat ensures ListAt(t, k) { assert ListAt(s, k); }
    forall k: nat ensures QueueAt(t, k) { assert QueueAt(s, k); }
    forall k | k in t.slots ensures SlotOk(t, k) { assert SlotOk(s, k) && ListAt(s, k); }
  }

  lemma AllocExtraKeepsInv(s: Sender, id: nat)
    requires Inv(s) && id in s.extraAvail
    ensures id in s.slots && Inv(AllocExtra(s, id)) && id in AllocExtra(s, id).handed
  {
    assert ListAt(s, id) && SlotOk(s, id);
    var t := AllocExtra(s, id);
    QueuedFrame(s.slots, t.slots, s.queue, s.bufsize);
    forall k: nat ensures ListAt(t, k) { assert ListAt(s, k); }
    forall k: nat ensures QueueAt(t, k) { assert QueueAt(s, k); }
    forall k | k in t.slots ensures SlotOk(t, k) { assert SlotOk(s, k) && ListAt(s, k); }
  }

  lemma MakeExtraKeepsInv(s: Sender)
    requires Inv(s)
    ensures Inv(MakeExtra(s)) && s.max + s.extraMax in MakeExtra(s).extraAvail
  {
    var t, id := MakeExtra(s), s.max + s.extraMax;
    assert ListAt(s, id) && QueueAt(s, id);
    QueuedFrame(s.slots, t.slots, s.queue, s.bufsize);
    forall k: nat ensures ListAt(t, k) { assert ListAt(s, k); }
    forall k: nat ensures QueueAt(t, k) { assert QueueAt(s, k); }
    forall k | k in t.slots ensures SlotOk(t, k) { assert ListAt(s, k); if k != id { assert SlotOk(s, k); } }
  }

  // ---- runs

  function Below(n: nat): (r: set<nat>)
    ensures forall id: nat :: id in r <==> id < n
  {
    if n == 0 then {} else Below(n - 1) + {n - 1}
  }

  function Start(max: nat, bufsize: nat): Sender {
    Sender(max, bufsize, map id | id in Below(max) :: FRESH, Below(max), {}, {}, {}, 0, 0, [], [], multiset{}, [], {})
  }

  lemma StartInv(max: nat, bufsize: nat)
    requires max > 0 && bufsize > 0
    ensures Inv(Start(max, bufsize))
  {
    var s := Start(max, bufsize);
    forall k: nat ensures ListAt(s, k) {}
    forall k: nat ensures QueueAt(s, k) {}
    forall k | k in s.slots ensures SlotOk(s, k) {}
  }

  datatype Event = Alloc(len: nat) | Submit(id: nat, msg: Bytes) | Done(id: nat)

  /** A message is sent from a slot that was handed out for it, with its length in
      its first word; a completion belongs to a posted fragment. */
  ghost predicate Enabled(s: Sender, e: Event) {
    match e
    case Alloc(_) => true
    case Submit(id, msg) =>
      && id in s.handed && id in s.slots && PacketOk(msg)
      && (|msg| > s.bufsize ==> s.slots[id].large)
    case Done(id) => id in s.inflight
  }

  ghost predicate Step(s: Sender, e: Event, t: Sender)
    requires Inv(s)
  {
    Enabled(s, e) &&
    match e
    case Alloc(len) =>
      if s.avail != {} then exists id :: id in s.avail && id in s.slots && t == AllocPool(s, id, len)
      else if s.extraAvail != {} then exists id :: id in s.extraAvail && id in s.slots && t == AllocExtra(s, id)
      else
        MakeExtraKeepsInv(s);
        var u := MakeExtra(s);
        s.max + s.extraMax in u.slots && t == AllocExtra(u, s.max + s.extraMax)
    case Submit(id, msg) => Inv(s) && s.bufsize > 0 && t == Send(s, id, msg)
    case Done(id) =>
      CompleteDue(s, id);
      ProcessKeepsInv(Completed(s, id));
      t == ProcessQueue(Completed(s, id))
  }

  lemma AllocKeepsInv(s: Sender, len: nat, t: Sender)
    requires Inv(s) && Step(s, Alloc(len), t)
    ensures Inv(t) && t.messages == s.messages
  {
    if s.avail != {} {
      var id :| id in s.avail && id in s.slots && t == AllocPool(s, id, len);
      AllocPoolKeepsInv(s, id, len);
    } else if s.extraAvail != {} {
      var id :| id in s.extraAvail && id in s.slots && t == AllocExtra(s, id);
      AllocExtraKeepsInv(s, id);
    } else {
      MakeExtraKeepsInv(s);
      AllocExtraKeepsInv(MakeExtra(s), s.max + s.extraMax);
    }
  }

  /** One free slot is handed out: from the pool while there is one, then an extra one,
      and a new one only when there is none. Its large buffer is there if the message
      does not fit, and on extra slots always. */
  ghost predicate Hands(s: Sender, len: nat, id: nat, t: Sender) {
    && id !in s.handed && t.handed == s.handed + {id} && id in t.slots
    && (id < s.max <==> s.avail != {}) && t.slots[id].large == (id >= s.max || len > s.bufsize)
    && t.extraMax == s.extraMax + (if s.avail == {} && s.extraAvail == {} then 1 else 0)
    && (id < s.max ==> id in s.avail && t.avail == s.avail - {id} && t.extraAvail == s.extraAvail)
    && (id >= s.max ==> id !in s.extraSent && t.avail == s.avail && t.extraAvail == s.extraAvail - {id})
    && t.posts == s.posts && t.queue == s.queue && t.wrSent == s.wrSent
  }

  lemma AllocHands(s: Sender, len: nat, t: Sender)
    requires Inv(s) && Step(s, Alloc(len), t)
    ensures exists id :: Hands(s, len, id, t)
  {
    if s.avail != {} {
      var id :| id in s.avail && id in s.slots && t == AllocPool(s, id, len);
      assert ListAt(s, id);
      assert Hands(s, len, id, t);
    } else if s.extraAvail != {} {
      var id :| id in s.extraAvail && id in s.slots && t == AllocExtra(s, id);
      assert ListAt(s, id);
      assert Hands(s, len, id, t);
    } else {
      var id := s.max + s.extraMax;
      MakeExtraKeepsInv(s);
      assert ListAt(s, id) && t == AllocExtra(MakeExtra(s), id);
      assert Hands(s, len, id, t);
    }
  }

  lemma StepKeepsInv(s: Sender, e: Event, t: Sender)
    requires Inv(s) && Step(s, e, t)
    ensures Inv(t)
  {
    match e
    case Alloc(len) => AllocKeepsInv(s, len, t);
    case Submit(id, msg) => SendKeepsInv(s, id, msg);
    case Done(id) =>
      CompleteDue(s, id);
      ProcessKeepsInv(Completed(s, id));
  }

  ghost predicate Run(ss: seq<Sender>, es: seq<Event>) {
    && |ss| == |es| + 1 && Inv(ss[0])
    && forall i | 0 <= i < |es| :: RunStep(ss, es, i)
  }

  ghost predicate RunStep(ss: seq<Sender>, es: seq<Event>, i: nat)
    requires i < |es| && |ss| == |es| + 1
  {
    Inv(ss[i]) ==> Step(ss[i], es[i], ss[i + 1])
  }

  lemma {:induction false} RunKeepsInv(ss: seq<Sender>, es: seq<Event>, i: nat)
    requires Run(ss, es) && i < |ss|
    ensures Inv(ss[i])
  {
    if i > 0 {
      RunKeepsInv(ss, es, i - 1);
      assert RunStep(ss, es, i - 1);
      StepKeepsInv(ss[i - 1], es[i - 1], ss[i]);
    }
  }

  ghost predicate AllOk(messages: seq<Bytes>) { forall m <- messages :: PacketOk(m) }

  lemma StepMessages(s: Sender, e: Event, t: Sender)
    requires Inv(s) && Step(s, e, t)
    ensures t.messages == if e.Submit? then s.messages + [e.msg] else s.messages
  {
    match e
    case Alloc(len) => AllocKeepsInv(s, len, t);
    case Submit(id, msg) => SendKeepsInv(s, id, msg);
    case Done(id) => DoneMessages(s, id);
  }

  lemma DoneMessages(s: Sender, id: nat)
    requires Inv(s) && id in s.inflight
    ensures id in s.slots && s.wrSent > 0 && Due(Completed(s, id))
    ensures var u := Completed(s, id);
            (u.queue != [] ==> u.queue[0] in u.slots && u.slots[u.queue[0]].queuedRef > 0
                               && u.slots[u.queue[0]].queuedAt + NextLen(u, u.queue[0]) <= |u.slots[u.queue[0]].msg|)
            && ProcessQueue(u).messages == s.messages
  {
    CompleteDue(s, id);
    ProcessKeepsInv(Completed(s, id));
    ProcessMessages(Completed(s, id));
  }

  lemma ProcessMessages(u: Sender)
    requires u.queue != [] ==> u.queue[0] in u.slots && u.slots[u.queue[0]].queuedRef > 0
                               && u.slots[u.queue[0]].queuedAt + NextLen(u, u.queue[0]) <= |u.slots[u.queue[0]].msg|
    ensures ProcessQueue(u).messages == u.messages
  {
  }

  lemma {:induction false} RunMessagesOk(ss: seq<Sender>, es: seq<Event>, i: nat)
    requires Run(ss, es) && i < |ss| && AllOk(ss[0].messages)
    ensures AllOk(ss[i].messages)
  {
    if i > 0 {
      RunMessagesOk(ss, es, i - 1);
      RunKeepsInv(ss, es, i - 1);
      assert RunStep(ss, es, i - 1);
      StepMessages(ss[i - 1], es[i - 1], ss[i]);
    }
  }

  /** In every state of every run: the credit is kept, a waiting fragment means
      that it is used up, every fragment fits a buffer, and a slot is released only
      when nothing of it is posted or waits. */
  lemma CreditAndRelease(ss: seq<Sender>, es: seq<Event>, i: nat)
    requires Run(ss, es) && i < |ss|
    ensures var s := ss[i];
            && s.wrSent == |s.inflight| <= s.max && (s.queue != [] ==> s.wrSent == s.max)
            && (forall f <- s.posts :: 0 < |f.bytes| <= s.bufsize)
            && forall id <- s.slots ::
                 (Busy(s, id) <==> Pending(s, id) > 0) && (Pending(s, id) > 1 ==> s.slots[id].large)
  {
    RunKeepsInv(ss, es, i);
    var s := ss[i];
    forall id <- s.slots ensures (Busy(s, id) <==> Pending(s, id) > 0) && (Pending(s, id) > 1 ==> s.slots[id].large) {
      assert SlotOk(s, id);
    }
  }

  /** The fragments posted so far are a beginning of the messages sent, and a
      receiver that has been fed some of them delivers the first messages, whole
      and in order; when nothing waits and all is received, it has delivered
      every message. */
  lemma StreamEquality(ss: seq<Sender>, es: seq<Event>, i: nat, received: Bytes, delivered: seq<Bytes>, part: Bytes)
    requires Run(ss, es) && i < |ss| && AllOk(ss[0].messages)
    requires Splits(received, delivered, part) && received <= Posted(ss[i].posts)
    ensures var s := ss[i];
            && Posted(s.posts) <= Flatten(s.messages) && delivered <= s.messages
            && (received == Posted(s.posts) && s.queue == [] && !PacketStream.Complete(part) ==>
                  delivered == s.messages && part == [])
  {
    RunKeepsInv(ss, es, i);
    RunMessagesOk(ss, es, i);
    Arrival(ss[i], received, delivered, part);
  }

  lemma Arrival(s: Sender, received: Bytes, delivered: seq<Bytes>, part: Bytes)
    requires Inv(s) && AllOk(s.messages)
    requires Splits(received, delivered, part) && received <= Posted(s.posts)
    ensures Posted(s.posts) <= Flatten(s.messages) && delivered <= s.messages
    ensures received == Posted(s.posts) && s.queue == [] && !PacketStream.Complete(part) ==>
            delivered == s.messages && part == []
  {
    SplitsMeans(received, delivered, part);
    ReadPrefix(s.messages, received);
    if received == Posted(s.posts) && s.queue == [] && !PacketStream.Complete(part) {
      assert Posted(s.posts) + [] + [] == Posted(s.posts);
      AllArrived(s.messages, received, delivered, part);
    }
  }

  /** Such a receiver never comes upon a bad length. */
  lemma ReceiverNeverFails(s: Sender, received: Bytes, delivered: seq<Bytes>, part: Bytes, rest: Bytes)
    requires Inv(s) && AllOk(s.messages)
    requires Splits(received, delivered, part) && received + rest <= Posted(s.posts)
    ensures |part + rest| >= WORD ==> Size(part + rest) >= WORD
  {
    assert Posted(s.posts) <= Flatten(s.messages);
    SplitsAppend(received, delivered, part, rest);
    IbReceive.NeverFails(s.messages, received + rest, delivered, part + rest);
  }

  /** How many buffers a message of n bytes fills. */
  function Buffers(n: nat, bufsize: nat): (k: nat)
    requires bufsize > 0 && n > 0
    ensures k > 0
  {
    if n <= bufsize then 1 else 1 + Buffers(n - bufsize, bufsize)
  }

  lemma {:induction false} BuffersFill(n: nat, bufsize: nat)
    requires bufsize > 0 && n > 0
    ensures (Buffers(n, bufsize) - 1) * bufsize < n <= Buffers(n, bufsize) * bufsize
  {
    if n > bufsize {
      var k := Buffers(n - bufsize, bufsize);
      BuffersFill(n - bufsize, bufsize);
      assert (k + 1) * bufsize == k * bufsize + bufsize && (k - 1) * bufsize == k * bufsize - bufsize;
    }
  }

  lemma {:induction false} FragsCounted(s: Sender, id: nat, at: nat)
    requires id in s.slots && at < |s.slots[id].msg| && s.bufsize > 0
    ensures var t := SendFrags(s, id, at);
            id in t.slots && t.slots[id].refCnt == s.slots[id].refCnt + Buffers(|s.slots[id].msg| - at, s.bufsize)
    decreases |s.slots[id].msg| - at
  {
    var n := |s.slots[id].msg| - at;
    if n > s.bufsize {
      FragsCounted(AddRef(SendPacket(s, id, at, s.bufsize), id, 1), id, at + s.bufsize);
    }
  }

  /** A message goes out in as few fragments as it can. */
  lemma FewestFragments(s: Sender, id: nat, msg: Bytes)
    requires Inv(s) && Enabled(s, Submit(id, msg)) && s.bufsize > 0
    ensures var t := Send(s, id, msg);
            id in t.slots && (Pending(t, id) - 1) * s.bufsize < |msg| <= Pending(t, id) * s.bufsize
  {
    BuffersFill(|msg|, s.bufsize);
    SentInBuffers(s, id, msg);
  }

  /** What a send leaves of the slot lists, one fragment less being counted. */
  ghost predicate SentAs(s: Sender, id: nat, t: Sender, n: nat) {
    && id in t.slots && t.slots[id].refCnt + 1 == n
    && t.used == s.used && t.extraSent == s.extraSent && t.handed == s.handed - {id}
  }

  lemma {:induction false} SentSmall(s: Sender, id: nat, msg: Bytes)
    requires id in s.slots && 0 < |msg| <= s.bufsize && s.slots[id].refCnt == 0
    ensures SentAs(s, id, Send(s, id, msg), 1)
  {
  }

  lemma {:induction false} SentLarge(s: Sender, id: nat, msg: Bytes)
    requires id in s.slots && 0 < s.bufsize < |msg| && s.slots[id].refCnt == 0
    ensures SentAs(s, id, Send(s, id, msg), Buffers(|msg|, s.bufsize))
  {
    var u := Filled(s, id, msg);
    FragsCounted(u, id, 0);
    FragsMessages(u, id, 0);
    var v := SendFrags(u, id, 0);
    assert Send(s, id, msg) == AddRef(v, id, -1);
  }

  lemma {:induction false} BusyCounted(s: Sender, id: nat)
    requires Inv(s) && id in s.slots && Busy(s, id)
    ensures Pending(s, id) == s.slots[id].refCnt + 1
  {
    assert SlotOk(s, id);
  }

  lemma {:induction false} SentInBuffers(s: Sender, id: nat, msg: Bytes)
    requires Inv(s) && Enabled(s, Submit(id, msg)) && s.bufsize > 0
    ensures var t := Send(s, id, msg); id in t.slots && Pending(t, id) == Buffers(|msg|, s.bufsize)
  {
    var t := Send(s, id, msg);
    assert ListAt(s, id) && SlotOk(s, id);
    if |msg| > s.bufsize { SentLarge(s, id, msg); } else { SentSmall(s, id, msg); }
    SendKeepsInv(s, id, msg);
    BusyCounted(t, id);
  }

  /** Sending the fragments from the given place on ends in the given state. */
  ghost predicate Ends(s: Sender, id: nat, at: nat, goal: Sender) {
    id in s.slots && at < |s.slots[id].msg| && s.bufsize > 0 && SendFrags(s, id, at) == goal
  }

  // ---- the connection object

  class Conn {
    const max: nat
    const bufsize: nat
    var slots: map<nat, Slot>
    var avail: set<nat>
    var used: set<nat>
    var extraAvail: set<nat>
    var extraSent: set<nat>
    var extraMax: nat
    var wrSent: nat
    var queue: seq<nat>
    var posts: seq<Frag>
    var inflight: multiset<nat>
    ghost var messages: seq<Bytes>
    ghost var handed: set<nat>

    constructor (max: nat, bufsize: nat)
      requires max > 0 && bufsize > 0
      ensures View() == Start(max, bufsize) && Inv(View())
    {
      this.max, this.bufsize := max, bufsize;
      slots, avail := map id | id in Below(max) :: FRESH, Below(max);
      used, extraAvail, extraSent, extraMax, wrSent, queue, posts := {}, {}, {}, 0, 0, [], [];
      inflight, messages, handed := multiset{}, [], {};
      StartInv(max, bufsize);
    }

    ghost function View(): Sender
      reads this
    {
      Sender(max, bufsize, slots, avail, used, extraAvail, extraSent, extraMax, wrSent, queue, posts, inflight,
             messages, handed)
    }

    method TakePool(id: nat, len: nat)
      requires id in avail && id in slots
      modifies this`avail, this`used, this`handed, this`slots
      ensures View() == AllocPool(old(View()), id, len)
    {
      avail, used, handed := avail - {id}, used + {id}, handed + {id};
      slots := slots[id := slots[id].(large := len > bufsize)];
    }

    method TakeExtra(id: nat)
      requires id in extraAvail && id in slots
      modifies this`extraAvail, this`extraSent, this`handed, this`slots
      ensures View() == AllocExtra(old(View()), id)
    {
      slots := slots[id := slots[id].(large := true)];
      extraAvail, extraSent, handed := extraAvail - {id}, extraSent + {id}, handed + {id};
    }

    method NewExtra()
      modifies this`extraAvail, this`extraMax, this`slots
      ensures View() == MakeExtra(old(View()))
    {
      var id := max + extraMax;
      slots, extraAvail, extraMax := slots[id := FRESH], extraAvail + {id}, extraMax + 1;
    }

    /** ibw_alloc_send_buf */
    method AllocSendBuf(len: nat) returns (id: nat)
      requires Inv(View())
      modifies this
      ensures Step(old(View()), Alloc(len), View()) && Inv(View())
      ensures id in handed && id in slots && Hands(old(View()), len, id, View())
    {
      if avail != {} {
        id := Any(avail);
        AllocPoolKeepsInv(View(), id, len);
        assert ListAt(View(), id);
        TakePool(id, len);
      } else if extraAvail != {} {
        id := Any(extraAvail);
        AllocExtraKeepsInv(View(), id);
        assert ListAt(View(), id);
        TakeExtra(id);
      } else {
        id := max + extraMax;
        assert ListAt(View(), id);
        MakeExtraKeepsInv(View());
        AllocExtraKeepsInv(MakeExtra(View()), id);
        NewExtra();
        TakeExtra(id);
      }
    }

    /** ibw_send_packet */
    method SendPacket(id: nat, at: nat, len: nat)
      requires id in slots && at + len <= |slots[id].msg|
      modifies this`wrSent, this`posts, this`inflight, this`slots, this`queue
      ensures View() == IbSend.SendPacket(old(View()), id, at, len)
    {
      var p := slots[id];
      if wrSent < max {
        posts, inflight := posts + [Frag(id, p.msg[at..at + len])], inflight + multiset{id};
        wrSent := wrSent + 1;
        return;
      }
      if p.queuedRef == 0 {
        queue := queue + [id];
        p := p.(queuedAt := at);
      }
      slots := slots[id := p.(queuedRef := p.queuedRef + 1, queuedRlen := len)];
    }

    method CountRef(id: nat, n: int)
      requires id in slots && slots[id].refCnt + n >= 0
      modifies this`slots
      ensures View() == AddRef(old(View()), id, n)
    {
      slots := slots[id := slots[id].(refCnt := slots[id].refCnt + n)];
    }

    /** ibw_send */
    method Send(id: nat, msg: Bytes)
      requires Inv(View()) && Enabled(View(), Submit(id, msg))
      modifies this
      ensures View() == IbSend.Send(old(View()), id, msg) && Inv(View())
      ensures messages == old(messages) + [msg]
    {
      SendKeepsInv(View(), id, msg);
      SendMsg(id, msg);
    }

    method SendMsg(id: nat, msg: Bytes)
      requires id in slots && bufsize > 0 && |msg| > 0
      modifies this
      ensures View() == IbSend.Send(old(View()), id, msg)
    {
      Fill(id, msg);
      if |msg| > bufsize {
        SendFragments(id);
        CountRef(id, -1);
      } else {
        SendPacket(id, 0, |msg|);
      }
    }

    /** The caller has written the message into the slot's buffer. */
    method Fill(id: nat, msg: Bytes)
      requires id in slots
      modifies this`slots, this`messages, this`handed
      ensures View() == Filled(old(View()), id, msg)
    {
      slots := slots[id := slots[id].(msg := msg)];
      messages, handed := messages + [msg], handed - {id};
    }

    method SendFragments(id: nat)
      requires id in slots && bufsize > 0 && |slots[id].msg| > 0
      modifies this`wrSent, this`posts, this`inflight, this`slots, this`queue
      ensures View() == SendFrags(old(View()), id, 0)
    {
      var packet := SendFull(id);
      FragsLast(View(), id, packet);
      SendFragment(id, packet, |slots[id].msg| - packet);
    }

    /** All fragments but the last. */
    method SendFull(id: nat) returns (packet: nat)
      requires id in slots && bufsize > 0 && |slots[id].msg| > 0
      modifies this`wrSent, this`posts, this`inflight, this`slots, this`queue
      ensures id in slots && 0 < |slots[id].msg| - packet <= bufsize
      ensures SendFrags(old(View()), id, 0) == SendFrags(View(), id, packet)
    {
      ghost var goal := SendFrags(View(), id, 0);
      packet := 0;
      assert Ends(View(), id, packet, goal);
      while |slots[id].msg| - packet > bufsize
        invariant Ends(View(), id, packet, goal)
        invariant id in slots && packet < |slots[id].msg|
        decreases |slots[id].msg| - packet
      {
        FullFragment(id, packet, goal);
        packet := packet + bufsize;
      }
    }

    method FullFragment(id: nat, packet: nat, ghost goal: Sender)
      requires Ends(View(), id, packet, goal) && |slots[id].msg| - packet > bufsize
      modifies this`wrSent, this`posts, this`inflight, this`slots, this`queue
      ensures id in slots && slots[id].msg == old(slots[id].msg)
      ensures Ends(View(), id, packet + bufsize, goal)
    {
      FragsStep(View(), id, packet);
      SendFragment(id, packet, bufsize);
    }

    method SendFragment(id: nat, at: nat, len: nat)
      requires id in slots && at + len <= |slots[id].msg|
      modifies this`wrSent, this`posts, this`inflight, this`slots, this`queue
      ensures id in slots && slots[id].msg == old(slots)[id].msg
      ensures View() == AddRef(IbSend.SendPacket(old(View()), id, at, len), id, 1)
    {
      SendPacket(id, at, len);
      CountRef(id, 1);
    }

    /** ibw_process_queue */
    method ProcessQueue()
      requires queue != [] ==>
                 queue[0] in slots && slots[queue[0]].queuedRef > 0
                 && slots[queue[0]].queuedAt + NextLen(View(), queue[0]) <= |slots[queue[0]].msg|
      modifies this`wrSent, this`posts, this`inflight, this`slots, this`queue
      ensures View() == IbSend.ProcessQueue(old(View()))
    {
      if queue == [] {
        return;
      }
      var id := queue[0];
      var p := slots[id];
      var left := p.queuedRef - 1;
      var size := if left > 0 then bufsize else p.queuedRlen;
      slots := slots[id := p.(queuedRef := left)];
      SendPacket(id, p.queuedAt, size);
      if left > 0 {
        slots := slots[id := slots[id].(queuedAt := p.queuedAt + bufsize)];
      } else {
        queue := queue[1..];
      }
    }

    /** The slot of a completed fragment; the extra slots are found by their id. */
    method CompleteSlot(id: nat)
      requires id in slots && wrSent > 0
      modifies this`wrSent, this`inflight, this`slots, this`used, this`avail, this`extraSent, this`extraAvail
      ensures View() == Completed(old(View()), id)
    {
      wrSent, inflight := wrSent - 1, inflight - multiset{id};
      var p := slots[id];
      if id < max {
        if p.large && p.refCnt > 0 {
          CountRef(id, -1);
        } else {
          FreeSlot(id);
        }
      } else {
        if p.refCnt > 0 {
          CountRef(id, -1);
        } else {
          FreeSlot(id);
        }
      }
    }

    /** A large buffer is freed and the slot goes back to its list. */
    method FreeSlot(id: nat)
      requires id in slots
      modifies this`slots, this`used, this`avail, this`extraSent, this`extraAvail
      ensures View() == Release(old(View()), id)
    {
      slots := slots[id := slots[id].(large := false)];
      if id < max {
        used, avail := used - {id}, avail + {id};
      } else {
        extraSent, extraAvail := extraSent - {id}, extraAvail + {id};
      }
    }

    /** ibw_wc_send */
    method WcSend(id: nat)
      requires Inv(View()) && id in inflight
      modifies this
      ensures Inv(View()) && Step(old(View()), Done(id), View())
    {
      CompleteDue(View(), id);
      ProcessKeepsInv(Completed(View(), id));
      CompleteSlot(id);
      ProcessQueue();
    }
  }

  /** Which free slot is taken does not matter. */
  method Any(s: set<nat>) returns (id: nat)
    requires s != {}
    ensures id in s
  {
    assert exists x :: x in s by { assert (forall x :: x !in s) ==> s == {}; }
    id :| id in s;
  }
}
