/** The sending side of the InfiniBand wrapper: messages are cut into fragments,
    at most max of them are posted at a time, and the rest waits in a local
    queue that holds each slot once, with a count of its waiting fragments. */
module IbSend {
  import opened PacketStream

  /** msg: the bytes of the slot's buffer; large: buf_large is set; the queued
      fields describe the fragments that wait. */
  datatype Slot = Slot(msg: Bytes, large: bool, refCnt: nat, queuedAt: nat, queuedRef: nat, queuedRlen: nat)

  datatype Frag = Frag(id: nat, bytes: Bytes)

  /** Slots below max are preallocated, the others are made when those run out.
      inflight, messages and handed are history: posted fragments not completed,
      messages passed to ibw_send, and slots handed out but not sent yet. */
  datatype Sender = Sender(
    max: nat, bufsize: nat,
    slots: map<nat, Slot>,
    avail: set<nat>, used: set<nat>, extraAvail: set<nat>, extraSent: set<nat>, extraMax: nat,
    wrSent: nat, queue: seq<nat>, posts: seq<Frag>,
    inflight: multiset<nat>, messages: seq<Bytes>, handed: set<nat>)

  const FRESH := Slot([], false, 0, 0, 0, 0)

  function SetSlot(s: Sender, id: nat, x: Slot): Sender { s.(slots := s.slots[id := x]) }

  // ---- the operations

  function AllocPool(s: Sender, id: nat, len: nat): Sender
    requires id in s.avail && id in s.slots
  {
    SetSlot(s, id, s.slots[id].(large := len > s.bufsize))
      .(avail := s.avail - {id}, used := s.used + {id}, handed := s.handed + {id})
  }

  function AllocExtra(s: Sender, id: nat): Sender
    requires id in s.extraAvail && id in s.slots
  {
    SetSlot(s, id, s.slots[id].(large := true))
      .(extraAvail := s.extraAvail - {id}, extraSent := s.extraSent + {id}, handed := s.handed + {id})
  }

  function MakeExtra(s: Sender): Sender {
    var id := s.max + s.extraMax;
    SetSlot(s, id, FRESH).(extraAvail := s.extraAvail + {id}, extraMax := s.extraMax + 1)
  }

  function Post(s: Sender, id: nat, bytes: Bytes): Sender {
    s.(wrSent := s.wrSent + 1, posts := s.posts + [Frag(id, bytes)], inflight := s.inflight + multiset{id})
  }

  function Enqueue(s: Sender, id: nat, at: nat, len: nat): Sender
    requires id in s.slots
  {
    var x := s.slots[id];
    var from := if x.queuedRef == 0 then at else x.queuedAt;
    var y := x.(queuedAt := from, queuedRef := x.queuedRef + 1, queuedRlen := len);
    SetSlot(s, id, y).(queue := if x.queuedRef == 0 then s.queue + [id] else s.queue)
  }

  /** ibw_send_packet */
  function SendPacket(s: Sender, id: nat, at: nat, len: nat): Sender
    requires id in s.slots && at + len <= |s.slots[id].msg|
  {
    if s.wrSent < s.max then Post(s, id, s.slots[id].msg[at..at + len]) else Enqueue(s, id, at, len)
  }

  function AddRef(s: Sender, id: nat, n: int): Sender
    requires id in s.slots && s.slots[id].refCnt + n >= 0
  {
    SetSlot(s, id, s.slots[id].(refCnt := s.slots[id].refCnt + n))
  }

  /** The fragments of a large message from the given place on. */
  function SendFrags(s: Sender, id: nat, at: nat): (t: Sender)
    requires id in s.slots && at < |s.slots[id].msg| && s.bufsize > 0
    ensures id in t.slots && t.slots[id].refCnt >= 1
    decreases |s.slots[id].msg| - at
  {
    var rlen := |s.slots[id].msg| - at;
    if rlen > s.bufsize then SendFrags(AddRef(SendPacket(s, id, at, s.bufsize), id, 1), id, at + s.bufsize)
    else AddRef(SendPacket(s, id, at, rlen), id, 1)
  }

  function Filled(s: Sender, id: nat, msg: Bytes): Sender
    requires id in s.slots
  {
    SetSlot(s, id, s.slots[id].(msg := msg)).(messages := s.messages + [msg], handed := s.handed - {id})
  }

  /** ibw_send */
  function Send(s: Sender, id: nat, msg: Bytes): Sender
    requires id in s.slots && s.bufsize > 0 && |msg| > 0
  {
    var t := Filled(s, id, msg);
    if |msg| > s.bufsize then AddRef(SendFrags(t, id, 0), id, -1)
    else SendPacket(t, id, 0, |msg|)
  }

  /** The first half of ibw_wc_send: the slot of a completed fragment. */
  function Completed(s: Sender, id: nat): Sender
    requires id in s.slots && s.wrSent > 0
  {
    var x := s.slots[id];
    var t := s.(wrSent := s.wrSent - 1, inflight := s.inflight - multiset{id});
    if (id >= s.max || x.large) && x.refCnt > 0 then AddRef(t, id, -1)
    else Release(t, id)
  }

  function Release(s: Sender, id: nat): Sender
    requires id in s.slots
  {
    var t := SetSlot(s, id, s.slots[id].(large := false));
    if id < s.max then t.(used := s.used - {id}, avail := s.avail + {id})
    else t.(extraSent := s.extraSent - {id}, extraAvail := s.extraAvail + {id})
  }

  /** ibw_process_queue */
  function ProcessQueue(s: Sender): Sender
    requires s.queue != [] ==>
               s.queue[0] in s.slots && s.slots[s.queue[0]].queuedRef > 0
               && s.slots[s.queue[0]].queuedAt + NextLen(s, s.queue[0]) <= |s.slots[s.queue[0]].msg|
  {
    if s.queue == [] then s
    else
      var id := s.queue[0];
      var x := s.slots[id];
      var s1 := SetSlot(s, id, x.(queuedRef := x.queuedRef - 1));
      var s2 := SendPacket(s1, id, x.queuedAt, NextLen(s, id));
      if x.queuedRef > 1 then SetSlot(s2, id, s2.slots[id].(queuedAt := x.queuedAt + s.bufsize))
      else s2.(queue := s2.queue[1..])
  }

  function NextLen(s: Sender, id: nat): nat
    requires id in s.slots
  {
    if s.slots[id].queuedRef > 1 then s.bufsize else s.slots[id].queuedRlen
  }
}
