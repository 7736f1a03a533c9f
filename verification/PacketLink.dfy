/** Both ends of a connection in one run: whatever the sizes of the writes and reads
    and the order of the events, the packets that were sent arrive. */
module PacketLink {
  import opened PacketStream
  import opened PacketQueue

  datatype Event =
    | Sends(data: Bytes, result: WriteResult)  // ctdb_queue_send
    | Writes(results: seq<WriteResult>)        // the socket has room
    | Reads(most: nat, error: bool)            // bytes are ready
    | Wakes                                    // the immediate event of the receiver

  predicate Fits(alignment: nat, e: Event) {
    match e
    case Sends(data, _) =>
      |data| >= WORD && RoundUp(|data|, alignment) < 0x1_0000_0000 && (alignment == 0 ==> PacketOk(data))
    case Reads(most, _) => most > 0
    case _ => true
  }

  /** What was sent, as it goes over the wire. */
  function Sent(alignment: nat, events: seq<Event>): seq<Bytes> {
    if events == [] then [] else Sent(alignment, events[..|events| - 1]) + Given(alignment, events[|events| - 1])
  }

  function Given(alignment: nat, e: Event): seq<Bytes> {
    if e.Sends? && Fits(alignment, e) then [Padded(e.data, alignment)] else []
  }

  lemma SentNext(alignment: nat, events: seq<Event>, i: nat)
    requires i < |events|
    ensures events[i] in events
    ensures Sent(alignment, events[..i + 1]) == Sent(alignment, events[..i]) + Given(alignment, events[i])
  {
    assert events[..i + 1][..i] == events[..i];
  }

  lemma {:induction false} SentOk(alignment: nat, events: seq<Event>)
    ensures forall p <- Sent(alignment, events) :: PacketOk(p)
  {
    if events != [] { SentOk(alignment, events[..|events| - 1]); }
  }

  /** While the connection holds, the packets accepted are the packets sent, in
      order; once it has failed they are some of them. */
  ghost predicate Linked(tx: OutQueue, rx: InQueue, sent: seq<Bytes>)
    reads tx, rx, rx.data
  {
    && tx.Valid() && rx.Valid() && rx.received <= tx.wire <= Flatten(tx.accepted)
    && (tx.open ==> tx.accepted == sent) && forall p <- tx.accepted :: p in sent
  }

  method Exchange(alignment: nat, events: seq<Event>) returns (tx: OutQueue, rx: InQueue)
    requires forall e <- events :: Fits(alignment, e)
    ensures tx.alignment == alignment && Linked(tx, rx, Sent(alignment, events))
    ensures rx.delivered <= tx.accepted
    ensures tx.open ==> tx.accepted == Sent(alignment, events)
    ensures tx.open && tx.out == [] && rx.received == tx.wire && !Complete(rx.Content()) ==>
              rx.delivered == Sent(alignment, events) && rx.Content() == []
  {
    tx := new OutQueue(alignment);
    rx := new InQueue();
    var i, at := 0, 0;
    while i < |events|
      invariant i <= |events| && fresh(tx) && fresh(rx) && tx.alignment == alignment
      invariant (rx.data == null || fresh(rx.data)) && at == |rx.received|
      invariant Linked(tx, rx, Sent(alignment, events[..i]))
    {
      SentNext(alignment, events, i);
      at := OneEvent(tx, rx, Sent(alignment, events[..i]), at, events[i]);
      i := i + 1;
    }
    assert events[..i] == events;
    SentOk(alignment, events);
    Arrived(tx, rx, Sent(alignment, events));
  }

  method OneEvent(tx: OutQueue, rx: InQueue, ghost sent: seq<Bytes>, at: nat, e: Event) returns (next: nat)
    requires Linked(tx, rx, sent) && at == |rx.received| && Fits(tx.alignment, e)
    modifies tx, rx, rx.data
    ensures Linked(tx, rx, sent + Given(tx.alignment, e)) && next == |rx.received|
    ensures rx.data == null || rx.data == old(rx.data) || fresh(rx.data)
  {
    next := at;
    assert sent + [] == sent;
    match e {
      case Sends(data, result) => SendOne(tx, rx, sent, data, result);
      case Writes(results) => if tx.open { ghost var _ := tx.IoWrite(results); }
      case Reads(most, error) => next := ReadSome(tx, rx, sent, at, most, error);
      case Wakes => if rx.scheduled { rx.ProcessEvent(); }
    }
  }

  method SendOne(tx: OutQueue, rx: InQueue, ghost sent: seq<Bytes>, data: Bytes, result: WriteResult)
    requires Linked(tx, rx, sent) && Fits(tx.alignment, Sends(data, result))
    modifies tx
    ensures Linked(tx, rx, sent + [Padded(data, tx.alignment)])
  {
    ghost var p := Padded(data, tx.alignment);
    ghost var old1 := tx.accepted;
    tx.Send(data, result);
    FlattenAdd(old1, [p]);
  }

  /** The socket has the bytes that were written and not yet read. */
  method ReadSome(tx: OutQueue, rx: InQueue, ghost sent: seq<Bytes>, at: nat, most: nat, error: bool)
    returns (next: nat)
    requires Linked(tx, rx, sent) && most > 0 && at == |rx.received|
    modifies rx, rx.data
    ensures Linked(tx, rx, sent) && (rx.data == null || rx.data == old(rx.data) || fresh(rx.data))
            && next == |rx.received|
  {
    ghost var got := rx.received;
    var taken := rx.IoRead(tx.wire[at..], most, error);
    assert got + tx.wire[at..][..taken] == tx.wire[..at + taken];
    next := at + taken;
  }

  lemma Arrived(tx: OutQueue, rx: InQueue, sent: seq<Bytes>)
    requires Linked(tx, rx, sent) && forall p <- sent :: PacketOk(p)
    ensures rx.delivered <= tx.accepted
    ensures tx.open && tx.out == [] && rx.received == tx.wire && !Complete(rx.Content()) ==>
            rx.delivered == sent && rx.Content() == []
  {
    var content := rx.Content();
    SplitsMeans(rx.received, rx.delivered, content);
    ReadPrefix(tx.accepted, rx.received);
    if tx.open && tx.out == [] && rx.received == tx.wire && !Complete(content) {
      RoundTrip(tx.accepted, tx.out, tx.wire, rx.received, rx.delivered, content);
    }
  }
}
