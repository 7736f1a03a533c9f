/** The packet queue on a socket: the input buffer with the packets cut out of
    it, and the output queue with its partial writes. */
module PacketQueue {
  import opened PacketStream

  const QUEUE_BUFFER_SIZE := 16 * 1024

  class InQueue {
    var data: array?<Ltdb.byte>
    var length: nat
    var size: nat
    var extend: nat
    var scheduled: bool           // queue_process_event is due
    var delivered: seq<Bytes>     // callbacks with a packet
    var failures: nat             // callbacks without one
    ghost var received: Bytes     // all bytes read from the socket

    constructor ()
      ensures Valid() && received == [] && delivered == [] && data == null && fresh(this)
    {
      data, length, size, extend, scheduled, delivered, failures := null, 0, 0, 0, false, [], 0;
      received := [];
    }

    ghost function Content(): Bytes
      reads this, data
    {
      if data == null || data.Length < length then [] else data[..length]
    }

    ghost predicate Memory()
      reads this, data
    {
      && (data == null ==> length == 0 && size == 0 && extend == 0)
      && (data != null ==> data.Length == size && length <= size && QUEUE_BUFFER_SIZE <= size)
      && (extend > 0 ==> length >= WORD && Size(Content()) == extend && length < extend && QUEUE_BUFFER_SIZE < extend)
    }

    ghost predicate Stream()
      reads this, data
    {
      Splits(received, delivered, Content())
    }

    /** A waiting packet has its event; an unfinished one has room to grow. */
    ghost predicate Live()
      reads this, data
    {
      && (Complete(Content()) ==> scheduled)
      && (!Complete(Content()) && !Bad(Content()) ==> data == null || extend > 0 || length < size)
    }

    ghost predicate Valid()
      reads this, data
    {
      Memory() && Stream() && Live()
    }

    /** Cuts the first packet, of n bytes, out of the buffer. */
    method Extract(n: nat) returns (packet: Bytes)
      requires Memory() && extend == 0 && 0 < n <= length
      modifies this`length, data
      ensures Memory() && data == old(data)
      ensures packet == old(Content())[..n] && Content() == old(Content())[n..]
    {
      packet := data[..n];
      var rest := length - n;
      forall i | 0 <= i < rest { data[i] := data[i + n]; }
      length := rest;
      assert Content() == old(Content())[n..];
    }

    /** queue_process: one packet at most; what is left is processed by an event
        of its own. */
    method Process()
      requires Memory() && Stream()
      modifies this, data
      ensures Valid() && received == old(received)
      ensures data == old(data) || data == null
      ensures var c := old(Content());
              && delivered == old(delivered) + (if Complete(c) then [c[..Size(c)]] else [])
              && failures == old(failures) + (if Bad(c) then 1 else 0)
              && Content() == (if Complete(c) then c[Size(c)..] else c)
              && (Complete(c) && Content() == [] ==> data == null || size <= QUEUE_BUFFER_SIZE)
              && (!Complete(c) ==> scheduled == old(scheduled))
    {
      if length < WORD {
        return;
      }
      var pktSize := Size(data[..length]);
      if pktSize == 0 {
        failures := failures + 1;
        return;
      }
      if length < pktSize {
        if pktSize > QUEUE_BUFFER_SIZE {
          extend := pktSize;
        }
        return;
      }
      SplitsExtract(received, delivered, Content());
      var packet := Extract(pktSize);
      if length > 0 {
        scheduled := true;
      } else {
        if size > QUEUE_BUFFER_SIZE {
          data, size := null, 0;
        }
      }
      assert Content() == old(Content())[pktSize..];
      delivered := delivered + [packet];
    }

    /** queue_process_event */
    method ProcessEvent()
      requires Valid() && scheduled
      modifies this, data
      ensures Valid() && received == old(received) && (data == old(data) || data == null)
      ensures var c := old(Content());
              && delivered == old(delivered) + (if Complete(c) then [c[..Size(c)]] else [])
              && failures == old(failures) + (if Bad(c) then 1 else 0)
    {
      scheduled := false;
      Process();
    }

    /** The start of queue_io_read: a fresh buffer, or one of the size asked for. */
    method Prepare()
      requires Memory() && Live()
      modifies this`data, this`size, this`extend
      ensures Memory() && data != null && (data == old(data) || fresh(data)) && extend == 0
              && Content() == old(Content())
      ensures !Complete(Content()) && !Bad(Content()) ==> length < size
    {
      if data == null {
        data := new Ltdb.byte[QUEUE_BUFFER_SIZE];
        size := QUEUE_BUFFER_SIZE;
      } else if extend > 0 {
        var bigger := new Ltdb.byte[extend];
        forall i | 0 <= i < length { bigger[i] := data[i]; }
        assert bigger[..length] == data[..length];
        data := bigger;
        size := extend;
        extend := 0;
      }
    }

    /** queue_io_read, with ready the bytes waiting on the socket and most the
        largest number the read gives back. */
    method IoRead(ready: Bytes, most: nat, error: bool) returns (taken: nat)
      requires Valid() && most > 0
      modifies this, data
      ensures Valid() && taken <= |ready| && received == old(received) + ready[..taken]
      ensures ready != [] && !error && !Complete(old(Content())) && !Bad(old(Content())) ==> taken > 0
      ensures ready == [] ==> failures == old(failures) + 1 && delivered == old(delivered)
      ensures ready != [] && error && !Complete(old(Content())) && !Bad(old(Content())) ==>
                taken == 0 && failures == old(failures) + 1 && delivered == old(delivered)
      ensures ready != [] && !error ==>
                var c := old(Content()) + ready[..taken];
                && delivered == old(delivered) + (if Complete(c) then [c[..Size(c)]] else [])
                && failures == old(failures) + (if Bad(c) then 1 else 0)
      ensures data == null || data == old(data) || fresh(data)
    {
      if ready == [] {
        failures := failures + 1;
        return 0;
      }
      var ok;
      ok, taken := Fetch(ready, most, error);
      if !ok {
        failures := failures + 1;
        return;
      }
      Process();
    }

    /** Reads as much as there is room for; a buffer without room is left alone. */
    method Fetch(ready: Bytes, most: nat, error: bool) returns (ok: bool, taken: nat)
      requires Valid() && most > 0 && ready != []
      modifies this`data, this`size, this`extend, this`length, this`received, data
      ensures Memory() && Stream() && (data == old(data) || fresh(data)) && (!ok ==> Live())
      ensures taken <= |ready| && received == old(received) + ready[..taken]
      ensures Content() == old(Content()) + ready[..taken]
      ensures !ok ==> error && taken == 0
      ensures !Complete(old(Content())) && !Bad(old(Content())) ==> if error then !ok else taken > 0
    {
      ghost var c := Content();
      Prepare();
      var avail := size - length;
      var num := if |ready| > avail then avail else |ready|;
      assert c + ready[..0] == c;
      if num == 0 {
        return true, 0;
      }
      if error {
        return false, 0;
      }
      taken := if most < num then most else num;
      Append(ready[..taken]);
      ok := true;
    }

    /** What the read system call does to the buffer. */
    method Append(bytes: Bytes)
      requires Memory() && Stream() && data != null && extend == 0 && length + |bytes| <= size
      modifies this`length, this`received, data
      ensures Memory() && Stream() && Content() == old(Content()) + bytes && received == old(received) + bytes
    {
      SplitsAppend(received, delivered, Content(), bytes);
      forall i | 0 <= i < |bytes| { data[length + i] := bytes[i]; }
      length := length + |bytes|;
      assert Content() == old(Content()) + bytes;
      received := received + bytes;
    }
  }

  // ---- sending

  /** What the write system call answers: bytes taken, try again, or failure. */
  datatype WriteResult = Wrote(n: nat) | Again | Error

  datatype Pkt = Pkt(data: Bytes, full: nat)

  /** The source masks with ~(alignment - 1); alignments are powers of two. The
      result is the least multiple of the alignment that is not below n. */
  function RoundUp(n: nat, alignment: nat): (r: nat)
    ensures alignment > 0 ==> n <= r < n + alignment && exists k: nat :: r == alignment * k
    ensures alignment == 0 ==> r == n
  {
    if alignment == 0 then n
    else
      var m := n + alignment - 1;
      assert m - m % alignment == alignment * (m / alignment);
      m - m % alignment
  }

  /** The packet as it goes out: with an alignment, zeros fill it up and its
      first word says the padded length. */
  function Padded(data: Bytes, alignment: nat): (p: Bytes)
    requires |data| >= WORD && RoundUp(|data|, alignment) < 0x1_0000_0000
    ensures |p| == RoundUp(|data|, alignment) && p[WORD..|data|] == data[WORD..]
    ensures forall i | |data| <= i < |p| :: p[i] == 0
    ensures alignment > 0 ==> PacketOk(p)
    ensures alignment == 0 ==> p == data
  {
    var n := RoundUp(|data|, alignment);
    var zeros := seq(n - |data|, _ => 0 as Ltdb.byte);
    if alignment == 0 then data + zeros
    else SizeWord(n) + data[WORD..] + zeros
  }

  /** out[i] is the end of the packet it stands for, and all of it unless it is
      the first of an open connection. */
  ghost predicate PktOk(accepted: seq<Bytes>, out: seq<Pkt>, open: bool, i: nat)
    requires |out| <= |accepted| && i < |out|
  {
    var a, d := accepted[|accepted| - |out| + i], out[i].data;
    && out[i].full == |a| && 0 < |d| <= |a| && d == a[|a| - |d|..]
    && (i > 0 || !open ==> |d| == |a|)
  }

  /** The bytes still to be written. */
  ghost function Remaining(out: seq<Pkt>): Bytes {
    if out == [] then [] else out[0].data + Remaining(out[1..])
  }

  lemma {:induction false} RemainingAdd(out: seq<Pkt>, p: Pkt)
    ensures Remaining(out + [p]) == Remaining(out) + p.data
  {
    if out == [] {
      assert out + [p] == [p];
    } else {
      RemainingAdd(out[1..], p);
      assert (out + [p])[1..] == out[1..] + [p];
      assert out[0].data + (Remaining(out[1..]) + p.data) == (out[0].data + Remaining(out[1..])) + p.data;
    }
  }

  lemma MoveOver(wire: Bytes, d: Bytes, rest: Bytes, n: nat)
    requires n <= |d|
    ensures (wire + d[..n]) + (d[n..] + rest) == wire + (d + rest)
  {
    assert d == d[..n] + d[n..];
  }

  ghost function Taken(out: seq<Pkt>, n: nat): seq<Pkt>
    requires out != [] && n <= |out[0].data|
  {
    if n != |out[0].data| then out[0 := Pkt(out[0].data[n..], out[0].full)] else out[1..]
  }

  lemma Advanced(accepted: seq<Bytes>, out: seq<Pkt>, wire: Bytes, n: nat)
    requires 0 < |out| <= |accepted| && 0 < n <= |out[0].data| && wire + Remaining(out) == Flatten(accepted)
    requires forall i {:trigger PktOk(accepted, out, true, i)} | 0 <= i < |out| :: PktOk(accepted, out, true, i)
    ensures var o := Taken(out, n);
            && wire + out[0].data[..n] + Remaining(o) == Flatten(accepted)
            && forall i {:trigger PktOk(accepted, o, true, i)} | 0 <= i < |o| :: PktOk(accepted, o, true, i)
  {
    var d, o := out[0].data, Taken(out, n);
    MoveOver(wire, d, Remaining(out[1..]), n);
    assert Remaining(o) == d[n..] + Remaining(out[1..]);
    forall i | 0 <= i < |o| ensures PktOk(accepted, o, true, i) { TakenOk(accepted, out, n, i); }
  }

  lemma TakenOk(accepted: seq<Bytes>, out: seq<Pkt>, n: nat, i: nat)
    requires 0 < |out| <= |accepted| && 0 < n <= |out[0].data| && i < |Taken(out, n)|
    requires forall k {:trigger PktOk(accepted, out, true, k)} | 0 <= k < |out| :: PktOk(accepted, out, true, k)
    ensures PktOk(accepted, Taken(out, n), true, i)
  {
    if n == |out[0].data| {
      assert PktOk(accepted, out, true, i + 1);
    } else {
      assert PktOk(accepted, out, true, i);
    }
  }

  lemma EnqueueWire(wire: Bytes, rest: Bytes, packet: Bytes, n: nat)
    requires n < |packet| && (n > 0 ==> rest == [])
    ensures (wire + packet[..n]) + (rest + packet[n..]) == (wire + rest) + packet
  {
    assert packet == packet[..n] + packet[n..];
  }

  lemma {:induction false} Unwritten(accepted: seq<Bytes>, out: seq<Pkt>)
    requires |accepted| == |out| && forall i | 0 <= i < |out| :: accepted[i] == out[i].data
    ensures Remaining(out) == Flatten(accepted)
  {
    if out != [] { Unwritten(accepted[1..], out[1..]); }
  }

  ghost predicate Queued(accepted: seq<Bytes>, out: seq<Pkt>, open: bool) {
    && |accepted| == |out|
    && forall i {:trigger PktOk(accepted, out, open, i)} | 0 <= i < |out| :: PktOk(accepted, out, open, i)
  }

  /** What is queued is the packets themselves, or too short by what was written. */
  lemma Requeued(accepted: seq<Bytes>, out: seq<Pkt>, open: bool)
    requires Queued(accepted, out, open)
    ensures Remaining(out) == Flatten(accepted) <==> Whole(out)
    ensures Whole(out) ==> Queued(accepted, out, true)
  {
    forall i | 0 < i < |out| ensures accepted[i] == out[i].data { assert PktOk(accepted, out, open, i); }
    if out != [] {
      assert PktOk(accepted, out, open, 0);
      Unwritten(accepted[1..], out[1..]);
    }
    if Whole(out) {
      forall i | 0 <= i < |out| ensures PktOk(accepted, out, true, i) { assert PktOk(accepted, out, open, i); }
    } else {
      HeadIsShort(accepted, out, open);
    }
  }

  lemma HeadIsShort(accepted: seq<Bytes>, out: seq<Pkt>, open: bool)
    requires Queued(accepted, out, open) && !Whole(out)
    ensures out != [] && |out[0].data| < |accepted[0]|
  {
    var i :| 0 <= i < |out| && |out[i].data| != out[i].full;
    assert PktOk(accepted, out, open, i);
  }

  predicate Whole(out: seq<Pkt>) {
    forall i | 0 <= i < |out| :: |out[i].data| == out[i].full
  }

  /** The first k packets are taken whole by as many writes. */
  ghost predicate TookAll(out: seq<Pkt>, results: seq<WriteResult>, k: nat) {
    k <= |out| && k <= |results| && forall j | 0 <= j < k :: results[j].Wrote? && |out[j].data| <= results[j].n
  }

  /** The writes end with packet k: there is none, there is no answer, or the answer
      is not the whole packet. A failure closes the connection and drops the packet if
      it was half written; what a short write took goes to the wire. */
  ghost predicate EndsAt(was: seq<Pkt>, results: seq<WriteResult>, k: nat, out: seq<Pkt>, open: bool, wrote: Bytes)
    requires TookAll(was, results, k)
  {
    var rest, before := was[k..], Remaining(was[..k]);
    if rest == [] || k == |results| || results[k].Again? then out == rest && open && wrote == before
    else if results[k].Error? then
      !open && wrote == before && out == if |rest[0].data| == rest[0].full then rest else rest[1..]
    else
      var m := results[k].n;
      && m < |rest[0].data| && open && wrote == before + rest[0].data[..m]
      && out == [Pkt(rest[0].data[m..], rest[0].full)] + rest[1..]
  }

  /** Without a half-written head, every queued packet is whole. */
  lemma WholeLeft(accepted: seq<Bytes>, was: seq<Pkt>, out: seq<Pkt>)
    requires |was| <= |accepted|
    requires forall i {:trigger PktOk(accepted, was, true, i)} | 0 <= i < |was| :: PktOk(accepted, was, true, i)
    requires out == if was != [] && |was[0].data| != was[0].full then was[1..] else was
    ensures Whole(out)
    ensures forall i {:trigger PktOk(accepted, out, false, i)} | 0 <= i < |out| :: PktOk(accepted, out, false, i)
  {
    forall i | 0 <= i < |out| ensures PktOk(accepted, out, false, i) {
      assert PktOk(accepted, was, true, i + |was| - |out|);
    }
    forall i | 0 <= i < |out| ensures |out[i].data| == out[i].full { assert PktOk(accepted, out, false, i); }
  }

  class OutQueue {
    var out: seq<Pkt>
    var open: bool
    var dead: bool                  // queue_dead is due
    var writeable: bool             // the event loop waits for room to write
    const alignment: nat
    ghost var accepted: seq<Bytes>  // packets meant for this connection
    var wire: Bytes                 // bytes the connection has taken

    constructor (alignment: nat)
      ensures Valid() && open && out == [] && accepted == [] && wire == [] && this.alignment == alignment
    {
      this.alignment := alignment;
      out, open, dead, writeable, accepted, wire := [], true, false, false, [], [];
    }

    ghost predicate Valid()
      reads this
    {
      Framed() && (open ==> (writeable <==> out != []))
    }

    /** The queue holds the last packets accepted, whole but for the first one;
        what is on the wire and what is queued make up the packets accepted. */
    ghost predicate Framed()
      reads this
    {
      && |out| <= |accepted|
      && (forall i {:trigger PktOk(accepted, out, open, i)} | 0 <= i < |out| :: PktOk(accepted, out, open, i))
      && (open ==> wire + Remaining(out) == Flatten(accepted))
    }

    ghost predicate AllWhole()
      reads this
    {
      Whole(out)
    }

    /** One answer of the write loop: n bytes of the first packet are taken. */
    method Advance(n: nat)
      requires Framed() && open && out != [] && 0 < n <= |out[0].data|
      modifies this`out, this`wire
      ensures Framed() && wire == old(wire) + old(out)[0].data[..n] && out == Taken(old(out), n)
    {
      var pkt := out[0];
      Advanced(accepted, out, wire, n);
      wire := wire + pkt.data[..n];
      out := if n != |pkt.data| then out[0 := Pkt(pkt.data[n..], pkt.full)] else out[1..];
    }

    /** A failed write closes the connection; a half-written packet is dropped. */
    method Fail()
      requires Framed() && open
      modifies this`out, this`open, this`dead
      ensures Framed() && !open && dead && AllWhole()
      ensures out == if old(out) != [] && |old(out)[0].data| != old(out)[0].full then old(out)[1..] else old(out)
      ensures wire <= Flatten(accepted)
    {
      ghost var was := out;
      if out != [] && |out[0].data| != out[0].full {
        out := out[1..];
      }
      open, dead := false, true;
      WholeLeft(accepted, was, out);
    }

    /** One write of queue_io_write; answers whether it took the whole packet. */
    method WriteHead(result: WriteResult) returns (more: bool)
      requires Framed() && open && out != []
      modifies this`out, this`open, this`dead, this`wire
      ensures Framed() && more == (result.Wrote? && |old(out)[0].data| <= result.n)
      ensures open == !result.Error? && dead == (old(dead) || result.Error?)
      ensures !open ==> AllWhole() && wire <= Flatten(accepted)
      ensures var head, rest := old(out)[0], old(out)[1..];
              match result
              case Error => wire == old(wire) && out == if |head.data| == head.full then old(out) else rest
              case Again => wire == old(wire) && out == old(out)
              case Wrote(m) =>
                if |head.data| <= m then wire == old(wire) + head.data && out == rest
                else wire == old(wire) + head.data[..m] && out == [Pkt(head.data[m..], head.full)] + rest
    {
      var pkt := out[0];
      assert PktOk(accepted, out, open, 0);
      match result {
        case Error => Fail(); return false;
        case Again => return false;
        case Wrote(m) =>
          var n := if m <= |pkt.data| then m else |pkt.data|;
          assert n == 0 ==> out == [Pkt(pkt.data[0..], pkt.full)] + out[1..];
          if n == 0 { return false; }
          Advance(n);
          more := n == |pkt.data|;
      }
    }

    /** queue_io_write; results are the answers of the write calls in turn, and
        when they run out the socket takes no more. k packets are written whole. */
    method IoWrite(results: seq<WriteResult>) returns (ghost k: nat)
      requires Valid() && open
      modifies this`out, this`open, this`dead, this`wire, this`writeable
      ensures Valid() && old(wire) <= wire <= Flatten(accepted) && (!open ==> AllWhole())
      ensures dead <==> old(dead) || !open
      ensures TookAll(old(out), results, k)
      ensures EndsAt(old(out), results, k, out, open, wire[|old(wire)|..])
    {
      var i := 0;
      ghost var was, from := out, wire;
      assert was[..0] == [] && wire + [] == wire;
      while out != []
        invariant Framed() && open && dead == old(dead) && writeable == old(writeable)
        invariant TookAll(was, results, i) && out == was[i..] && wire == from + Remaining(was[..i])
        invariant out != [] ==> writeable
        decreases |out|
      {
        k := i;
        if i == |results| { return; }
        ghost var pkt := out[0];
        var more := WriteHead(results[i]);
        if !more { return; }
        assert was[..i + 1] == was[..i] + [pkt];
        RemainingAdd(was[..i], pkt);
        i := i + 1;
      }
      k := i;
      writeable := false;
    }

    /** The end of ctdb_queue_send: what the socket did not take is queued. */
    method Enqueue(packet: Bytes, n: nat)
      requires Valid() && n < |packet| && (n > 0 ==> out == [] && open)
      modifies this`out, this`wire, this`accepted, this`writeable
      ensures Valid() && accepted == old(accepted) + [packet]
      ensures out == old(out) + [Pkt(packet[n..], |packet|)] && wire == old(wire) + packet[..n]
    {
      ghost var was, acc := out, accepted;
      RemainingAdd(out, Pkt(packet[n..], |packet|));
      FlattenAdd(accepted, [packet]);
      FlattenOne(packet);
      EnqueueWire(wire, Remaining(out), packet, n);
      if out == [] && open { writeable := true; }
      out := out + [Pkt(packet[n..], |packet|)];
      accepted := accepted + [packet];
      wire := wire + packet[..n];
      forall i | 0 <= i < |out| ensures PktOk(accepted, out, open, i) {
        if i < |was| { assert PktOk(acc, was, open, i); }
      }
    }

    /** ctdb_queue_send; result is the answer to the immediate write, which is
        only made on an open connection with nothing queued. */
    method Send(data: Bytes, result: WriteResult)
      requires Valid() && |data| >= WORD && RoundUp(|data|, alignment) < 0x1_0000_0000
      modifies this
      ensures Valid() && old(wire) <= wire && (old(open) ==> wire <= Flatten(accepted))
      ensures !open <==> !old(open) || (old(out) == [] && result.Error?)
      ensures dead <==> old(dead) || (old(open) && !open)
      ensures old(open) && !open ==> accepted == old(accepted) && out == [] && wire == old(wire)
      ensures open == old(open) ==> accepted == old(accepted) + [Padded(data, alignment)]
      ensures open && old(out) == [] && result.Wrote? ==>
                var packet := Padded(data, alignment); var k := if result.n <= |packet| then result.n else |packet|;
                wire == old(wire) + packet[..k] && out == if k == |packet| then [] else [Pkt(packet[k..], |packet|)]
      ensures open == old(open) && !(open && old(out) == [] && result.Wrote?) ==>
                var packet := Padded(data, alignment);
                wire == old(wire) && out == old(out) + [Pkt(packet, |packet|)]
    {
      var packet := Padded(data, alignment);
      var n := 0;
      if out == [] && open {
        match result {
          case Error =>
            Fail();
            return;
          case Again =>
          case Wrote(m) =>
            n := if m <= |packet| then m else |packet|;
        }
        if n == |packet| {
          FlattenAdd(accepted, [packet]);
          FlattenOne(packet);
          accepted := accepted + [packet];
          assert wire + Remaining(out) == wire;
          wire := wire + packet;
          assert wire + Remaining(out) == wire;
          return;
        }
      }
      Enqueue(packet, n);
      assert packet[0..] == packet;
    }

    /** queue_dead: the owner of the queue is told. */
    method QueueDead()
      requires Valid() && dead
      modifies this`dead
      ensures Valid() && !dead
    {
      dead := false;
    }

    /** ctdb_queue_set_fd with a new connection. The packets still queued are meant
        for it now; it will get them, and nothing else, exactly when none was
        half written. */
    method SetFd()
      requires Valid()
      modifies this
      ensures open && out == old(out) && wire == [] && (writeable <==> out != []) && dead == old(dead)
      ensures |out| <= |old(accepted)| && accepted == old(accepted)[|old(accepted)| - |out|..]
      ensures Valid() <==> old(AllWhole())
      ensures Remaining(out) == Flatten(accepted) <==> old(AllWhole())
    {
      ghost var mine := accepted[|accepted| - |out|..];
      forall i | 0 <= i < |out| ensures PktOk(mine, out, open, i) { assert PktOk(accepted, out, open, i); }
      Requeued(mine, out, open);
      accepted, open, writeable, wire := mine, true, out != [], [];
    }
  }

  // ---- both ends together

  /** With the receiver's bytes a beginning of the sender's, packets arrive in
      order and unchanged; once everything written has been read and processed,
      all packets have arrived. */
  lemma RoundTrip(accepted: seq<Bytes>, out: seq<Pkt>, wire: Bytes, received: Bytes, delivered: seq<Bytes>,
                  content: Bytes)
    requires (forall p <- accepted :: PacketOk(p)) && wire + Remaining(out) == Flatten(accepted)
    requires Splits(received, delivered, content) && received <= wire
    ensures delivered <= accepted
    ensures received == wire && out == [] && !Complete(content) ==> delivered == accepted && content == []
  {
    SplitsMeans(received, delivered, content);
    assert wire <= Flatten(accepted);
    ReadPrefix(accepted, received);
    if received == wire && out == [] && !Complete(content) {
      AllArrived(accepted, received, delivered, content);
    }
  }
}
