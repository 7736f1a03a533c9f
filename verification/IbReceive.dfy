/** The receiving side of the InfiniBand wrapper: messages are put together
    again from the fragments that arrive. */
module IbReceive {
  import opened PacketStream

  class Part {
    var buf: Bytes                // the first len bytes of the part's buffer
    var toRead: nat
    var bufsize: nat
    var delivered: seq<Bytes>     // calls of receive_func
    ghost var received: Bytes

    constructor ()
      ensures Valid() && received == [] && delivered == [] && buf == []
    {
      buf, toRead, bufsize, delivered, received := [], 0, 0, [], [];
    }

    /** What an unfinished message still needs: its length word, or the rest. */
    ghost predicate Awaits()
      reads this
    {
      if buf == [] then toRead == 0
      else if |buf| < WORD then toRead == WORD - |buf|
      else Size(buf) >= WORD && toRead == Size(buf) - |buf| && toRead > 0
    }

    ghost predicate Valid()
      reads this
    {
      Awaits() && Splits(received, delivered, buf) && |buf| <= bufsize
    }

    /** ibw_append_to_part */
    method AppendToPart(bytes: Bytes)
      requires |bytes| <= toRead && |buf| <= bufsize
      modifies this`buf, this`toRead, this`bufsize
      ensures buf == old(buf) + bytes && toRead == old(toRead) - |bytes| && |buf| <= bufsize && bufsize >= old(bufsize)
    {
      if |buf| + |bytes| > bufsize {
        bufsize := |buf| + |bytes|;
      }
      buf := buf + bytes;
      toRead := toRead - |bytes|;
    }

    /** receive_func is given a whole message. */
    method Deliver(msg: Bytes)
      requires msg != [] && Splits(received, delivered, msg) && PacketOk(msg)
      modifies this`delivered
      ensures Splits(received, delivered, []) && delivered == old(delivered) + [msg]
    {
      SplitsExtract(received, delivered, msg);
      delivered := delivered + [msg];
      assert msg[..|msg|] == msg && msg[|msg|..] == [];
    }

    /** Takes bytes that continue the unfinished message. */
    method Continue(bytes: Bytes)
      requires Valid() && buf != [] && 0 < |bytes| <= toRead
      modifies this`buf, this`toRead, this`bufsize, this`received
      ensures buf == old(buf) + bytes && toRead == old(toRead) - |bytes| && |buf| <= bufsize
      ensures received == old(received) + bytes && Splits(received, delivered, buf)
      ensures |buf| >= WORD && |old(buf)| >= WORD ==> Size(buf) == Size(old(buf))
    {
      SplitsAppend(received, delivered, buf, bytes);
      AppendToPart(bytes);
      received := received + bytes;
    }

    /** Once the length word is there, the rest of the message is awaited; a
        whole message is delivered. */
    method Finish(threshold: nat) returns (ok: bool)
      requires buf != [] && |buf| <= bufsize && Splits(received, delivered, buf)
      requires |buf| < WORD ==> toRead == WORD - |buf|
      requires |buf| == WORD ==> toRead == 0 || (Size(buf) >= WORD && toRead == Size(buf) - |buf|)
      requires |buf| > WORD ==> Size(buf) >= WORD && toRead == Size(buf) - |buf|
      modifies this`buf, this`toRead, this`bufsize, this`delivered
      ensures ok ==> Valid()
      ensures bufsize == if ok && buf == [] && old(bufsize) > threshold then threshold else old(bufsize)
      ensures !ok ==> buf == old(buf) && |buf| == WORD && Size(buf) < WORD && Splits(received, delivered, buf)
    {
      if |buf| <= WORD && toRead == 0 {
        toRead := Size(buf);
        if toRead < WORD {
          return false;
        }
        toRead := toRead - WORD;
      }
      if toRead == 0 {
        Deliver(buf);
        buf := [];
        if bufsize > threshold {
          bufsize := threshold;
        }
      }
      ok := true;
    }

    /** The start of a message, none being unfinished. Returns how many of the
        bytes it took. */
    method Begin(bytes: Bytes) returns (ok: bool, taken: nat)
      requires Valid() && buf == [] && bytes != []
      modifies this`buf, this`toRead, this`bufsize, this`delivered, this`received
      ensures ok ==> Valid() && 0 < taken <= |bytes| && received == old(received) + bytes[..taken]
      ensures !ok ==> taken == 0 && |bytes| >= WORD && Size(bytes) < WORD
                      && received == old(received) && buf == [] && Splits(received, delivered, buf)
    {
      if |bytes| >= WORD {
        var msglen := Size(bytes);
        if msglen < WORD {
          return false, 0;
        }
        if msglen <= |bytes| {
          var msg := bytes[..msglen];
          SplitsAppend(received, delivered, [], msg);
          assert [] + msg == msg && Size(msg) == msglen;
          received := received + msg;
          Deliver(msg);
          return true, msglen;
        }
        toRead := msglen;
      } else {
        toRead := WORD;
      }
      SplitsAppend(received, delivered, buf, bytes);
      AppendToPart(bytes);
      received := received + bytes;
      assert bytes[..|bytes|] == bytes && buf == bytes;
      return true, |bytes|;
    }

    /** A length word below 4 stands where the next message begins. */
    ghost predicate Broken(rest: Bytes)
      reads this
    {
      Splits(received, delivered, buf) && |buf + rest| >= WORD && Size(buf + rest) < WORD
    }

    /** One round of the receive loop on the bytes not yet taken. */
    method Round(rest: Bytes, threshold: nat) returns (ok: bool, taken: nat)
      requires Valid() && rest != []
      modifies this
      ensures taken <= |rest| && received == old(received) + rest[..taken]
      ensures ok ==> Valid() && taken > 0
      ensures !ok ==> Broken(rest[taken..])
    {
      if buf != [] {
        taken := if toRead <= |rest| then toRead else |rest|;
        Continue(rest[..taken]);
        ok := Finish(threshold);
        assert !ok ==> (buf + rest[taken..])[..WORD] == buf;
      } else {
        ok, taken := Begin(rest);
        assert !ok ==> [] + rest[0..] == rest && rest[..0] == [];
      }
    }

    /** ibw_wc_recv: one fragment. After a failure, used bytes were taken and the
        next message begins with a bad length. */
    method WcRecv(frag: Bytes, threshold: nat) returns (ok: bool, ghost used: nat)
      requires Valid()
      modifies this
      ensures used <= |frag| && received == old(received) + frag[..used]
      ensures ok ==> Valid() && used == |frag|
      ensures !ok ==> Broken(frag[used..])
    {
      var rest := frag;
      used := 0;
      while rest != []
        invariant used <= |frag| && rest == frag[used..] && Valid() && received == old(received) + frag[..used]
        decreases |rest|
      {
        var fine, taken := Round(rest, threshold);
        assert frag[..used] + rest[..taken] == frag[..used + taken];
        assert rest[taken..] == frag[used + taken..];
        rest := rest[taken..];
        used := used + taken;
        if !fine {
          return false, used;
        }
      }
      return true, used;
    }
  }

  /** Messages whose length words are right never lead to a failure. */
  lemma {:induction false} NeverFails(msgs: seq<Bytes>, received: Bytes, delivered: seq<Bytes>, rest: Bytes)
    requires (forall p <- msgs :: PacketOk(p)) && Splits(received, delivered, rest) && received <= Flatten(msgs)
    ensures |rest| >= WORD ==> Size(rest) >= WORD
    decreases |delivered|
  {
    if msgs == [] {
      assert received == [];
    } else {
      var n := |msgs[0]|;
      assert PacketOk(msgs[0]);
      if |received| >= WORD { assert received[..WORD] == msgs[0][..WORD]; }
      if delivered != [] {
        assert Size(received) == n;
        assert Flatten(msgs)[n..] == Flatten(msgs[1..]);
        NeverFails(msgs[1..], received[n..], delivered[1..], rest);
      }
    }
  }
}
