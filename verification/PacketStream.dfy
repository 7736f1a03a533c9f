/** Packets on a byte stream. A packet begins with its own length, as a 32-bit
    little-endian word. */
module PacketStream {
  import Ltdb

  type Bytes = seq<Ltdb.byte>

  const WORD := 4

  /** The length a packet announces. */
  function Size(s: Bytes): (n: nat)
    requires |s| >= WORD
    ensures n < 0x1_0000_0000
  {
    s[0] as nat + 0x100 * (s[1] as nat) + 0x1_0000 * (s[2] as nat) + 0x100_0000 * (s[3] as nat)
  }

  function SizeWord(n: nat): (s: Bytes)
    requires n < 0x1_0000_0000
    ensures |s| == WORD && Size(s) == n
  {
    var q1, q2, q3 := n / 0x100, n / 0x100 / 0x100, n / 0x100 / 0x100 / 0x100;
    assert n == 0x100 * q1 + n % 0x100 && q1 == 0x100 * q2 + q1 % 0x100 && q2 == 0x100 * q3 + q2 % 0x100;
    [(n % 0x100) as Ltdb.byte, (q1 % 0x100) as Ltdb.byte, (q2 % 0x100) as Ltdb.byte, q3 as Ltdb.byte]
  }

  predicate PacketOk(p: Bytes) { |p| >= WORD && Size(p) == |p| }

  function Flatten(ps: seq<Bytes>): Bytes {
    if ps == [] then [] else ps[0] + Flatten(ps[1..])
  }

  lemma {:induction false} FlattenAdd(a: seq<Bytes>, b: seq<Bytes>)
    ensures Flatten(a + b) == Flatten(a) + Flatten(b)
  {
    if a == [] {
      assert a + b == b;
    } else {
      FlattenAdd(a[1..], b);
      assert (a + b)[1..] == a[1..] + b;
      assert a[0] + (Flatten(a[1..]) + Flatten(b)) == (a[0] + Flatten(a[1..])) + Flatten(b);
    }
  }

  lemma FlattenOne(p: Bytes)
    ensures Flatten([p]) == p
  {
    assert Flatten([p]) == p + Flatten([]);
  }

  // ---- the reference reading of a stream

  /** A whole packet stands at the front. */
  predicate Complete(s: Bytes) { |s| >= WORD && 0 < Size(s) <= |s| }

  /** A zero length word: the reader can only report failure. */
  predicate Bad(s: Bytes) { |s| >= WORD && Size(s) == 0 }

  function Packets(s: Bytes): seq<Bytes>
    decreases |s|
  {
    if !Complete(s) then [] else [s[..Size(s)]] + Packets(s[Size(s)..])
  }

  function Tail(s: Bytes): Bytes
    decreases |s|
  {
    if !Complete(s) then s else Tail(s[Size(s)..])
  }

  /** Nothing is lost and nothing is made up. */
  lemma {:induction false} PacketsAndTail(s: Bytes)
    ensures Flatten(Packets(s)) + Tail(s) == s && !Complete(Tail(s))
    decreases |s|
  {
    if Complete(s) {
      PacketsAndTail(s[Size(s)..]);
      assert Packets(s)[1..] == Packets(s[Size(s)..]);
      assert s == s[..Size(s)] + s[Size(s)..];
    }
  }

  /** More bytes behind only add packets behind. */
  lemma {:induction false} PacketsGrow(s: Bytes, more: Bytes)
    ensures Packets(s + more) == Packets(s) + Packets(Tail(s) + more)
    ensures Tail(s + more) == Tail(Tail(s) + more)
    decreases |s|
  {
    if Complete(s) {
      var n := Size(s);
      assert (s + more)[..n] == s[..n] && (s + more)[n..] == s[n..] + more;
      assert Complete(s + more) && Size(s + more) == n;
      PacketsGrow(s[n..], more);
    }
  }

  /** A stream of well-formed packets is read back packet for packet. */
  lemma {:induction false} ReadBack(ps: seq<Bytes>)
    requires forall p <- ps :: PacketOk(p)
    ensures Packets(Flatten(ps)) == ps && Tail(Flatten(ps)) == []
  {
    if ps != [] {
      var s := Flatten(ps);
      assert PacketOk(ps[0]);
      assert s[..|ps[0]|] == ps[0] && s[|ps[0]|..] == Flatten(ps[1..]);
      assert Size(s) == |ps[0]|;
      ReadBack(ps[1..]);
    }
  }

  /** From the beginning of such a stream only its first packets are read. */
  lemma {:induction false} ReadPrefix(ps: seq<Bytes>, s: Bytes)
    requires (forall p <- ps :: PacketOk(p)) && s <= Flatten(ps)
    ensures Packets(s) <= ps
    decreases |ps|
  {
    if ps != [] {
      var n := |ps[0]|;
      assert PacketOk(ps[0]);
      if |s| >= n {
        assert s[..n] == ps[0];
        assert Size(s) == n;
        assert s[n..] <= Flatten(ps[1..]) by { assert Flatten(ps)[n..] == Flatten(ps[1..]); }
        ReadPrefix(ps[1..], s[n..]);
        assert Packets(s) == [ps[0]] + Packets(s[n..]);
        assert ps == [ps[0]] + ps[1..];
      } else if |s| >= WORD {
        assert s[..WORD] == ps[0][..WORD];
        assert Size(s) == n;
      }
    }
  }

  // ---- cutting a stream while it arrives

  /** Cutting the delivered packets off the bytes received, one after the other,
      leaves the content of the buffer. */
  ghost predicate Splits(received: Bytes, delivered: seq<Bytes>, content: Bytes)
    decreases |delivered|
  {
    if delivered == [] then received == content
    else
      && Complete(received) && delivered[0] == received[..Size(received)]
      && Splits(received[Size(received)..], delivered[1..], content)
  }

  lemma {:induction false} SplitsAppend(received: Bytes, delivered: seq<Bytes>, content: Bytes, more: Bytes)
    requires Splits(received, delivered, content)
    ensures Splits(received + more, delivered, content + more)
    decreases |delivered|
  {
    if delivered != [] {
      var n := Size(received);
      assert (received + more)[..n] == received[..n] && (received + more)[n..] == received[n..] + more;
      SplitsAppend(received[n..], delivered[1..], content, more);
    }
  }

  lemma {:induction false} SplitsExtract(received: Bytes, delivered: seq<Bytes>, content: Bytes)
    requires Splits(received, delivered, content) && Complete(content)
    ensures Splits(received, delivered + [content[..Size(content)]], content[Size(content)..])
    decreases |delivered|
  {
    var one := [content[..Size(content)]];
    if delivered == [] {
      assert (delivered + one)[1..] == [];
    } else {
      SplitsExtract(received[Size(received)..], delivered[1..], content);
      assert (delivered + one)[1..] == delivered[1..] + one;
    }
  }

  /** Delivered and buffered bytes are the bytes read, and what is still in the
      buffer is cut as the whole stream would be. */
  lemma {:induction false} SplitsMeans(received: Bytes, delivered: seq<Bytes>, content: Bytes)
    requires Splits(received, delivered, content)
    ensures received == Flatten(delivered) + content
    ensures Packets(received) == delivered + Packets(content)
    decreases |delivered|
  {
    if delivered != [] {
      var n := Size(received);
      SplitsMeans(received[n..], delivered[1..], content);
      assert received == received[..n] + received[n..];
      assert delivered == [delivered[0]] + delivered[1..];
    }
  }

  lemma AllArrived(accepted: seq<Bytes>, received: Bytes, delivered: seq<Bytes>, content: Bytes)
    requires (forall p <- accepted :: PacketOk(p)) && received == Flatten(accepted) && !Complete(content)
    requires received == Flatten(delivered) + content && Packets(received) == delivered + Packets(content)
    ensures delivered == accepted && content == []
  {
    ReadBack(accepted);
    assert Packets(content) == [] && delivered + [] == delivered;
  }
}
