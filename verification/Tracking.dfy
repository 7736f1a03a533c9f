/** The tracking record of a delegated key: a bitmap of node numbers, and the
    child that waits for the answers of the nodes found in it. */
module Tracking {
  import opened Ltdb
  import opened Protocol

  /** 1 << j for a bit of a byte. */
  function Mask(j: nat): (m: bv8)
    requires j < 8
    ensures m == 1 << j
  {
    match j case 0 => 1 case 1 => 2 case 2 => 4 case 3 => 8 case 4 => 16 case 5 => 32 case 6 => 64 case _ => 128
  }

  predicate Tracked(data: seq<bv8>, pnn: nat) {
    pnn / 8 < |data| && data[pnn / 8] & Mask(pnn % 8) != 0
  }

  /** The nodes a tracking record stands for. */
  ghost function Bits(data: seq<bv8>): set<nat> {
    set k: nat | 0 <= k < 8 * |data| && Tracked(data, k)
  }

  lemma SetBit(b: bv8, j: nat, k: nat)
    requires j < 8 && k < 8
    ensures (b | Mask(j)) & Mask(k) != 0 <==> j == k || b & Mask(k) != 0
  {
  }

  /** Adding a node grows the bitmap when needed and sets exactly its bit. */
  method AddPnn(data: seq<bv8>, pnn: nat) returns (r: seq<bv8>)
    ensures Bits(r) == Bits(data) + {pnn}
    ensures |r| == if pnn / 8 < |data| then |data| else pnn / 8 + 1
  {
    var bytePos, bitMask := pnn / 8, Mask(pnn % 8);
    r := data;
    if bytePos + 1 > |r| {
      r := r + seq(bytePos + 1 - |r|, _ => 0);
    }
    ghost var grown := r;
    r := r[bytePos := r[bytePos] | bitMask];
    forall k: nat ensures Tracked(r, k) <==> Tracked(data, k) || k == pnn {
      BitAdded(data, grown, r, pnn, k);
    }
  }

  /** One bit after the growth and the update. */
  lemma BitAdded(data: seq<bv8>, grown: seq<bv8>, r: seq<bv8>, pnn: nat, k: nat)
    requires |data| <= |grown| && pnn / 8 < |grown| && grown[..|data|] == data
    requires forall m | |data| <= m < |grown| :: grown[m] == 0
    requires r == grown[pnn / 8 := grown[pnn / 8] | Mask(pnn % 8)]
    ensures Tracked(r, k) <==> Tracked(data, k) || k == pnn
  {
    if k / 8 == pnn / 8 { SetBit(grown[pnn / 8], pnn % 8, k % 8); }
    if k / 8 < |data| { assert grown[..|data|][k / 8] == data[k / 8]; }
  }

  predicate Ascending(s: seq<nat>) { forall i, j | 0 <= i < j < |s| :: s[i] < s[j] }

  ghost function Firsts(s: seq<nat>, n: nat): set<nat>
    requires n <= |s|
  {
    set k | k in s[..n]
  }

  lemma NextFirst(s: seq<nat>, n: nat)
    requires n < |s| && Ascending(s)
    ensures s[n] !in Firsts(s, n) && Firsts(s, n + 1) == Firsts(s, n) + {s[n]}
  {
    assert s[..n + 1] == s[..n] + [s[n]];
    assert forall k | 0 <= k < n :: s[k] < s[n];
  }

  /** The traverse calls back once for every tracked node, in ascending order. */
  method Traverse(data: seq<bv8>) returns (visited: seq<nat>)
    ensures Ascending(visited)
    ensures Firsts(visited, |visited|) == Bits(data)
  {
    visited := [];
    for i := 0 to |data|
      invariant Ascending(visited) && forall m | 0 <= m < |visited| :: visited[m] < 8 * i
      invariant forall k: nat :: k in visited <==> k < 8 * i && Tracked(data, k)
    {
      for j := 0 to 8
        invariant Ascending(visited) && forall m | 0 <= m < |visited| :: visited[m] < 8 * i + j
        invariant forall k: nat :: k in visited <==> k < 8 * i + j && Tracked(data, k)
      {
        assert (8 * i + j) / 8 == i && (8 * i + j) % 8 == j;
        if data[i] & Mask(j) != 0 {
          visited := visited + [8 * i + j];
        }
      }
    }
  }

  /** The state of a revoke child; `waiting` and `refused` are what its counter
      and status stand for. */
  class RevokeState {
    var count: int
    var status: int
    var finished: bool
    const rsn: int
    const data: Data
    ghost var waiting: set<nat>
    ghost var refused: bool

    ghost predicate Valid()
      reads this
    {
      count == |waiting| && status <= 0 && (status != 0 <==> refused)
    }

    ghost function View(): Revoke
      reads this
    {
      Running(rsn, data, waiting, refused)
    }

    constructor (rsn: int, data: Data)
      ensures Valid() && !finished && View() == Running(rsn, data, {}, false)
    {
      this.rsn, this.data := rsn, data;
      count, status, finished := 0, 0, false;
      waiting, refused := {}, false;
    }

    /** One push: a node is counted exactly when the push was sent. */
    method SendCb(pnn: nat, sent: bool)
      requires Valid() && pnn !in waiting
      modifies this
      ensures Valid() && finished == old(finished)
      ensures View() == if sent then Running(rsn, data, old(waiting) + {pnn}, old(refused))
              else Running(rsn, data, old(waiting), true)
    {
      if !sent {
        status, refused := -1, true;
        return;
      }
      count := count + 1;
      waiting := waiting + {pnn};
    }

    /** One answer: the child is finished exactly when the last node answered. */
    method UpdateRecordCb(pnn: nat, ok: bool)
      requires Valid() && pnn in waiting
      modifies this
      ensures Valid()
      ensures View() == Running(rsn, data, old(waiting) - {pnn}, old(refused) || !ok)
      ensures finished <==> old(finished) || waiting == {}
    {
      if !ok {
        status, refused := -1, true;
      }
      count := count - 1;
      waiting := waiting - {pnn};
      assert |waiting| == 0 <==> waiting == {};
      if count <= 0 {
        finished := true;
      }
    }

    method Timeout()
      requires Valid()
      modifies this
      ensures Valid() && finished && View() == Running(rsn, data, old(waiting), true)
    {
      finished := true;
      status, refused := -1, true;
    }
  }

  /** What reaches the child: an answer of a node, or its deadline. */
  datatype Wakeup = Answer(pnn: nat, ok: bool) | Deadline

  /** The answers, up to the moment the child stops listening, in which every
      asked node answered well and the deadline did not come first. */
  predicate AllWell(waiting: set<nat>, events: seq<Wakeup>)
    decreases |events|
  {
    if waiting == {} then true
    else if events == [] || events[0].Deadline? || !events[0].ok then false
    else AllWell(waiting - {events[0].pnn}, events[1..])
  }

  /** Each asked node answers at most once, and only asked nodes answer. */
  predicate FromAsked(waiting: set<nat>, events: seq<Wakeup>)
    decreases |events|
  {
    events == [] || events[0].Deadline?
    || (events[0].pnn in waiting && FromAsked(waiting - {events[0].pnn}, events[1..]))
  }

  ghost function Asked(nodes: set<nat>, sent: nat -> bool): set<nat> {
    set k | k in nodes && sent(k)
  }

  ghost function Unsent(nodes: set<nat>, sent: nat -> bool): set<nat> {
    set k | k in nodes && !sent(k)
  }

  lemma OneMore(nodes: set<nat>, t: nat, sent: nat -> bool)
    ensures Asked(nodes + {t}, sent) == if sent(t) then Asked(nodes, sent) + {t} else Asked(nodes, sent)
    ensures Unsent(nodes + {t}, sent) == if sent(t) then Unsent(nodes, sent) else Unsent(nodes, sent) + {t}
  {
  }

  /** Push to every tracked node; those whose push could not be sent spoil the status. */
  method PushAll(st: RevokeState, tracked: seq<bv8>, sent: nat -> bool)
    requires st.Valid() && !st.finished && st.View() == Running(st.rsn, st.data, {}, false)
    modifies st
    ensures st.Valid() && !st.finished
    ensures st.View() == Running(st.rsn, st.data, Asked(Bits(tracked), sent), Unsent(Bits(tracked), sent) != {})
  {
    var nodes := Traverse(tracked);
    for i := 0 to |nodes|
      invariant st.Valid() && !st.finished
      invariant st.View() == Running(st.rsn, st.data, Asked(Firsts(nodes, i), sent),
                                     Unsent(Firsts(nodes, i), sent) != {})
    {
      NextFirst(nodes, i);
      PushOne(st, Firsts(nodes, i), nodes[i], sent);
    }
  }

  method PushOne(st: RevokeState, ghost done: set<nat>, t: nat, sent: nat -> bool)
    requires st.Valid() && t !in done
    requires st.View() == Running(st.rsn, st.data, Asked(done, sent), Unsent(done, sent) != {})
    modifies st
    ensures st.Valid() && st.finished == old(st.finished)
    ensures st.View() == Running(st.rsn, st.data, Asked(done + {t}, sent), Unsent(done + {t}, sent) != {})
  {
    OneMore(done, t, sent);
    st.SendCb(t, sent(t));
  }

  /** A child whose pushes all went out, and the nodes it waits for. */
  method StartChild(rsn: int, data: Data, tracked: seq<bv8>) returns (child: RevokeState, nodes: seq<nat>)
    ensures fresh(child) && child.Valid() && child.View() == Running(rsn, data, Bits(tracked), false)
    ensures Ascending(nodes) && Firsts(nodes, |nodes|) == Bits(tracked)
  {
    child := new RevokeState(rsn, data);
    PushAll(child, tracked, (k: nat) => true);
    assert Asked(Bits(tracked), (k: nat) => true) == Bits(tracked) && Unsent(Bits(tracked), (k: nat) => true) == {};
    nodes := Traverse(tracked);
  }

  /** Listen until the last asked node answered or the deadline came. */
  method Listen(st: RevokeState, events: seq<Wakeup>)
    requires st.Valid() && !st.finished && FromAsked(st.waiting, events)
    modifies st
    ensures st.Valid() && st.finished
    ensures st.refused <==> old(st.refused) || old(st.waiting) == {} || !AllWell(old(st.waiting), events)
  {
    var k := 0;
    ghost var bad := false;
    while !st.finished && k < |events|
      invariant 0 <= k <= |events| && st.Valid()
      invariant st.refused <==> old(st.refused) || bad
      invariant !st.finished && old(st.waiting) != {} ==> st.waiting != {}
      invariant old(st.waiting) == {} ==> st.waiting == {} && (st.finished ==> bad)
      invariant old(st.waiting) != {} ==>
                (AllWell(old(st.waiting), events) <==> !bad && AllWell(st.waiting, events[k..]))
      invariant st.finished ==> bad || st.waiting == {}
      invariant !st.finished ==> FromAsked(st.waiting, events[k..])
      decreases |events| - k
    {
      var ev := events[k];
      assert events[k..][0] == ev && events[k..][1..] == events[k + 1..];
      if ev.Deadline? {
        st.Timeout();
        bad := true;
      } else {
        st.UpdateRecordCb(ev.pnn, ev.ok);
        bad := bad || !ev.ok;
      }
      k := k + 1;
    }
    if !st.finished { st.Timeout(); }
  }

  /** The revoke succeeds exactly when some node was tracked, every push was
      sent and every node answered well before the deadline. */
  method RevokeAll(data: seq<bv8>, sent: nat -> bool, events: seq<Wakeup>) returns (status: int)
    requires FromAsked(Asked(Bits(data), sent), events)
    ensures status == 0 <==> Bits(data) != {} && (forall k <- Bits(data) :: sent(k)) && AllWell(Bits(data), events)
  {
    var st := new RevokeState(0, []);
    PushAll(st, data, sent);
    assert Unsent(Bits(data), sent) == {} <==> forall k <- Bits(data) :: sent(k) by {
      if !(forall k <- Bits(data) :: sent(k)) {
        var k :| k in Bits(data) && !sent(k);
        assert k in Unsent(Bits(data), sent);
      }
    }
    assert Unsent(Bits(data), sent) == {} ==> Asked(Bits(data), sent) == Bits(data);
    Listen(st, events);
    status := st.status;
  }
}
