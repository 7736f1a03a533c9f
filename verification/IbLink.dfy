/** Both ends of an InfiniBand connection in one run: for any order of sends,
    completions and receptions, the messages that were sent arrive. */
module IbLink {
  import opened PacketStream
  import opened IbSend
  import opened IbSendInv
  import opened IbConn
  import opened IbReceive

  datatype Traffic =
    | Sends(msg: Bytes)        // ibw_alloc_send_buf and ibw_send
    | Completes(id: nat)       // a posted fragment of the slot is completed
    | Receives(threshold: nat) // the next posted fragment arrives

  function Sent(events: seq<Traffic>): seq<Bytes> {
    if events == [] then [] else Sent(events[..|events| - 1]) + Given(events[|events| - 1])
  }

  function Given(e: Traffic): seq<Bytes> { if e.Sends? then [e.msg] else [] }

  lemma SentNext(events: seq<Traffic>, i: nat)
    requires i < |events|
    ensures events[i] in events && Sent(events[..i + 1]) == Sent(events[..i]) + Given(events[i])
  {
    assert events[..i + 1][..i] == events[..i];
  }

  // ---- what was posted stays posted

  lemma {:induction false} FragsPosts(s: Sender, id: nat, at: nat)
    requires id in s.slots && at < |s.slots[id].msg| && s.bufsize > 0
    ensures s.posts <= SendFrags(s, id, at).posts
    decreases |s.slots[id].msg| - at
  {
    if |s.slots[id].msg| - at > s.bufsize {
      FragsPosts(AddRef(SendPacket(s, id, at, s.bufsize), id, 1), id, at + s.bufsize);
    }
  }

  lemma SendPosts(s: Sender, id: nat, msg: Bytes)
    requires id in s.slots && s.bufsize > 0 && |msg| > 0
    ensures s.posts <= Send(s, id, msg).posts
  {
    if |msg| > s.bufsize { FragsPosts(Filled(s, id, msg), id, 0); }
  }

  lemma DonePosts(s: Sender, id: nat, t: Sender)
    requires Inv(s) && Step(s, Done(id), t)
    ensures s.posts <= t.posts && t.messages == s.messages
  {
    CompleteDue(s, id);
    ProcessKeepsInv(Completed(s, id));
    DoneMessages(s, id);
    ProcessPosts(Completed(s, id));
  }

  lemma ProcessPosts(s: Sender)
    requires s.queue != [] ==>
               s.queue[0] in s.slots && s.slots[s.queue[0]].queuedRef > 0
               && s.slots[s.queue[0]].queuedAt + NextLen(s, s.queue[0]) <= |s.slots[s.queue[0]].msg|
    ensures s.posts <= ProcessQueue(s).posts
  {
  }

  lemma AllocPosts(s: Sender, len: nat, t: Sender)
    requires Inv(s) && Step(s, Alloc(len), t)
    ensures t.posts == s.posts
  {
  }

  // ---- the run

  /** The receiver has taken the first fragments the sender posted. */
  ghost predicate Linked(conn: Conn, part: Part, taken: nat, sent: seq<Bytes>)
    reads conn, part
  {
    && Inv(conn.View()) && AllOk(conn.messages) && conn.messages == sent
    && part.Valid() && taken <= |conn.posts| && part.received == Posted(conn.posts[..taken])
  }

  method Exchange(max: nat, bufsize: nat, events: seq<Traffic>) returns (conn: Conn, part: Part, taken: nat)
    requires max > 0 && bufsize > 0 && forall e <- events :: e.Sends? ==> PacketOk(e.msg)
    ensures Linked(conn, part, taken, Sent(events))
    ensures part.delivered <= Sent(events)
    ensures taken == |conn.posts| && conn.queue == [] ==> part.delivered == Sent(events) && part.buf == []
  {
    conn := new Conn(max, bufsize);
    part := new Part();
    taken := 0;
    var i := 0;
    while i < |events|
      invariant i <= |events| && fresh(conn) && fresh(part) && Linked(conn, part, taken, Sent(events[..i]))
    {
      SentNext(events, i);
      taken := OneEvent(conn, part, taken, Sent(events[..i]), events[i]);
      i := i + 1;
    }
    assert events[..i] == events;
    Arrived(conn, part, taken, Sent(events));
  }

  method OneEvent(conn: Conn, part: Part, taken: nat, ghost sent: seq<Bytes>, e: Traffic) returns (next: nat)
    requires Linked(conn, part, taken, sent) && (e.Sends? ==> PacketOk(e.msg))
    modifies conn, part
    ensures Linked(conn, part, next, sent + Given(e))
  {
    next := taken;
    match e {
      case Sends(msg) => SendOne(conn, part, taken, sent, msg);
      case Completes(id) => CompleteOne(conn, part, taken, sent, id);
      case Receives(threshold) => next := ReceiveOne(conn, part, taken, sent, threshold);
    }
  }

  method SendOne(conn: Conn, part: Part, taken: nat, ghost sent: seq<Bytes>, msg: Bytes)
    requires Linked(conn, part, taken, sent) && PacketOk(msg)
    modifies conn
    ensures Linked(conn, part, taken, sent + [msg])
  {
    ghost var posts := conn.posts;
    ghost var s := conn.View();
    var id := conn.AllocSendBuf(|msg|);
    AllocKeepsInv(s, |msg|, conn.View());
    AllocPosts(s, |msg|, conn.View());
    SendPosts(conn.View(), id, msg);
    conn.Send(id, msg);
    assert conn.posts[..taken] == posts[..taken];
  }

  method CompleteOne(conn: Conn, part: Part, taken: nat, ghost sent: seq<Bytes>, id: nat)
    requires Linked(conn, part, taken, sent)
    modifies conn
    ensures Linked(conn, part, taken, sent + [])
  {
    ghost var s, posts := conn.View(), conn.posts;
    assert sent + [] == sent;
    if id in conn.inflight {
      conn.WcSend(id);
      DonePosts(s, id, conn.View());
      assert conn.posts[..taken] == posts[..taken];
    }
  }

  method ReceiveOne(conn: Conn, part: Part, taken: nat, ghost sent: seq<Bytes>, threshold: nat) returns (next: nat)
    requires Linked(conn, part, taken, sent)
    modifies part
    ensures Linked(conn, part, next, sent + [])
  {
    next := taken;
    assert sent + [] == sent;
    if taken < |conn.posts| {
      ghost var had := part.received;
      var frag := conn.posts[taken].bytes;
      var ok, used := part.WcRecv(frag, threshold);
      PostedPrefix(conn.posts, taken + 1);
      assert conn.posts[..taken + 1][..taken] == conn.posts[..taken];
      assert had + frag == Posted(conn.posts[..taken + 1]);
      assert frag[..used] + frag[used..] == frag && part.received + frag[used..] == had + frag;
      ReceiverNeverFails(conn.View(), part.received, part.delivered, part.buf, frag[used..]);
      next := taken + 1;
    }
  }

  lemma {:induction false} PostedPrefix(posts: seq<Frag>, n: nat)
    requires n <= |posts|
    ensures Posted(posts[..n]) <= Posted(posts)
    decreases |posts|
  {
    if n < |posts| {
      PostedPrefix(posts[..|posts| - 1], n);
      assert posts[..|posts| - 1][..n] == posts[..n];
    } else {
      assert posts[..n] == posts;
    }
  }

  lemma Arrived(conn: Conn, part: Part, taken: nat, sent: seq<Bytes>)
    requires Linked(conn, part, taken, sent)
    ensures part.delivered <= sent
    ensures taken == |conn.posts| && conn.queue == [] ==> part.delivered == sent && part.buf == []
  {
    PostedPrefix(conn.posts, taken);
    assert conn.posts[..|conn.posts|] == conn.posts;
    Arrival(conn.View(), part.received, part.delivered, part.buf);
  }
}
