/** The lock scheduler as the program runs it. */
module LockScheduler {
  import opened LockQueue
  import opened LockRuns
  import opened LockTwice
  import opened LockFreed

  /** The outcome of the walk, the first i contexts being passed. */
  function Passed(p: seq<Ctx>, current: seq<Ctx>, i: nat): Scan
    requires i <= |p|
  {
    var v := Walk(p[i..], current);
    Scan(p[..i] + v.rest, v.found)
  }

  lemma EmptyOut(p: seq<Ctx>, current: seq<Ctx>, i: nat)
    requires i < |p| && p[i].reqs == []
    ensures Passed(p[..i] + p[i + 1..], current, i) == Passed(p, current, i)
  {
    var q := p[..i] + p[i + 1..];
    assert q[i..] == p[i..][1..] && q[..i] == p[..i];
  }

  lemma StopHere(p: seq<Ctx>, current: seq<Ctx>, i: nat)
    requires i < |p| && Startable(current, p[i])
    ensures Passed(p, current, i) == Scan(p[..i] + p[i + 1..], [p[i]])
  {
    assert p[i..][1..] == p[i + 1..];
  }

  lemma PassBy(p: seq<Ctx>, current: seq<Ctx>, i: nat)
    requires i < |p| && p[i].reqs != [] && !Startable(current, p[i])
    ensures Passed(p, current, i + 1) == Passed(p, current, i)
  {
    assert p[i..][1..] == p[i + 1..];
    var r := Walk(p[i + 1..], current).rest;
    assert p[..i] + ([p[i]] + r) == p[..i + 1] + r;
  }

  datatype Wanted = Wanted(lock: Lock, autoMark: bool)

  /** What the requests asked for. */
  ghost function Wants(made: seq<Request>): (ws: seq<Wanted>)
    ensures |ws| == |made| && forall k | 0 <= k < |made| :: ws[k] == Wanted(made[k].lock, made[k].autoMark)
  {
    seq(|made|, k requires 0 <= k < |made| => Wanted(made[k].lock, made[k].autoMark))
  }

  /** One list after the other. */
  ghost function InTurn(wanted: seq<seq<Wanted>>): seq<Wanted> {
    if wanted == [] then [] else InTurn(wanted[..|wanted| - 1]) + wanted[|wanted| - 1]
  }

  lemma {:induction false} InTurnNext(wanted: seq<seq<Wanted>>, j: nat, was: seq<Wanted>)
    requires j < |wanted|
    ensures was + InTurn(wanted[..j]) + wanted[j] == was + InTurn(wanted[..j + 1])
  {
    assert wanted[..j + 1][..j] == wanted[..j];
    Assoc(was, InTurn(wanted[..j]), wanted[j]);
  }

  class Scheduler {
    var pending: seq<Ctx>
    var current: seq<Ctx>
    var numPending: int
    var numCurrent: int
    var next: nat              // the next request
    var calls: seq<nat>        // callbacks made
    ghost var asked: Lock -> seq<nat>
    ghost var made: seq<Request>

    constructor ()
      ensures Valid() && pending == [] && current == []
    {
      pending, current, numPending, numCurrent, next, calls := [], [], 0, 0, 0, [];
      asked, made := _ => [], [];
    }

    ghost function View(): World
      reads this
    {
      World(State(pending, current, numPending, numCurrent), asked, made, calls)
    }

    ghost predicate Valid()
      reads this
    {
      Fair(View()) && next == |made|
    }

    /** find_lock_context */
    static method FindLockContext(list: seq<Ctx>, lock: Lock) returns (i: int)
      ensures i == Find(list, lock)
    {
      i := 0;
      while i < |list|
        invariant 0 <= i <= |list| && forall j | 0 <= j < i :: list[j].lock != lock
      {
        if list[i].lock == lock { return; }
        i := i + 1;
      }
      i := -1;
    }

    /** The walk of ctdb_lock_schedule over the pending contexts: the place of the
        first that can be started, or the end. */
    method FindStartable() returns (i: nat)
      requires pending != []
      modifies this`pending, this`numPending
      ensures i <= |pending| && numPending - |pending| == old(numPending) - |old(pending)|
      ensures var w := Walk(old(pending), current);
              if i < |pending| then w == Scan(pending[..i] + pending[i + 1..], [pending[i]]) else w == Scan(pending, [])
    {
      i := 0;
      assert pending[..0] == [] && pending[0..] == pending;
      assert [] + Walk(pending, current).rest == Walk(pending, current).rest;
      while i < |pending|
        invariant i <= |pending| && numPending - |pending| == old(numPending) - |old(pending)|
        invariant Walk(old(pending), current) == Passed(pending, current, i)
        decreases |pending| - i
      {
        if pending[i].reqs == [] {
          EmptyOut(pending, current, i);
          pending := pending[..i] + pending[i + 1..];
          numPending := numPending - 1;
        } else {
          var active := FindLockContext(current, pending[i].lock);
          if active < 0 {
            StopHere(pending, current, i);
            return;
          }
          PassBy(pending, current, i);
          i := i + 1;
        }
      }
    }

    /** ctdb_lock_schedule */
    method ScheduleChild()
      modifies this`pending, this`current, this`numPending, this`numCurrent
      ensures View().s == Schedule(old(View()).s)
    {
      if numCurrent >= MAX_LOCK_PROCESSES_PER_DB {
        return;
      }
      if pending == [] {
        return;
      }
      var i := FindStartable();
      if i == |pending| {
        assert current + [] == current;
        return;
      }
      var c := pending[i];
      pending := pending[..i] + pending[i + 1..];
      numPending := numPending - 1;
      current := current + [c];
      numCurrent := numCurrent + 1;
    }

    /** The first half of ctdb_lock_internal. */
    method JoinPending(lock: Lock, autoMark: bool, r: nat)
      modifies this`pending, this`numPending
      ensures View().s == Join(old(View()).s, lock, autoMark, r)
    {
      var i := FindLockContext(pending, lock);
      if i < 0 {
        pending := pending + [Ctx(lock, autoMark, [r], 0, false)];
        numPending := numPending + 1;
      } else {
        pending := pending[i := pending[i].(reqs := pending[i].reqs + [r])];
      }
    }

    /** ctdb_lock_internal */
    method LockInternal(lock: Lock, autoMark: bool) returns (r: nat)
      requires Valid()
      modifies this`pending, this`current, this`numPending, this`numCurrent, this`next, this`asked, this`made
      ensures Valid() && r == old(next) && next == r + 1
      ensures View() == Next(old(View()), Asked(lock, autoMark))
      ensures old(current) <= current && old(made) <= made
      ensures Wants(made) == old(Wants(made)) + [Wanted(lock, autoMark)]
    {
      r := next;
      AskedFair(View(), lock, autoMark);
      made := made + [Request(lock, autoMark, MarkFor(View().s, lock, autoMark))];
      asked := Appended(asked, lock, r);
      next := next + 1;
      JoinPending(lock, autoMark, r);
      ScheduleChild();
    }

    /** One callback of process_callbacks. */
    method CallBack(i: nat)
      requires Valid() && Enabled(View(), Told(i))
      modifies this`current, this`calls
      ensures Valid() && View() == Next(old(View()), Told(i))
      ensures calls == old(calls) + [old(current)[i].reqs[old(current)[i].told]]
    {
      ToldFair(View(), i);
      var c := current[i];
      var r := c.reqs[c.told];
      current := current[i := c.(told := c.told + 1)];
      calls := calls + [r];
    }

    /** ctdb_lock_context_destructor */
    method FreeContext(i: nat)
      requires Valid() && Enabled(View(), Freed(i))
      modifies this`pending, this`current, this`numPending, this`numCurrent
      ensures Valid() && View() == Next(old(View()), Freed(i))
    {
      FreedFair(View(), i);
      current := current[..i] + current[i + 1..];
      numCurrent := numCurrent - 1;
      ScheduleChild();
    }

    static method Place(q: seq<nat>, r: nat) returns (k: nat)
      requires r in q
      ensures k < |q| && q[k] == r
    {
      k := 0;
      while q[k] != r
        invariant k < |q| && r !in q[..k]
        decreases |q| - k
      {
        k := k + 1;
      }
    }

    /** ctdb_lock_request_destructor of a request in a pending context. */
    method CancelRequest(i: nat, r: nat)
      requires Valid() && Enabled(View(), Cancelled(i, r))
      modifies this`pending, this`asked
      ensures Valid() && View() == Next(old(View()), Cancelled(i, r)) && !Held(View().s, r)
    {
      var c := pending[i];
      CancelledFair(View(), i, r);
      FreedIsGone(View(), Cancelled(i, r), r);
      var k := Place(c.reqs, r);
      assert c in pending;
      WithoutIs(c.reqs, k);
      asked := Removed(asked, c.lock, r);
      pending := pending[i := c.(reqs := c.reqs[..k] + c.reqs[k + 1..])];
    }

    /** ctdb_lock_request_destructor of a request in an active context; a callback that
        was made counts no more. */
    method WithdrawRequest(i: nat, r: nat)
      requires Valid() && Enabled(View(), Withdrawn(i, r))
      modifies this`current, this`asked
      ensures Valid() && View() == Next(old(View()), Withdrawn(i, r)) && !Held(View().s, r)
    {
      var c := current[i];
      WithdrawnFair(View(), i, r);
      FreedIsGone(View(), Withdrawn(i, r), r);
      var k := Place(c.reqs, r);
      assert c in current;
      LeftIs(c, k);
      if r in c.reqs[c.told..] && !c.again { asked := Removed(asked, c.lock, r); }
      var told := if k < c.told then c.told - 1 else c.told;
      current := current[i := c.(reqs := c.reqs[..k] + c.reqs[k + 1..], told := told)];
    }

    /** What a callback asks for while it runs. */
    method AskAll(wanted: seq<Wanted>)
      requires Valid()
      modifies this`pending, this`current, this`numPending, this`numCurrent, this`next, this`asked, this`made
      ensures Valid() && old(current) <= current && old(made) <= made && Wants(made) == old(Wants(made)) + wanted
    {
      for k := 0 to |wanted|
        invariant Valid() && old(current) <= current && old(made) <= made
        invariant Wants(made) == old(Wants(made)) + wanted[..k]
      {
        var _ := LockInternal(wanted[k].lock, wanted[k].autoMark);
        assert old(Wants(made)) + wanted[..k] + [wanted[k]] == old(Wants(made)) + wanted[..k + 1];
      }
      assert wanted[..|wanted|] == wanted;
    }

    /** The first callbacks made for a lock. */
    ghost function Served(lock: Lock): seq<nat>
      reads this
    {
      Firsts(calls, made, lock)
    }

    /** ctdb_lock_handler: the child of context i has answered, or it has died after
        that. The callbacks may ask for further locks; wanted says what each of them
        asks for, and released whether the last one frees the context. */
    method LockHandler(i: nat, wanted: seq<seq<Wanted>>, released: bool)
      requires Valid() && i < |current| && |wanted| == |current[i].reqs|
      requires current[i].told == 0 || Enabled(View(), Died(i))
      modifies this
      ensures Valid() && calls == old(calls) + old(current)[i].reqs
      ensures Wants(made) == old(Wants(made)) + InTurn(wanted)
      ensures var c := old(current)[i];
              forall l :: Served(l) == old(Served(l)) + if l == c.lock && Fresh(c) then c.reqs else []
      ensures var c := old(current)[i];
              !c.autoMark && !released ==> i < |current| && current[i] == c.(told := |c.reqs|, again := !Fresh(c))
      ensures var c := old(current)[i]; c.autoMark || released ==> forall r <- c.reqs :: !Held(View().s, r)
    {
      var c := current[i];
      ghost var w := View();
      if c.told != 0 {
        DiedFair(View(), i);
        current := current[i := c.(told := 0, again := true)];
      }
      CallAll(i, wanted);
      forall l
        ensures Firsts(calls, made, l)
                == Firsts(w.calls, w.made, l) + if l == c.lock && Fresh(c) then c.reqs else []
      {
        RoundServes(w, i, made, l);
      }
      if c.autoMark || released {
        FreedLetsGo(View(), i);
        FreeContext(i);
      }
    }

    /** process_callbacks */
    method CallAll(i: nat, wanted: seq<seq<Wanted>>)
      requires Valid() && i < |current| && current[i].told == 0 && |wanted| == |current[i].reqs|
      modifies this
      ensures Valid() && i < |current| && current[i] == old(current)[i].(told := |old(current)[i].reqs|)
      ensures calls == old(calls) + old(current)[i].reqs && old(made) <= made
      ensures Wants(made) == old(Wants(made)) + InTurn(wanted)
    {
      var c := current[i];
      ghost var was := Wants(made);
      assert was + InTurn(wanted[..0]) == was;
      var j := 0;
      while j < |c.reqs|
        invariant Valid() && j <= |c.reqs| && i < |current| && current[i] == c.(told := j)
        invariant calls == old(calls) + c.reqs[..j] && old(made) <= made
        invariant Wants(made) == was + InTurn(wanted[..j])
      {
        CallBack(i);
        AskAll(wanted[j]);
        assert c.reqs[..j] + [c.reqs[j]] == c.reqs[..j + 1];
        InTurnNext(wanted, j, was);
        j := j + 1;
      }
      assert c.reqs[..j] == c.reqs && wanted[..j] == wanted;
    }
  }

  /** A round of callbacks serves the context's requests, in order, if it is the
      first, and nobody else. */
  lemma RoundServes(w: World, i: nat, made: seq<Request>, l: Lock)
    requires Fair(w) && i < |w.s.current| && w.made <= made
    requires w.s.current[i].told == 0 || Enabled(w, Died(i))
    ensures var c := w.s.current[i];
            Firsts(w.calls + c.reqs, made, l)
            == Firsts(w.calls, w.made, l) + if l == c.lock && Fresh(c) then c.reqs else []
  {
    var c := w.s.current[i];
    assert c in w.s.current && Filed(w.made, c) && Called(w.calls, c);
    FirstsMore(w.calls, w.made, made[|w.made|..], l);
    assert w.made + made[|w.made|..] == made;
    if Fresh(c) {
      FreshWait(w, i);
      NewOnes(w.calls, c.reqs, made, c.lock);
      FirstsNew(w.calls, c.reqs, made, c.lock, l);
    } else {
      FirstsKnown(w.calls, c.reqs, made, l);
    }
  }

  lemma FreshWait(w: World, i: nat)
    requires Fair(w) && i < |w.s.current| && Fresh(w.s.current[i])
    ensures var q := w.s.current[i].reqs; NoRepeats(q) && forall r <- q :: r !in w.calls
  {
    var c := w.s.current[i];
    var firsts, line := Firsts(w.calls, w.made, c.lock), Line(w.s, c.lock);
    assert InLine(w, c.lock) && Find(w.s.current, c.lock) == i;
    assert c.reqs <= line by { assert c.reqs[0..] == c.reqs; }
    forall j, k | 0 <= j < k < |c.reqs| ensures c.reqs[j] != c.reqs[k] {
      assert (firsts + line)[|firsts| + j] == c.reqs[j] && (firsts + line)[|firsts| + k] == c.reqs[k];
    }
    forall r <- c.reqs ensures r !in w.calls { WaitsUncalled(w, c.lock, r); }
  }

  predicate AllNew(calls: seq<nat>, q: seq<nat>, made: seq<Request>, lock: Lock)
    decreases |q|
  {
    q == [] || (IsFor(made, q[0], lock) && q[0] !in calls && AllNew(calls + [q[0]], q[1..], made, lock))
  }

  /** A context that is freed takes its requests with it. */
  lemma FreedLetsGo(w: World, i: nat)
    requires Fair(w) && Enabled(w, Freed(i))
    ensures forall r <- w.s.current[i].reqs :: !Held(Next(w, Freed(i)).s, r)
  {
    var c, t := w.s.current[i], Next(w, Freed(i));
    var left := w.s.current[..i] + w.s.current[i + 1..];
    assert c in w.s.current && Filed(w.made, c);
    forall r, d | r in c.reqs && (d in t.s.pending || d in t.s.current) ensures r !in d.reqs {
      FreeKeepsOthers(w.s, i, d);
      if d in w.s.pending {
        assert Apart(d, c);
      } else {
        var k :| 0 <= k < |left| && left[k] == d;
        assert w.s.current[if k < i then k else k + 1] == d;
        assert Filed(w.made, d);
      }
    }
  }

  lemma FreeKeepsOthers(s: State, i: nat, d: Ctx)
    requires Clean(s) && i < |s.current|
    ensures d in Free(s, i).pending || d in Free(s, i).current ==>
              d in s.pending || d in s.current[..i] + s.current[i + 1..]
  {
    ScheduleMoves(s.(current := s.current[..i] + s.current[i + 1..], numCurrent := s.numCurrent - 1), d);
  }

  lemma {:induction false} NewOnes(calls: seq<nat>, q: seq<nat>, made: seq<Request>, lock: Lock)
    requires NoRepeats(q) && forall r <- q :: IsFor(made, r, lock) && r !in calls
    ensures AllNew(calls, q, made, lock)
    decreases |q|
  {
    if q != [] {
      forall r <- q[1..] ensures IsFor(made, r, lock) && r !in calls + [q[0]] { assert r in q; }
      NewOnes(calls + [q[0]], q[1..], made, lock);
    }
  }

  lemma {:induction false} FirstsNew(calls: seq<nat>, q: seq<nat>, made: seq<Request>, lock: Lock, l: Lock)
    requires AllNew(calls, q, made, lock)
    ensures Firsts(calls + q, made, l) == Firsts(calls, made, l) + if l == lock then q else []
    decreases |q|
  {
    if q == [] {
      assert calls + q == calls;
    } else {
      assert calls + q == (calls + [q[0]]) + q[1..] && q == [q[0]] + q[1..];
      FirstsCall(calls, made, q[0], l);
      FirstsNew(calls + [q[0]], q[1..], made, lock, l);
    }
  }

  lemma {:induction false} FirstsKnown(calls: seq<nat>, q: seq<nat>, made: seq<Request>, l: Lock)
    requires forall r <- q :: r in calls
    ensures Firsts(calls + q, made, l) == Firsts(calls, made, l)
  {
    if q == [] {
      assert calls + q == calls;
    } else {
      var p, r := q[..|q| - 1], q[|q| - 1];
      assert q == p + [r] && r in q && forall x <- p :: x in q;
      FirstsKnown(calls, p, made, l);
      assert calls + q == (calls + p) + [r];
      FirstsCall(calls + p, made, r, l);
    }
  }
}
