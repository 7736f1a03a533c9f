/** A request that is freed is gone: no context holds it, it is never called again,
    and nobody else's place changes. */
module LockFreed {
  import opened LockQueue
  import opened LockRuns
  import opened LockTwice

  predicate Frees(e: Event, r: nat) { (e.Cancelled? || e.Withdrawn?) && e.r == r }

  /** q without its entry number k. */
  function CutAt(q: seq<nat>, k: nat): seq<nat>
    requires k < |q|
  {
    q[..k] + q[k + 1..]
  }

  /** r stood in p once, and q is what is left. */
  ghost predicate Cut(p: seq<nat>, q: seq<nat>, r: nat) {
    exists k | 0 <= k < |p| :: p[k] == r && r !in CutAt(p, k) && q == CutAt(p, k)
  }

  /** The context has lost r and nothing else. */
  ghost predicate Lost(c: Ctx, d: Ctx, r: nat) {
    && d.lock == c.lock && d.autoMark == c.autoMark && d.again == c.again && Cut(c.reqs, d.reqs, r)
    && c.told <= |c.reqs| && d.told == c.told - (if r in c.reqs[..c.told] then 1 else 0)
  }

  ghost predicate LostAt(list: seq<Ctx>, list': seq<Ctx>, i: nat, r: nat) {
    && i < |list| == |list'| && Lost(list[i], list'[i], r)
    && forall k | 0 <= k < |list| && k != i :: list'[k] == list[k] && r !in list[k].reqs
  }

  lemma {:induction false} WithoutIs(q: seq<nat>, k: nat)
    requires NoRepeats(q) && k < |q|
    ensures q[k] !in CutAt(q, k) && Without(q, q[k]) == CutAt(q, k)
  {
    var r, a, b := q[k], q[..k], q[k + 1..];
    assert r !in a && r !in b;
    WithoutAbsent(a, r);
    WithoutAbsent(b, r);
    WithoutFirst(b, r);
    WithoutAdd(a, [r] + b, r);
    assert q == a + ([r] + b);
  }

  lemma {:induction false} WithoutFirst(b: seq<nat>, r: nat)
    ensures Without([r] + b, r) == Without(b, r)
  {
    assert ([r] + b)[1..] == b;
  }

  lemma {:induction false} WithoutCuts(q: seq<nat>, r: nat)
    requires NoRepeats(q) && r in q
    ensures Cut(q, Without(q, r), r)
  {
    var k :| 0 <= k < |q| && q[k] == r;
    WithoutIs(q, k);
  }

  /** The entry to cut, counted from the callbacks made. */
  lemma {:induction false} LeftIs(c: Ctx, k: nat)
    requires c.told <= |c.reqs| && NoRepeats(c.reqs) && k < |c.reqs|
    ensures Left(c, c.reqs[k]) == c.(reqs := CutAt(c.reqs, k), told := if k < c.told then c.told - 1 else c.told)
  {
    var done := c.reqs[..c.told];
    LeftWithout(c, c.reqs[k]);
    WithoutIs(c.reqs, k);
    if k < c.told {
      assert forall i, j | 0 <= i < j < |done| :: done[i] == c.reqs[i] && done[j] == c.reqs[j];
      WithoutIs(done, k);
    } else {
      WithoutAbsent(done, c.reqs[k]);
    }
  }

  lemma {:induction false} LeftLost(c: Ctx, r: nat)
    requires c.told <= |c.reqs| && NoRepeats(c.reqs) && r in c.reqs
    ensures Lost(c, Left(c, r), r)
  {
    var done := c.reqs[..c.told];
    LeftWithout(c, r);
    WithoutCuts(c.reqs, r);
    if r in done {
      assert forall i, j | 0 <= i < j < |done| :: done[i] == c.reqs[i] && done[j] == c.reqs[j];
      WithoutCuts(done, r);
    } else {
      WithoutAbsent(done, r);
    }
  }

  /** Other contexts do not have the request. */
  lemma OnlyOne(w: World, r: nat, c: Ctx, d: Ctx)
    requires Fair(w) && r in c.reqs && c != d
    requires (c in w.s.pending && d in w.s.pending) || (c in w.s.current && d in w.s.current)
    ensures r !in d.reqs
  {
    assert Filed(w.made, c) && Filed(w.made, d);
  }

  lemma CancelledLost(w: World, i: nat, r: nat)
    requires Fair(w) && Enabled(w, Cancelled(i, r))
    ensures var s, t := w.s, Next(w, Cancelled(i, r)).s;
            && LostAt(s.pending, t.pending, i, r) && t.current == s.current
            && (forall c <- s.current :: r !in c.reqs) && t.numPending == s.numPending && t.numCurrent == s.numCurrent
  {
    var c := w.s.pending[i];
    assert c in w.s.pending && Fresh(c);
    WithoutCuts(c.reqs, r);
    forall d <- w.s.current ensures r !in d.reqs { assert Apart(c, d); }
    forall k | 0 <= k < |w.s.pending| && k != i ensures r !in w.s.pending[k].reqs {
      OnlyOne(w, r, c, w.s.pending[k]);
    }
  }

  lemma WithdrawnLost(w: World, i: nat, r: nat)
    requires Fair(w) && Enabled(w, Withdrawn(i, r))
    ensures var s, t := w.s, Next(w, Withdrawn(i, r)).s;
            && LostAt(s.current, t.current, i, r) && t.pending == s.pending
            && (forall c <- s.pending :: r !in c.reqs) && t.numPending == s.numPending && t.numCurrent == s.numCurrent
  {
    var c := w.s.current[i];
    assert c in w.s.current;
    LeftLost(c, r);
    forall d <- w.s.pending ensures r !in d.reqs { assert Apart(d, c); }
    forall k | 0 <= k < |w.s.current| && k != i ensures r !in w.s.current[k].reqs {
      OnlyOne(w, r, c, w.s.current[k]);
    }
  }

  lemma LostIsGone(list: seq<Ctx>, list': seq<Ctx>, i: nat, r: nat)
    requires LostAt(list, list', i, r)
    ensures forall c <- list' :: r !in c.reqs
  {
    forall c <- list' ensures r !in c.reqs {
      var k :| 0 <= k < |list'| && list'[k] == c;
    }
  }

  /** The request leaves its context, and the line of its lock if it still waited; all
      else stays as it was. */
  lemma FreedIsGone(w: World, e: Event, r: nat)
    requires Fair(w) && Enabled(w, e) && Frees(e, r)
    ensures var t := Next(w, e); Held(w.s, r) && !Held(t.s, r) && t.made == w.made && t.calls == w.calls
    ensures var s, t := w.s, Next(w, e).s;
            && t.numPending == s.numPending && t.numCurrent == s.numCurrent
            && (if e.Cancelled? then LostAt(s.pending, t.pending, e.i, r) && t.current == s.current
                else LostAt(s.current, t.current, e.i, r) && t.pending == s.pending)
    ensures forall lock :: if r in Line(w.s, lock) then Cut(w.asked(lock), Next(w, e).asked(lock), r)
                           else Next(w, e).asked(lock) == w.asked(lock)
  {
    var t := Next(w, e);
    if e.Cancelled? {
      assert w.s.pending[e.i] in w.s.pending;
      CancelledLost(w, e.i, r);
      LostIsGone(w.s.pending, t.s.pending, e.i, r);
    } else {
      assert w.s.current[e.i] in w.s.current;
      WithdrawnLost(w, e.i, r);
      LostIsGone(w.s.current, t.s.current, e.i, r);
    }
    forall lock ensures if r in Line(w.s, lock) then Cut(w.asked(lock), t.asked(lock), r)
                        else t.asked(lock) == w.asked(lock)
    {
      AskedCut(w, e, r, lock);
    }
  }

  lemma AskedCut(w: World, e: Event, r: nat, lock: Lock)
    requires Fair(w) && Enabled(w, e) && Frees(e, r)
    ensures if r in Line(w.s, lock) then Cut(w.asked(lock), Next(w, e).asked(lock), r)
            else Next(w, e).asked(lock) == w.asked(lock)
  {
    assert InLine(w, lock);
    LineOf(w, e, r, lock);
    if r in Line(w.s, lock) { WithoutCuts(w.asked(lock), r); }
  }

  /** Where it waits: in the line of its context's lock, until its first callback. */
  lemma LineOf(w: World, e: Event, r: nat, lock: Lock)
    requires Fair(w) && Enabled(w, e) && Frees(e, r)
    ensures var c := if e.Cancelled? then w.s.pending[e.i] else w.s.current[e.i];
            r in Line(w.s, lock) <==>
            lock == c.lock && (e.Cancelled? || (c.told <= |c.reqs| && r in c.reqs[c.told..] && !c.again))
  {
    var c := if e.Cancelled? then w.s.pending[e.i] else w.s.current[e.i];
    if e.Cancelled? {
      assert c in w.s.pending;
      CancelledLost(w, e.i, r);
    } else {
      assert c in w.s.current;
      WithdrawnLost(w, e.i, r);
    }
    assert Filed(w.made, c);
    if r in Line(w.s, lock) { WaitsUncalled(w, lock, r); }
    if lock == c.lock {
      if e.Cancelled? { assert Find(w.s.pending, lock) == e.i && c.reqs[0..] == c.reqs; }
      else { assert Find(w.s.current, lock) == e.i; }
      NotWaiting(w.s.pending, r, lock);
      NotWaiting(w.s.current, r, lock);
    }
  }

  lemma NotWaiting(list: seq<Ctx>, r: nat, lock: Lock)
    ensures (forall c <- list :: r !in c.reqs) ==> r !in Waiting(list, lock)
  {
    var i := Find(list, lock);
    if i >= 0 { assert list[i] in list; }
  }

  /** In every continuation of the run no context holds it again and no callback of it
      is made. */
  lemma NeverCalledAgain(ws: seq<World>, es: seq<Event>, k: nat, j: nat, r: nat)
    requires Run(ws, es) && k < j < |ws| && Frees(es[k], r)
    ensures !Held(ws[j].s, r) && Times(ws[j], r) == Times(ws[k], r)
  {
    RunIsFair(ws, es, k);
    FreedIsGone(ws[k], es[k], r);
    HeldIsMade(ws[k], r);
    RunSince(ws, es, k + 1, j, r);
  }

  lemma HeldIsMade(w: World, r: nat)
    requires Fair(w) && Held(w.s, r)
    ensures r < |w.made|
  {
    if c :| c in w.s.pending && r in c.reqs {
      assert Filed(w.made, c);
    } else {
      var c :| c in w.s.current && r in c.reqs;
      assert Filed(w.made, c);
    }
  }
}
