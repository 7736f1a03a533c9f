/** Which lock requests can be called back twice: those held by a context without
    auto-mark, and no others. */
module LockTwice {
  import opened LockQueue
  import opened LockRuns

  ghost predicate Held(s: State, r: nat) {
    (exists c <- s.pending :: r in c.reqs) || (exists c <- s.current :: r in c.reqs)
  }

  /** A run leads from w to a second callback of r. */
  ghost predicate LeadsTwice(w: World, r: nat, ws: seq<World>, es: seq<Event>) {
    Run(ws, es) && ws[0] == w && Times(ws[|es|], r) >= 2
  }

  ghost predicate CanBeTwice(w: World, r: nat) { exists ws, es :: LeadsTwice(w, r, ws, es) }

  // ---- no others

  /** What no event changes. */
  ghost predicate Since(w: World, t: World, r: nat) {
    && w.made <= t.made
    && (!Held(w.s, r) ==> !Held(t.s, r) && Times(t, r) == Times(w, r))
  }

  lemma StepSince(w: World, e: Event, r: nat)
    requires Fair(w) && Enabled(w, e) && r < |w.made|
    ensures Since(w, Next(w, e), r)
  {
    if !Held(w.s, r) {
      var t := Next(w, e);
      forall c | c in t.s.pending || c in t.s.current ensures r !in c.reqs { StepReqs(w, e, c, r); }
      if e.Told? { assert w.s.current[e.i] in w.s.current; }
    }
  }

  /** No event puts an old request into a context. */
  lemma StepReqs(w: World, e: Event, c: Ctx, r: nat)
    requires Fair(w) && Enabled(w, e) && r < |w.made| && !Held(w.s, r)
    requires var t := Next(w, e); c in t.s.pending || c in t.s.current
    ensures r !in c.reqs
  {
    match e
    case Asked(lock, autoMark) =>
      var j := Join(w.s, lock, autoMark, |w.made|);
      JoinClean(w.s, lock, autoMark, |w.made|);
      ScheduleMoves(j, c);
      var i := Find(w.s.pending, lock);
      if i >= 0 { assert w.s.pending[i] in w.s.pending; }
    case Told(i) => assert w.s.current[i] in w.s.current;
    case Died(i) => assert w.s.current[i] in w.s.current;
    case Freed(i) => FreeMoves(w.s, i, c);
    case Cancelled(i, x) =>
      assert w.s.pending[i] in w.s.pending;
      WithoutFrom(w.s.pending[i].reqs, x, r);
    case Withdrawn(i, x) =>
      var d := w.s.current[i];
      assert d in w.s.current;
      WithoutFrom(d.reqs[..d.told], x, r);
      WithoutFrom(d.reqs[d.told..], x, r);
  }

  lemma {:induction false} RunSince(ws: seq<World>, es: seq<Event>, k: nat, i: nat, r: nat)
    requires Run(ws, es) && k <= i < |ws| && r < |ws[k].made|
    ensures Since(ws[k], ws[i], r)
  {
    if i > k {
      RunSince(ws, es, k, i - 1, r);
      RunIsFair(ws, es, i - 1);
      StepSince(ws[i - 1], es[i - 1], r);
    }
  }

  lemma OnlyUnmarked(w: World, r: nat)
    requires Fair(w) && r < |w.made| && Times(w, r) < 2 && CanBeTwice(w, r)
    ensures Held(w.s, r) && !w.made[r].marked
  {
    var ws, es :| LeadsTwice(w, r, ws, es);
    RunSince(ws, es, 0, |es|, r);
    RunIsFair(ws, es, |es|);
    assert Once(ws[|es|], r);
  }

  // ---- all of those

  lemma Already(w: World, r: nat)
    requires Fair(w) && Times(w, r) >= 2
    ensures CanBeTwice(w, r)
  {
    assert LeadsTwice(w, r, [w], []);
  }

  lemma ByStep(w: World, e: Event, r: nat)
    requires Fair(w) && Enabled(w, e) && CanBeTwice(Next(w, e), r)
    ensures CanBeTwice(w, r)
  {
    var ws, es :| LeadsTwice(Next(w, e), r, ws, es);
    var us, fs := [w] + ws, [e] + es;
    forall i | 0 <= i < |fs| ensures Enabled(us[i], fs[i]) && us[i + 1] == Next(us[i], fs[i]) {
      if i > 0 { assert us[i] == ws[i - 1] && fs[i] == es[i - 1] && us[i + 1] == ws[i]; }
    }
    assert LeadsTwice(w, r, us, fs);
  }

  /** The callbacks r has had, one if it is still to come in this round, and n more
      rounds make two. */
  ghost predicate Enough(w: World, i: nat, r: nat, n: nat)
    requires i < |w.s.current| && w.s.current[i].told <= |w.s.current[i].reqs|
  {
    var c := w.s.current[i];
    Times(w, r) + (if r in c.reqs[c.told..] then 1 else 0) + n >= 2
  }

  lemma {:induction false} RoundsDo(w: World, i: nat, r: nat, n: nat)
    requires Fair(w) && i < |w.s.current| && !w.s.current[i].autoMark && r in w.s.current[i].reqs
    requires w.s.current[i].told <= |w.s.current[i].reqs| && Enough(w, i, r, n)
    ensures CanBeTwice(w, r)
    decreases n, |w.s.current[i].reqs| - w.s.current[i].told
  {
    var c := w.s.current[i];
    if Times(w, r) >= 2 {
      Already(w, r);
    } else if c.told < |c.reqs| {
      var t := Next(w, Told(i));
      ToldFair(w, i);
      assert c.reqs[c.told..] == [c.reqs[c.told]] + c.reqs[c.told + 1..];
      RoundsDo(t, i, r, n);
      ByStep(w, Told(i), r);
    } else {
      var t := Next(w, Died(i));
      DiedFair(w, i);
      assert c.reqs[0..] == c.reqs;
      RoundsDo(t, i, r, n - 1);
      ByStep(w, Died(i), r);
    }
  }

  lemma {:induction false} WalkHolds(pending: seq<Ctx>, current: seq<Ctx>, c: Ctx)
    requires c in pending && c.reqs != []
    ensures var v := Walk(pending, current); c in v.rest || c in v.found
  {
    if pending[0] != c { WalkHolds(pending[1..], current, c); }
  }

  /** Freeing a context leaves one context less, and a pending one with requests
      is still pending or has become current. */
  lemma FreeLeaves(s: State, i: nat, c: Ctx)
    requires Clean(s) && i < |s.current| && c in s.pending && c.reqs != []
    ensures var t := Free(s, i);
            && |t.pending| + |t.current| < |s.pending| + |s.current|
            && (c in t.pending || c in t.current)
  {
    var u := s.(current := s.current[..i] + s.current[i + 1..], numCurrent := s.numCurrent - 1);
    FreedClean(s, i);
    WalkKeeps(u.pending, u.current);
    WalkHolds(u.pending, u.current, c);
  }

  lemma SomeCurrent(s: State, c: Ctx)
    requires Inv(s) && c in s.pending && c.reqs != []
    ensures s.current != []
  {
    assert Startable(s.current, c) || Find(s.current, c.lock) >= 0;
  }

  /** Sooner or later the contexts before it are freed and its child is started. */
  lemma {:induction false} PendingDoes(w: World, c: Ctx, r: nat)
    requires Fair(w) && c in w.s.pending && !c.autoMark && r in c.reqs
    ensures CanBeTwice(w, r)
    decreases |w.s.pending| + |w.s.current|,
              if w.s.current == [] then 0 else |w.s.current[0].reqs| - w.s.current[0].told
  {
    SomeCurrent(w.s, c);
    var d := w.s.current[0];
    assert d in w.s.current && Sound(d);
    if d.told < |d.reqs| {
      ToldFair(w, 0);
      PendingDoes(Next(w, Told(0)), c, r);
      ByStep(w, Told(0), r);
    } else {
      var t := Next(w, Freed(0));
      FreedFair(w, 0);
      FreeLeaves(w.s, 0, c);
      if c in t.s.pending {
        PendingDoes(t, c, r);
      } else {
        CurrentDoes(t, c, r);
      }
      ByStep(w, Freed(0), r);
    }
  }

  lemma CurrentDoes(w: World, c: Ctx, r: nat)
    requires Fair(w) && c in w.s.current && !c.autoMark && r in c.reqs
    ensures CanBeTwice(w, r)
  {
    var i :| 0 <= i < |w.s.current| && w.s.current[i] == c;
    assert Sound(c);
    RoundsDo(w, i, r, 2);
  }

  /** A request that was not called twice yet can still be, exactly when a context
      without auto-mark holds it. */
  lemma TwiceExactly(w: World, r: nat)
    requires Fair(w) && r < |w.made| && Times(w, r) < 2
    ensures CanBeTwice(w, r) <==> Held(w.s, r) && !w.made[r].marked
  {
    if CanBeTwice(w, r) { OnlyUnmarked(w, r); }
    if Held(w.s, r) && !w.made[r].marked {
      if c :| c in w.s.pending && r in c.reqs {
        assert Filed(w.made, c);
        PendingDoes(w, c, r);
      } else {
        var c :| c in w.s.current && r in c.reqs;
        assert Filed(w.made, c);
        CurrentDoes(w, c, r);
      }
    }
  }

  /** Asking for auto-mark does not help a request that joins a context without:
      the mark is that of the request that made the context. */
  lemma MarkIsShared(w: World, lock: Lock)
    requires Fair(w) && var i := Find(w.s.pending, lock); i >= 0 && !w.s.pending[i].autoMark
    ensures var t, r := Next(w, Asked(lock, true)), |w.made|;
            r < |t.made| && t.made[r].autoMark && CanBeTwice(t, r)
  {
    var t, r, i := Next(w, Asked(lock, true)), |w.made|, Find(w.s.pending, lock);
    var j := Join(w.s, lock, true, r);
    assert j.pending[i] in j.pending && j.pending[i].reqs == w.s.pending[i].reqs + [r];
    AskedFair(w, lock, true);
    WalkHolds(j.pending, j.current, j.pending[i]);
    assert Times(t, r) == 0 by { assert r !in w.calls; }
    TwiceExactly(t, r);
  }
}
