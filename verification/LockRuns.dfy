/** Runs of the lock scheduler: each lock's requests are called back in the order
    they came, and only those of contexts without auto-mark more than once. */
module LockRuns {
  import opened LockQueue

  /** marked: whether the context that took the request in is one with auto-mark. */
  datatype Request = Request(lock: Lock, autoMark: bool, marked: bool)

  /** made: all requests, in order, known by their number; asked: those of a lock
      that were not freed before their callback; calls: all callbacks, in order. */
  datatype World = World(s: State, asked: Lock -> seq<nat>, made: seq<Request>, calls: seq<nat>)

  predicate IsFor(made: seq<Request>, r: nat, lock: Lock) { r < |made| && made[r].lock == lock }

  /** The requests for the lock that were called back, in the order of their first
      callbacks. */
  function Firsts(calls: seq<nat>, made: seq<Request>, lock: Lock): seq<nat> {
    if calls == [] then []
    else
      var before, r := calls[..|calls| - 1], calls[|calls| - 1];
      Firsts(before, made, lock) + if IsFor(made, r, lock) && r !in before then [r] else []
  }

  function Times(w: World, r: nat): nat { multiset(w.calls)[r] }

  ghost predicate NoRepeats(q: seq<nat>) { forall i, j | 0 <= i < j < |q| :: q[i] != q[j] }

  ghost predicate InLine(w: World, lock: Lock) {
    && w.asked(lock) == Firsts(w.calls, w.made, lock) + Line(w.s, lock) && NoRepeats(w.asked(lock))
    && forall r <- w.asked(lock) :: IsFor(w.made, r, lock)
  }

  ghost predicate Lines(w: World) { forall lock :: InLine(w, lock) }

  /** The requests of a context are for its lock and under its mark. */
  ghost predicate Filed(made: seq<Request>, c: Ctx) {
    forall r <- c.reqs :: IsFor(made, r, c.lock) && made[r].marked == c.autoMark
  }

  /** Its requests up to the present one have been called. */
  ghost predicate Called(calls: seq<nat>, c: Ctx) {
    forall k | 0 <= k < |c.reqs| :: k < c.told || c.again ==> c.reqs[k] in calls
  }

  ghost predicate Once(w: World, r: nat) { r < |w.made| && w.made[r].marked ==> Times(w, r) <= 1 }

  ghost predicate Kept(w: World) {
    && (forall c <- w.s.pending :: Filed(w.made, c))
    && (forall c <- w.s.current :: Filed(w.made, c) && Called(w.calls, c))
    && (forall r <- w.calls :: r < |w.made|) && forall r: nat :: Once(w, r)
  }

  ghost predicate Apart(c: Ctx, d: Ctx) { forall r <- c.reqs :: r !in d.reqs }

  /** No request stands twice in a context, nor in a pending and a current one. */
  ghost predicate Single(s: State) {
    && (forall c <- s.pending :: NoRepeats(c.reqs)) && (forall c <- s.current :: NoRepeats(c.reqs))
    && forall c <- s.pending, d <- s.current :: Apart(c, d)
  }

  /** At rest, every lock's requests are called back in the order they came, those
      under auto-mark once, and no request is held twice. */
  ghost predicate Fair(w: World) { Inv(w.s) && Lines(w) && Kept(w) && Single(w.s) }

  function Appended(f: Lock -> seq<nat>, lock: Lock, r: nat): Lock -> seq<nat> {
    l => if l == lock then f(l) + [r] else f(l)
  }

  function Removed(f: Lock -> seq<nat>, lock: Lock, r: nat): Lock -> seq<nat> {
    l => if l == lock then Without(f(l), r) else f(l)
  }

  datatype Event =
    | Asked(lock: Lock, autoMark: bool)
    | Told(i: nat)
    | Died(i: nat)               // the child of a current context, after it has answered
    | Freed(i: nat)
    | Cancelled(i: nat, r: nat)  // a request of a pending context is freed
    | Withdrawn(i: nat, r: nat)  // a request of a current context is freed

  /** With auto-mark the handler frees the context, so nobody sees its child die.
      Requests that are freed with a context are withdrawn before it. */
  ghost predicate Enabled(w: World, e: Event) {
    match e
    case Asked(_, _) => true
    case Told(i) => i < |w.s.current| && w.s.current[i].told < |w.s.current[i].reqs|
    case Died(i) =>
      i < |w.s.current| && w.s.current[i].told == |w.s.current[i].reqs| && !w.s.current[i].autoMark
    case Freed(i) => i < |w.s.current| && Answered(w.s.current[i])
    case Cancelled(i, r) => i < |w.s.pending| && r in w.s.pending[i].reqs
    case Withdrawn(i, r) =>
      i < |w.s.current| && w.s.current[i].told <= |w.s.current[i].reqs| && r in w.s.current[i].reqs
  }

  /** The mark of the context that takes a request in: its own only if it makes one. */
  function MarkFor(s: State, lock: Lock, autoMark: bool): bool {
    var i := Find(s.pending, lock);
    if i < 0 then autoMark else s.pending[i].autoMark
  }

  ghost function Next(w: World, e: Event): World
    requires Enabled(w, e)
  {
    match e
    case Asked(lock, autoMark) =>
      var r := |w.made|;
      World(Ask(w.s, lock, autoMark, r), Appended(w.asked, lock, r),
            w.made + [Request(lock, autoMark, MarkFor(w.s, lock, autoMark))], w.calls)
    case Told(i) =>
      var c := w.s.current[i];
      w.(s := Tell(w.s, i), calls := w.calls + [c.reqs[c.told]])
    case Died(i) => w.(s := Repeat(w.s, i))
    case Freed(i) => w.(s := Free(w.s, i))
    case Cancelled(i, r) => w.(s := Cancel(w.s, i, r), asked := Removed(w.asked, w.s.pending[i].lock, r))
    case Withdrawn(i, r) =>
      var c := w.s.current[i];
      var waits := r in c.reqs[c.told..] && !c.again;
      w.(s := Withdraw(w.s, i, r), asked := if waits then Removed(w.asked, c.lock, r) else w.asked)
  }

  // ---- the first callbacks

  lemma {:induction false} FirstsMore(calls: seq<nat>, made: seq<Request>, more: seq<Request>, lock: Lock)
    requires forall r <- calls :: r < |made|
    ensures Firsts(calls, made + more, lock) == Firsts(calls, made, lock)
  {
    if calls != [] {
      var before := calls[..|calls| - 1];
      assert calls[|calls| - 1] in calls && forall r <- before :: r in calls;
      FirstsMore(before, made, more, lock);
    }
  }

  lemma {:induction false} FirstsCall(calls: seq<nat>, made: seq<Request>, r: nat, lock: Lock)
    ensures Firsts(calls + [r], made, lock)
            == Firsts(calls, made, lock) + if IsFor(made, r, lock) && r !in calls then [r] else []
  {
    assert (calls + [r])[..|calls|] == calls;
  }

  lemma {:induction false} CalledIsFirst(calls: seq<nat>, made: seq<Request>, lock: Lock, r: nat)
    requires IsFor(made, r, lock)
    ensures r in calls <==> r in Firsts(calls, made, lock)
  {
    if calls != [] {
      var before := calls[..|calls| - 1];
      assert calls == before + [calls[|calls| - 1]];
      CalledIsFirst(before, made, lock, r);
    }
  }

  /** Who waits for a first callback has had none. */
  lemma {:induction false} WaitsUncalled(w: World, lock: Lock, r: nat)
    requires InLine(w, lock) && r in Line(w.s, lock)
    ensures r !in w.calls && IsFor(w.made, r, lock)
  {
    var q, line := Firsts(w.calls, w.made, lock), Line(w.s, lock);
    assert r in w.asked(lock);
    CalledIsFirst(w.calls, w.made, lock, r);
    NotBefore(q, line, r);
  }

  lemma {:induction false} NotBefore(p: seq<nat>, c: seq<nat>, r: nat)
    requires NoRepeats(p + c) && r in c
    ensures r !in p
  {
    var j :| 0 <= j < |c| && c[j] == r;
    assert (p + c)[|p| + j] == r;
    forall i | 0 <= i < |p| ensures p[i] != r { assert (p + c)[i] == p[i]; }
  }

  // ---- a request is made

  lemma {:induction false} AskedLine(w: World, lock: Lock, autoMark: bool, l: Lock)
    requires Inv(w.s) && InLine(w, l) && forall k <- w.calls :: k < |w.made|
    ensures InLine(Next(w, Asked(lock, autoMark)), l)
  {
    var t, r := Next(w, Asked(lock, autoMark)), |w.made|;
    var made := Request(lock, autoMark, MarkFor(w.s, lock, autoMark));
    AskedJoins(w.s, lock, autoMark, r, l);
    FirstsMore(w.calls, w.made, [made], l);
    Assoc(Firsts(w.calls, w.made, l), Line(w.s, l), if l == lock then [r] else []);
    OneMore(w.asked(l), w.made, made, l);
  }

  lemma {:induction false} OneMore(q: seq<nat>, made: seq<Request>, last: Request, l: Lock)
    requires NoRepeats(q) && forall r <- q :: IsFor(made, r, l)
    ensures var p := q + if l == last.lock then [|made|] else [];
            NoRepeats(p) && forall r <- p :: IsFor(made + [last], r, l)
  {
    assert forall i | 0 <= i < |q| :: q[i] in q;
  }

  lemma {:induction false} AskedJoins(s: State, lock: Lock, autoMark: bool, r: nat, l: Lock)
    requires Clean(s)
    ensures Line(Ask(s, lock, autoMark, r), l) == Line(s, l) + if l == lock then [r] else []
  {
    JoinClean(s, lock, autoMark, r);
    JoinLine(s, lock, autoMark, r, l);
    ScheduleLine(Join(s, lock, autoMark, r), l);
  }

  lemma {:induction false} JoinClean(s: State, lock: Lock, autoMark: bool, r: nat)
    requires Clean(s)
    ensures Clean(Join(s, lock, autoMark, r))
  {
    var t, i := Join(s, lock, autoMark, r), Find(s.pending, lock);
    forall c <- t.pending ensures Fresh(c) {
      var j :| 0 <= j < |t.pending| && t.pending[j] == c;
      if j < |s.pending| { assert s.pending[j] in s.pending; }
    }
  }

  /** Scheduling only moves contexts. */
  lemma {:induction false} ScheduleMoves(s: State, c: Ctx)
    requires Distinct(s.pending)
    ensures c in Schedule(s).pending ==> c in s.pending
    ensures c in Schedule(s).current ==> c in s.pending || c in s.current
  {
    if s.numCurrent < MAX_LOCK_PROCESSES_PER_DB && s.pending != [] { WalkKeeps(s.pending, s.current); }
  }

  lemma {:induction false} AskedKept(w: World, lock: Lock, autoMark: bool)
    requires Fair(w)
    ensures Kept(Next(w, Asked(lock, autoMark)))
  {
    var t, r := Next(w, Asked(lock, autoMark)), |w.made|;
    var j := Join(w.s, lock, autoMark, r);
    JoinClean(w.s, lock, autoMark, r);
    forall c | c in j.pending || c in j.current ensures Filed(t.made, c) { JoinFiled(w, lock, autoMark, c); }
    forall c | c in t.s.pending || c in t.s.current
      ensures Filed(t.made, c) && (c in t.s.current ==> Called(t.calls, c))
    {
      ScheduleMoves(j, c);
    }
    forall k: nat ensures Once(t, k) {
      assert Once(w, k);
      if k == r { assert r !in w.calls; }
    }
  }

  lemma {:induction false} JoinFiled(w: World, lock: Lock, autoMark: bool, c: Ctx)
    requires Fair(w) && var j := Join(w.s, lock, autoMark, |w.made|); c in j.pending || c in j.current
    ensures Filed(Next(w, Asked(lock, autoMark)).made, c)
  {
    var made, i := Next(w, Asked(lock, autoMark)).made, Find(w.s.pending, lock);
    assert i >= 0 ==> Filed(w.made, w.s.pending[i]);
    forall r <- c.reqs ensures IsFor(made, r, c.lock) && made[r].marked == c.autoMark {
      if c in w.s.pending || c in w.s.current { assert Filed(w.made, c); }
    }
  }

  lemma {:induction false} OtherLock(made: seq<Request>, c: Ctx, d: Ctx)
    requires Filed(made, c) && Filed(made, d) && c.lock != d.lock
    ensures Apart(c, d)
  {
  }

  lemma {:induction false} ScheduleSingle(s: State, made: seq<Request>)
    requires Distinct(s.pending) && Single(s) && (forall c <- s.pending :: Filed(made, c))
    ensures Single(Schedule(s))
  {
    if s.numCurrent < MAX_LOCK_PROCESSES_PER_DB && s.pending != [] {
      WalkKeeps(s.pending, s.current);
      var w, t := Walk(s.pending, s.current), Schedule(s);
      forall c <- t.pending, d <- t.current ensures Apart(c, d) {
        if d in w.found { OtherLock(made, c, d); }
      }
    }
  }

  lemma {:induction false} LastIsNew(q: seq<nat>, r: nat)
    requires NoRepeats(q) && forall x <- q :: x < r
    ensures NoRepeats(q + [r])
  {
    assert forall i | 0 <= i < |q| :: q[i] in q;
  }

  lemma {:induction false} JoinSingle(w: World, lock: Lock, autoMark: bool)
    requires Fair(w)
    ensures Single(Join(w.s, lock, autoMark, |w.made|))
  {
    var j, r, i := Join(w.s, lock, autoMark, |w.made|), |w.made|, Find(w.s.pending, lock);
    var was := if i < 0 then [] else w.s.pending[i].reqs;
    var k := if i < 0 then |w.s.pending| else i;
    assert j.pending[k].reqs == was + [r];
    if i >= 0 { assert w.s.pending[i] in w.s.pending && Filed(w.made, w.s.pending[i]); }
    assert NoRepeats(was) && forall x <- was :: x < r;
    forall c <- j.pending ensures NoRepeats(c.reqs) && forall d <- j.current :: Apart(c, d) {
      var m :| 0 <= m < |j.pending| && j.pending[m] == c;
      if m != k { assert w.s.pending[m] in w.s.pending; }
      else {
        forall d <- j.current ensures Apart(c, d) { assert Filed(w.made, d); }
        LastIsNew(was, r);
      }
    }
  }

  lemma {:induction false} AskedSingle(w: World, lock: Lock, autoMark: bool)
    requires Fair(w)
    ensures Single(Next(w, Asked(lock, autoMark)).s)
  {
    var t, j := Next(w, Asked(lock, autoMark)), Join(w.s, lock, autoMark, |w.made|);
    JoinSingle(w, lock, autoMark);
    JoinClean(w.s, lock, autoMark, |w.made|);
    forall c | c in j.pending ensures Filed(t.made, c) { JoinFiled(w, lock, autoMark, c); }
    ScheduleSingle(j, t.made);
  }

  /** Contexts that keep their requests. */
  lemma {:induction false} SameReqsSingle(s: State, t: State)
    requires Single(s) && t.pending == s.pending && |t.current| == |s.current|
    requires forall k | 0 <= k < |s.current| :: t.current[k].reqs == s.current[k].reqs
    ensures Single(t)
  {
    forall d <- t.current ensures NoRepeats(d.reqs) && forall c <- t.pending :: Apart(c, d) {
      var k :| 0 <= k < |t.current| && t.current[k] == d;
      assert s.current[k] in s.current;
      forall c <- t.pending ensures Apart(c, d) { assert Apart(c, s.current[k]); }
    }
  }

  lemma {:induction false} AskedFair(w: World, lock: Lock, autoMark: bool)
    requires Fair(w)
    ensures Fair(Next(w, Asked(lock, autoMark)))
  {
    AskKeepsInv(w.s, lock, autoMark, |w.made|);
    forall l ensures InLine(Next(w, Asked(lock, autoMark)), l) { AskedLine(w, lock, autoMark, l); }
    AskedKept(w, lock, autoMark);
    AskedSingle(w, lock, autoMark);
  }

  // ---- a callback

  /** The request at hand waits, unless it is called again. */
  lemma {:induction false} NextWaits(w: World, i: nat)
    requires Fair(w) && Enabled(w, Told(i))
    ensures var c := w.s.current[i]; var r := c.reqs[c.told];
            IsFor(w.made, r, c.lock) && (if c.again then !w.made[r].marked else r !in w.calls)
  {
    var c := w.s.current[i];
    var r := c.reqs[c.told];
    assert c in w.s.current && Filed(w.made, c) && r in c.reqs;
    if !c.again {
      TellLine(w.s, i, c.lock);
      assert InLine(w, c.lock) && Line(w.s, c.lock)[0] == r;
      WaitsUncalled(w, c.lock, r);
    }
  }

  lemma {:induction false} ToldLine(w: World, i: nat, l: Lock)
    requires Fair(w) && Enabled(w, Told(i))
    ensures InLine(Next(w, Told(i)), l)
  {
    var t, c := Next(w, Told(i)), w.s.current[i];
    var r := c.reqs[c.told];
    NextWaits(w, i);
    assert c in w.s.current && InLine(w, l);
    TellLine(w.s, i, l);
    FirstsCall(w.calls, w.made, r, l);
    Assoc(Firsts(w.calls, w.made, l), if l == c.lock && !c.again then [r] else [], Line(t.s, l));
  }

  lemma {:induction false} ToldKept(w: World, i: nat)
    requires Fair(w) && Enabled(w, Told(i))
    ensures Kept(Next(w, Told(i)))
  {
    var t, c := Next(w, Told(i)), w.s.current[i];
    var r := c.reqs[c.told];
    NextWaits(w, i);
    forall d <- t.s.current ensures Filed(t.made, d) && Called(t.calls, d) {
      var j :| 0 <= j < |t.s.current| && t.s.current[j] == d;
      assert w.s.current[j] in w.s.current;
    }
    forall k: nat ensures Once(t, k) { assert Once(w, k); }
  }

  lemma {:induction false} ToldFair(w: World, i: nat)
    requires Fair(w) && Enabled(w, Told(i))
    ensures Fair(Next(w, Told(i)))
  {
    TellKeepsInv(w.s, i);
    ToldKept(w, i);
    SameReqsSingle(w.s, Next(w, Told(i)).s);
    forall l ensures InLine(Next(w, Told(i)), l) { ToldLine(w, i, l); }
  }

  // ---- the child dies, the context is freed

  lemma {:induction false} DiedFair(w: World, i: nat)
    requires Fair(w) && Enabled(w, Died(i))
    ensures Fair(Next(w, Died(i)))
  {
    var t := Next(w, Died(i));
    RepeatKeepsInv(w.s, i);
    SameReqsSingle(w.s, t.s);
    forall l ensures InLine(t, l) {
      assert InLine(w, l);
      RepeatLine(w.s, i, l);
    }
    forall d <- t.s.current ensures Filed(t.made, d) && Called(t.calls, d) {
      var j :| 0 <= j < |t.s.current| && t.s.current[j] == d;
      assert w.s.current[j] in w.s.current;
    }
    forall k: nat ensures Once(t, k) { assert Once(w, k); }
  }

  lemma {:induction false} FreedFair(w: World, i: nat)
    requires Fair(w) && Enabled(w, Freed(i))
    ensures Fair(Next(w, Freed(i)))
  {
    var t := Next(w, Freed(i));
    FreeKeepsInv(w.s, i);
    forall l ensures InLine(t, l) {
      assert InLine(w, l);
      FreeLine(w.s, i, l);
    }
    FreedKept(w, i);
    FreedSingle(w, i);
  }

  lemma {:induction false} FreedSingle(w: World, i: nat)
    requires Fair(w) && Enabled(w, Freed(i))
    ensures Single(Next(w, Freed(i)).s)
  {
    var t := w.s.(current := w.s.current[..i] + w.s.current[i + 1..], numCurrent := w.s.numCurrent - 1);
    assert forall c <- t.current :: c in w.s.current;
    ScheduleSingle(t, w.made);
  }

  lemma {:induction false} FreedKept(w: World, i: nat)
    requires Fair(w) && Enabled(w, Freed(i))
    ensures Kept(Next(w, Freed(i)))
  {
    var t := Next(w, Freed(i));
    forall c | c in t.s.pending || c in t.s.current
      ensures Filed(t.made, c) && (c in t.s.current ==> Called(t.calls, c))
    {
      FreeMoves(w.s, i, c);
    }
    forall k: nat ensures Once(t, k) { assert Once(w, k); }
  }

  lemma {:induction false} FreeMoves(s: State, i: nat, c: Ctx)
    requires Clean(s) && i < |s.current|
    ensures c in Free(s, i).pending ==> c in s.pending
    ensures c in Free(s, i).current ==> c in s.pending || c in s.current
  {
    var t := s.(current := s.current[..i] + s.current[i + 1..], numCurrent := s.numCurrent - 1);
    ScheduleMoves(t, c);
    assert c in t.current ==> c in s.current;
  }

  // ---- a request is freed

  lemma {:induction false} WithoutNoRepeats(q: seq<nat>, r: nat)
    requires NoRepeats(q)
    ensures NoRepeats(Without(q, r))
  {
    if q != [] {
      WithoutNoRepeats(q[1..], r);
      var w := Without(q[1..], r);
      forall j | 0 <= j < |w| ensures w[j] != q[0] {
        WithoutFrom(q[1..], r, w[j]);
        var k :| 0 <= k < |q[1..]| && q[1..][k] == w[j];
        assert q[k + 1] == w[j];
      }
    }
  }

  lemma {:induction false} WithoutFrom(q: seq<nat>, r: nat, x: nat)
    ensures x in Without(q, r) ==> x in q
  {
    if q != [] { WithoutFrom(q[1..], r, x); }
  }

  lemma {:induction false} CancelledFair(w: World, i: nat, r: nat)
    requires Fair(w) && Enabled(w, Cancelled(i, r))
    ensures Fair(Next(w, Cancelled(i, r)))
  {
    CancelKeepsInv(w.s, i, r);
    var t := Next(w, Cancelled(i, r));
    forall l ensures InLine(t, l) {
      assert InLine(w, l);
      CancelLine(w.s, i, r, l);
      if l == w.s.pending[i].lock { CancelledLine(w, i, r, l); }
    }
    forall c <- t.s.pending ensures Filed(t.made, c) {
      var j :| 0 <= j < |t.s.pending| && t.s.pending[j] == c;
      assert w.s.pending[j] in w.s.pending && Filed(w.made, w.s.pending[j]);
      forall x <- c.reqs ensures x in w.s.pending[j].reqs { WithoutFrom(w.s.pending[j].reqs, r, x); }
    }
    forall k: nat ensures Once(t, k) { assert Once(w, k); }
    CancelledSingle(w, i, r);
  }

  lemma {:induction false} CancelledSingle(w: World, i: nat, r: nat)
    requires Fair(w) && Enabled(w, Cancelled(i, r))
    ensures Single(Next(w, Cancelled(i, r)).s)
  {
    var t, c := Next(w, Cancelled(i, r)).s, w.s.pending[i];
    assert c in w.s.pending;
    WithoutNoRepeats(c.reqs, r);
    forall x <- Without(c.reqs, r) ensures x in c.reqs { WithoutFrom(c.reqs, r, x); }
    forall d <- t.pending ensures NoRepeats(d.reqs) && forall e <- t.current :: Apart(d, e) {
      var k :| 0 <= k < |t.pending| && t.pending[k] == d;
      assert w.s.pending[k] in w.s.pending;
      forall e <- t.current ensures Apart(d, e) { assert Apart(w.s.pending[k], e); }
    }
  }

  lemma {:induction false} LeftWithout(c: Ctx, r: nat)
    requires c.told <= |c.reqs|
    ensures Left(c, r).reqs == Without(c.reqs, r)
  {
    assert c.reqs == c.reqs[..c.told] + c.reqs[c.told..];
    WithoutAdd(c.reqs[..c.told], c.reqs[c.told..], r);
  }

  lemma {:induction false} WithdrawnSingle(w: World, i: nat, r: nat)
    requires Fair(w) && Enabled(w, Withdrawn(i, r))
    ensures Single(Next(w, Withdrawn(i, r)).s)
  {
    var t, c := Next(w, Withdrawn(i, r)).s, w.s.current[i];
    assert c in w.s.current;
    LeftWithout(c, r);
    WithoutNoRepeats(c.reqs, r);
    forall x <- Without(c.reqs, r) ensures x in c.reqs { WithoutFrom(c.reqs, r, x); }
    forall e <- t.current ensures NoRepeats(e.reqs) && forall d <- t.pending :: Apart(d, e) {
      var k :| 0 <= k < |t.current| && t.current[k] == e;
      assert w.s.current[k] in w.s.current;
      forall d <- t.pending ensures Apart(d, e) { assert Apart(d, w.s.current[k]); }
    }
  }

  lemma {:induction false} CancelledLine(w: World, i: nat, r: nat, l: Lock)
    requires Fair(w) && Enabled(w, Cancelled(i, r)) && l == w.s.pending[i].lock && InLine(w, l)
    ensures var q := Without(w.asked(l), r);
            && q == Firsts(w.calls, w.made, l) + (Waiting(w.s.current, l) + Without(Waiting(w.s.pending, l), r))
            && NoRepeats(q) && forall x <- q :: IsFor(w.made, x, l)
  {
    var a, b, c := Firsts(w.calls, w.made, l), Waiting(w.s.current, l), Waiting(w.s.pending, l);
    assert w.s.pending[i] in w.s.pending && Find(w.s.pending, l) == i;
    assert c == w.s.pending[i].reqs;
    assert w.asked(l) == (a + b) + c by { Assoc(a, b, c); }
    NotBefore(a + b, c, r);
    WithoutAdd(a + b, c, r);
    WithoutAbsent(a + b, r);
    Assoc(a, b, Without(c, r));
    WithoutNoRepeats(w.asked(l), r);
    forall x <- Without(w.asked(l), r) ensures IsFor(w.made, x, l) { WithoutFrom(w.asked(l), r, x); }
  }

  lemma {:induction false} WithdrawnFair(w: World, i: nat, r: nat)
    requires Fair(w) && Enabled(w, Withdrawn(i, r))
    ensures Fair(Next(w, Withdrawn(i, r)))
  {
    WithdrawKeepsInv(w.s, i, r);
    var t := Next(w, Withdrawn(i, r));
    forall l ensures InLine(t, l) {
      assert InLine(w, l);
      WithdrawLine(w.s, i, r, l);
      if l == w.s.current[i].lock { WithdrawnLine(w, i, r, l); }
    }
    WithdrawnKept(w, i, r);
    WithdrawnSingle(w, i, r);
  }

  lemma {:induction false} WithdrawnKept(w: World, i: nat, r: nat)
    requires Fair(w) && Enabled(w, Withdrawn(i, r))
    ensures Kept(Next(w, Withdrawn(i, r)))
  {
    var t := Next(w, Withdrawn(i, r));
    forall c <- t.s.current ensures Filed(t.made, c) && Called(t.calls, c) {
      var j :| 0 <= j < |t.s.current| && t.s.current[j] == c;
      var d := w.s.current[j];
      assert d in w.s.current && Filed(w.made, d) && Called(w.calls, d);
      if j == i { LeftKept(w.calls, w.made, d, r); }
    }
    forall k: nat ensures Once(t, k) { assert Once(w, k); }
  }

  lemma {:induction false} LeftKept(calls: seq<nat>, made: seq<Request>, c: Ctx, r: nat)
    requires c.told <= |c.reqs| && Filed(made, c) && Called(calls, c)
    ensures Filed(made, Left(c, r)) && Called(calls, Left(c, r))
  {
    var d := Left(c, r);
    var done, rest := Without(c.reqs[..c.told], r), Without(c.reqs[c.told..], r);
    forall k | 0 <= k < |d.reqs|
      ensures d.reqs[k] in c.reqs && (k < d.told || c.again ==> d.reqs[k] in calls)
    {
      if k < |done| {
        assert d.reqs[k] == done[k] && done[k] in done;
        WithoutFrom(c.reqs[..c.told], r, done[k]);
      } else {
        assert d.reqs[k] == rest[k - |done|] && rest[k - |done|] in rest;
        WithoutFrom(c.reqs[c.told..], r, d.reqs[k]);
      }
    }
  }

  lemma {:induction false} WithdrawnLine(w: World, i: nat, r: nat, l: Lock)
    requires Fair(w) && Enabled(w, Withdrawn(i, r)) && l == w.s.current[i].lock && InLine(w, l)
    ensures var b, c := Waiting(w.s.current, l), Waiting(w.s.pending, l);
            var q := if r in b then Without(w.asked(l), r) else w.asked(l);
            && q == Firsts(w.calls, w.made, l) + (Without(b, r) + c)
            && NoRepeats(q) && forall x <- q :: IsFor(w.made, x, l)
    ensures var c := w.s.current[i]; Waiting(w.s.current, l) == if c.again then [] else c.reqs[c.told..]
  {
    var a, b, c := Firsts(w.calls, w.made, l), Waiting(w.s.current, l), Waiting(w.s.pending, l);
    assert Find(w.s.current, l) == i;
    if r in b {
      assert w.asked(l) == (a + b) + c by { Assoc(a, b, c); }
      OnlyThere(a, b, c, r);
      WithoutAdd(a + b, c, r);
      WithoutAdd(a, b, r);
      WithoutAbsent(a, r);
      WithoutAbsent(c, r);
      Assoc(a, Without(b, r), c);
      WithoutNoRepeats(w.asked(l), r);
      forall x <- Without(w.asked(l), r) ensures IsFor(w.made, x, l) { WithoutFrom(w.asked(l), r, x); }
    } else {
      WithoutAbsent(b, r);
    }
  }

  lemma {:induction false} OnlyThere(a: seq<nat>, b: seq<nat>, c: seq<nat>, r: nat)
    requires NoRepeats((a + b) + c) && r in b
    ensures r !in a && r !in c
  {
    var q := (a + b) + c;
    var j :| 0 <= j < |b| && b[j] == r;
    assert q[|a| + j] == r;
    forall i | 0 <= i < |a| ensures a[i] != r { assert q[i] == a[i]; }
    forall i | 0 <= i < |c| ensures c[i] != r { assert q[|a| + |b| + i] == c[i]; }
  }

  // ---- whole runs

  lemma StepIsFair(w: World, e: Event)
    requires Fair(w) && Enabled(w, e)
    ensures Fair(Next(w, e))
  {
    match e
    case Asked(lock, autoMark) => AskedFair(w, lock, autoMark);
    case Told(k) => ToldFair(w, k);
    case Died(k) => DiedFair(w, k);
    case Freed(k) => FreedFair(w, k);
    case Cancelled(k, r) => CancelledFair(w, k, r);
    case Withdrawn(k, r) => WithdrawnFair(w, k, r);
  }

  ghost predicate Run(ws: seq<World>, es: seq<Event>) {
    && |ws| == |es| + 1 && Fair(ws[0])
    && forall i | 0 <= i < |es| :: Enabled(ws[i], es[i]) && ws[i + 1] == Next(ws[i], es[i])
  }

  /** In every state of every run each lock's requests are called back in the order
      they came, whatever children die, and those under auto-mark once. */
  lemma {:induction false} RunIsFair(ws: seq<World>, es: seq<Event>, i: nat)
    requires Run(ws, es) && i < |ws|
    ensures Fair(ws[i])
  {
    if i > 0 {
      RunIsFair(ws, es, i - 1);
      StepIsFair(ws[i - 1], es[i - 1]);
    }
  }

  /** In every state of every run: the counters are right and the limit is kept,
      no lock has two current or two pending contexts, no request waits without
      cause, each lock's requests have their first callbacks in order, and a request
      under auto-mark has no other. */
  lemma SchedulerIsSafe(ws: seq<World>, es: seq<Event>, i: nat, lock: Lock, r: nat)
    requires Run(ws, es) && i < |ws|
    ensures var s := ws[i].s;
            && s.numCurrent == |s.current| <= MAX_LOCK_PROCESSES_PER_DB && s.numPending == |s.pending|
            && Distinct(s.current) && Distinct(s.pending)
            && (|s.current| == MAX_LOCK_PROCESSES_PER_DB
                || forall c <- s.pending :: c.reqs != [] ==> exists t <- s.current :: t.lock == c.lock)
    ensures var w := ws[i]; var firsts := Firsts(w.calls, w.made, lock);
            && firsts <= w.asked(lock) && NoRepeats(w.asked(lock))
            && (Find(w.s.current, lock) < 0 && Find(w.s.pending, lock) < 0 ==> firsts == w.asked(lock))
            && (r < |w.made| && w.made[r].marked ==> Times(w, r) <= 1)
  {
    RunIsFair(ws, es, i);
    var w := ws[i];
    assert InLine(w, lock) && Once(w, r);
    if |w.s.current| < MAX_LOCK_PROCESSES_PER_DB {
      forall c <- w.s.pending | c.reqs != [] ensures exists t <- w.s.current :: t.lock == c.lock {
        assert !Startable(w.s.current, c);
        assert w.s.current[Find(w.s.current, c.lock)] in w.s.current;
      }
    }
  }
}
