/** The lock scheduler: requests for one lock gather in one context; a context is
    pending until a child process is started for it, and current until it is
    freed. One without auto-mark outlives its callbacks; when its child dies, they
    are made again. */
module LockQueue {
  import Ltdb

  const MAX_LOCK_PROCESSES_PER_DB := 100

  datatype Lock = Record(db: nat, key: Ltdb.Data) | Db(db: nat) | AllDbPrio(priority: nat)

  /** told: how many of the requests have had their callback in this round of
      callbacks; again: it is not the first round. */
  datatype Ctx = Ctx(lock: Lock, autoMark: bool, reqs: seq<nat>, told: nat, again: bool)

  datatype State = State(pending: seq<Ctx>, current: seq<Ctx>, numPending: int, numCurrent: int)

  /** find_lock_context: the first context for the lock, or -1. */
  function Find(list: seq<Ctx>, lock: Lock): (i: int)
    ensures -1 <= i < |list|
    ensures i >= 0 ==> list[i].lock == lock && forall j | 0 <= j < i :: list[j].lock != lock
    ensures i < 0 ==> forall j | 0 <= j < |list| :: list[j].lock != lock
  {
    if list == [] then -1
    else if list[0].lock == lock then 0
    else
      var i := Find(list[1..], lock);
      if i < 0 then -1 else i + 1
  }

  /** A child may be started for c. */
  predicate Startable(current: seq<Ctx>, c: Ctx) { c.reqs != [] && Find(current, c.lock) < 0 }

  datatype Scan = Scan(rest: seq<Ctx>, found: seq<Ctx>)

  /** The walk over the pending contexts: those without requests are removed, and
      it ends at the first that can be started, which is taken out. */
  function Walk(pending: seq<Ctx>, current: seq<Ctx>): Scan {
    if pending == [] then Scan([], [])
    else if pending[0].reqs == [] then Walk(pending[1..], current)
    else if Startable(current, pending[0]) then Scan(pending[1..], [pending[0]])
    else
      var s := Walk(pending[1..], current);
      s.(rest := [pending[0]] + s.rest)
  }

  /** ctdb_lock_schedule, when starting the child succeeds. */
  function Schedule(s: State): State {
    if s.numCurrent >= MAX_LOCK_PROCESSES_PER_DB || s.pending == [] then s
    else
      var w := Walk(s.pending, s.current);
      State(w.rest, s.current + w.found, s.numPending - (|s.pending| - |w.rest|), s.numCurrent + |w.found|)
  }

  /** The first half of ctdb_lock_internal: only pending contexts are searched. */
  function Join(s: State, lock: Lock, autoMark: bool, r: nat): State {
    var i := Find(s.pending, lock);
    if i < 0 then s.(pending := s.pending + [Ctx(lock, autoMark, [r], 0, false)], numPending := s.numPending + 1)
    else s.(pending := s.pending[i := s.pending[i].(reqs := s.pending[i].reqs + [r])])
  }

  function Ask(s: State, lock: Lock, autoMark: bool, r: nat): State { Schedule(Join(s, lock, autoMark, r)) }

  /** One callback of a current context. */
  function Tell(s: State, i: nat): State
    requires i < |s.current|
  {
    s.(current := s.current[i := s.current[i].(told := s.current[i].told + 1)])
  }

  /** The child of a current context dies after it has answered: the read event is
      still armed, and the handler starts over. */
  function Repeat(s: State, i: nat): State
    requires i < |s.current|
  {
    s.(current := s.current[i := s.current[i].(told := 0, again := true)])
  }

  /** ctdb_lock_context_destructor of a current context. */
  function Free(s: State, i: nat): State
    requires i < |s.current|
  {
    Schedule(s.(current := s.current[..i] + s.current[i + 1..], numCurrent := s.numCurrent - 1))
  }

  function Dropped(c: Ctx, r: nat): Ctx { c.(reqs := Without(c.reqs, r)) }

  function Without(q: seq<nat>, r: nat): (w: seq<nat>)
    ensures r !in w
  {
    if q == [] then [] else if q[0] == r then Without(q[1..], r) else [q[0]] + Without(q[1..], r)
  }

  /** ctdb_lock_request_destructor of a request in a pending context. */
  function Cancel(s: State, i: nat, r: nat): State
    requires i < |s.pending|
  {
    s.(pending := s.pending[i := Dropped(s.pending[i], r)])
  }

  /** A request leaves a context, whether or not its callback was made. */
  function Left(c: Ctx, r: nat): Ctx
    requires c.told <= |c.reqs|
  {
    var done := Without(c.reqs[..c.told], r);
    c.(reqs := done + Without(c.reqs[c.told..], r), told := |done|)
  }

  /** ctdb_lock_request_destructor of a request in a current context. */
  function Withdraw(s: State, i: nat, r: nat): State
    requires i < |s.current| && s.current[i].told <= |s.current[i].reqs|
  {
    s.(current := s.current[i := Left(s.current[i], r)])
  }

  // ---- what holds at rest

  ghost predicate Counts(s: State) {
    s.numPending == |s.pending| && s.numCurrent == |s.current| <= MAX_LOCK_PROCESSES_PER_DB
  }

  ghost predicate Distinct(list: seq<Ctx>) {
    forall i, j | 0 <= i < j < |list| :: list[i].lock != list[j].lock
  }

  /** No lock is requested in vain: the limit is reached, or every pending context
      with requests waits for a current one on the same lock. */
  ghost predicate Busy(s: State) {
    s.numCurrent >= MAX_LOCK_PROCESSES_PER_DB || forall c <- s.pending :: !Startable(s.current, c)
  }

  predicate Fresh(c: Ctx) { c.told == 0 && !c.again }

  /** Only a context without auto-mark sees a second round. */
  predicate Sound(c: Ctx) { c.told <= |c.reqs| && (c.again ==> !c.autoMark) }

  ghost predicate Clean(s: State) {
    && Counts(s) && Distinct(s.pending) && Distinct(s.current)
    && (forall c <- s.pending :: Fresh(c)) && (forall c <- s.current :: Sound(c))
  }

  ghost predicate Inv(s: State) { Clean(s) && Busy(s) }

  // ---- the walk

  lemma {:induction false} WalkKeeps(pending: seq<Ctx>, current: seq<Ctx>)
    requires Distinct(pending)
    ensures var w := Walk(pending, current);
            && |w.rest| + |w.found| <= |pending| && |w.found| <= 1
            && (forall c <- w.rest :: c in pending) && (forall c <- w.found :: c in pending && Startable(current, c))
            && Distinct(w.rest) && (forall c <- w.rest :: forall f <- w.found :: c.lock != f.lock)
  {
    if pending != [] {
      WalkKeeps(pending[1..], current);
      var w := Walk(pending[1..], current);
      assert forall c <- pending[1..] :: c in pending && c.lock != pending[0].lock;
    }
  }

  /** Nothing that could be started is left, unless something was, and nothing that has
      no requests. */
  lemma {:induction false} WalkFinds(pending: seq<Ctx>, current: seq<Ctx>)
    ensures Walk(pending, current).found == [] ==>
              forall c <- Walk(pending, current).rest :: c.reqs != [] && !Startable(current, c)
  {
    if pending != [] { WalkFinds(pending[1..], current); }
  }

  /** The contexts that have requests. */
  function Asking(list: seq<Ctx>): seq<Ctx> {
    if list == [] then [] else (if list[0].reqs == [] then [] else [list[0]]) + Asking(list[1..])
  }

  /** The walk ends at the first context that can be started, number k, or at the end.
      The contexts before it stay but for those without requests, and all behind it. */
  lemma {:induction false} WalkTakesFirst(pending: seq<Ctx>, current: seq<Ctx>) returns (k: nat)
    ensures k <= |pending| && forall j | 0 <= j < k :: !Startable(current, pending[j])
    ensures var w := Walk(pending, current);
            if k == |pending| then w == Scan(Asking(pending), [])
            else w == Scan(Asking(pending[..k]) + pending[k + 1..], [pending[k]]) && Startable(current, pending[k])
  {
    k := 0;
    if pending != [] && !Startable(current, pending[0]) {
      var tl := pending[1..];
      var m := WalkTakesFirst(tl, current);
      k := m + 1;
      assert forall j | 0 < j < k :: pending[j] == tl[j - 1];
      if k < |pending| {
        var first, tail := if pending[0].reqs == [] then [] else [pending[0]], tl[m + 1..];
        assert pending[..k][1..] == tl[..m] && pending[k + 1..] == tail;
        assert Asking(pending[..k]) == first + Asking(tl[..m]);
        Assoc(first, Asking(tl[..m]), tail);
      }
    }
  }

  /** Adding a context takes nothing away from the others' twins. */
  lemma {:induction false} FindGrows(list: seq<Ctx>, more: seq<Ctx>, lock: Lock)
    ensures Find(list, lock) >= 0 ==> Find(list + more, lock) >= 0
  {
    if Find(list, lock) >= 0 { assert (list + more)[Find(list, lock)] == list[Find(list, lock)]; }
  }

  /** At most one pending context can be started, or one child fills the limit. */
  ghost predicate Almost(s: State) {
    || s.numCurrent >= MAX_LOCK_PROCESSES_PER_DB - 1
    || forall i, j | 0 <= i < |s.pending| && 0 <= j < |s.pending| && i != j ::
         !(Startable(s.current, s.pending[i]) && Startable(s.current, s.pending[j]))
  }

  lemma {:induction false} ScheduleClean(s: State)
    requires Clean(s)
    ensures Clean(Schedule(s))
  {
    if s.numCurrent < MAX_LOCK_PROCESSES_PER_DB && s.pending != [] {
      WalkKeeps(s.pending, s.current);
      var w := Walk(s.pending, s.current);
      var t := Schedule(s);
      forall i, j | 0 <= i < j < |t.current| ensures t.current[i].lock != t.current[j].lock {
        if j == |s.current| { assert t.current[j] == w.found[0] && w.found[0] in w.found; }
      }
    }
  }

  lemma {:induction false} ScheduleBusy(s: State)
    requires Clean(s) && Almost(s)
    ensures Busy(Schedule(s))
  {
    if s.numCurrent < MAX_LOCK_PROCESSES_PER_DB && s.pending != [] {
      WalkKeeps(s.pending, s.current);
      WalkFinds(s.pending, s.current);
      var w, t := Walk(s.pending, s.current), Schedule(s);
      if w.found == [] {
        assert t.current == s.current;
      } else if s.numCurrent < MAX_LOCK_PROCESSES_PER_DB - 1 {
        assert w.found[0] in w.found;
        forall c <- w.rest ensures !Startable(t.current, c) {
          var i :| 0 <= i < |s.pending| && s.pending[i] == c;
          var j :| 0 <= j < |s.pending| && s.pending[j] == w.found[0];
          FindGrows(s.current, w.found, c.lock);
        }
      }
    }
  }

  lemma {:induction false} ScheduleKeepsInv(s: State)
    requires Clean(s) && Almost(s)
    ensures Inv(Schedule(s))
  {
    ScheduleClean(s);
    ScheduleBusy(s);
  }

  lemma {:induction false} AskKeepsInv(s: State, lock: Lock, autoMark: bool, r: nat)
    requires Inv(s)
    ensures Inv(Ask(s, lock, autoMark, r))
  {
    var t, i := Join(s, lock, autoMark, r), Find(s.pending, lock);
    var k := if i < 0 then |s.pending| else i;
    assert forall j | 0 <= j < |s.pending| && j != k :: t.pending[j] == s.pending[j] && s.pending[j] in s.pending;
    assert i >= 0 ==> s.pending[i] in s.pending;
    forall c <- t.pending ensures Fresh(c) {
      var j :| 0 <= j < |t.pending| && t.pending[j] == c;
    }
    ScheduleKeepsInv(t);
  }

  lemma {:induction false} TellKeepsInv(s: State, i: nat)
    requires Inv(s) && i < |s.current| && s.current[i].told < |s.current[i].reqs|
    ensures Inv(Tell(s, i))
  {
    var t := Tell(s, i);
    assert forall j | 0 <= j < |s.current| :: t.current[j].lock == s.current[j].lock;
    forall c <- s.pending ensures Find(t.current, c.lock) == Find(s.current, c.lock) {
      SameLocks(s.current, t.current, c.lock);
    }
    forall c <- t.current ensures Sound(c) {
      var j :| 0 <= j < |t.current| && t.current[j] == c;
      assert s.current[j] in s.current;
    }
  }

  lemma {:induction false} RepeatKeepsInv(s: State, i: nat)
    requires Inv(s) && i < |s.current| && !s.current[i].autoMark
    ensures Inv(Repeat(s, i))
  {
    var t := Repeat(s, i);
    assert forall j | 0 <= j < |s.current| :: t.current[j].lock == s.current[j].lock;
    forall c <- s.pending ensures Find(t.current, c.lock) == Find(s.current, c.lock) {
      SameLocks(s.current, t.current, c.lock);
    }
    forall c <- t.current ensures Sound(c) {
      var j :| 0 <= j < |t.current| && t.current[j] == c;
      assert s.current[j] in s.current;
    }
  }

  lemma {:induction false} SameLocks(a: seq<Ctx>, b: seq<Ctx>, lock: Lock)
    requires |a| == |b| && forall j | 0 <= j < |a| :: a[j].lock == b[j].lock
    ensures Find(a, lock) == Find(b, lock)
  {
    if a != [] { SameLocks(a[1..], b[1..], lock); }
  }

  lemma {:induction false} FreeKeepsInv(s: State, i: nat)
    requires Inv(s) && i < |s.current|
    ensures Inv(Free(s, i))
  {
    var t := s.(current := s.current[..i] + s.current[i + 1..], numCurrent := s.numCurrent - 1);
    FreedClean(s, i);
    FreeAlmost(s, i, t);
    ScheduleKeepsInv(t);
  }

  lemma {:induction false} FreeAlmost(s: State, i: nat, t: State)
    requires Inv(s) && i < |s.current|
    requires t == s.(current := s.current[..i] + s.current[i + 1..], numCurrent := s.numCurrent - 1)
    ensures Almost(t)
  {
    if s.numCurrent < MAX_LOCK_PROCESSES_PER_DB {
      forall k | 0 <= k < |s.pending| && s.pending[k].lock != s.current[i].lock
        ensures !Startable(t.current, s.pending[k])
      {
        var c := s.pending[k];
        assert c in s.pending;
        if c.reqs != [] {
          var j := Find(s.current, c.lock);
          assert t.current[if j < i then j else j - 1] == s.current[j];
        }
      }
    }
  }

  lemma {:induction false} CancelKeepsInv(s: State, i: nat, r: nat)
    requires Inv(s) && i < |s.pending|
    ensures Inv(Cancel(s, i, r))
  {
    var t := Cancel(s, i, r);
    assert s.pending[i] in s.pending;
    forall c <- t.pending ensures Fresh(c) && (s.numCurrent < MAX_LOCK_PROCESSES_PER_DB ==> !Startable(t.current, c)) {
      var j :| 0 <= j < |t.pending| && t.pending[j] == c;
      assert s.pending[j] in s.pending;
      if s.pending[j].reqs == [] { assert Without([], r) == []; }
    }
  }

  lemma {:induction false} WithdrawKeepsInv(s: State, i: nat, r: nat)
    requires Inv(s) && i < |s.current| && s.current[i].told <= |s.current[i].reqs|
    ensures Inv(Withdraw(s, i, r))
  {
    var t := Withdraw(s, i, r);
    assert forall j | 0 <= j < |s.current| :: t.current[j].lock == s.current[j].lock;
    forall c <- s.pending ensures Find(t.current, c.lock) == Find(s.current, c.lock) {
      SameLocks(s.current, t.current, c.lock);
    }
    forall c <- t.current ensures Sound(c) {
      var j :| 0 <= j < |t.current| && t.current[j] == c;
      assert s.current[j] in s.current;
    }
  }

  // ---- first come, first served

  /** The requests for a lock in one of the lists that wait for their first callback. */
  function Waiting(list: seq<Ctx>, lock: Lock): seq<nat> {
    var i := Find(list, lock);
    if i < 0 || list[i].told > |list[i].reqs| || list[i].again then [] else list[i].reqs[list[i].told..]
  }

  /** All requests for a lock that still wait, in the order of their callbacks. */
  function Line(s: State, lock: Lock): seq<nat> { Waiting(s.current, lock) + Waiting(s.pending, lock) }

  lemma {:induction false} FindSplit(a: seq<Ctx>, b: seq<Ctx>, lock: Lock)
    ensures var i, j := Find(a, lock), Find(b, lock);
            Find(a + b, lock) == if i >= 0 then i else if j >= 0 then |a| + j else -1
  {
    var c, i, j := a + b, Find(a, lock), Find(b, lock);
    var k := Find(c, lock);
    if i >= 0 { assert c[i] == a[i]; }
    if j >= 0 { assert c[|a| + j] == b[j]; }
    if k >= 0 { assert k < |a| ==> c[k] == a[k]; assert k >= |a| ==> c[k] == b[k - |a|]; }
  }

  lemma {:induction false} WaitingSplit(a: seq<Ctx>, b: seq<Ctx>, lock: Lock)
    requires Find(a, lock) < 0 || Find(b, lock) < 0
    ensures Waiting(a + b, lock) == Waiting(a, lock) + Waiting(b, lock)
  {
    FindSplit(a, b, lock);
    var i, j := Find(a, lock), Find(b, lock);
    if i >= 0 {
      assert Waiting(b, lock) == [] && (a + b)[i] == a[i];
    } else if j >= 0 {
      assert Waiting(a, lock) == [] && (a + b)[|a| + j] == b[j];
    }
  }

  /** Which of two lists with different locks has it. */
  lemma {:induction false} NotBoth(a: seq<Ctx>, b: seq<Ctx>, lock: Lock)
    requires Distinct(a + b)
    ensures Find(a, lock) < 0 || Find(b, lock) < 0
  {
    var i := Find(a, lock);
    if i >= 0 {
      assert (a + b)[i] == a[i];
      forall j | 0 <= j < |b| ensures b[j].lock != lock { assert (a + b)[|a| + j] == b[j]; }
    }
  }

  lemma {:induction false} WalkWaiting(pending: seq<Ctx>, current: seq<Ctx>, lock: Lock)
    requires Distinct(pending) && forall c <- pending :: Fresh(c)
    ensures var w := Walk(pending, current);
            Waiting(pending, lock) == Waiting(w.found, lock) + Waiting(w.rest, lock)
  {
    if pending != [] {
      var h, tl := pending[0], pending[1..];
      assert pending == [h] + tl && h in pending;
      assert forall c <- tl :: c in pending;
      WalkWaiting(tl, current, lock);
      NotBoth([h], tl, lock);
      WaitingSplit([h], tl, lock);
      var v := Walk(tl, current);
      if h.reqs == [] {
        assert Waiting([h], lock) == [];
      } else if !Startable(current, h) {
        WalkKeeps(tl, current);
        KeptLater(h, tl, v, lock);
      }
    }
  }

  lemma {:induction false} KeptLater(h: Ctx, tl: seq<Ctx>, v: Scan, lock: Lock)
    requires (forall c <- v.rest :: c in tl) && (forall c <- v.found :: c in tl) && forall c <- tl :: c.lock != h.lock
    ensures Waiting([h] + v.rest, lock) == Waiting([h], lock) + Waiting(v.rest, lock)
    ensures Waiting([h], lock) + (Waiting(v.found, lock) + Waiting(v.rest, lock))
            == Waiting(v.found, lock) + (Waiting([h], lock) + Waiting(v.rest, lock))
  {
    if h.lock == lock {
      assert forall k | 0 <= k < |v.rest| :: v.rest[k] in v.rest && v.rest[k].lock != lock;
      assert forall k | 0 <= k < |v.found| :: v.found[k] in v.found && v.found[k].lock != lock;
      assert Waiting(v.found, lock) == [] && Waiting(v.rest, lock) == [];
    } else {
      assert Waiting([h], lock) == [];
    }
    WaitingSplit([h], v.rest, lock);
  }

  lemma {:induction false} Assoc<T>(a: seq<T>, b: seq<T>, c: seq<T>)
    ensures (a + b) + c == a + (b + c)
  {
  }

  /** Scheduling changes nobody's place in line. */
  lemma {:induction false} ScheduleLine(s: State, lock: Lock)
    requires Clean(s)
    ensures Line(Schedule(s), lock) == Line(s, lock)
  {
    if s.numCurrent < MAX_LOCK_PROCESSES_PER_DB && s.pending != [] {
      var w := Walk(s.pending, s.current);
      WalkWaiting(s.pending, s.current, lock);
      StartedWaiting(s, w, lock);
      Assoc(Waiting(s.current, lock), Waiting(w.found, lock), Waiting(w.rest, lock));
    }
  }

  lemma {:induction false} StartedWaiting(s: State, w: Scan, lock: Lock)
    requires Clean(s) && w == Walk(s.pending, s.current)
    ensures Waiting(s.current + w.found, lock) == Waiting(s.current, lock) + Waiting(w.found, lock)
  {
    WalkKeeps(s.pending, s.current);
    if Find(w.found, lock) >= 0 { assert w.found[0] in w.found; }
    WaitingSplit(s.current, w.found, lock);
  }

  lemma {:induction false} JoinWaiting(s: State, lock: Lock, autoMark: bool, r: nat, other: Lock)
    requires Clean(s)
    ensures Waiting(Join(s, lock, autoMark, r).pending, other)
            == Waiting(s.pending, other) + (if other == lock then [r] else [])
  {
    var t, i := Join(s, lock, autoMark, r), Find(s.pending, lock);
    if i < 0 {
      var c := Ctx(lock, autoMark, [r], 0, false);
      assert Find([c], other) == if other == lock then 0 else -1;
      WaitingSplit(s.pending, [c], other);
    } else {
      SameLocks(s.pending, t.pending, other);
      assert s.pending[i] in s.pending;
    }
  }

  lemma {:induction false} JoinLine(s: State, lock: Lock, autoMark: bool, r: nat, other: Lock)
    requires Clean(s)
    ensures Line(Join(s, lock, autoMark, r), other) == Line(s, other) + (if other == lock then [r] else [])
  {
    JoinWaiting(s, lock, autoMark, r, other);
    Assoc(Waiting(s.current, other), Waiting(s.pending, other), if other == lock then [r] else []);
  }

  lemma {:induction false} TellWaiting(list: seq<Ctx>, i: nat, other: Lock)
    requires Distinct(list) && i < |list| && list[i].told < |list[i].reqs|
    ensures var c := list[i];
            Waiting(list, other)
            == (if other == c.lock && !c.again then [c.reqs[c.told]] else [])
               + Waiting(list[i := c.(told := c.told + 1)], other)
  {
    var c := list[i];
    SameLocks(list, list[i := c.(told := c.told + 1)], other);
    if other == c.lock {
      assert Find(list, other) == i;
      assert c.reqs[c.told..] == [c.reqs[c.told]] + c.reqs[c.told + 1..];
    }
  }

  /** A callback of the first round takes the first in line; one of a later round
      nobody. */
  lemma {:induction false} TellLine(s: State, i: nat, other: Lock)
    requires Distinct(s.current) && i < |s.current| && s.current[i].told < |s.current[i].reqs|
    ensures var c := s.current[i];
            Line(s, other) == (if other == c.lock && !c.again then [c.reqs[c.told]] else []) + Line(Tell(s, i), other)
  {
    var c, t := s.current[i], Tell(s, i);
    var head, rest := if other == c.lock && !c.again then [c.reqs[c.told]] else [], Waiting(t.current, other);
    assert Waiting(s.current, other) == head + rest by { TellWaiting(s.current, i, other); }
    Assoc(head, rest, Waiting(s.pending, other));
    assert Line(t, other) == rest + Waiting(s.pending, other);
  }

  /** The death of a child that has answered puts nobody in line again. */
  lemma {:induction false} RepeatLine(s: State, i: nat, other: Lock)
    requires Distinct(s.current) && i < |s.current| && s.current[i].told == |s.current[i].reqs|
    ensures Line(Repeat(s, i), other) == Line(s, other)
  {
    SameLocks(s.current, Repeat(s, i).current, other);
    if other == s.current[i].lock { assert Find(s.current, other) == i; }
  }

  /** Nobody waits for its first callback. */
  predicate Answered(c: Ctx) { c.told == |c.reqs| || c.again }

  lemma {:induction false} FreeWaiting(list: seq<Ctx>, i: nat, other: Lock)
    requires Distinct(list) && i < |list| && Answered(list[i])
    ensures Waiting(list[..i] + list[i + 1..], other) == Waiting(list, other)
  {
    var a, c, b := list[..i], list[i], list[i + 1..];
    assert list == a + ([c] + b);
    NotBoth(a, [c] + b, other);
    WaitingSplit(a, [c] + b, other);
    FreeTail(c, b, other);
    FindSplit([c], b, other);
    WaitingSplit(a, b, other);
  }

  lemma {:induction false} FreeTail(c: Ctx, b: seq<Ctx>, other: Lock)
    requires Distinct([c] + b) && Answered(c)
    ensures Waiting([c] + b, other) == Waiting(b, other)
  {
    NotBoth([c], b, other);
    WaitingSplit([c], b, other);
    assert Waiting([c], other) == [];
  }

  lemma {:induction false} FreedClean(s: State, i: nat)
    requires Clean(s) && i < |s.current|
    ensures Clean(s.(current := s.current[..i] + s.current[i + 1..], numCurrent := s.numCurrent - 1))
  {
    var t := s.(current := s.current[..i] + s.current[i + 1..], numCurrent := s.numCurrent - 1);
    assert forall j | 0 <= j < |t.current| :: t.current[j] == s.current[if j < i then j else j + 1];
    forall c <- t.current ensures Sound(c) {
      var j :| 0 <= j < |t.current| && t.current[j] == c;
      assert s.current[if j < i then j else j + 1] in s.current;
    }
  }

  lemma {:induction false} FreeLine(s: State, i: nat, other: Lock)
    requires Clean(s) && i < |s.current| && Answered(s.current[i])
    ensures Line(Free(s, i), other) == Line(s, other)
  {
    FreedClean(s, i);
    FreeWaiting(s.current, i, other);
    ScheduleLine(s.(current := s.current[..i] + s.current[i + 1..], numCurrent := s.numCurrent - 1), other);
  }

  lemma {:induction false} WithoutAbsent(q: seq<nat>, r: nat)
    requires r !in q
    ensures Without(q, r) == q
  {
    if q != [] { WithoutAbsent(q[1..], r); }
  }

  lemma {:induction false} WithoutAdd(a: seq<nat>, b: seq<nat>, r: nat)
    ensures Without(a + b, r) == Without(a, r) + Without(b, r)
  {
    if a == [] {
      assert a + b == b;
    } else {
      assert (a + b)[1..] == a[1..] + b;
      WithoutAdd(a[1..], b, r);
    }
  }

  lemma {:induction false} CancelLine(s: State, i: nat, r: nat, other: Lock)
    requires Clean(s) && i < |s.pending|
    ensures Line(Cancel(s, i, r), other)
            == if other == s.pending[i].lock then Waiting(s.current, other) + Without(Waiting(s.pending, other), r)
               else Line(s, other)
    ensures r !in Cancel(s, i, r).pending[i].reqs
  {
    var t := Cancel(s, i, r);
    SameLocks(s.pending, t.pending, other);
    assert s.pending[i] in s.pending;
    if other == s.pending[i].lock {
      assert Find(s.pending, other) == i;
      assert s.pending[i].reqs[0..] == s.pending[i].reqs && t.pending[i].reqs[0..] == t.pending[i].reqs;
    }
  }

  /** The request leaves its lock's line; one that was called back already is no
      longer in it. */
  lemma {:induction false} WithdrawLine(s: State, i: nat, r: nat, other: Lock)
    requires Clean(s) && i < |s.current| && s.current[i].told <= |s.current[i].reqs|
    ensures Line(Withdraw(s, i, r), other)
            == if other == s.current[i].lock then Without(Waiting(s.current, other), r) + Waiting(s.pending, other)
               else Line(s, other)
    ensures r !in Withdraw(s, i, r).current[i].reqs
  {
    var t, c := Withdraw(s, i, r), s.current[i];
    SameLocks(s.current, t.current, other);
    if other == c.lock {
      assert Find(s.current, other) == i;
      var done, rest := Without(c.reqs[..c.told], r), Without(c.reqs[c.told..], r);
      assert (done + rest)[|done|..] == rest;
    }
  }
}
