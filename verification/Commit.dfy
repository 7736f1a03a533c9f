/** Rolling a transaction out to all nodes: one update control to every active
    node, and one answer to the client. */
module Commit {

  /** waiting: nodes whose reply is still looked for. sent and acked are history:
      the nodes the update went to, and those that acknowledged with status 0. */
  datatype Commit = Commit(client: nat, control: nat, waiting: set<nat>, numPending: int, sent: set<nat>,
                           acked: set<nat>)

  datatype Answer = Answer(control: nat, status: int, sent: set<nat>, acked: set<nat>)

  /** active: ctdb_db->persistent_state; clientDb: client->db_id when not 0. */
  datatype State = State(recovery: bool, active: map<nat, Commit>, clientDb: map<nat, nat>, answers: seq<Answer>)

  function Reply(s: State, c: Commit, status: int): State {
    s.(answers := s.answers + [Answer(c.control, status, c.sent, c.acked)])
  }

  /** ctdb_persistent_state_destructor */
  function Drop(s: State, db: nat): State
    requires db in s.active
  {
    s.(active := s.active - {db}, clientDb := s.clientDb - {s.active[db].client})
  }

  /** Why a commit is refused at once: a recovery, an unknown client or database,
      or a commit that is active for the client or the database. */
  predicate Refused(s: State, client: nat, db: nat, known: bool) {
    s.recovery || !known || client in s.clientDb || db in s.active
  }

  /** A refused commit, a failing send and a commit without nodes are answered at
      once; targets are the active nodes, and the sends after the first ok fail. */
  function Start(s: State, client: nat, control: nat, db: nat, known: bool, targets: set<nat>, sends: bool): State {
    if Refused(s, client, db, known) || (targets != {} && !sends) then
      s.(answers := s.answers + [Answer(control, -1, {}, {})])
    else if targets == {} then
      s.(answers := s.answers + [Answer(control, 0, {}, {})])
    else
      s.(active := s.active[db := Commit(client, control, targets, |targets|, targets, {})],
      clientDb := s.clientDb[client := db])
  }

  /** ctdb_persistent_callback */
  function Ack(s: State, db: nat, node: nat, status: int): State
    requires db in s.active
  {
    var c := s.active[db].(waiting := s.active[db].waiting - {node});
    var heard := s.(active := s.active[db := c]);
    if s.recovery then heard
    else if status != 0 then heard.(recovery := true)
    else
      var d := c.(numPending := c.numPending - 1, acked := c.acked + {node});
      var t := s.(active := s.active[db := d]);
      if d.numPending != 0 then t else Drop(Reply(t, d, 0), db)
  }

  /** ctdb_persistent_store_timeout */
  function Timeout(s: State, db: nat): State
    requires db in s.active
  {
    if s.recovery then s else Drop(Reply(s, s.active[db], 1), db)
  }

  /** One database of ctdb_persistent_finish_trans3_commits. */
  function FinishOne(s: State, db: nat): State {
    if db in s.active then Drop(Reply(s, s.active[db], 2), db) else s
  }

  function FinishAll(s: State, dbs: seq<nat>): State
    decreases |dbs|
  {
    if dbs == [] then s else FinishAll(FinishOne(s, dbs[0]), dbs[1..])
  }

  function Finish(s: State, dbs: seq<nat>): State { if s.recovery then s else FinishAll(s, dbs) }

  /** The client's connection goes away. */
  function Exit(s: State, client: nat): State {
    if client !in s.clientDb then s
    else
      var t := s.(recovery := true);
      if s.clientDb[client] in s.active then Drop(t, s.clientDb[client]) else t
  }

  // ---- the invariant

  ghost predicate CommitOk(s: State, db: nat)
    requires db in s.active
  {
    var c := s.active[db];
    && c.client in s.clientDb && s.clientDb[c.client] == db
    && c.acked <= c.sent && c.waiting <= c.sent && c.acked !! c.waiting
    && c.numPending == |c.sent| - |c.acked|
    && (forall a <- s.answers :: a.control != c.control)
  }

  ghost predicate ClientOk(s: State, client: nat)
    requires client in s.clientDb
  {
    s.clientDb[client] in s.active && s.active[s.clientDb[client]].client == client
  }

  /** Which status an ending gives: 0 when every node the update went to has
      acknowledged, -1 for a refusal, 1 or 2 for a commit that was not finished. */
  ghost predicate AnswerOk(a: Answer) {
    || (a.status == 0 && a.acked == a.sent)
    || (a.status == -1 && a.sent == {} && a.acked == {})
    || ((a.status == 1 || a.status == 2) && a.acked < a.sent)
  }

  ghost predicate AnswersOk(s: State) {
    && (forall a <- s.answers :: AnswerOk(a))
    && (forall i, j | 0 <= i < j < |s.answers| :: s.answers[i].control != s.answers[j].control)
  }

  ghost predicate OwnControls(s: State) {
    forall d, e | d in s.active && e in s.active && d != e :: s.active[d].control != s.active[e].control
  }

  ghost predicate Inv(s: State) {
    && (forall db {:trigger CommitOk(s, db)} | db in s.active :: CommitOk(s, db))
    && (forall client {:trigger ClientOk(s, client)} | client in s.clientDb :: ClientOk(s, client))
    && AnswersOk(s) && OwnControls(s)
  }

  /** No commit waits for nothing. */
  ghost predicate Unfinished(s: State) { forall db <- s.active :: s.active[db].numPending > 0 }

  /** A control that has neither been answered nor is being worked on. */
  ghost predicate New(s: State, control: nat) {
    (forall a <- s.answers :: a.control != control) && forall db <- s.active :: s.active[db].control != control
  }

  lemma AnswerKeeps(s: State, a: Answer)
    requires Inv(s) && New(s, a.control) && AnswerOk(a)
    ensures Inv(s.(answers := s.answers + [a]))
  {
    var t := s.(answers := s.answers + [a]);
    forall db | db in t.active ensures CommitOk(t, db) { assert CommitOk(s, db); }
    forall c | c in t.clientDb ensures ClientOk(t, c) { assert ClientOk(s, c); }
    assert forall i | 0 <= i < |s.answers| :: s.answers[i] in s.answers;
  }

  lemma DropKeeps(s: State, db: nat)
    requires Inv(s) && db in s.active
    ensures Inv(Drop(s, db))
  {
    var t := Drop(s, db);
    assert CommitOk(s, db);
    forall d | d in t.active ensures CommitOk(t, d) { assert CommitOk(s, d); }
    forall c | c in t.clientDb ensures ClientOk(t, c) { assert ClientOk(s, c); }
  }

  /** Answering a commit and forgetting it. */
  lemma ReplyKeeps(s: State, db: nat, status: int)
    requires Inv(s) && db in s.active
    requires AnswerOk(Answer(s.active[db].control, status, s.active[db].sent, s.active[db].acked))
    ensures Inv(Drop(Reply(s, s.active[db], status), db))
  {
    var c, t := s.active[db], Drop(s, db);
    DropKeeps(s, db);
    assert CommitOk(s, db);
    AnswerKeeps(t, Answer(c.control, status, c.sent, c.acked));
    assert Drop(Reply(s, c, status), db) == t.(answers := t.answers + [Answer(c.control, status, c.sent, c.acked)]);
  }

  lemma StartKeeps(s: State, client: nat, control: nat, db: nat, known: bool, targets: set<nat>, sends: bool)
    requires Inv(s) && Unfinished(s) && New(s, control)
    ensures Inv(Start(s, client, control, db, known, targets, sends))
    ensures Unfinished(Start(s, client, control, db, known, targets, sends))
  {
    var t := Start(s, client, control, db, known, targets, sends);
    if Refused(s, client, db, known) || (targets != {} && !sends) {
      AnswerKeeps(s, Answer(control, -1, {}, {}));
    } else if targets == {} {
      AnswerKeeps(s, Answer(control, 0, {}, {}));
    } else {
      forall d | d in t.active ensures CommitOk(t, d) { if d != db { assert CommitOk(s, d); } }
      forall c | c in t.clientDb ensures ClientOk(t, c) { if c != client { assert ClientOk(s, c); } }
      assert |targets| > 0;
    }
  }

  lemma {:induction false} SameSize(a: set<nat>, b: set<nat>)
    requires a <= b && |a| == |b|
    ensures a == b
  {
    assert b == a + (b - a);
    assert |b - a| == 0;
  }

  /** A reply changes one commit only. */
  lemma UpdateKeeps(s: State, db: nat, c: Commit)
    requires Inv(s) && db in s.active && c.client == s.active[db].client && c.control == s.active[db].control
    requires c.acked <= c.sent && c.waiting <= c.sent && c.acked !! c.waiting && c.numPending == |c.sent| - |c.acked|
    ensures Inv(s.(active := s.active[db := c]))
  {
    var t := s.(active := s.active[db := c]);
    forall d | d in t.active ensures CommitOk(t, d) { assert CommitOk(s, d); }
    forall k | k in t.clientDb ensures ClientOk(t, k) { assert ClientOk(s, k); }
  }

  lemma AckKeeps(s: State, db: nat, node: nat, status: int)
    requires Inv(s) && Unfinished(s) && db in s.active && node in s.active[db].waiting
    ensures Inv(Ack(s, db, node, status)) && Unfinished(Ack(s, db, node, status))
  {
    var c := s.active[db].(waiting := s.active[db].waiting - {node});
    assert CommitOk(s, db);
    UpdateKeeps(s, db, c);
    if !s.recovery {
      if status != 0 {
        ModeKeeps(s.(active := s.active[db := c]), true);
      } else {
        var d := c.(numPending := c.numPending - 1, acked := c.acked + {node});
        var t := s.(active := s.active[db := d]);
        assert |d.acked| == |c.acked| + 1;
        UpdateKeeps(s, db, d);
        if d.numPending == 0 {
          SameSize(d.acked, d.sent);
          ReplyKeeps(t, db, 0);
        }
      }
    }
  }

  lemma ModeKeeps(s: State, recovery: bool)
    requires Inv(s)
    ensures Inv(s.(recovery := recovery))
  {
    var t := s.(recovery := recovery);
    forall d | d in t.active ensures CommitOk(t, d) { assert CommitOk(s, d); }
    forall k | k in t.clientDb ensures ClientOk(t, k) { assert ClientOk(s, k); }
  }

  lemma NotAllAcked(s: State, db: nat)
    requires Inv(s) && Unfinished(s) && db in s.active
    ensures s.active[db].acked < s.active[db].sent
  {
    assert CommitOk(s, db);
    assert |s.active[db].acked| < |s.active[db].sent|;
    assert s.active[db].acked != s.active[db].sent;
  }

  lemma TimeoutKeeps(s: State, db: nat)
    requires Inv(s) && Unfinished(s) && db in s.active
    ensures Inv(Timeout(s, db)) && Unfinished(Timeout(s, db))
  {
    if !s.recovery {
      NotAllAcked(s, db);
      ReplyKeeps(s, db, 1);
    }
  }

  lemma {:induction false} FinishKeeps(s: State, dbs: seq<nat>)
    requires Inv(s) && Unfinished(s)
    ensures Inv(FinishAll(s, dbs)) && Unfinished(FinishAll(s, dbs))
    ensures forall db :: db in FinishAll(s, dbs).active <==> db in s.active && db !in dbs
    decreases |dbs|
  {
    if dbs != [] {
      if dbs[0] in s.active {
        NotAllAcked(s, dbs[0]);
        ReplyKeeps(s, dbs[0], 2);
      }
      FinishKeeps(FinishOne(s, dbs[0]), dbs[1..]);
    }
  }

  lemma ExitKeeps(s: State, client: nat)
    requires Inv(s) && Unfinished(s)
    ensures Inv(Exit(s, client)) && Unfinished(Exit(s, client)) && client !in Exit(s, client).clientDb
  {
    if client in s.clientDb {
      assert ClientOk(s, client);
      ModeKeeps(s, true);
      DropKeeps(s.(recovery := true), s.clientDb[client]);
    }
  }

  // ---- runs

  datatype Event =
    | Begin(client: nat, control: nat, db: nat, known: bool, targets: set<nat>, sends: bool)
    | Acked(db: nat, node: nat, status: int)
    | TimedOut(db: nat)
    | Mode(recovery: bool)
    | EndRecovery(dbs: seq<nat>)
    | ClientExit(client: nat)

  ghost predicate Enabled(s: State, e: Event) {
    match e
    case Begin(_, control, _, _, _, _) => New(s, control)
    case Acked(db, node, _) => db in s.active && node in s.active[db].waiting
    case TimedOut(db) => db in s.active
    case _ => true
  }

  ghost function Next(s: State, e: Event): State
    requires Enabled(s, e)
  {
    match e
    case Begin(client, control, db, known, targets, sends) => Start(s, client, control, db, known, targets, sends)
    case Acked(db, node, status) => Ack(s, db, node, status)
    case TimedOut(db) => Timeout(s, db)
    case Mode(recovery) => s.(recovery := recovery)
    case EndRecovery(dbs) => Finish(s, dbs)
    case ClientExit(client) => Exit(s, client)
  }

  /** The control of an active commit, answered with this status. */
  ghost function Ending(s: State, db: nat, status: int): Answer
    requires db in s.active
  {
    Answer(s.active[db].control, status, s.active[db].sent, s.active[db].acked)
  }

  /** The answers an event gives. A commit is answered with 0 by the last of its
      acknowledgements, with 1 by its timeout and with 2 at the end of a recovery; what
      is not begun is answered at once. */
  ghost predicate Gives(s: State, e: Event, more: seq<Answer>) {
    match e
    case Begin(client, control, db, known, targets, sends) =>
      var free := !s.recovery && known && db !in s.active && forall d <- s.active :: s.active[d].client != client;
      more == if !free || (targets != {} && !sends) then [Answer(control, -1, {}, {})]
              else if targets == {} then [Answer(control, 0, {}, {})] else []
    case Acked(db, node, status) =>
      db in s.active && var c := s.active[db];
      more == if !s.recovery && status == 0 && c.acked + {node} == c.sent then [Answer(c.control, 0, c.sent, c.sent)]
              else []
    case TimedOut(db) => db in s.active && more == if s.recovery then [] else [Ending(s, db, 1)]
    case EndRecovery(dbs) =>
      && (s.recovery ==> more == [])
      && (!s.recovery ==> forall a :: a in more <==> exists db :: db in s.active && db in dbs && a == Ending(s, db, 2))
    case _ => more == []
  }

  lemma {:induction false} FinishGives(s: State, dbs: seq<nat>)
    ensures s.answers <= FinishAll(s, dbs).answers
    ensures forall a :: a in FinishAll(s, dbs).answers[|s.answers|..]
                        <==> exists db :: db in s.active && db in dbs && a == Ending(s, db, 2)
    decreases |dbs|
  {
    var t := FinishAll(s, dbs);
    if dbs != [] {
      var u, first := FinishOne(s, dbs[0]), if dbs[0] in s.active then [Ending(s, dbs[0], 2)] else [];
      FinishGives(u, dbs[1..]);
      assert t.answers[|s.answers|..] == first + t.answers[|u.answers|..];
      assert forall db :: db in u.active <==> db in s.active && db != dbs[0];
      assert forall db | db in u.active :: Ending(u, db, 2) == Ending(s, db, 2);
      assert forall db :: db in dbs <==> db == dbs[0] || db in dbs[1..];
      forall a ensures a in t.answers[|s.answers|..]
                       <==> exists db :: db in s.active && db in dbs && a == Ending(s, db, 2)
      {
        if db :| db in s.active && db in dbs && a == Ending(s, db, 2) {
          if db != dbs[0] { assert db in u.active && db in dbs[1..] && a == Ending(u, db, 2); }
        }
      }
    }
  }

  lemma StepGives(s: State, e: Event)
    requires Inv(s) && Unfinished(s) && Enabled(s, e)
    ensures s.answers <= Next(s, e).answers && Gives(s, e, Next(s, e).answers[|s.answers|..])
  {
    match e
    case Begin(client, _, _, _, _, _) =>
      assert client in s.clientDb ==> ClientOk(s, client);
      forall d | d in s.active && s.active[d].client == client ensures client in s.clientDb { assert CommitOk(s, d); }
    case Acked(db, node, status) => AckGives(s, db, node, status);
    case EndRecovery(dbs) => FinishGives(s, dbs);
    case _ =>
  }

  lemma AckGives(s: State, db: nat, node: nat, status: int)
    requires Inv(s) && Unfinished(s) && Enabled(s, Acked(db, node, status))
    ensures var t := Ack(s, db, node, status);
            s.answers <= t.answers && Gives(s, Acked(db, node, status), t.answers[|s.answers|..])
  {
    var c := s.active[db];
    assert CommitOk(s, db);
    assert |c.acked + {node}| == |c.acked| + 1;
    if |c.acked| + 1 == |c.sent| { SameSize(c.acked + {node}, c.sent); }
  }

  lemma NextKeeps(s: State, e: Event)
    requires Inv(s) && Unfinished(s) && Enabled(s, e)
    ensures Inv(Next(s, e)) && Unfinished(Next(s, e))
  {
    match e
    case Begin(client, control, db, known, targets, sends) => StartKeeps(s, client, control, db, known, targets, sends);
    case Acked(db, node, status) => AckKeeps(s, db, node, status);
    case TimedOut(db) => TimeoutKeeps(s, db);
    case Mode(recovery) => ModeKeeps(s, recovery);
    case EndRecovery(dbs) => FinishKeeps(s, dbs);
    case ClientExit(client) => ExitKeeps(s, client);
  }

  ghost predicate Run(ss: seq<State>, es: seq<Event>) {
    && |ss| == |es| + 1 && ss[0] == State(false, map[], map[], [])
    && forall i | 0 <= i < |es| :: Enabled(ss[i], es[i]) && ss[i + 1] == Next(ss[i], es[i])
  }

  lemma {:induction false} RunKeeps(ss: seq<State>, es: seq<Event>, i: nat)
    requires Run(ss, es) && i < |ss|
    ensures Inv(ss[i]) && Unfinished(ss[i])
  {
    if i > 0 {
      RunKeeps(ss, es, i - 1);
      NextKeeps(ss[i - 1], es[i - 1]);
    }
  }

  /** In every state of every run: a client has at most one active commit, a
      control is answered at most once and not while it is active, and for a commit
      that was begun status 0 means that every node acknowledged it, and any other
      status that some did not. */
  lemma CommitsAreCounted(ss: seq<State>, es: seq<Event>, i: nat)
    requires Run(ss, es) && i < |ss|
    ensures var s := ss[i];
            && (forall d, e | d in s.active && e in s.active && s.active[d].client == s.active[e].client :: d == e)
            && (forall j, k | 0 <= j < k < |s.answers| :: s.answers[j].control != s.answers[k].control)
            && (forall d, a | d in s.active && a in s.answers :: a.control != s.active[d].control)
            && (forall a <- s.answers :: AnswerOk(a))
            && (forall d <- s.active :: s.active[d].acked < s.active[d].sent)
  {
    RunKeeps(ss, es, i);
    var s := ss[i];
    forall d | d in s.active
      ensures s.active[d].client in s.clientDb && s.clientDb[s.active[d].client] == d
              && s.active[d].acked < s.active[d].sent
    {
      assert CommitOk(s, d);
      NotAllAcked(s, d);
    }
    forall d, a | d in s.active && a in s.answers ensures a.control != s.active[d].control { assert CommitOk(s, d); }
  }

  /** Every step of every run gives exactly the answers its event stands for. */
  lemma EndingsTold(ss: seq<State>, es: seq<Event>, i: nat)
    requires Run(ss, es) && i < |es|
    ensures ss[i].answers <= ss[i + 1].answers && Gives(ss[i], es[i], ss[i + 1].answers[|ss[i].answers|..])
  {
    RunKeeps(ss, es, i);
    StepGives(ss[i], es[i]);
  }

  /** The same commit, with the replies it had and perhaps one more. */
  ghost predicate GoesOn(c: Commit, d: Commit, heard: set<nat>, acks: set<nat>) {
    && d.client == c.client && d.control == c.control && d.sent == c.sent
    && d.waiting == c.waiting - heard && d.acked == c.acked + acks
  }

  /** A commit ends only by being answered or with its client; otherwise it counts the
      acknowledgements that come outside a recovery. */
  ghost predicate Ends(s: State, e: Event, t: State, db: nat)
    requires db in s.active && s.answers <= t.answers
  {
    var c := s.active[db];
    var heard := if e.Acked? && e.db == db then {e.node} else {};
    var acks := if e.Acked? && e.status == 0 && !s.recovery then heard else {};
    if db in t.active then GoesOn(c, t.active[db], heard, acks)
    else (e.ClientExit? && e.client == c.client) || exists a <- t.answers[|s.answers|..] :: a.control == c.control
  }

  /** What is begun and not answered at once waits for all its nodes. */
  ghost predicate Begins(s: State, e: Event, t: State)
    requires s.answers <= t.answers
  {
    e.Begin? && t.answers == s.answers ==>
      && e.db in t.active && t.active[e.db].control == e.control && t.active[e.db].client == e.client
      && t.active[e.db].sent == t.active[e.db].waiting == e.targets != {} && t.active[e.db].acked == {}
  }

  /** A node that fails a commit starts a recovery, and so does a client that leaves
      during one. */
  ghost predicate ModeAfter(s: State, e: Event, t: State) {
    t.recovery <==>
    match e
    case Mode(recovery) => recovery
    case Acked(_, _, status) => s.recovery || status != 0
    case ClientExit(client) => s.recovery || exists db <- s.active :: s.active[db].client == client
    case _ => s.recovery
  }

  lemma StepEnds(s: State, e: Event, db: nat)
    requires Inv(s) && Unfinished(s) && Enabled(s, e) && db in s.active && s.answers <= Next(s, e).answers
    ensures Ends(s, e, Next(s, e), db)
  {
    assert CommitOk(s, db);
    match e
    case ClientExit(client) => assert client in s.clientDb ==> ClientOk(s, client);
    case EndRecovery(dbs) => RecoveryEnds(s, dbs, db);
    case Acked(d, node, status) => AckEnds(s, d, node, status, db);
    case TimedOut(d) => TimeoutEnds(s, d, db);
    case _ =>
  }

  lemma RecoveryEnds(s: State, dbs: seq<nat>, db: nat)
    requires Inv(s) && Unfinished(s) && db in s.active
    ensures s.answers <= Finish(s, dbs).answers && Ends(s, EndRecovery(dbs), Finish(s, dbs), db)
  {
    if !s.recovery {
      FinishGives(s, dbs);
      FinishEnds(s, dbs, db);
      if db in dbs { assert Ending(s, db, 2) in FinishAll(s, dbs).answers[|s.answers|..]; }
    }
  }

  lemma AckEnds(s: State, d: nat, node: nat, status: int, db: nat)
    requires Inv(s) && Unfinished(s) && Enabled(s, Acked(d, node, status)) && db in s.active
    ensures var t := Ack(s, d, node, status); s.answers <= t.answers && Ends(s, Acked(d, node, status), t, db)
  {
    var t, c := Ack(s, d, node, status), s.active[db];
    var more := t.answers[|s.answers|..];
    assert CommitOk(s, d) && CommitOk(s, db) && c.acked + {} == c.acked;
    if d == db && db !in t.active { assert more[0] in more; }
  }

  lemma TimeoutEnds(s: State, d: nat, db: nat)
    requires Inv(s) && Unfinished(s) && d in s.active && db in s.active
    ensures s.answers <= Timeout(s, d).answers && Ends(s, TimedOut(d), Timeout(s, d), db)
  {
    var more := Timeout(s, d).answers[|s.answers|..];
    if d == db && !s.recovery { assert more == [Ending(s, db, 1)] && more[0] in more; }
  }

  lemma {:induction false} FinishEnds(s: State, dbs: seq<nat>, db: nat)
    requires db in s.active
    ensures var t := FinishAll(s, dbs);
            if db in dbs then db !in t.active else db in t.active && t.active[db] == s.active[db]
    decreases |dbs|
  {
    if dbs != [] {
      var t := FinishOne(s, dbs[0]);
      if dbs[0] == db { FinishNever(t, dbs[1..], db); } else { FinishEnds(t, dbs[1..], db); }
    }
  }

  lemma {:induction false} FinishNever(s: State, dbs: seq<nat>, db: nat)
    requires db !in s.active
    ensures db !in FinishAll(s, dbs).active
    decreases |dbs|
  {
    if dbs != [] { FinishNever(FinishOne(s, dbs[0]), dbs[1..], db); }
  }

  lemma StepMode(s: State, e: Event)
    requires Inv(s) && Enabled(s, e)
    ensures ModeAfter(s, e, Next(s, e))
  {
    match e
    case ClientExit(client) =>
      if client in s.clientDb { assert ClientOk(s, client); }
      forall db | db in s.active && s.active[db].client == client ensures client in s.clientDb {
        assert CommitOk(s, db);
      }
    case EndRecovery(dbs) => FinishMode(s, dbs);
    case _ =>
  }

  lemma {:induction false} FinishMode(s: State, dbs: seq<nat>)
    ensures FinishAll(s, dbs).recovery == s.recovery
    decreases |dbs|
  {
    if dbs != [] { FinishMode(FinishOne(s, dbs[0]), dbs[1..]); }
  }

  /** No commit is forgotten: at every step of every run it goes on, is answered, or
      its client has left. */
  lemma NoneForgotten(ss: seq<State>, es: seq<Event>, i: nat, db: nat)
    requires Run(ss, es) && i < |es|
    ensures ss[i].answers <= ss[i + 1].answers && (db in ss[i].active ==> Ends(ss[i], es[i], ss[i + 1], db))
    ensures Begins(ss[i], es[i], ss[i + 1])
    ensures ModeAfter(ss[i], es[i], ss[i + 1])
  {
    RunKeeps(ss, es, i);
    StepGives(ss[i], es[i]);
    StepMode(ss[i], es[i]);
    if db in ss[i].active { StepEnds(ss[i], es[i], db); }
  }

  // ---- the daemon's part

  datatype Target = Target(pnn: nat, inactive: bool, sendOk: bool)

  ghost function Targets(nodes: seq<Target>): set<nat> {
    set i | 0 <= i < |nodes| && !nodes[i].inactive :: nodes[i].pnn
  }

  ghost predicate SendsWork(nodes: seq<Target>) { forall i | 0 <= i < |nodes| && !nodes[i].inactive :: nodes[i].sendOk }

  class Daemon {
    var recovery: bool
    var active: map<nat, Commit>
    var clientDb: map<nat, nat>
    var answers: seq<Answer>

    constructor ()
      ensures View() == State(false, map[], map[], []) && Inv(View()) && Unfinished(View())
    {
      recovery, active, clientDb, answers := false, map[], map[], [];
    }

    ghost function View(): State
      reads this
    {
      State(recovery, active, clientDb, answers)
    }

    /** One update control to each active node of the vnn map. */
    static method SendAll(nodes: seq<Target>) returns (ok: bool, sent: set<nat>, numPending: nat)
      requires forall i, j | 0 <= i < j < |nodes| :: nodes[i].pnn != nodes[j].pnn
      ensures ok <==> SendsWork(nodes)
      ensures ok ==> sent == Targets(nodes) && numPending == |sent|
    {
      sent, numPending := {}, 0;
      for i := 0 to |nodes|
        invariant SendsWork(nodes[..i]) && sent == Targets(nodes[..i]) && numPending == |sent|
      {
        ghost var before := nodes[..i];
        assert nodes[..i + 1] == before + [nodes[i]];
        var node := nodes[i];
        if node.inactive {
          assert Targets(nodes[..i + 1]) == Targets(before);
          continue;
        }
        if !node.sendOk {
          return false, {}, 0;
        }
        assert node.pnn !in sent;
        assert Targets(nodes[..i + 1]) == Targets(before) + {node.pnn} by {
          assert nodes[..i + 1][i] == node;
          assert forall k | 0 <= k < i :: nodes[..i + 1][k] == before[k];
        }
        sent, numPending := sent + {node.pnn}, numPending + 1;
      }
      assert nodes[..|nodes|] == nodes;
      ok := true;
    }

    /** ctdb_control_trans3_commit; a control answered at once counts as answered. */
    method TransCommit(client: nat, control: nat, db: nat, known: bool, nodes: seq<Target>)
      requires Inv(View()) && Unfinished(View()) && New(View(), control)
      requires forall i, j | 0 <= i < j < |nodes| :: nodes[i].pnn != nodes[j].pnn
      modifies this`active, this`clientDb, this`answers
      ensures View() == Start(old(View()), client, control, db, known, Targets(nodes), SendsWork(nodes))
      ensures Inv(View()) && Unfinished(View())
    {
      StartKeeps(View(), client, control, db, known, Targets(nodes), SendsWork(nodes));
      if recovery || !known || client in clientDb || db in active {
        answers := answers + [Answer(control, -1, {}, {})];
        return;
      }
      var ok, sent, numPending := SendAll(nodes);
      if !ok {
        SomeTarget(nodes);
        answers := answers + [Answer(control, -1, {}, {})];
        return;
      }
      if numPending == 0 {
        answers := answers + [Answer(control, 0, {}, {})];
        return;
      }
      active := active[db := Commit(client, control, sent, numPending, sent, {})];
      clientDb := clientDb[client := db];
    }

    /** Answers the control of a commit and frees its state. */
    method ReplyAndFree(db: nat, status: int)
      requires db in active
      modifies this`active, this`clientDb, this`answers
      ensures View() == Drop(Reply(old(View()), old(active)[db], status), db)
    {
      var c := active[db];
      answers := answers + [Answer(c.control, status, c.sent, c.acked)];
      active := active - {db};
      clientDb := clientDb - {c.client};
    }

    /** ctdb_persistent_callback */
    method Callback(db: nat, node: nat, status: int)
      requires Inv(View()) && Unfinished(View()) && Enabled(View(), Acked(db, node, status))
      modifies this
      ensures View() == Ack(old(View()), db, node, status) && Inv(View()) && Unfinished(View())
    {
      AckKeeps(View(), db, node, status);
      var c := active[db].(waiting := active[db].waiting - {node});
      active := active[db := c];
      if recovery {
        return;
      }
      if status != 0 {
        recovery := true;
        return;
      }
      c := c.(numPending := c.numPending - 1, acked := c.acked + {node});
      active := active[db := c];
      if c.numPending != 0 {
        return;
      }
      ReplyAndFree(db, 0);
    }

    /** ctdb_persistent_store_timeout */
    method StoreTimeout(db: nat)
      requires Inv(View()) && Unfinished(View()) && db in active
      modifies this`active, this`clientDb, this`answers
      ensures View() == Timeout(old(View()), db) && Inv(View()) && Unfinished(View())
    {
      TimeoutKeeps(View(), db);
      if recovery {
        return;
      }
      ReplyAndFree(db, 1);
    }

    /** ctdb_persistent_finish_trans3_commits over the list of databases. */
    method FinishTrans3Commits(dbs: seq<nat>)
      requires Inv(View()) && Unfinished(View())
      modifies this`active, this`clientDb, this`answers
      ensures View() == Finish(old(View()), dbs) && Inv(View()) && Unfinished(View())
    {
      FinishKeeps(View(), dbs);
      if recovery {
        return;
      }
      var i := 0;
      while i < |dbs|
        invariant i <= |dbs| && FinishAll(old(View()), dbs) == FinishAll(View(), dbs[i..])
      {
        assert dbs[i..][1..] == dbs[i + 1..];
        if dbs[i] in active {
          ReplyAndFree(dbs[i], 2);
        }
        i := i + 1;
      }
    }

    /** ctdb_client_destructor, as far as commits go. */
    method ClientGone(client: nat)
      requires Inv(View()) && Unfinished(View())
      modifies this
      ensures View() == Exit(old(View()), client) && Inv(View()) && Unfinished(View())
    {
      ExitKeeps(View(), client);
      if client in clientDb {
        assert ClientOk(View(), client);
        recovery := true;
        var db := clientDb[client];
        var owner := active[db].client;
        active := active - {db};
        clientDb := clientDb - {owner};
      }
    }
  }

  lemma SomeTarget(nodes: seq<Target>)
    requires !SendsWork(nodes)
    ensures Targets(nodes) != {}
  {
    var i :| 0 <= i < |nodes| && !nodes[i].inactive && !nodes[i].sendOk;
    assert nodes[i].pnn in Targets(nodes);
  }
}
