/** What one daemon does with one packet or one client request about the key:
    each handler, run under the chainlock, as a function from the daemon's
    state to its new state, the packets it queues and the events it records. */
module Protocol {
  import opened Ltdb

  const FETCH_WITH_HEADER: nat := 0xFF000003

  datatype Packet =
    | ReqCall(gen: nat, src: nat, dst: nat, reqid: nat, ro: bool, callid: nat, hops: nat)
    | ReplyCall(gen: nat, dst: nat, reqid: nat, data: Data)
    | ReplyRo(gen: nat, dst: nat, reqid: nat, h: Header, data: Data)
    | ReqDmaster(gen: nat, src: nat, dst: nat, reqid: nat, newdm: nat, rsn: int, flags: Flags, data: Data)
    | ReplyDmaster(gen: nat, dst: nat, reqid: nat, rsn: int, flags: Flags, data: Data)
    | Update(gen: nat, dst: nat, h: Header, data: Data)  // UPDATE_RECORD control of a revoke
    | Ack(gen: nat, dst: nat, src: nat, ok: bool)        // its reply, to the revoke of that generation

  /** The revoke child of a daemon: what it pushes, and the nodes that have not
      answered yet. */
  datatype Revoke = Idle | Running(rsn: int, data: Data, waiting: set<nat>, failed: bool) | Stuck

  datatype NodeState = NodeState(rec: Rec, tracking: set<nat>, revoke: Revoke)

  /** A registered call function applied to the record data. */
  datatype CallResult = Failed | Done(data: Data, reply: Data)
  type Ops = (nat, Data) -> CallResult

  /** The call a reqid resolves to when a dmaster packet arrives. */
  datatype Pending = NoCall | Pending(callid: nat, vac: bool)

  /** History of what the callers observed. */
  datatype Event =
    | Exec(callid: nat, seen: Data, written: Data, reply: Data)
    | Write(data: Data)
    | Read(data: Data)
    | Delegated(to: nat, data: Data)
    | Cleared
    | Dropped

  datatype Env = Env(me: nat, lm: nat, gen: nat, rodb: bool, ops: Ops)

  datatype Effect = Effect(
    ns: NodeState,
    out: multiset<Packet>,
    parked: bool,   // the packet waits for the end of a revoke
    fault: bool,    // the daemon asks for a recovery or aborts
    log: seq<Event>)

  function Quiet(ns: NodeState): Effect { Effect(ns, multiset{}, false, false, []) }

  /** Fetch, then drop the read-only state left by a completed revoke. */
  function PreCall(e: Env, ns: NodeState): NodeState {
    var rec := FetchRec(e.me, e.lm, ns.rec);
    var h := FetchHeader(e.me, e.lm, ns.rec);
    if h.flags.complete then
      NodeState(StoreRec(e.me, e.lm, h.(flags := h.flags.ClearRo()), EffData(ns.rec)), {}, ns.revoke)
    else ns.(rec := rec)
  }

  function PreHeader(e: Env, ns: NodeState): Header {
    var h := FetchHeader(e.me, e.lm, ns.rec);
    if h.flags.complete then
      StoredHeader(e.me, e.lm, h.(flags := h.flags.ClearRo()), EffData(ns.rec))
    else h
  }

  function PreLog(e: Env, ns: NodeState): seq<Event> {
    if FetchHeader(e.me, e.lm, ns.rec).flags.complete then [Cleared] else []
  }

  /** The header a revoke pushes to the delegates. */
  function PushedHeader(h: Header): Header {
    h.(rsn := h.rsn - 1,
       flags := h.flags.(revoking := false, deleg := false, ro := false, migrated := true))
  }

  function Updates(gen: nat, to: set<nat>, h: Header, d: Data): multiset<Packet> {
    multiset(set t | t in to :: Update(gen, t, h, d))
  }

  /** Mark the record as revoking and push a flag-free copy to every tracked node. */
  function StartRevoke(e: Env, ns: NodeState, h: Header, d: Data): Effect {
    var h1 := h.(flags := h.flags.(revoking := true));
    var h2 := StoredHeader(e.me, e.lm, h1, d);
    Effect(
      NodeState(StoreRec(e.me, e.lm, h1, d), ns.tracking, Running(h2.rsn, d, ns.tracking, false)),
      Updates(e.gen, ns.tracking, PushedHeader(h2), d), true, false, [])
  }

  /** Hand out a read-only copy; the first one advances the rsn by three. */
  function Delegate(e: Env, ns: NodeState, h: Header, d: Data, c: Packet): Effect
    requires c.ReqCall?
  {
    var first := !h.flags.deleg;
    var h1 := if first then h.(rsn := h.rsn + 3, flags := h.flags.(deleg := true)) else h;
    var h2 := if first then StoredHeader(e.me, e.lm, h1, d) else h1;
    var rec := if first then StoreRec(e.me, e.lm, h1, d) else ns.rec;
    var h3 := h2.(rsn := h2.rsn - 2, flags := h2.flags.(ro := true, deleg := false));
    Effect(ns.(rec := rec, tracking := ns.tracking + {c.src}),
           multiset{ReplyRo(e.gen, c.src, c.reqid, h3, d)}, false, false, [Delegated(c.src, d)])
  }

  /** The lmaster records the new dmaster and tells it. */
  function SendDmasterReply(e: Env, ns: NodeState, h: Header, d: Data, to: nat, reqid: nat): Effect {
    var h1 := h.(dmaster := to);
    var h2 := StoredHeader(e.me, e.lm, h1, d);
    if e.me != e.lm then Quiet(ns)
    else Effect(ns.(rec := StoreRec(e.me, e.lm, h1, d)),
                multiset{ReplyDmaster(e.gen, to, reqid, h2.rsn, h2.flags, d)}, false, false, [])
  }

  /** Give the record away, through the lmaster. */
  function SendDmaster(e: Env, ns: NodeState, h: Header, d: Data, to: nat, reqid: nat): Effect {
    var h1 := if d != [] then h.(flags := h.flags.(migrated := true)) else h;
    if e.lm == e.me then SendDmasterReply(e, ns, h1, d, to, reqid)
    else Effect(ns.(rec := StoreRec(e.me, e.lm, h1.(dmaster := to), d)),
                multiset{ReqDmaster(e.gen, e.me, e.lm, reqid, to, h1.rsn, h1.flags, d)}, false, false, [])
  }

  /** Run a call on the local record. */
  function CallLocal(e: Env, ns: NodeState, h: Header, d: Data, callid: nat): Effect {
    match e.ops(callid, d)
    case Failed => Quiet(ns)
    case Done(d2, reply) =>
      Effect(ns.(rec := StoreRec(e.me, e.lm, h, d2)), multiset{}, false, false, [Exec(callid, d, d2, reply)])
  }

  function CallReply(e: Env, d: Data, callid: nat): Data {
    match e.ops(callid, d) case Failed => [] case Done(_, reply) => reply
  }

  function BecomeDmaster(e: Env, ns: NodeState, rsn: int, flags: Flags, d: Data, pend: Pending): Effect {
    var vac := pend.Pending? && pend.vac;
    var h := Header(rsn, e.me, if vac then flags.(vacuum := true) else flags);
    var ns1 := ns.(rec := StoreRec(e.me, e.lm, h, d));
    if pend.NoCall? then Quiet(ns1)
    else CallLocal(e, ns1, StoredHeader(e.me, e.lm, h, d), d, pend.callid)
  }

  function RequestDmaster(e: Env, ns: NodeState, p: Packet, pend: Pending): Effect
    requires p.ReqDmaster?
  {
    var ns1 := ns.(rec := FetchRec(e.me, e.lm, ns.rec));
    var h := FetchHeader(e.me, e.lm, ns.rec);
    if e.me != e.lm || (h.dmaster != p.src && (h.rsn != 0 || h.dmaster != e.me)) then
      Quiet(ns1).(fault := true)
    else if p.newdm == e.me then BecomeDmaster(e, ns1, p.rsn, p.flags, p.data, pend)
    else SendDmasterReply(e, ns1, h.(rsn := p.rsn, flags := p.flags), p.data, p.newdm, p.reqid)
  }

  /** The record is in hand and this daemon may answer: revoke, delegate,
      migrate or run the call. */
  function AnswerCall(e: Env, ns: NodeState, h: Header, d: Data, c: Packet, ro: bool): Effect
    requires c.ReqCall?
  {
    if !ro && (h.flags.deleg || h.flags.ro) then StartRevoke(e, ns, h, d)
    else if ro && c.callid == FETCH_WITH_HEADER then Delegate(e, ns, h, d, c)
    else if c.src != e.me then SendDmaster(e, ns, h, d, c.src, c.reqid)
    else
      var eff := CallLocal(e, ns, h, d, c.callid);
      eff.(out := multiset{ReplyCall(e.gen, c.src, c.reqid, CallReply(e, d, c.callid))})
  }

  /** Where a daemon that cannot answer sends a call. */
  function Redirect(e: Env, h: Header): nat { if e.me == e.lm then h.dmaster else e.lm }

  /** With the record fetched, a call waits, is sent on or is answered. */
  function RouteCall(e: Env, ns: NodeState, h: Header, d: Data, c: Packet): Effect
    requires c.ReqCall?
  {
    var ro := c.ro && e.rodb;
    if h.flags.revoking then Quiet(ns).(parked := true)
    else if h.dmaster != e.me && !h.flags.deleg then
      Quiet(ns).(out := multiset{c.(ro := ro, dst := Redirect(e, h), hops := c.hops + 1)})
    else AnswerCall(e, ns, h, d, c, ro)
  }

  function RequestCall(e: Env, ns: NodeState, c: Packet): Effect
    requires c.ReqCall?
  {
    var eff := RouteCall(e, PreCall(e, ns), PreHeader(e, ns), EffData(ns.rec), c);
    eff.(log := PreLog(e, ns) + eff.log)
  }

  /** With the record fetched, a client's call waits, revokes, runs here or goes
      to the node the local header names. */
  function RouteClient(e: Env, ns: NodeState, h: Header, d: Data, ro: bool, callid: nat, reqid: nat): Effect {
    if h.flags.revoking then Quiet(ns)
    else if h.dmaster == e.me && !ro && (h.flags.deleg || h.flags.ro) then StartRevoke(e, ns, h, d)
    else if h.dmaster == e.me then CallLocal(e, ns, h, d, callid)
    else Quiet(ns).(out := multiset{ReqCall(e.gen, e.me, h.dmaster, reqid, ro, callid, 0)})
  }

  /** A call that a local client hands to its daemon; a read-only one becomes
      a fetch with header. */
  function ClientCall(e: Env, ns: NodeState, ro0: bool, callid0: nat, reqid: nat): Effect {
    var ro := ro0 && e.rodb;
    var callid := if ro then FETCH_WITH_HEADER else callid0;
    var eff := RouteClient(e, PreCall(e, ns), PreHeader(e, ns), EffData(ns.rec), ro, callid, reqid);
    eff.(log := PreLog(e, ns) + eff.log)
  }

  /** A delegation arrives; only one newer than the local copy is installed. */
  function ReplyCallRo(e: Env, ns: NodeState, p: Packet, known: bool): Effect
    requires p.ReplyRo?
  {
    if !known || !p.h.flags.ro then Quiet(ns)
    else
      var ns1 := ns.(rec := FetchRec(e.me, e.lm, ns.rec));
      if p.h.rsn <= FetchHeader(e.me, e.lm, ns.rec).rsn then Quiet(ns1)
      else Quiet(ns1.(rec := StoreRec(e.me, e.lm, p.h, p.data)))
  }

  /** UPDATE_RECORD on a volatile database: replace only. */
  function UpdateRecord(e: Env, ns: NodeState, u: Packet): Effect
    requires u.Update?
  {
    var ok := ns.rec.Absent? || ns.rec.h.rsn < u.h.rsn || ns.rec.d == u.data;
    var rec := if ns.rec.Present? && ok then StoreRec(e.me, e.lm, u.h, u.data) else ns.rec;
    Quiet(ns.(rec := rec)).(out := multiset{Ack(u.gen, u.h.dmaster, e.me, ok)})
  }

  /** The answer to a push finds the child that asked by its request id; a child
      of an earlier generation is gone. */
  function AckReceived(e: Env, ns: NodeState, a: Packet): Effect
    requires a.Ack?
  {
    if ns.revoke.Running? && a.gen == e.gen then
      Quiet(ns.(revoke := ns.revoke.(waiting := ns.revoke.waiting - {a.src}, failed := ns.revoke.failed || !a.ok)))
    else Quiet(ns)
  }

  /** The revoke child has all the answers, and re-reads the record. */
  function RevokeFinish(e: Env, ns: NodeState): Effect
    requires ns.revoke.Running?
  {
    var h := FetchHeader(e.me, e.lm, ns.rec);
    if ns.revoke.failed then Quiet(ns.(revoke := Stuck))
    else if h.rsn > ns.revoke.rsn || !h.flags.revoking || !h.flags.deleg then
      Quiet(ns.(rec := FetchRec(e.me, e.lm, ns.rec), revoke := Stuck)).(fault := true)
    else
      var h1 := h.(rsn := h.rsn + 1, flags := h.flags.(complete := true));
      Quiet(NodeState(StoreRec(e.me, e.lm, h1, EffData(ns.rec)), ns.tracking, Idle))
  }

  /** A vacuum delete of a copy that is neither the lmaster's nor a dmaster's. */
  predicate MayDelete(e: Env, ns: NodeState, h: Header) {
    && e.me != e.lm && ns.rec.Present?
    && ns.rec.h.rsn <= h.rsn && !h.flags.AnyRo() && !ns.rec.h.flags.AnyRo()
    && ns.rec.h.dmaster != e.me
  }
}
