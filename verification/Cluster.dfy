/** The whole cluster: n daemons, one key, and a bag of packets on the wire or
    parked in a daemon. Every handler run is one atomic step. */
module Cluster {
  import opened Ltdb
  import opened Protocol

  datatype Config = Config(n: nat, rodb: bool, ops: Ops)

  /** A read-only fetch never changes the record. */
  ghost predicate ValidConfig(c: Config) {
    && c.n > 0
    && forall d: Data :: c.ops(FETCH_WITH_HEADER, d).Done? ==> c.ops(FETCH_WITH_HEADER, d).data == d
  }

  /** `log` is a history variable: what the callers observed, in order. */
  datatype State = State(lm: nat, gen: nat, nodes: seq<NodeState>, net: multiset<Packet>, log: seq<Event>)

  datatype Action =
    | Call(i: nat, ro: bool, callid: nat, reqid: nat)  // a client calls its daemon
    | Store(i: nat, data: Data)                        // a client holding the chainlock stores
    | Resend(i: nat, ro: bool, callid: nat, reqid: nat)  // a daemon sends a waiting call again, to itself
    | Peek(i: nat)                                     // a client reads a read-only copy
    | Deliver(p: Packet, pend: Pending)                // a daemon takes a packet
    | Finish(i: nat)                                   // the revoke child has all answers
    | Timeout(i: nat)                                  // the revoke child gives up
    | Delete(i: nat, h: Header)                        // vacuum deletes a copy
    | Recover(lm: nat, gen: nat, nodes: seq<NodeState>)

  function EnvOf(c: Config, s: State, i: nat): Env { Env(i, s.lm, s.gen, c.rodb, c.ops) }

  predicate WF(c: Config, s: State) { |s.nodes| == c.n && s.lm < c.n }

  /** The register the history leaves behind. */
  function Value(log: seq<Event>): Data {
    if log == [] then []
    else match log[|log| - 1]
      case Exec(_, _, w, _) => w
      case Write(w) => w
      case _ => Value(log[..|log| - 1])
  }

  /** What one event may report when the register holds `v`. */
  predicate Permitted(ops: Ops, v: Data, ev: Event) {
    match ev
    case Exec(callid, seen, w, reply) => seen == v && ops(callid, seen) == Done(w, reply)
    case Read(d) => d == v
    case Delegated(_, d) => d == v
    case _ => true
  }

  /** The history of one atomic register; without `full`, apart from the reads of
      read-only copies. */
  predicate Atomic(full: bool, ops: Ops, log: seq<Event>) {
    forall k | 0 <= k < |log| :: full || !log[k].Read? ==> Permitted(ops, Value(log[..k]), log[k])
  }

  /** The nodes delegated to since the tracking record was last cleared. */
  function DelegatedSince(log: seq<Event>): set<nat> {
    if log == [] then {}
    else match log[|log| - 1]
      case Cleared => {}
      case Delegated(t, _) => DelegatedSince(log[..|log| - 1]) + {t}
      case _ => DelegatedSince(log[..|log| - 1])
  }

  /** What a recovery is assumed to install: an empty record nowhere; any other one
      under the name of one owner, with the current value, marked as migrated with
      data and stripped of its read-only flags, on the owner and the lmaster and
      perhaps elsewhere. The owner's store raises its rsn. */
  ghost predicate Recovered(c: Config, lm: nat, nodes: seq<NodeState>, o: nat, v: Data) {
    && |nodes| == c.n && lm < c.n && o < c.n
    && EffDm(lm, nodes[lm].rec) == o && EffDm(lm, nodes[o].rec) == o && EffData(nodes[o].rec) == v
    && forall i | 0 <= i < c.n ::
         && nodes[i].tracking == {} && nodes[i].revoke == Idle
         && (nodes[i].rec.Present? ==>
               && v != [] && nodes[i].rec.d == v && nodes[i].rec.h.dmaster == o && nodes[i].rec.h.rsn >= 1
               && nodes[i].rec.h.flags == NO_FLAGS.(migrated := true)
               && (i != o ==> nodes[i].rec.h.rsn < EffRsn(nodes[o].rec)))
  }

  ghost predicate Enabled(c: Config, s: State, a: Action)
    requires WF(c, s)
  {
    match a
    case Call(i, _, _, _) => i < c.n
    case Store(i, _) => i < c.n && s.nodes[i].rec.Present? && s.nodes[i].rec.h.dmaster == i
    case Resend(i, ro, callid, _) => i < c.n && (ro ==> c.rodb && callid == FETCH_WITH_HEADER)
    case Peek(i) => i < c.n && s.nodes[i].rec.Present? && s.nodes[i].rec.h.flags.ro
    case Deliver(p, _) => p in s.net && p.dst < c.n
    case Finish(i) =>
      && i < c.n && s.nodes[i].revoke.Running?
      && s.nodes[i].revoke.waiting == {} && s.nodes[i].tracking != {}
    case Timeout(i) => i < c.n && s.nodes[i].revoke.Running?
    case Delete(i, h) => i < c.n && MayDelete(EnvOf(c, s, i), s.nodes[i], h)
    case Recover(lm, gen, nodes) =>
      && gen != s.gen && (forall p <- s.net :: p.gen != gen)
      && exists o :: Recovered(c, lm, nodes, o, Value(s.log))
  }

  /** What the receiving daemon does with a packet that passes the gate. */
  function Handle(c: Config, s: State, p: Packet, pend: Pending): Effect
    requires WF(c, s) && p.dst < c.n
  {
    var e := EnvOf(c, s, p.dst);
    var ns := s.nodes[p.dst];
    match p
    case ReqCall(_, _, _, _, _, _, _) => RequestCall(e, ns, p)
    case ReplyCall(_, _, _, _) => Quiet(ns)
    case ReplyRo(_, _, _, _, _) => ReplyCallRo(e, ns, p, pend.Pending?)
    case ReqDmaster(_, _, _, _, _, _, _, _) => RequestDmaster(e, ns, p, pend)
    case ReplyDmaster(_, _, _, _, _, _) => BecomeDmaster(e, ns, p.rsn, p.flags, p.data, pend)
    case Update(_, _, _, _) => UpdateRecord(e, ns, p)
    case Ack(_, _, _, _) => AckReceived(e, ns, p)
  }

  /** The gate of ctdb_input_pkt, passed again by every parked packet: calls and
      dmaster packets of another generation are dropped, controls are not. */
  predicate Stale(s: State, p: Packet) { p.gen != s.gen && !p.Update? && !p.Ack? }

  function Actor(a: Action): nat
    requires !a.Recover?
  {
    match a
    case Call(i, _, _, _) => i
    case Store(i, _) => i
    case Resend(i, _, _, _) => i
    case Peek(i) => i
    case Deliver(p, _) => p.dst
    case Finish(i) => i
    case Timeout(i) => i
    case Delete(i, _) => i
  }

  function EffectOf(c: Config, s: State, a: Action): Effect
    requires WF(c, s) && !a.Recover? && Actor(a) < c.n
    requires a.Finish? ==> s.nodes[a.i].revoke.Running?
    requires a.Store? || a.Peek? ==> s.nodes[a.i].rec.Present?
  {
    match a
    case Call(i, ro, callid, reqid) => ClientCall(EnvOf(c, s, i), s.nodes[i], ro, callid, reqid)
    case Store(i, d) => Quiet(s.nodes[i].(rec := Present(s.nodes[i].rec.h, d))).(log := [Write(d)])
    case Resend(i, ro, callid, reqid) => Quiet(s.nodes[i]).(out := multiset{ReqCall(s.gen, i, i, reqid, ro, callid, 0)})
    case Peek(i) => Quiet(s.nodes[i]).(log := [Read(s.nodes[i].rec.d)])
    case Deliver(p, pend) => if Stale(s, p) then Quiet(s.nodes[p.dst]) else Handle(c, s, p, pend)
    case Finish(i) => RevokeFinish(EnvOf(c, s, i), s.nodes[i])
    case Timeout(i) => Quiet(s.nodes[i].(revoke := Stuck))
    case Delete(i, _) => Quiet(s.nodes[i].(rec := Absent)).(log := [Dropped])
  }

  /** A node takes its new state, the wire its packets, the history its events. */
  function Take(s: State, i: nat, eff: Effect, net: multiset<Packet>): State
    requires i < |s.nodes|
  {
    s.(nodes := s.nodes[i := eff.ns], net := net + eff.out, log := s.log + eff.log)
  }

  ghost function Apply(c: Config, s: State, a: Action): (s': State)
    requires WF(c, s) && Enabled(c, s, a)
    ensures WF(c, s')
  {
    if a.Recover? then State(a.lm, a.gen, a.nodes, s.net, s.log + [Cleared])
    else
      var eff := EffectOf(c, s, a);
      Take(s, Actor(a), eff, if a.Deliver? && !eff.parked then s.net - multiset{a.p} else s.net)
  }

  /** A database nobody has written to yet. */
  ghost predicate Init(c: Config, s: State) {
    && WF(c, s) && s.net == multiset{} && s.log == []
    && forall i | 0 <= i < c.n :: s.nodes[i] == NodeState(Absent, {}, Idle)
  }
}
