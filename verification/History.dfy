/** Who writes the history: each event belongs to one kind of step, and only the
    owner of the record, or the node that becomes it, changes the value. */
module History {
  import opened Ltdb
  import opened Protocol
  import opened Cluster
  import opened ClusterInv
  import opened Steps
  import opened Theorems
  import opened Guarantees

  /** The steps that may log an event, and what they log. */
  predicate LoggedBy(c: Config, a: Action, ev: Event) {
    match ev
    case Write(d) => a.Store? && d == a.data
    case Exec(callid, _, _, _) => RunsCall(c, a, callid)
    case Read(_) => a.Peek?
    case Delegated(t, _) => a.Deliver? && a.p.ReqCall? && a.p.ro && c.rodb && t == a.p.src
    case Cleared => a.Call? || a.Recover? || (a.Deliver? && a.p.ReqCall?)
    case Dropped => a.Delete?
  }

  /** A client's call, a call that came back to its own node, or a call that waited
      for the role. */
  predicate RunsCall(c: Config, a: Action, callid: nat) {
    match a
    case Call(_, ro, id, _) => callid == if ro && c.rodb then FETCH_WITH_HEADER else id
    case Deliver(p, pend) =>
      || (p.ReqCall? && p.src == p.dst && callid == p.callid)
      || (Token(p) && pend.Pending? && callid == pend.callid)
    case _ => false
  }

  ghost predicate MayWrite(c: Config, a: Action) { a.Store? || exists callid :: RunsCall(c, a, callid) }

  ghost predicate AllBy(c: Config, a: Action, log: seq<Event>) { forall k | 0 <= k < |log| :: LoggedBy(c, a, log[k]) }

  // ---- one step

  lemma ClientLogs(c: Config, s: State, a: Action)
    requires WF(c, s) && a.Call? && a.i < c.n
    ensures AllBy(c, a, EffectOf(c, s, a).log)
  {
  }

  lemma RequestLogs(c: Config, s: State, a: Action)
    requires WF(c, s) && a.Deliver? && a.p.ReqCall? && a.p.dst < c.n
    ensures AllBy(c, a, RequestCall(EnvOf(c, s, a.p.dst), s.nodes[a.p.dst], a.p).log)
  {
    var e, ns := EnvOf(c, s, a.p.dst), s.nodes[a.p.dst];
    var eff := RouteCall(e, PreCall(e, ns), PreHeader(e, ns), EffData(ns.rec), a.p);
    assert AllBy(c, a, PreLog(e, ns)) && AllBy(c, a, eff.log);
  }

  lemma StepLogs(c: Config, s: State, a: Action)
    requires WF(c, s) && Enabled(c, s, a) && !a.Recover?
    ensures AllBy(c, a, EffectOf(c, s, a).log)
  {
    if a.Call? { ClientLogs(c, s, a); }
    if a.Deliver? && a.p.ReqCall? { RequestLogs(c, s, a); }
  }

  lemma {:induction false} ValueOfQuiet(l: seq<Event>, more: seq<Event>)
    requires forall k | 0 <= k < |more| :: !more[k].Exec? && !more[k].Write?
    ensures Value(l + more) == Value(l)
  {
    if more == [] {
      assert l + more == l;
    } else {
      var init := more[..|more| - 1];
      assert (l + more)[..|l + more| - 1] == l + init;
      ValueOfQuiet(l, init);
    }
  }

  lemma StepHistory(c: Config, s: State, a: Action) returns (more: seq<Event>)
    requires WF(c, s) && Enabled(c, s, a)
    ensures Apply(c, s, a).log == s.log + more && AllBy(c, a, more)
    ensures !MayWrite(c, a) ==> Value(Apply(c, s, a).log) == Value(s.log)
  {
    if a.Recover? {
      more := [Cleared];
    } else {
      more := EffectOf(c, s, a).log;
      StepLogs(c, s, a);
    }
    if !MayWrite(c, a) {
      forall k | 0 <= k < |more| ensures !more[k].Exec? && !more[k].Write? { assert LoggedBy(c, a, more[k]); }
      ValueOfQuiet(s.log, more);
    }
  }

  // ---- the node that writes

  ghost predicate SomeWrite(log: seq<Event>) { exists k | 0 <= k < |log| :: log[k].Exec? || log[k].Write? }

  lemma ClientOwns(e: Env, ns: NodeState, ro: bool, callid: nat, reqid: nat)
    requires SomeWrite(ClientCall(e, ns, ro, callid, reqid).log)
    ensures EffDm(e.lm, ns.rec) == e.me && EffDm(e.lm, ClientCall(e, ns, ro, callid, reqid).ns.rec) == e.me
  {
    var h := PreHeader(e, ns);
    assert h.dmaster == EffDm(e.lm, ns.rec);
    assert !SomeWrite(PreLog(e, ns));
  }

  lemma RequestOwns(e: Env, ns: NodeState, p: Packet)
    requires p.ReqCall? && Settled(ns, e.me) && SomeWrite(RequestCall(e, ns, p).log)
    ensures EffDm(e.lm, ns.rec) == e.me && EffDm(e.lm, RequestCall(e, ns, p).ns.rec) == e.me
  {
    var h := PreHeader(e, ns);
    assert h.dmaster == EffDm(e.lm, ns.rec);
    assert !SomeWrite(PreLog(e, ns));
  }

  lemma RoleOwns(c: Config, s: State, p: Packet, pend: Pending)
    requires WF(c, s) && p.dst < c.n && Token(p) && SomeWrite(Handle(c, s, p, pend).log)
    ensures EffDm(s.lm, Handle(c, s, p, pend).ns.rec) == p.dst
  {
  }

  /** The node owns the record afterwards, and did before unless the role came in. */
  lemma WriterOwns(c: Config, s: State, loc: Loc, a: Action)
    requires Inv(false, c, s, loc) && Enabled(c, s, a) && !a.Recover? && SomeWrite(EffectOf(c, s, a).log)
    ensures EffDm(s.lm, EffectOf(c, s, a).ns.rec) == Actor(a)
    ensures if a.Deliver? && Token(a.p) then a.p.gen == s.gen else EffDm(s.lm, s.nodes[Actor(a)].rec) == Actor(a)
  {
    var i := Actor(a);
    assert NodeOk(false, c, s, loc, i);
    match a
    case Call(_, ro, callid, reqid) => ClientOwns(EnvOf(c, s, i), s.nodes[i], ro, callid, reqid);
    case Deliver(p, pend) =>
      if p.ReqCall? {
        RequestOwns(EnvOf(c, s, i), s.nodes[i], p);
      } else {
        RoleOwns(c, s, p, pend);
      }
    case _ =>
  }

  // ---- whole runs

  /** In every run, a store logs its data and nothing else does, calls are logged by
      the steps that run them, and no other step changes the value. */
  lemma OnlyCallsAndStores(c: Config, ss: seq<State>, acts: seq<Action>, k: nat)
    requires Run(c, ss, acts) && k < |acts|
    ensures ss[k].log <= ss[k + 1].log && AllBy(c, acts[k], ss[k + 1].log[|ss[k].log|..])
    ensures !MayWrite(c, acts[k]) ==> Value(ss[k + 1].log) == Value(ss[k].log)
  {
    var more := StepHistory(c, ss[k], acts[k]);
    assert ss[k + 1].log[|ss[k].log|..] == more;
  }

  /** The node that writes owns the record, or takes the role with the same step; it
      is the owner afterwards and stores what the history says. */
  lemma WritersOwn(c: Config, ss: seq<State>, acts: seq<Action>, k: nat)
    requires Run(c, ss, acts) && Safe(false, c, ss, acts) && k < |acts|
    requires ss[k].log <= ss[k + 1].log && SomeWrite(ss[k + 1].log[|ss[k].log|..])
    ensures !acts[k].Recover? && Actor(acts[k]) in Owners(c, ss[k + 1])
    ensures EffData(ss[k + 1].nodes[Actor(acts[k])].rec) == Value(ss[k + 1].log)
    ensures if acts[k].Deliver? && Token(acts[k].p) then acts[k].p in Tokens(ss[k])
            else Actor(acts[k]) in Owners(c, ss[k])
  {
    var loc := RunKeepsInv(false, c, ss, acts, k);
    WriterStep(c, ss[k], loc, acts[k], ss[k + 1]);
    AtomicRegister(c, ss, acts, k + 1);
  }

  lemma WriterStep(c: Config, s: State, loc: Loc, a: Action, s': State)
    requires Inv(false, c, s, loc) && Enabled(c, s, a) && s' == Apply(c, s, a)
    requires s.log <= s'.log && SomeWrite(s'.log[|s.log|..])
    ensures !a.Recover? && Actor(a) in Owners(c, s')
    ensures if a.Deliver? && Token(a.p) then a.p in Tokens(s) else Actor(a) in Owners(c, s)
  {
    if !a.Recover? {
      assert s'.log[|s.log|..] == EffectOf(c, s, a).log;
      WriterOwns(c, s, loc, a);
    }
  }
}
