/** The hazards are the steps that break the protocol: a run without those of a kind
    keeps what they endanger, and from any good state a hazard leads to a broken one,
    at once or a few steps later. */
module Hazards {
  import opened Ltdb
  import opened Protocol
  import opened Cluster
  import opened ClusterInv
  import opened Moves
  import opened RevokeMoves
  import opened Steps
  import opened Handlers
  import opened StepInv
  import opened Theorems
  import opened Order
  import opened Guarantees

  // ---- what can be broken

  /** Nobody takes itself for the dmaster and no packet carries the role. */
  ghost predicate NoHolder(c: Config, s: State)
    requires WF(c, s)
  {
    Owners(c, s) == {} && Tokens(s) == {}
  }

  /** The lmaster sends calls and dmaster requests after a node without the role. */
  ghost predicate Misnamed(c: Config, s: State)
    requires WF(c, s)
  {
    var named := EffDm(s.lm, s.nodes[s.lm].rec);
    Owners(c, s) != {named} && forall p <- Tokens(s) :: named != if p.ReqDmaster? then p.src else p.dst
  }

  /** A record that may be written although its revoke is not over. */
  predicate OpenRevoke(c: Config, s: State, o: nat)
    requires WF(c, s)
  {
    && o < c.n && s.nodes[o].revoke.Running? && s.nodes[o].revoke.waiting != {}
    && s.nodes[o].rec.Present? && s.nodes[o].rec.h.dmaster == o && !s.nodes[o].rec.h.flags.AnyRo()
  }

  ghost predicate NameBroken(c: Config, s: State)
    requires WF(c, s)
  {
    NoHolder(c, s) || Misnamed(c, s) || exists i: nat :: OpenRevoke(c, s, i)
  }

  /** A read-only copy that no owner answers for: stale, untracked or revoked. */
  ghost predicate StrayCopy(c: Config, s: State, i: nat)
    requires WF(c, s)
  {
    && i < c.n && s.nodes[i].rec.Present? && s.nodes[i].rec.h.flags.ro
    && forall o | 0 <= o < c.n :: !Shares(c, s, o, i)
  }

  /** A copy whose rsn does not fit the delegated record. */
  ghost predicate OutOfStep(c: Config, s: State, o: nat, i: nat)
    requires WF(c, s)
  {
    o < c.n && i < c.n && o != i && o in Owners(c, s) && Delegating(s, o) && s.nodes[i].rec.Present? && !InStep(s, o, i)
  }

  ghost predicate CopyBroken(c: Config, s: State)
    requires WF(c, s)
  {
    (exists i: nat :: StrayCopy(c, s, i)) || (exists o: nat, i: nat :: OutOfStep(c, s, o, i))
  }

  /** Without name hazards the role always has one holder, and a revoke its mark. */
  lemma NamesStayWhole(c: Config, ss: seq<State>, acts: seq<Action>, k: nat)
    requires Run(c, ss, acts) && Safe(false, c, ss, acts) && k < |ss|
    ensures !NameBroken(c, ss[k])
  {
    var loc := RunKeepsInv(false, c, ss, acts, k);
    SingleOwner(c, ss, acts, k);
    forall i: nat ensures !OpenRevoke(c, ss[k], i) {
      if i < c.n { assert NodeOk(false, c, ss[k], loc, i); }
    }
  }

  /** Without any hazard no copy goes astray. */
  lemma CopiesStayWhole(c: Config, ss: seq<State>, acts: seq<Action>, k: nat)
    requires Run(c, ss, acts) && Safe(true, c, ss, acts) && k < |ss|
    ensures !CopyBroken(c, ss[k])
  {
    var loc := RunKeepsInv(true, c, ss, acts, k);
    var s := ss[k];
    forall i: nat ensures !StrayCopy(c, s, i) {
      if i < c.n {
        assert NodeOk(true, c, s, loc, i);
        if s.nodes[i].rec.Present? && s.nodes[i].rec.h.flags.ro { assert Shares(c, s, loc.o, i); }
      }
    }
    forall o: nat, i: nat ensures !OutOfStep(c, s, o, i) {
      if i < c.n { assert NodeOk(true, c, s, loc, i); }
    }
  }

  // ---- the guard of a lost copy is exact

  /** What LosesCopy stands for: the step leaves its node without a record, though
      it had one or was pushed one. */
  predicate Vanishes(c: Config, s: State, a: Action)
    requires WF(c, s) && !a.Recover? && Actor(a) < c.n
    requires a.Finish? ==> s.nodes[a.i].revoke.Running?
    requires a.Store? || a.Peek? ==> s.nodes[a.i].rec.Present?
  {
    && EffectOf(c, s, a).ns.rec.Absent?
    && (s.nodes[Actor(a)].rec.Present? || (a.Deliver? && a.p.Update? && a.p.gen == s.gen))
  }

  lemma LosesCopyExact(c: Config, s: State, loc: Loc, a: Action)
    requires Inv(false, c, s, loc) && Enabled(c, s, a) && !a.Recover?
    ensures LosesCopy(c, s, a) <==> Vanishes(c, s, a)
  {
    var i := Actor(a);
    assert NodeOk(false, c, s, loc, i);
    if a.Call? {
      CallKeeps(c, s, a);
    } else if a.Deliver? && a.p.gen == s.gen {
      assert PacketOk(false, c, s, loc, a.p);
      PacketKeeps(c, s, loc, a.p, a.pend);
    }
  }

  lemma CallKeeps(c: Config, s: State, a: Action)
    requires WF(c, s) && a.Call? && a.i < c.n && Settled(s.nodes[a.i], a.i)
    ensures s.nodes[a.i].rec.Present? ==> EffectOf(c, s, a).ns.rec.Present?
  {
    if s.nodes[a.i].rec.Present? { PreEffect(c, s, a.i); }
  }

  lemma PacketKeeps(c: Config, s: State, loc: Loc, p: Packet, pend: Pending)
    requires Inv(false, c, s, loc) && p in s.net && p.gen == s.gen && p.dst < c.n
    ensures LosesCopy(c, s, Deliver(p, pend)) <==> Vanishes(c, s, Deliver(p, pend))
  {
    assert PacketOk(false, c, s, loc, p) && NodeOk(false, c, s, loc, p.dst);
    if p.ReqCall? && s.nodes[p.dst].rec.Present? {
      RequestVanishes(c, s, p);
    } else if p.ReqDmaster? {
      LmasterEffect(false, c, s, p, pend);
      if p.newdm == s.lm { LandVanishes(c, s, p, pend); }
    }
  }

  // ---- a push of an earlier generation

  /** It takes the role off its owner, or the right name off the lmaster. */
  lemma TakenNameBreaks(c: Config, s: State, loc: Loc, u: Packet, pend: Pending)
    requires Inv(false, c, s, loc) && u in s.net && LateStored(s, u) && TakesName(s, u)
    ensures var s1 := Apply(c, s, Deliver(u, pend)); if loc == At(u.dst) then NoHolder(c, s1) else Misnamed(c, s1)
  {
    assert NodeOk(false, c, s, loc, u.dst);
    LateEffect(c, s, u, pend);
    var s1 := Apply(c, s, Deliver(u, pend));
    assert Tokens(s1) == Tokens(s);
    if loc == At(u.dst) { LosesRole(c, s, u.dst, s1); } else { MisnamedBy(c, s, loc, s1); }
  }

  /** Only the owner's record has changed, and it names another node. */
  lemma LosesRole(c: Config, s: State, o: nat, t: State)
    requires WF(c, s) && LocOk(s, At(o)) && TokenInv(c, s, At(o)) && WF(c, t) && t.lm == s.lm
             && Tokens(t) == Tokens(s) && o < c.n
    requires forall j | 0 <= j < c.n && j != o :: t.nodes[j] == s.nodes[j]
    requires EffDm(s.lm, t.nodes[o].rec) != o
    ensures NoHolder(c, t)
  {
    assert Owners(c, t) == {} && Tokens(s) == {};
  }

  /** It lets a delegation through that gives the lmaster a wrong name. */
  lemma RevivedNameBreaks(c: Config, s: State, loc: Loc, u: Packet, pend: Pending) returns (b: Action)
    requires Inv(false, c, s, loc) && u in s.net && LateStored(s, u) && !TakesName(s, u) && RevivesName(s, u)
    ensures var s1 := Apply(c, s, Deliver(u, pend)); Enabled(c, s1, b) && Misnamed(c, Apply(c, s1, b))
  {
    assert NodeOk(false, c, s, loc, s.lm);
    var q :| q in s.net && q.ReplyRo? && q.gen == s.gen && q.dst == s.lm && u.h.rsn < q.h.rsn
             && q.h.dmaster != u.h.dmaster;
    assert PacketOk(false, c, s, loc, q);
    b := Deliver(q, Pending(0, false));
    OvertakenEffect(c, s, u, pend, q);
    OvertakenFacts(c, s, u, q);
    MisnamedBy(c, s, loc, Overtaken(s, u, q));
  }

  /** A push of an earlier generation has been stored, and a delegation over it. */
  ghost function Overtaken(s: State, u: Packet, q: Packet): State
    requires u.Update? && q.ReplyRo? && u.dst < |s.nodes|
  {
    s.(nodes := s.nodes[u.dst := s.nodes[u.dst].(rec := Present(q.h, q.data))],
       net := s.net - multiset{u} + multiset{Ack(u.gen, u.h.dmaster, u.dst, true)} - multiset{q})
  }

  predicate Overtakes(s: State, u: Packet, q: Packet) {
    && LateStored(s, u) && u in s.net && q in s.net && q.ReplyRo? && q.gen == s.gen && q.dst == u.dst
    && u.h.rsn < q.h.rsn
    && q.h.flags.ro && q.h.flags == q.h.flags.Persistent()
  }

  lemma OvertakenEffect(c: Config, s: State, u: Packet, pend: Pending, q: Packet)
    requires WF(c, s) && Overtakes(s, u, q) && PushForm(c, u)
    ensures var s1, b := Apply(c, s, Deliver(u, pend)), Deliver(q, Pending(0, false));
            Enabled(c, s1, b) && Apply(c, s1, b) == Overtaken(s, u, q)
  {
    LateEffect(c, s, u, pend);
    InstallEffect(c, Apply(c, s, Deliver(u, pend)), q, Pending(0, false));
  }

  lemma OvertakenFacts(c: Config, s: State, u: Packet, q: Packet)
    requires WF(c, s) && Overtakes(s, u, q)
    ensures var t := Overtaken(s, u, q);
            && WF(c, t) && Tokens(t) == Tokens(s) && (forall v <- t.net | v.Update? :: v in s.net)
            && forall j | 0 <= j < c.n && j != u.dst :: t.nodes[j] == s.nodes[j]
  {
    var t := Overtaken(s, u, q);
    forall v ensures v in Tokens(t) <==> v in Tokens(s) {}
  }

  /** Only the lmaster's record has changed, and it names another node. */
  lemma MisnamedBy(c: Config, s: State, loc: Loc, t: State)
    requires Inv(false, c, s, loc) && loc != At(s.lm) && WF(c, t) && t.lm == s.lm && t.gen == s.gen
             && Tokens(t) == Tokens(s)
    requires forall j | 0 <= j < c.n && j != s.lm :: t.nodes[j] == s.nodes[j]
    requires EffDm(s.lm, t.nodes[s.lm].rec) != s.lm && EffDm(s.lm, t.nodes[s.lm].rec) != Named(loc)
    ensures Misnamed(c, t)
  {
    assert Owners(c, t) == Owners(c, s);
    if loc.At? { assert Owners(c, s) == {loc.o}; } else { assert Owners(c, s) == {} && Tokens(s) == {loc.p}; }
  }

  /** It leaves a copy that is not older than the record. */
  lemma TooNewBreaks(c: Config, s: State, loc: Loc, u: Packet, pend: Pending)
    requires Inv(false, c, s, loc) && u in s.net && LateStored(s, u) && !TakesName(s, u) && TooNew(c, s, u)
    ensures var s1 := Apply(c, s, Deliver(u, pend)); s1.nodes[u.dst].rec.Present? && !Ordered(c, s1, u.dst)
  {
    assert NodeOk(false, c, s, loc, u.dst);
    LateEffect(c, s, u, pend);
    var s1 := Apply(c, s, Deliver(u, pend));
    if loc.At? {
      assert loc.o in Owners(c, s1);
    } else {
      assert loc.p in Tokens(s1);
    }
  }

  // ---- the record vanishes on the lmaster

  /** Its rsn goes back to nothing. */
  lemma ResetGoesBack(c: Config, s: State, loc: Loc, a: Action)
    requires Inv(false, c, s, loc) && Enabled(c, s, a) && !a.Recover? && Actor(a) == s.lm && LosesCopy(c, s, a)
    ensures a.Deliver? && loc == OnReq(a.p)
    ensures Apply(c, s, a) == s.(nodes := s.nodes[s.lm := NodeState(Absent, {}, Idle)], net := s.net - multiset{a.p})
    ensures s.lm in Owners(c, Apply(c, s, a)) && EffRsn(Apply(c, s, a).nodes[s.lm].rec) == 0 < CurRsn(s, loc)
  {
    assert NodeOk(false, c, s, loc, s.lm);
    LmasterEffect(false, c, s, a.p, a.pend);
    LandVanishes(c, s, a.p, a.pend);
  }

  /** And the next delegation that reaches it takes its role away. */
  lemma ResetThenDelegation(c: Config, s: State, loc: Loc, a: Action, q: Packet)
    requires Inv(false, c, s, loc) && Enabled(c, s, a) && !a.Recover? && Actor(a) == s.lm && LosesCopy(c, s, a)
    requires q in s.net && q.ReplyRo? && q.gen == s.gen && q.dst == s.lm
    ensures var s1 := Apply(c, s, a); var b := Deliver(q, Pending(0, false));
            Enabled(c, s1, b) && NoHolder(c, Apply(c, s1, b))
  {
    ResetGoesBack(c, s, loc, a);
    assert PacketOk(false, c, s, loc, q);
    var s1 := Apply(c, s, a);
    InstalledOnReset(c, s1, q);
    assert Tokens(s1) == {};
  }

  /** A delegation that meets an lmaster without a record. */
  lemma InstalledOnReset(c: Config, s: State, q: Packet)
    requires WF(c, s) && q in s.net && q.ReplyRo? && q.gen == s.gen && q.dst == s.lm
             && s.nodes[s.lm] == NodeState(Absent, {}, Idle)
    requires q.h.rsn >= 2 && q.h.flags.ro && q.h.flags == q.h.flags.Persistent() && q.h.dmaster != s.lm
    ensures Apply(c, s, Deliver(q, Pending(0, false)))
            == s.(nodes := s.nodes[s.lm := NodeState(Present(q.h, q.data), {}, Idle)], net := s.net - multiset{q})
  {
    assert FetchHeader(s.lm, s.lm, Absent) == Header(1, s.lm, NO_FLAGS);
  }

  /** After the record has started over: nobody but the lmaster is the owner, and a
      delegation q that is newer than the first rsn of a new owner is on its way to
      another node. */
  ghost predicate StartedOver(c: Config, s: State, q: Packet) {
    && WF(c, s) && s.nodes[s.lm] == NodeState(Absent, {}, Idle) && Owners(c, s) == {s.lm} && Tokens(s) == {}
    && q in s.net && q.ReplyRo? && q.gen == s.gen && q.dst < c.n && q.dst != s.lm && q.h.rsn > 2
    && q.h.flags.ro && q.h.flags == q.h.flags.Persistent() && q.h.dmaster != q.dst
    && s.nodes[q.dst].tracking == {} && s.nodes[q.dst].revoke == Idle
    && var h := EffHeader(s.lm, s.nodes[q.dst].rec);
    h.dmaster != q.dst && !h.flags.deleg && !h.flags.revoking && !h.flags.complete
  }

  function Wish(s: State, j: nat, dst: nat, hops: nat): Packet { ReqCall(s.gen, j, dst, 0, false, 0, hops) }

  function Passes(s: State, j: nat): Packet { ReplyDmaster(s.gen, j, 0, 1, NO_FLAGS, []) }

  /** The role goes to node j at rsn 2. */
  function Given(s: State, j: nat, rec: Rec, net: multiset<Packet>): State
    requires s.lm < |s.nodes| && j < |s.nodes|
  {
    var passed := NodeState(Present(Header(1, j, NO_FLAGS), []), {}, Idle);
    s.(nodes := s.nodes[s.lm := passed][j := NodeState(rec, {}, Idle)], net := net)
  }

  /** Node j sends a call to itself, and from there to the lmaster. */
  lemma WishSent(c: Config, s: State, j: nat)
    requires WF(c, s) && j < c.n
    ensures Apply(c, s, Resend(j, false, 0, 0)) == s.(net := s.net + multiset{Wish(s, j, j, 0)})
  {
    assert s.nodes[j := s.nodes[j]] == s.nodes && s.log + [] == s.log;
  }

  lemma WishPassed(c: Config, s: State, j: nat)
    requires WF(c, s) && j < c.n && j != s.lm
    requires var h := EffHeader(s.lm, s.nodes[j].rec);
             h.dmaster != j && !h.flags.deleg && !h.flags.revoking && !h.flags.complete
    ensures var p := Wish(s, j, j, 0);
            Apply(c, s.(net := s.net + multiset{p}), Deliver(p, NoCall))
            == s.(net := s.net + multiset{Wish(s, j, s.lm, 1)})
  {
    var p := Wish(s, j, j, 0);
    RedirectEffect(c, s.(net := s.net + multiset{p}), p, NoCall);
    assert s.net + multiset{p} - multiset{p} == s.net;
  }

  /** The lmaster makes the record up again and gives it away. */
  lemma WishGranted(c: Config, s: State, j: nat)
    requires WF(c, s) && j < c.n && j != s.lm && s.nodes[s.lm] == NodeState(Absent, {}, Idle)
    requires s.nodes[j].tracking == {} && s.nodes[j].revoke == Idle
    ensures var p := Wish(s, j, s.lm, 1); var t := s.(net := s.net + multiset{p});
            Apply(c, t, Deliver(p, NoCall)) == Given(s, j, s.nodes[j].rec, s.net + multiset{Passes(s, j)})
  {
    var p := Wish(s, j, s.lm, 1);
    var e, ns := EnvOf(c, s, s.lm), s.nodes[s.lm];
    var h := Header(1, s.lm, NO_FLAGS);
    assert PreHeader(e, ns) == h && PreCall(e, ns) == NodeState(Present(h, []), {}, Idle) && PreLog(e, ns) == [];
    var eff := SendDmaster(e, PreCall(e, ns), h, [], j, 0);
    var passed := NodeState(Present(Header(1, j, NO_FLAGS), []), {}, Idle);
    assert eff == Effect(passed, multiset{Passes(s, j)}, false, false, []);
    assert s.net + multiset{p} - multiset{p} == s.net;
    var t := Given(s, j, s.nodes[j].rec, s.net + multiset{Passes(s, j)});
    assert t.nodes == s.nodes[s.lm := eff.ns];
  }

  /** The role arrives, two after the beginning. */
  lemma WishLands(c: Config, s: State, q: Packet)
    requires StartedOver(c, s, q)
    ensures var j := q.dst; var tok := Passes(s, j);
            var t3 := Given(s, j, s.nodes[j].rec, s.net + multiset{tok});
            && WF(c, t3) && Enabled(c, t3, Deliver(tok, NoCall))
            && Apply(c, t3, Deliver(tok, NoCall)) == Given(s, j, Present(Header(2, j, NO_FLAGS), []), s.net)
  {
    var j := q.dst;
    var tok := Passes(s, j);
    var t3 := Given(s, j, s.nodes[j].rec, s.net + multiset{tok});
    var eff := BecomeDmaster(EnvOf(c, t3, j), t3.nodes[j], 1, NO_FLAGS, [], NoCall);
    assert eff == Quiet(NodeState(Present(Header(2, j, NO_FLAGS), []), {}, Idle));
    assert s.net + multiset{tok} - multiset{tok} + multiset{} == s.net;
    assert t3.nodes[j := eff.ns] == Given(s, j, Present(Header(2, j, NO_FLAGS), []), s.net).nodes;
  }

  /** The delegation arrives. */
  lemma ReplyLands(c: Config, s: State, q: Packet)
    requires StartedOver(c, s, q)
    ensures var j := q.dst; var t4 := Given(s, j, Present(Header(2, j, NO_FLAGS), []), s.net);
            && WF(c, t4) && Enabled(c, t4, Deliver(q, Pending(0, false)))
            && Apply(c, t4, Deliver(q, Pending(0, false))) == Given(s, j, Present(q.h, q.data), s.net - multiset{q})
  {
    var j := q.dst;
    var t4 := Given(s, j, Present(Header(2, j, NO_FLAGS), []), s.net);
    InstallEffect(c, t4, q, Pending(0, false));
    assert t4.nodes[j := NodeState(Present(q.h, q.data), {}, Idle)]
        == Given(s, j, Present(q.h, q.data), s.net - multiset{q}).nodes;
  }

  lemma NobodyLeft(c: Config, s: State, q: Packet)
    requires StartedOver(c, s, q)
    ensures var t := Given(s, q.dst, Present(q.h, q.data), s.net - multiset{q}); WF(c, t) && NoHolder(c, t)
  {
    var t := Given(s, q.dst, Present(q.h, q.data), s.net - multiset{q});
    forall i | 0 <= i < c.n ensures EffDm(t.lm, t.nodes[i].rec) != i {
      if i != s.lm && i != q.dst { assert i !in Owners(c, s) && t.nodes[i] == s.nodes[i]; }
    }
    forall p ensures p !in Tokens(t) { assert p !in Tokens(s); }
  }

  /** A newer write is then older than whatever copy another node kept, as only nodes
      of a database with read-only tracking do. */
  lemma ResetBreaksNewest(c: Config, s: State, loc: Loc, a: Action, j: nat, callid: nat, s1: State, s2: State)
    requires Inv(false, c, s, loc) && Enabled(c, s, a) && !a.Recover? && Actor(a) == s.lm && LosesCopy(c, s, a)
    requires s1 == Apply(c, s, a) && s2 == Apply(c, s1, Call(s.lm, false, callid, 0))
    requires j < c.n && j != s.lm && s.nodes[j].rec.Present? && s.nodes[j].rec.h.rsn > 2
    requires c.ops(callid, []).Done? && c.ops(callid, []).data != s.nodes[j].rec.d
    ensures s2.nodes[s.lm].rec.Present? && s2.nodes[j] == s.nodes[j]
    ensures Value(s2.log) == s2.nodes[s.lm].rec.d != s2.nodes[j].rec.d
            && s2.nodes[j].rec.h.rsn > s2.nodes[s.lm].rec.h.rsn
  {
    ResetGoesBack(c, s, loc, a);
    var e := EnvOf(c, s1, s.lm);
    assert PreCall(e, s1.nodes[s.lm]) == NodeState(Present(Header(1, s.lm, NO_FLAGS), []), {}, Idle);
    var Done(w, reply) := c.ops(callid, []);
    assert s2.nodes[s.lm].rec == Present(Header(2, s.lm, NO_FLAGS), w);
    assert s2.log == s1.log + [Exec(callid, [], w, reply)];
  }

  // ---- the owner delegates to itself

  /** The node owns the record, has delegated it to itself among others, and
      no revoke is under way. */
  predicate SelfTracked(c: Config, s: State, o: nat)
    requires WF(c, s)
  {
    && o < c.n && s.nodes[o].rec.Present? && o in s.nodes[o].tracking && s.nodes[o].revoke == Idle
    && var h := s.nodes[o].rec.h;
    h.dmaster == o && h.flags.deleg && !h.flags.revoking && !h.flags.complete && !h.flags.vacuum && !h.flags.automatic
  }

  lemma SelfGrantTracks(c: Config, s: State, loc: Loc, a: Action)
    requires Inv(false, c, s, loc) && Enabled(c, s, a) && GrantsSelf(c, s, a)
    ensures SelfTracked(c, Apply(c, s, a), a.p.dst)
  {
    var i, p := a.p.dst, a.p;
    assert PacketOk(false, c, s, loc, p);
    PreInv(false, c, s, loc, i);
    var s1 := PreState(c, s, i);
    assert loc == At(i) && NodeOk(false, c, s1, loc, i);
    GrantEffect(c, s1, i, p);
    SelfGrantEffect(c, s, a);
  }

  lemma SelfGrantEffect(c: Config, s: State, a: Action)
    requires WF(c, s) && Enabled(c, s, a) && GrantsSelf(c, s, a) && a.p.callid == FETCH_WITH_HEADER
    requires var rec := PreState(c, s, a.p.dst).nodes[a.p.dst].rec;
             && rec.Present? && PreHeader(EnvOf(c, s, a.p.dst), s.nodes[a.p.dst]) == rec.h
             && EffData(s.nodes[a.p.dst].rec) == rec.d
    ensures var i := a.p.dst; var s1 := PreState(c, s, i);
            Apply(c, s, a).nodes[i]
            == Delegate(EnvOf(c, s, i), s1.nodes[i], s1.nodes[i].rec.h, s1.nodes[i].rec.d, a.p).ns
  {
  }

  /** The pushed record of the next revoke. */
  function SelfUpdate(s: State, o: nat): Packet
    requires o < |s.nodes| && s.nodes[o].rec.Present?
  {
    var h := s.nodes[o].rec.h;
    Update(s.gen, o, PushedHeader(h.(flags := h.flags.(revoking := true))), s.nodes[o].rec.d)
  }

  lemma SelfRevoke(c: Config, s: State, o: nat)
    requires WF(c, s) && SelfTracked(c, s, o)
    ensures var s1 := Apply(c, s, Call(o, false, 0, 0)); var u := SelfUpdate(s, o);
            && u in s1.net && s1.gen == s.gen && s1.lm == s.lm
            && s1.nodes[o].revoke == Running(s.nodes[o].rec.h.rsn, s.nodes[o].rec.d, s.nodes[o].tracking, false)
            && s1.nodes[o].rec.Present? && s1.nodes[o].rec.d == s.nodes[o].rec.d
  {
    var h := s.nodes[o].rec.h;
    var h1 := h.(flags := h.flags.(revoking := true));
    assert PreCall(EnvOf(c, s, o), s.nodes[o]) == s.nodes[o];
    assert StoredHeader(o, s.lm, h1, s.nodes[o].rec.d) == h1;
    UpdatesCount(s.gen, s.nodes[o].tracking, PushedHeader(h1), s.nodes[o].rec.d, o);
  }

  /** Its own push takes the revoking mark off the record while the other
      delegates have not answered. */
  lemma SelfTrackedBreaks(c: Config, s: State, o: nat)
    requires WF(c, s) && SelfTracked(c, s, o)
    ensures var s1 := Apply(c, s, Call(o, false, 0, 0)); var u := SelfUpdate(s, o);
            Enabled(c, s1, Deliver(u, NoCall)) && OpenRevoke(c, Apply(c, s1, Deliver(u, NoCall)), o)
  {
    SelfRevoke(c, s, o);
  }

  // ---- every name hazard breaks the name

  /** A state with no holder, a misnamed one or an open revoke is at most n steps away. */
  ghost predicate CanBreakName(c: Config, s: State, n: nat)
    requires WF(c, s)
    decreases n
  {
    NameBroken(c, s) || (n > 0 && exists b :: Enabled(c, s, b) && CanBreakName(c, Apply(c, s, b), n - 1))
  }

  lemma NameBreaksBy(c: Config, s: State, b: Action, n: nat)
    requires WF(c, s) && Enabled(c, s, b) && CanBreakName(c, Apply(c, s, b), n)
    ensures CanBreakName(c, s, n + 1)
  {
  }

  lemma {:induction false} SoonerIsSoon(c: Config, s: State, n: nat, m: nat)
    requires WF(c, s) && CanBreakName(c, s, n) && n <= m
    ensures CanBreakName(c, s, m)
    decreases n
  {
    if !NameBroken(c, s) {
      var b :| Enabled(c, s, b) && CanBreakName(c, Apply(c, s, b), n - 1);
      SoonerIsSoon(c, Apply(c, s, b), n - 1, m - 1);
      NameBreaksBy(c, s, b, m - 1);
    }
  }

  /** The node takes the role, and then the delegation takes it away. */
  lemma StartedOverBreaks(c: Config, s: State, q: Packet)
    requires StartedOver(c, s, q)
    ensures CanBreakName(c, s, 5)
  {
    var j := q.dst;
    var p0, p1, tok := Wish(s, j, j, 0), Wish(s, j, s.lm, 1), Passes(s, j);
    WishSent(c, s, j);
    WishPassed(c, s, j);
    WishGranted(c, s, j);
    WishLands(c, s, q);
    ReplyLands(c, s, q);
    NobodyLeft(c, s, q);
    NameBreaksBy(c, Given(s, j, Present(Header(2, j, NO_FLAGS), []), s.net), Deliver(q, Pending(0, false)), 0);
    NameBreaksBy(c, Given(s, j, s.nodes[j].rec, s.net + multiset{tok}), Deliver(tok, NoCall), 1);
    NameBreaksBy(c, s.(net := s.net + multiset{p1}), Deliver(p1, NoCall), 2);
    NameBreaksBy(c, s.(net := s.net + multiset{p0}), Deliver(p0, NoCall), 3);
    NameBreaksBy(c, s, Resend(j, false, 0, 0), 4);
  }

  lemma SelfGrantBreaks(c: Config, s: State, loc: Loc, a: Action)
    requires Inv(false, c, s, loc) && Enabled(c, s, a) && GrantsSelf(c, s, a)
    ensures CanBreakName(c, Apply(c, s, a), 2)
  {
    var s1, o := Apply(c, s, a), a.p.dst;
    SelfGrantTracks(c, s, loc, a);
    SelfTrackedBreaks(c, s1, o);
    var b := Call(o, false, 0, 0);
    var s2 := Apply(c, s1, b);
    NameBreaksBy(c, s2, Deliver(SelfUpdate(s1, o), NoCall), 0);
    NameBreaksBy(c, s1, b, 1);
  }

  lemma LatePushBreaks(c: Config, s: State, loc: Loc, u: Packet, pend: Pending)
    requires Inv(false, c, s, loc) && u in s.net && LateStored(s, u) && (TakesName(s, u) || RevivesName(s, u))
    ensures CanBreakName(c, Apply(c, s, Deliver(u, pend)), 1)
  {
    if TakesName(s, u) {
      TakenNameBreaks(c, s, loc, u, pend);
    } else {
      var b := RevivedNameBreaks(c, s, loc, u, pend);
      NameBreaksBy(c, Apply(c, s, Deliver(u, pend)), b, 0);
    }
  }

  lemma ResetBreaks(c: Config, s: State, loc: Loc, a: Action, q: Packet)
    requires Inv(false, c, s, loc) && Enabled(c, s, a) && Resets(c, s, a) && q in s.net && Outlives(s, q)
    ensures CanBreakName(c, Apply(c, s, a), 5)
  {
    var s1 := Apply(c, s, a);
    if q.dst == s.lm {
      ResetThenDelegation(c, s, loc, a, q);
      NameBreaksBy(c, s1, Deliver(q, Pending(0, false)), 0);
      SoonerIsSoon(c, s1, 1, 5);
    } else {
      ResetStartsOver(c, s, loc, a, q);
      StartedOverBreaks(c, s1, q);
    }
  }

  lemma ResetStartsOver(c: Config, s: State, loc: Loc, a: Action, q: Packet)
    requires Inv(false, c, s, loc) && Enabled(c, s, a) && Resets(c, s, a)
    requires q in s.net && Outlives(s, q) && q.dst != s.lm
    ensures StartedOver(c, Apply(c, s, a), q)
  {
    ResetGoesBack(c, s, loc, a);
    var s1 := Apply(c, s, a);
    assert PacketOk(false, c, s, loc, q) && NodeOk(false, c, s, loc, q.dst) && s1.nodes[q.dst] == s.nodes[q.dst];
    forall i | 0 <= i < c.n && i != s.lm ensures i !in Owners(c, s1) { assert s1.nodes[i] == s.nodes[i]; }
    assert Owners(c, s1) == {s.lm} && Tokens(s1) == {};
  }

  /** From a state whose role is whole, a name hazard leaves the cluster at most five
      steps from one whose role is broken. */
  lemma NameHazardBreaks(c: Config, s: State, loc: Loc, a: Action)
    requires Inv(false, c, s, loc) && Enabled(c, s, a) && NameHazard(c, s, a)
    ensures CanBreakName(c, Apply(c, s, a), 5)
  {
    if GrantsSelf(c, s, a) {
      SelfGrantBreaks(c, s, loc, a);
      SoonerIsSoon(c, Apply(c, s, a), 2, 5);
    } else if Resets(c, s, a) && exists q <- s.net :: Outlives(s, q) {
      var q :| q in s.net && Outlives(s, q);
      ResetBreaks(c, s, loc, a, q);
    } else {
      LatePushBreaks(c, s, loc, a.p, a.pend);
      SoonerIsSoon(c, Apply(c, s, a), 1, 5);
    }
  }

  // ---- every order hazard breaks the order

  ghost predicate Disordered(c: Config, s: State)
    requires WF(c, s)
  {
    exists i: nat :: i < c.n && s.nodes[i].rec.Present? && !Ordered(c, s, i)
  }

  /** A record that starts over is not newer than the copies that are left of it, nor
      than one that is still to arrive. */
  lemma ResetDisorders(c: Config, s: State, loc: Loc, a: Action)
    requires Inv(false, c, s, loc) && Enabled(c, s, a) && Resets(c, s, a) && !(OnlyHere(s, s.lm) && NoReplies(s))
    requires forall q <- s.net :: !Outlives(s, q)
    ensures var s1 := Apply(c, s, a);
            Disordered(c, s1) || exists b :: Enabled(c, s1, b) && Disordered(c, Apply(c, s1, b))
  {
    ResetGoesBack(c, s, loc, a);
    var s1 := Apply(c, s, a);
    if i :| 0 <= i < |s.nodes| && i != s.lm && s.nodes[i].rec.Present? {
      assert NodeOk(false, c, s, loc, i) && s1.nodes[i] == s.nodes[i];
      assert !Ordered(c, s1, i);
    } else {
      var q :| q in s.net && q.ReplyRo? && q.gen == s.gen;
      assert !Outlives(s, q);
      ReplyDisorders(c, s, loc, a, q);
    }
  }

  lemma ReplyDisorders(c: Config, s: State, loc: Loc, a: Action, q: Packet)
    requires Inv(false, c, s, loc) && Enabled(c, s, a) && Resets(c, s, a) && OnlyHere(s, s.lm)
    requires q in s.net && q.ReplyRo? && q.gen == s.gen && q.dst != s.lm
    ensures var s1, b := Apply(c, s, a), Deliver(q, Pending(0, false));
            Enabled(c, s1, b) && Disordered(c, Apply(c, s1, b))
  {
    ResetGoesBack(c, s, loc, a);
    var s1 := Apply(c, s, a);
    assert PacketOk(false, c, s, loc, q) && s1.nodes[q.dst] == s.nodes[q.dst];
    InstalledOnNothing(c, s1, q);
    var s2 := Apply(c, s1, Deliver(q, Pending(0, false)));
    assert s.lm in Owners(c, s2) && !Ordered(c, s2, q.dst);
  }

  /** A hazard to the order that is none to the name breaks it, at once or with the
      next delegation: a copy is not older than the record. */
  lemma OrderHazardBreaks(c: Config, s: State, loc: Loc, a: Action)
    requires Inv(false, c, s, loc) && Enabled(c, s, a) && OrderHazard(c, s, a) && !NameHazard(c, s, a)
    ensures var s1 := Apply(c, s, a);
            Disordered(c, s1) || exists b :: Enabled(c, s1, b) && Disordered(c, Apply(c, s1, b))
  {
    if Resets(c, s, a) && !(OnlyHere(s, s.lm) && NoReplies(s)) {
      ResetDisorders(c, s, loc, a);
    } else {
      TooNewBreaks(c, s, loc, a.p, a.pend);
    }
  }

  // ---- a copy is lost

  /** A delegation that meets no stored record is installed. */
  lemma InstalledOnNothing(c: Config, s: State, p: Packet)
    requires WF(c, s) && p in s.net && p.ReplyRo? && !Stale(s, p) && p.dst < c.n && p.dst != s.lm
    requires s.nodes[p.dst].rec.Absent? && p.h.rsn >= 1 && p.h.flags.ro && p.h.dmaster != p.dst
    ensures Apply(c, s, Deliver(p, Pending(0, false)))
            == s.(nodes := s.nodes[p.dst := s.nodes[p.dst].(
                                              rec := Present(p.h.(flags := p.h.flags.Persistent()), p.data))],
                  net := s.net - multiset{p})
  {
  }

  ghost predicate Loses(c: Config, s: State, loc: Loc, a: Action, p: Packet) {
    && Inv(true, c, s, loc) && Enabled(c, s, a) && !a.Recover? && Actor(a) != s.lm && LosesCopy(c, s, a)
    && p in s.net && p.ReplyRo? && p.gen == s.gen && p.dst == Actor(a)
    && (s.nodes[p.dst].rec.Present? ==> p.h.rsn <= s.nodes[p.dst].rec.h.rsn)
  }

  /** What such a step leaves behind. */
  lemma LosesEffect(c: Config, s: State, loc: Loc, a: Action, p: Packet)
    requires Loses(c, s, loc, a, p)
    ensures a.Delete? || a.p.Update? || (a.p.ReqCall? && loc == At(p.dst))
    ensures var s1 := Apply(c, s, a);
            && s1.nodes[p.dst].rec.Absent? && p in s1.net && s1.lm == s.lm && s1.gen == s.gen
            && forall j | 0 <= j < c.n && j != p.dst :: s1.nodes[j] == s.nodes[j]
  {
    assert NodeOk(true, c, s, loc, p.dst);
    if a.Deliver? {
      assert PacketOk(true, c, s, loc, a.p);
      if a.p.ReqCall? { RequestVanishes(c, s, a.p); }
    }
  }

  /** The held delegation then ends up as a read-only copy nobody answers for. */
  lemma LostCopyBreaks(c: Config, s: State, loc: Loc, a: Action, p: Packet)
    requires Loses(c, s, loc, a, p)
    ensures Enabled(c, Apply(c, s, a), Deliver(p, Pending(0, false)))
    ensures StrayCopy(c, Apply(c, Apply(c, s, a), Deliver(p, Pending(0, false))), p.dst)
  {
    var s1 := Apply(c, s, a);
    assert PacketOk(true, c, s, loc, p);
    LosesEffect(c, s, loc, a, p);
    InstalledOnNothing(c, s1, p);
    LostIsStray(c, s, loc, a, p, Apply(c, s1, Deliver(p, Pending(0, false))));
  }

  lemma LostIsStray(c: Config, s: State, loc: Loc, a: Action, p: Packet, t: State)
    requires Loses(c, s, loc, a, p) && WF(c, t) && t.lm == s.lm && t.gen == s.gen
    requires a.Delete? || a.p.Update? || (a.p.ReqCall? && loc == At(p.dst))
    requires forall j | 0 <= j < c.n && j != p.dst :: t.nodes[j] == s.nodes[j]
    requires p.dst < c.n && t.nodes[p.dst].rec.Present? && t.nodes[p.dst].rec.h.flags.ro
    requires t.nodes[p.dst].rec.h.rsn == p.h.rsn && t.net <= Apply(c, s, a).net
    ensures StrayCopy(c, t, p.dst)
  {
    forall o | 0 <= o < c.n ensures !Shares(c, t, o, p.dst) { LostNotShared(c, s, loc, a, p, t, o); }
  }

  lemma LostNotShared(c: Config, s: State, loc: Loc, a: Action, p: Packet, t: State, o: nat)
    requires Loses(c, s, loc, a, p) && o < c.n && WF(c, t) && t.lm == s.lm && t.gen == s.gen
    requires a.Delete? || a.p.Update? || (a.p.ReqCall? && loc == At(p.dst))
    requires forall j | 0 <= j < c.n && j != p.dst :: t.nodes[j] == s.nodes[j]
    requires t.nodes[p.dst].rec.Present? && t.nodes[p.dst].rec.h.rsn == p.h.rsn && t.net <= Apply(c, s, a).net
    ensures !Shares(c, t, o, p.dst)
  {
    if o != p.dst && EffDm(s.lm, s.nodes[o].rec) == o {
      assert loc == At(o);
      if a.Delete? { DeletedNotShared(c, s, o, a, p); } else { SkippedNotShared(c, s, o, a, p); }
    }
  }

  lemma DeletedNotShared(c: Config, s: State, o: nat, a: Action, p: Packet)
    requires Loses(c, s, At(o), a, p) && a.Delete? && o != p.dst
    ensures !Delegating(s, o) || p.h.rsn != s.nodes[o].rec.h.rsn - 2
            || (s.nodes[o].rec.h.flags.revoking && TheUpdate(s, o, p.dst) !in s.net)
  {
    assert NodeOk(true, c, s, At(o), p.dst) && NodeOk(true, c, s, At(o), o);
  }

  lemma SkippedNotShared(c: Config, s: State, o: nat, a: Action, p: Packet)
    requires Loses(c, s, At(o), a, p) && a.Deliver? && a.p.Update? && o != p.dst
    ensures Delegating(s, o) && s.nodes[o].rec.h.flags.revoking
    ensures TheUpdate(s, o, p.dst) !in Apply(c, s, a).net
  {
    assert PacketOk(true, c, s, At(o), a.p) && RunAt(true, s, o, p.dst) && NodeOk(true, c, s, At(o), p.dst);
  }

  // ---- a push of an earlier generation, met by a copy

  /** A held delegation is let through. */
  lemma RevivedBreaks(c: Config, s: State, loc: Loc, u: Packet, pend: Pending) returns (b: Action)
    requires Inv(true, c, s, loc) && u in s.net && LateStored(s, u) && !TakesName(s, u) && Revives(s, u)
    ensures var s1 := Apply(c, s, Deliver(u, pend)); Enabled(c, s1, b) && StrayCopy(c, Apply(c, s1, b), u.dst)
  {
    var i := u.dst;
    var q :| q in s.net && q.ReplyRo? && q.gen == s.gen && q.dst == u.dst && u.h.rsn < q.h.rsn
             && (if s.nodes[i].rec.h.flags.ro then q.h.rsn < s.nodes[i].rec.h.rsn else q.h.rsn <= s.nodes[i].rec.h.rsn);
    assert PacketOk(true, c, s, loc, q);
    b := Deliver(q, Pending(0, false));
    OvertakenEffect(c, s, u, pend, q);
    OvertakenFacts(c, s, u, q);
    var s2 := Overtaken(s, u, q);
    forall o | 0 <= o < c.n ensures !Shares(c, s2, o, i) {
      if o != i && EffDm(s2.lm, s2.nodes[o].rec) == o { RevivedNotShared(c, s, o, u, q, s2); }
    }
  }

  lemma RevivedNotShared(c: Config, s: State, o: nat, u: Packet, q: Packet, t: State)
    requires Inv(true, c, s, At(o)) && LateStored(s, u) && o != u.dst && q.ReplyRo? && q.dst == u.dst
    requires var h := s.nodes[u.dst].rec.h; if h.flags.ro then q.h.rsn < h.rsn else q.h.rsn <= h.rsn
    requires WF(c, t) && t.gen == s.gen && t.nodes[o] == s.nodes[o] && t.nodes[q.dst].rec == Present(q.h, q.data)
    requires forall v <- t.net | v.Update? && v.gen == s.gen :: v in s.net
    ensures !Shares(c, t, o, q.dst)
  {
    assert NodeOk(true, c, s, At(o), u.dst) && NodeOk(true, c, s, At(o), o);
  }

  /** A copy gets an rsn that does not fit the delegated record. */
  lemma UnsettledBreaks(c: Config, s: State, loc: Loc, u: Packet, pend: Pending)
    requires Inv(true, c, s, loc) && u in s.net && LateStored(s, u) && !TakesName(s, u) && Unsettles(c, s, u)
    ensures loc.At? && OutOfStep(c, Apply(c, s, Deliver(u, pend)), loc.o, u.dst)
  {
    assert NodeOk(true, c, s, loc, u.dst);
    LateEffect(c, s, u, pend);
    assert loc.o in Owners(c, Apply(c, s, Deliver(u, pend)));
  }

  // ---- a store over a delegated record

  /** A read-only copy, or one on its way that will be installed. */
  ghost predicate CopiesOut(c: Config, s: State)
    requires WF(c, s)
  {
    || (exists i | 0 <= i < c.n :: s.nodes[i].rec.Present? && s.nodes[i].rec.h.flags.ro)
    || (exists p <- s.net :: Installable(c, s, p))
  }

  predicate Installable(c: Config, s: State, p: Packet)
    requires WF(c, s)
  {
    p.ReplyRo? && p.gen == s.gen && p.dst < c.n && p.h.rsn > EffRsn(s.nodes[p.dst].rec)
  }

  /** All of them carry the register's value. */
  ghost predicate CopiesAgree(c: Config, s: State)
    requires WF(c, s)
  {
    && (forall i | 0 <= i < c.n && s.nodes[i].rec.Present? && s.nodes[i].rec.h.flags.ro ::
          s.nodes[i].rec.d == Value(s.log))
    && (forall p <- s.net | Installable(c, s, p) :: p.data == Value(s.log))
  }

  /** A store keeps the copies in agreement exactly when it changes nothing or
      there are none. */
  lemma StoreAgreesExactly(c: Config, s: State, loc: Loc, o: nat, d: Data)
    requires Inv(true, c, s, loc) && Enabled(c, s, Action.Store(o, d))
    ensures CopiesAgree(c, Apply(c, s, Action.Store(o, d))) <==> d == s.nodes[o].rec.d || !CopiesOut(c, s)
  {
    assert loc == At(o) && NodeOk(true, c, s, loc, o);
    StoreEffect(c, s, o, d);
    LogSnoc(true, c.ops, s.log, Write(d));
    OutCarry(c, s, o);
    AgreesWith(c, s, o, d);
  }

  lemma AgreesWith(c: Config, s: State, o: nat, d: Data)
    requires WF(c, s) && o < c.n && s.nodes[o].rec.Present? && Carry(c, s, o) && Value(Stored(s, o, d).log) == d
    ensures CopiesAgree(c, Stored(s, o, d)) <==> d == s.nodes[o].rec.d || !CopiesOut(c, s)
  {
    var t := Stored(s, o, d);
    assert forall p <- s.net :: Installable(c, t, p) <==> Installable(c, s, p);
    assert forall i | 0 <= i < c.n && i != o :: t.nodes[i] == s.nodes[i];
    if CopiesOut(c, s) {
      if i :| 0 <= i < c.n && s.nodes[i].rec.Present? && s.nodes[i].rec.h.flags.ro {
        assert t.nodes[i] == s.nodes[i];
      } else {
        var p :| p in s.net && Installable(c, s, p);
        assert Installable(c, t, p);
      }
    }
  }

  /** Every copy that is out has the owner's data. */
  ghost predicate Carry(c: Config, s: State, o: nat)
    requires WF(c, s) && o < c.n && s.nodes[o].rec.Present?
  {
    && (forall i | 0 <= i < c.n && s.nodes[i].rec.Present? && s.nodes[i].rec.h.flags.ro ::
          i != o && s.nodes[i].rec.d == s.nodes[o].rec.d)
    && (forall p <- s.net | Installable(c, s, p) :: p.data == s.nodes[o].rec.d)
  }

  lemma OutCarry(c: Config, s: State, o: nat)
    requires Inv(true, c, s, At(o)) && s.nodes[o].rec.Present?
    ensures Carry(c, s, o)
  {
    forall i | 0 <= i < c.n && s.nodes[i].rec.Present? && s.nodes[i].rec.h.flags.ro
      ensures i != o && s.nodes[i].rec.d == s.nodes[o].rec.d
    {
      assert NodeOk(true, c, s, At(o), i);
    }
    forall p <- s.net | Installable(c, s, p) ensures p.data == s.nodes[o].rec.d {
      assert PacketOk(true, c, s, At(o), p);
    }
  }

  /** And copies are out only while the record is delegated. */
  lemma CopiesOutOnlyDelegated(c: Config, s: State, loc: Loc)
    requires Inv(true, c, s, loc) && CopiesOut(c, s)
    ensures loc.At? && Delegating(s, loc.o)
  {
    if i :| 0 <= i < c.n && s.nodes[i].rec.Present? && s.nodes[i].rec.h.flags.ro {
      assert NodeOk(true, c, s, loc, i);
    } else {
      var p :| p in s.net && Installable(c, s, p);
      assert PacketOk(true, c, s, loc, p);
    }
  }

  /** The value changes although the record is delegated, and every copy that is
      out is a stray one, now or when it is installed. */
  lemma StoredOverBreaks(c: Config, s: State, loc: Loc, a: Action)
    requires Inv(true, c, s, loc) && Enabled(c, s, a) && StoresOver(c, s, a)
    ensures var s1 := Apply(c, s, a);
            && Value(s1.log) != Value(s.log) && Delegating(s1, a.i) && a.i in Owners(c, s1)
            && (CopiesOut(c, s) ==> CanBreakCopy(c, s1, 1))
  {
    assert loc == At(a.i);
    StoreEffect(c, s, a.i, a.data);
    StoredOver(c, s, a.i, a.data);
    if CopiesOut(c, s) { OutGoesStray(c, s, a.i, a.data); }
  }

  lemma StoredOver(c: Config, s: State, o: nat, d: Data)
    requires Inv(true, c, s, At(o)) && Enabled(c, s, Action.Store(o, d)) && Delegating(s, o) && d != s.nodes[o].rec.d
    ensures var s1 := Stored(s, o, d); Value(s1.log) != Value(s.log) && Delegating(s1, o) && o in Owners(c, s1)
  {
    assert NodeOk(true, c, s, At(o), o);
    LogSnoc(true, c.ops, s.log, Write(d));
  }

  lemma StoreEffect(c: Config, s: State, o: nat, d: Data)
    requires WF(c, s) && Enabled(c, s, Action.Store(o, d))
    ensures Apply(c, s, Action.Store(o, d)) == Stored(s, o, d)
  {
    assert s.net + multiset{} == s.net;
  }

  lemma OutGoesStray(c: Config, s: State, o: nat, d: Data)
    requires Inv(true, c, s, At(o)) && s.nodes[o].rec.Present? && d != s.nodes[o].rec.d && CopiesOut(c, s)
    ensures CanBreakCopy(c, Stored(s, o, d), 1)
  {
    var s1 := Stored(s, o, d);
    if i :| 0 <= i < c.n && s.nodes[i].rec.Present? && s.nodes[i].rec.h.flags.ro {
      assert NodeOk(true, c, s, At(o), i);
      StrayAfterStore(c, s, o, d, i, s1);
    } else {
      var p :| p in s.net && Installable(c, s, p);
      ReplyGoesStray(c, s, o, d, p);
    }
  }

  lemma ReplyGoesStray(c: Config, s: State, o: nat, d: Data, p: Packet)
    requires Inv(true, c, s, At(o)) && s.nodes[o].rec.Present? && d != s.nodes[o].rec.d && p in s.net
             && Installable(c, s, p)
    ensures CanBreakCopy(c, Stored(s, o, d), 1)
  {
    var s1 := Stored(s, o, d);
    assert PacketOk(true, c, s, At(o), p) && NodeOk(true, c, s, At(o), p.dst);
    StoredThenInstalled(c, s, o, d, p);
    StrayAfterStore(c, s, o, d, p.dst, Installed(s1, p));
    CopyBreaksBy(c, s1, Deliver(p, Pending(0, false)), 0);
  }

  lemma StoredThenInstalled(c: Config, s: State, o: nat, d: Data, p: Packet)
    requires WF(c, s) && o < c.n && s.nodes[o].rec.Present? && p in s.net && Installable(c, s, p) && p.dst != o
    requires p.h.flags.ro && p.h.flags == p.h.flags.Persistent() && !(s.nodes[p.dst].rec.Absent? && p.dst == s.lm)
    ensures var s1, b := Stored(s, o, d), Deliver(p, Pending(0, false));
            Enabled(c, s1, b) && Apply(c, s1, b) == Installed(s1, p)
  {
    InstallEffect(c, Stored(s, o, d), p, Pending(0, false));
  }

  /** A read-only copy with the old data has no owner to share it with. */
  lemma StrayAfterStore(c: Config, s: State, o: nat, d: Data, i: nat, t: State)
    requires Inv(true, c, s, At(o)) && s.nodes[o].rec.Present? && d != s.nodes[o].rec.d && i < c.n && i != o
    requires WF(c, t) && t.lm == s.lm && t.nodes[o].rec == Present(s.nodes[o].rec.h, d)
    requires forall j | 0 <= j < c.n && j != o && j != i :: t.nodes[j] == s.nodes[j]
    requires t.nodes[i].rec.Present? && t.nodes[i].rec.h.flags.ro && t.nodes[i].rec.d == s.nodes[o].rec.d
    ensures StrayCopy(c, t, i)
  {
    forall k | 0 <= k < c.n ensures !Shares(c, t, k, i) {
      if k != i && k != o { assert EffDm(s.lm, s.nodes[k].rec) != k; }
    }
  }

  // ---- every copy hazard breaks a copy

  ghost predicate CanBreakCopy(c: Config, s: State, n: nat)
    requires WF(c, s)
    decreases n
  {
    CopyBroken(c, s) || (n > 0 && exists b :: Enabled(c, s, b) && CanBreakCopy(c, Apply(c, s, b), n - 1))
  }

  lemma CopyBreaksBy(c: Config, s: State, b: Action, n: nat)
    requires WF(c, s) && Enabled(c, s, b) && CanBreakCopy(c, Apply(c, s, b), n)
    ensures CanBreakCopy(c, s, n + 1)
  {
  }

  lemma LostHazardBreaks(c: Config, s: State, loc: Loc, a: Action)
    requires Inv(true, c, s, loc) && Enabled(c, s, a) && !a.Recover? && Actor(a) != s.lm && LosesCopy(c, s, a)
             && !NoHeld(s, Actor(a))
    ensures CanBreakCopy(c, Apply(c, s, a), 1)
  {
    var i := Actor(a);
    var p :| p in s.net && p.ReplyRo? && p.gen == s.gen && p.dst == i
             && !(s.nodes[i].rec.Present? && p.h.rsn > s.nodes[i].rec.h.rsn);
    LostCopyBreaks(c, s, loc, a, p);
    CopyBreaksBy(c, Apply(c, s, a), Deliver(p, Pending(0, false)), 0);
  }

  /** From a good state, a copy hazard that is no name hazard changes the value
      under delegation, or leaves the cluster at most one step from a broken copy. */
  lemma CopyHazardBreaks(c: Config, s: State, loc: Loc, a: Action)
    requires Inv(true, c, s, loc) && Enabled(c, s, a) && CopyHazard(c, s, a) && !NameHazard(c, s, a)
    ensures var s1 := Apply(c, s, a);
            CanBreakCopy(c, s1, 1) || (loc.At? && Delegating(s, loc.o) && Value(s1.log) != Value(s.log))
  {
    if StoresOver(c, s, a) {
      StoredOverBreaks(c, s, loc, a);
    } else if LosesCopy(c, s, a) {
      LostHazardBreaks(c, s, loc, a);
    } else {
      LateCopyBreaks(c, s, loc, a.p, a.pend);
    }
  }

  lemma LateCopyBreaks(c: Config, s: State, loc: Loc, u: Packet, pend: Pending)
    requires Inv(true, c, s, loc) && u in s.net && LateStored(s, u) && !TakesName(s, u)
             && (Revives(s, u) || Unsettles(c, s, u))
    ensures CanBreakCopy(c, Apply(c, s, Deliver(u, pend)), 1)
  {
    if Unsettles(c, s, u) {
      UnsettledBreaks(c, s, loc, u, pend);
      assert CopyBroken(c, Apply(c, s, Deliver(u, pend)));
    } else {
      var b := RevivedBreaks(c, s, loc, u, pend);
      CopyBreaksBy(c, Apply(c, s, Deliver(u, pend)), b, 0);
    }
  }
}
