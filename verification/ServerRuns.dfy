/** Whole runs of the server: any number of handlers, any interleaving. */
module ServerRuns {
  import opened Prelude
  import opened Addresses
  import opened PoolSpec
  import opened PoolLaws
  import opened ServerSpec
  import opened ServerLaws
  import opened FamilySteps
  import opened CurrentLeases
  import opened ReconnectSafety

  ghost predicate Reaches(w: World, acts: seq<Action>, v: World)
    decreases |acts|
  {
    if acts == [] then v == w
    else Shaped(w) && Enabled(w, acts[0]) && Reaches(Apply(w, acts[0]), acts[1..], v)
  }

  // ---- runs without any assumption ----

  lemma StartedIsOk(w: World)
    requires Started(w)
    ensures WorldOk(w)
  {
  }

  /** The server invariant holds in every reachable state. */
  lemma {:induction false} RunKeepsOk(w: World, acts: seq<Action>, v: World)
    requires WorldOk(w) && Reaches(w, acts, v)
    ensures WorldOk(v)
    decreases |acts|
  {
    if acts != [] {
      StepKeepsOk(w, acts[0]);
      RunKeepsOk(Apply(w, acts[0]), acts[1..], v);
    }
  }

  /** Once every grant of a family has had its release, no address of it is in use, and an IPv4
      pool's free list is a rearrangement of the hosts it started with. */
  lemma NothingLeaks(w: World, acts: seq<Action>, v: World, f: Family)
    requires Started(w) && Reaches(w, acts, v) && v.pools.At(f).Some?
    requires forall c <- v.sessions :: v.sessions[c].slots.At(f).lease == None
    ensures var p := v.pools.At(f).value;
            && p.inUse == {}
            && (p.Is4() ==> p.Shaped() && multiset(p.free) == multiset(HostsOf(p.prefix, p.server)))
  {
    StartedIsOk(w);
    RunKeepsOk(w, acts, v);
    var p := v.pools.At(f).value;
    assert Accounted(v.pools.At(f), v.sessions, f);
    if p.Is4() {
      IdleIsPermutation(p);
    }
  }

  /** When every handler has finished, the router and the session index are empty and no address is in use. */
  lemma AllTablesEmptyAtTheEnd(w: World, acts: seq<Action>, v: World)
    requires Started(w) && Reaches(w, acts, v)
    requires forall c <- v.sessions :: v.sessions[c].phase == Done
    ensures v.clients == map[] && v.byCN == map[]
    ensures forall f: Family :: v.pools.At(f).Some? ==> v.pools.At(f).value.inUse == {}
  {
    StartedIsOk(w);
    RunKeepsOk(w, acts, v);
    forall c <- v.sessions
      ensures !v.sessions[c].slots.v4.routed && !v.sessions[c].slots.v6.routed
      ensures v.sessions[c].slots.v4.lease == None && v.sessions[c].slots.v6.lease == None
    {
      assert SessionOk(v.pools, v.sessions[c]);
    }
    forall f: Family | v.pools.At(f).Some?
      ensures v.pools.At(f).value.inUse == {}
    {
      NothingLeaks(w, acts, v, f);
    }
  }

  /** A connection was given address a. */
  predicate WasGiven(w: World, c: Conn, a: Addr) {
    c in w.sessions && (w.sessions[c].slots.v4.addr == Some(a) || w.sessions[c].slots.v6.addr == Some(a))
  }

  /** The router names a connection for an address only while that connection, which was given the
      address, has its route for it registered: after its Add and before its Remove. */
  lemma RouteOwner(w: World, acts: seq<Action>, v: World, a: Addr)
    requires Started(w) && Reaches(w, acts, v) && a in v.clients
    ensures WasGiven(v, v.clients[a], a) && Routes(v.sessions[v.clients[a]], a)
    ensures var ph := v.sessions[v.clients[a]].phase; ph.Adding? || ph.Forwarding? || ph.Removing?
  {
    StartedIsOk(w);
    RunKeepsOk(w, acts, v);
    assert Routes(v.sessions[v.clients[a]], a);
    assert SessionOk(v.pools, v.sessions[v.clients[a]]);
  }

  predicate AddrsKept(s: Session, t: Session) {
    && (s.slots.v4.addr.Some? ==> t.slots.v4.addr == s.slots.v4.addr)
    && (s.slots.v6.addr.Some? ==> t.slots.v6.addr == s.slots.v6.addr)
  }

  lemma AllocKeepsAddrs(w: World, c: Conn, f: Family)
    requires Shaped(w) && c in w.sessions && w.sessions[c].phase == Allocating(f) && SessionOk(w.pools, w.sessions[c])
    ensures OneMoved(w, AllocStep(w, c, f), c)
  {
    if w.pools.At(f).Some? {
      var (q, g) := AllocateFor(w.pools.At(f).value, w.sessions[c].cn);
      assert AllocStep(w, c, f) == AllocWith(w, c, f, q, g);
    }
  }

  /** One step changes one session, and never an address it already has. */
  lemma AdvanceKeepsAddrs(w: World, c: Conn)
    requires Shaped(w) && c in w.sessions && SessionOk(w.pools, w.sessions[c])
    ensures OneMoved(w, AdvanceStep(w, c), c)
  {
    match w.sessions[c].phase
    case Allocating(f) => AllocKeepsAddrs(w, c, f);
    case Adding(f) => RouteStepsKeepAddrs(w, c, f);
    case Removing(f) => RouteStepsKeepAddrs(w, c, f);
    case Releasing(f) => ReleaseKeepsAddrs(w, c, f);
    case _ =>
  }

  /** Only session c may differ, and it keeps the addresses it has. */
  predicate OneMoved(w: World, v: World, c: Conn) {
    && c in w.sessions && c in v.sessions && v.sessions == w.sessions[c := v.sessions[c]]
    && AddrsKept(w.sessions[c], v.sessions[c])
  }

  lemma RouteStepsKeepAddrs(w: World, c: Conn, f: Family)
    requires c in w.sessions
    ensures OneMoved(w, AddStep(w, c, f), c) && OneMoved(w, RemoveStep(w, c, f), c)
  {
  }

  lemma ReleaseKeepsAddrs(w: World, c: Conn, f: Family)
    requires c in w.sessions
    ensures OneMoved(w, ReleaseStep(w, c, f), c)
  {
  }

  lemma StepKeepsGiven(w: World, act: Action, c: Conn, a: Addr)
    requires SessionsOk(w) && Shaped(w) && Enabled(w, act) && WasGiven(w, c, a)
    ensures WasGiven(Apply(w, act), c, a)
  {
    assert SessionOk(w.pools, w.sessions[c]);
    if act.Advance? {
      assert SessionOk(w.pools, w.sessions[act.conn]);
      AdvanceKeepsAddrs(w, act.conn);
    }
  }

  /** What the router answered stays right: a connection keeps the addresses it was given, so a
      packet written after the lookup still goes to a connection that was given its destination. */
  lemma {:induction false} GivenForever(w: World, acts: seq<Action>, v: World, c: Conn, a: Addr)
    requires WorldOk(w) && Reaches(w, acts, v) && WasGiven(w, c, a)
    ensures WasGiven(v, c, a)
    decreases |acts|
  {
    if acts != [] {
      StepKeepsOk(w, acts[0]);
      StepKeepsGiven(w, acts[0], c, a);
      GivenForever(Apply(w, acts[0]), acts[1..], v, c, a);
    }
  }

  // ---- runs in which setups of one CN do not overlap and no remembered address is reissued ----

  ghost predicate TameRun(w: World, acts: seq<Action>)
    decreases |acts|
  {
    acts == [] ||
    (Shaped(w) && Enabled(w, acts[0]) && Tame(w, acts[0]) && TameRun(Apply(w, acts[0]), acts[1..]))
  }

  /** The runs of the reconnect theorem, rule by rule. */
  lemma {:induction false} TameIsFiveRules(w: World, acts: seq<Action>)
    ensures TameRun(w, acts) <==>
              && Always(w, acts, TakesTurns)
              && Always(w, acts, CountsUp(V4)) && Always(w, acts, CountsUp(V6))
              && Always(w, acts, SparesMemory(V4)) && Always(w, acts, SparesMemory(V6))
    decreases |acts|
  {
    if acts != [] && Shaped(w) && Enabled(w, acts[0]) {
      TameIsFiveRules(Apply(w, acts[0]), acts[1..]);
    }
  }

  lemma {:induction false} RunKeepsSafe(w: World, acts: seq<Action>, v: World)
    requires Safe(w) && WorldOk(w) && Reaches(w, acts, v) && TameRun(w, acts)
    ensures Safe(v) && WorldOk(v)
    decreases |acts|
  {
    if acts != [] {
      StepKeepsSafe(w, acts[0]);
      StepKeepsOk(w, acts[0]);
      RunKeepsSafe(Apply(w, acts[0]), acts[1..], v);
    }
  }

  /** IPv4 and IPv6 pools configured as such. */
  ghost predicate Configured(w: World) {
    && Started(w)
    && (w.pools.v4 == None ==> Is4(w.assign.addr))
    && (w.pools.v4.Some? ==> w.pools.v4.value.Is4())
    && (w.pools.v6.Some? ==> !w.pools.v6.value.Is4())
  }

  lemma ConfiguredIsSafe(w: World)
    requires Configured(w)
    ensures Safe(w)
  {
  }

  /** The newest session c of a CN has the current lease of this family on an address in use, as long as
      it has a lease, and the route it registered for a pool address. */
  predicate Undisturbed(w: World, cn: string, c: Conn, f: Family)
    requires c in w.sessions
  {
    w.pools.At(f).Some? ==>
      var p, slot := w.pools.At(f).value, w.sessions[c].slots.At(f);
      && (slot.lease.Some? && slot.addr.Some? ==>
            p.LeaseOf(cn) == slot.lease.value && slot.addr.value in p.inUse)
      && (slot.routed ==>
            slot.addr.Some? && slot.addr.value in w.clients && w.clients[slot.addr.value] == c)
  }

  lemma NewestIsUndisturbed(w: World, cn: string, f: Family)
    requires Safe(w) && cn in w.newest
    ensures w.newest[cn] in w.sessions && Undisturbed(w, cn, w.newest[cn], f)
  {
    var c := w.newest[cn];
    assert Current(w, c);
    if w.pools.At(f).Some? {
      assert PoolSafe(w, f);
      assert IsHolder(w, c, f) ==> IsCurrent(w, c, f) && Covered(w, c, f);
    }
  }

  /** Reconnect safety. Whatever the older sessions of its CN are doing, the newest session is the
      index entry until it drops out, its leases are the current ones on addresses that stay in
      use, and the routes it registered for pool addresses lead to it. */
  lemma NewestSessionIsUndisturbed(w: World, acts: seq<Action>, v: World, cn: string)
    requires Configured(w) && Reaches(w, acts, v) && TameRun(w, acts)
    requires cn in v.newest
    ensures v.newest[cn] in v.sessions &&
            var c := v.newest[cn];
            && v.sessions[c].cn == cn
            && (v.sessions[c].phase != Done ==> cn in v.byCN && v.byCN[cn] == c)
            && Undisturbed(v, cn, c, V4) && Undisturbed(v, cn, c, V6)
  {
    StartedIsOk(w);
    ConfiguredIsSafe(w);
    RunKeepsSafe(w, acts, v);
    NewestIsUndisturbed(v, cn, V4);
    NewestIsUndisturbed(v, cn, V6);
  }

  // ---- what the pools remember ----

  lemma AllocLearns(w: World, c: Conn, f: Family)
    requires Shaped(w) && PoolsOk(w.pools) && c in w.sessions
    ensures var v := AllocStep(w, c, f); Learns(w.pools.v4, v.pools.v4) && Learns(w.pools.v6, v.pools.v6)
  {
    if w.pools.At(f).Some? {
      var p, cn := w.pools.At(f).value, w.sessions[c].cn;
      AllocateLaw(p, cn);
      var (q, g) := AllocateFor(p, cn);
      assert Learns(Some(p), Some(q));
      assert AllocWith(w, c, f, q, g).pools == w.pools.Set(f, Some(q));
    }
  }

  lemma ReleaseRemembers(w: World, c: Conn, f: Family)
    requires c in w.sessions
    ensures var v := ReleaseStep(w, c, f); Learns(w.pools.v4, v.pools.v4) && Learns(w.pools.v6, v.pools.v6)
  {
  }

  lemma OtherStepsLeavePools(w: World, a: Action)
    requires Shaped(w) && Enabled(w, a)
    requires a.Advance? ==> !w.sessions[a.conn].phase.Allocating? && !w.sessions[a.conn].phase.Releasing?
    ensures Apply(w, a).pools == w.pools
  {
  }

  lemma PoolsLearn(w: World, a: Action)
    requires Shaped(w) && PoolsOk(w.pools) && Enabled(w, a)
    ensures Learns(w.pools.v4, Apply(w, a).pools.v4) && Learns(w.pools.v6, Apply(w, a).pools.v6)
  {
    if a.Advance? && w.sessions[a.conn].phase.Allocating? {
      AllocLearns(w, a.conn, w.sessions[a.conn].phase.family);
    } else if a.Advance? && w.sessions[a.conn].phase.Releasing? {
      ReleaseRemembers(w, a.conn, w.sessions[a.conn].phase.family);
    } else {
      OtherStepsLeavePools(w, a);
    }
  }

  // ---- a client's addresses never change ----

  /** In one server lifetime any two sessions of a named client, whenever they ran, were given the
      same address from a pool. */
  lemma SameClientSameAddress(w: World, acts: seq<Action>, v: World, f: Family, c: Conn, d: Conn)
    requires Started(w) && Reaches(w, acts, v) && v.pools.At(f).Some?
    requires c in v.sessions && d in v.sessions && v.sessions[c].cn == v.sessions[d].cn != ""
    requires v.sessions[c].slots.At(f).addr.Some? && v.sessions[d].slots.At(f).addr.Some?
    ensures v.sessions[c].slots.At(f).addr == v.sessions[d].slots.At(f).addr
  {
    StartedIsOk(w);
    RunKeepsOk(w, acts, v);
    assert SessionOk(v.pools, v.sessions[c]) && SessionOk(v.pools, v.sessions[d]);
  }
}
