/** Reconnects: the newest session of a client keeps its index entry, its leases and its routes
    while any number of older sessions tear down in any order. */
module ReconnectSafety {
  import opened Prelude
  import opened Addresses
  import opened PoolSpec
  import opened PoolSearch
  import opened PoolLaws
  import opened ServerSpec
  import opened ServerLaws
  import opened FamilySteps
  import opened Exclusivity
  import opened CurrentLeases

  // ---- what is assumed of a step ----

  /** Setups of one CN take turns, and in each family the lease counter does not wrap and no newcomer is
      given a remembered address. */
  ghost predicate Tame(w: World, a: Action)
    requires Shaped(w)
  {
    && Obeys(w, a, TakesTurns)
    && Obeys(w, a, CountsUp(V4)) && Obeys(w, a, CountsUp(V6))
    && Obeys(w, a, SparesMemory(V4)) && Obeys(w, a, SparesMemory(V6))
  }

  // ---- what is kept ----

  predicate IsNewest(newest: map<string, Conn>, cn: string, c: Conn) {
    cn != "" && cn in newest && newest[cn] == c
  }

  /** Only the newest session of a CN may still be setting up; every CN that has been taken has a newest. */
  ghost predicate NewestOk(w: World) {
    && (forall cn <- w.newest ::
          && cn != "" && w.newest[cn] in w.sessions
          && w.sessions[w.newest[cn]].cn == cn && w.sessions[w.newest[cn]].phase != Taking)
    && (forall c <- w.sessions ::
          w.sessions[c].cn != "" && SettingUp(w.sessions[c].phase) ==> IsNewest(w.newest, w.sessions[c].cn, c))
  }

  /** The newest session of a CN is its index entry until it drops out itself. */
  ghost predicate NewestIndexed(w: World) {
    forall cn <- w.newest ::
      w.newest[cn] in w.sessions && w.sessions[w.newest[cn]].phase != Done ==>
        cn in w.byCN && w.byCN[cn] == w.newest[cn]
  }

  predicate Current(w: World, c: Conn) {
    c in w.sessions && (w.sessions[c].cn == "" || IsNewest(w.newest, w.sessions[c].cn, c))
  }

  /** Current sessions own the routes they registered for addresses from a pool. */
  ghost predicate RoutesKept(w: World) {
    forall c, f: Family :: Current(w, c) && w.pools.At(f).Some? && w.sessions[c].slots.At(f).routed ==>
      var addr := w.sessions[c].slots.At(f).addr;
      addr.Some? && addr.value in w.clients && w.clients[addr.value] == c
  }

  /** Each family's addresses are of that family. */
  ghost predicate FamiliesApart(w: World) {
    && (w.pools.v4 == None ==> Is4(w.assign.addr))
    && (w.pools.v4.Some? ==> w.pools.v4.value.Is4())
    && (w.pools.v6.Some? ==> !w.pools.v6.value.Is4())
    && (forall c <- w.sessions, f: Family :: w.sessions[c].slots.At(f).addr.Some? ==>
          w.sessions[c].slots.At(f).addr.value.IP? && w.sessions[c].slots.At(f).addr.value.family == f)
  }

  /** The newest session of a CN, if it holds an address, holds the current lease, and the address is in use. */
  ghost predicate NewestHeld(w: World, f: Family) {
    w.pools.At(f).Some? ==>
      forall c :: IsHolder(w, c, f) ==> IsCurrent(w, c, f) && Covered(w, c, f)
  }

  predicate IsHolder(w: World, c: Conn, f: Family) {
    c in w.sessions && IsNewest(w.newest, w.sessions[c].cn, c) && Holds(w.sessions[c], f)
  }

  ghost predicate PoolSafe(w: World, f: Family) {
    Apart(w, f) && Numbered(w, f) && NewestHeld(w, f)
  }

  ghost predicate PoolsSafe(w: World) {
    PoolSafe(w, V4) && PoolSafe(w, V6)
  }

  ghost predicate TablesSafe(w: World) {
    NewestOk(w) && NewestIndexed(w) && RoutesKept(w) && FamiliesApart(w)
  }

  ghost predicate Safe(w: World) {
    PoolsSafe(w) && TablesSafe(w)
  }

  // ---- the pools ----

  /** The holder that an AllocateFor leaves: the session that asked now has the current lease. */
  lemma AskerIsCurrent(w: World, v: World, c: Conn, f: Family)
    requires w.pools.At(f).Some? && c in w.sessions && Asked(w, v, c, f) && AskerHasNewLease(w, v, c, f)
    requires w.sessions[c].cn != "" && Holds(v.sessions[c], f)
    ensures IsCurrent(v, c, f) && Covered(v, c, f)
  {
  }

  lemma AllocLeavesNewest(w: World, c: Conn, f: Family)
    requires Shaped(w) && c in w.sessions
    ensures AllocStep(w, c, f).newest == w.newest
  {
    if w.pools.At(f).Some? {
      var (q, g) := AllocateFor(w.pools.At(f).value, w.sessions[c].cn);
      assert AllocStep(w, c, f) == AllocWith(w, c, f, q, g);
    }
  }

  /** Only take changes who is newest. */
  lemma OnlyTakeChangesNewest(w: World, a: Action)
    requires Shaped(w) && Enabled(w, a) && !IsPhase(w, a, Taking)
    ensures Apply(w, a).newest == w.newest
  {
    if a.Advance? && w.sessions[a.conn].phase.Allocating? {
      AllocLeavesNewest(w, a.conn, w.sessions[a.conn].phase.family);
    }
  }

  /** Who calls take holds nothing yet. */
  lemma HolderBeforeTake(w: World, a: Action, c: Conn, f: Family)
    requires WorldOk(w) && Shaped(w) && Enabled(w, a) && IsPhase(w, a, Taking) && IsHolder(Apply(w, a), c, f)
    ensures IsHolder(w, c, f) && a.conn != c
  {
    assert SessionOk(w.pools, w.sessions[a.conn]);
    assert Apply(w, a) == TakeStep(w, a.conn);
  }

  lemma HolderElsewhere(w: World, v: World, c: Conn, d: Conn, f: Family)
    requires IsHolder(v, d, f) && v.newest == w.newest && d != c
    requires c in v.sessions && v.sessions == w.sessions[c := v.sessions[c]]
    ensures IsHolder(w, d, f)
  {
  }

  /** A newest session that holds after a step held before it, or has just been served. */
  lemma HolderBefore(w: World, a: Action, c: Conn, f: Family)
    requires WorldOk(w) && Shaped(w) && Enabled(w, a) && w.pools.At(f).Some? && IsHolder(Apply(w, a), c, f)
    ensures (Asks(w, a, f) && a.conn == c) || (IsHolder(w, c, f) && !GivesBack(w, a, c, f))
  {
    if IsPhase(w, a, Taking) {
      HolderBeforeTake(w, a, c, f);
      return;
    }
    OnlyTakeChangesNewest(w, a);
    if Asks(w, a, f) {
      var q, g := AskingStep(w, a, f);
      if a.conn != c {
        HolderElsewhere(w, Apply(w, a), a.conn, c, f);
      }
    } else if Returns(w, a, f) {
      var q := ReturningStep(w, a, f);
      HolderElsewhere(w, Apply(w, a), a.conn, c, f);
    } else {
      OtherStep(w, a, f);
    }
  }

  lemma StepKeepsNewestHeld(w: World, a: Action, f: Family)
    requires WorldOk(w) && Shaped(w) && Enabled(w, a) && PoolSafe(w, f) && NewestOk(w) && Obeys(w, a, CountsUp(f))
    ensures NewestHeld(Apply(w, a), f)
  {
    var v := Apply(w, a);
    PoolStays(w, a, f);
    if w.pools.At(f).Some? {
      forall c | IsHolder(v, c, f)
        ensures IsCurrent(v, c, f) && Covered(v, c, f)
      {
        HolderBefore(w, a, c, f);
        if Asks(w, a, f) && a.conn == c {
          AskedLeases(w, a, f);
          AskedNewLease(w, a, f);
          AskerIsCurrent(w, v, c, f);
        } else {
          assert !Supersedes(w, a, c, f);
          StaysCurrentIff(w, a, c, f);
          StepKeepsCovered(w, a, c, f);
        }
      }
    }
  }

  lemma PoolStays(w: World, a: Action, f: Family)
    requires WorldOk(w) && Shaped(w) && Enabled(w, a)
    ensures Apply(w, a).pools.At(f).Some? == w.pools.At(f).Some?
  {
    if Asks(w, a, f) {
      var q, g := AskingStep(w, a, f);
      assert AllocWith(w, a.conn, f, q, g).pools.At(f) == Some(q);
    } else if Returns(w, a, f) {
      var q := ReturningStep(w, a, f);
      assert ReleaseWith(w, a.conn, f, q).pools.At(f) == Some(q);
    } else {
      OtherStep(w, a, f);
    }
  }

  /** One tame step keeps the pools of both families in order. */
  lemma StepKeepsPools(w: World, a: Action)
    requires WorldOk(w) && Shaped(w) && Enabled(w, a) && PoolsSafe(w) && NewestOk(w) && Tame(w, a)
    ensures PoolsSafe(Apply(w, a))
  {
    StepKeepsApart(w, a, V4);
    StepKeepsNumbered(w, a, V4);
    StepKeepsNewestHeld(w, a, V4);
    StepKeepsApart(w, a, V6);
    StepKeepsNumbered(w, a, V6);
    StepKeepsNewestHeld(w, a, V6);
  }

  // ---- the other parts ----

  lemma NewestFrame(w: World, v: World, c: Conn)
    requires NewestOk(w) && NewestIndexed(w) && v.newest == w.newest
    requires c in v.sessions && v.sessions == w.sessions[c := v.sessions[c]]
    requires if c in w.sessions then
               && v.sessions[c].cn == w.sessions[c].cn
               && (SettingUp(v.sessions[c].phase) ==> SettingUp(w.sessions[c].phase))
               && (w.sessions[c].phase != Taking ==> v.sessions[c].phase != Taking)
             else !SettingUp(v.sessions[c].phase)
    requires forall cn <- w.newest :: w.newest[cn] in v.sessions && v.sessions[w.newest[cn]].phase != Done ==>
               w.sessions[w.newest[cn]].phase != Done && cn in w.byCN && cn in v.byCN && v.byCN[cn] == w.byCN[cn]
    ensures NewestOk(v) && NewestIndexed(v)
  {
  }

  lemma RoutesFrame(w: World, v: World, c: Conn)
    requires RoutesKept(w) && v.newest == w.newest && v.clients == w.clients
    requires v.pools.v4.Some? == w.pools.v4.Some? && v.pools.v6.Some? == w.pools.v6.Some?
    requires c in v.sessions && v.sessions == w.sessions[c := v.sessions[c]]
    requires forall f: Family :: v.sessions[c].slots.At(f).routed ==>
               && c in w.sessions && v.sessions[c].cn == w.sessions[c].cn
               && w.sessions[c].slots.At(f).routed && v.sessions[c].slots.At(f).addr == w.sessions[c].slots.At(f).addr
    ensures RoutesKept(v)
  {
    forall d, f: Family | Current(v, d) && v.pools.At(f).Some? && v.sessions[d].slots.At(f).routed
      ensures var addr := v.sessions[d].slots.At(f).addr;
              addr.Some? && addr.value in v.clients && v.clients[addr.value] == d
    {
      assert Current(w, d) && w.pools.At(f).Some? && w.sessions[d].slots.At(f).routed;
    }
  }

  lemma FamiliesFrame(w: World, v: World, c: Conn)
    requires FamiliesApart(w) && v.assign == w.assign
    requires v.pools.v4.Some? == w.pools.v4.Some? && v.pools.v6.Some? == w.pools.v6.Some?
    requires v.pools.v4.Some? ==> v.pools.v4.value.prefix == w.pools.v4.value.prefix
    requires v.pools.v6.Some? ==> v.pools.v6.value.prefix == w.pools.v6.value.prefix
    requires c in v.sessions && v.sessions == w.sessions[c := v.sessions[c]]
    requires forall f: Family :: v.sessions[c].slots.At(f).addr.Some? ==>
               || (c in w.sessions && v.sessions[c].slots.At(f).addr == w.sessions[c].slots.At(f).addr)
               || (v.sessions[c].slots.At(f).addr.value.IP? && v.sessions[c].slots.At(f).addr.value.family == f)
    ensures FamiliesApart(v)
  {
  }

  /** A step that changes only where a handler is, not what it holds. */
  lemma MoveOnKeepsTables(w: World, c: Conn, phase: Phase)
    requires TablesSafe(w) && c in w.sessions && w.sessions[c].phase != Taking && w.sessions[c].phase != Done
    requires phase != Taking && phase != Done && (SettingUp(phase) ==> SettingUp(w.sessions[c].phase))
    ensures TablesSafe(MoveOn(w, c, phase))
  {
    var v := MoveOn(w, c, phase);
    NewestFrame(w, v, c);
    RoutesFrame(w, v, c);
    FamiliesFrame(w, v, c);
  }

  lemma AcceptKeepsTables(w: World, c: Conn, cn: string)
    requires TablesSafe(w) && c !in w.sessions
    ensures TablesSafe(With(w, c, Session(cn, Taking, Pair(EMPTY_SLOT, EMPTY_SLOT))))
  {
    var v := With(w, c, Session(cn, Taking, Pair(EMPTY_SLOT, EMPTY_SLOT)));
    NewestFrame(w, v, c);
    RoutesFrame(w, v, c);
    FamiliesFrame(w, v, c);
  }

  lemma TakeKeepsNewest(w: World, c: Conn)
    requires NewestOk(w) && NewestIndexed(w) && c in w.sessions && w.sessions[c].phase == Taking
    requires Serialized(w, Advance(c))
    ensures NewestOk(TakeStep(w, c)) && NewestIndexed(TakeStep(w, c))
  {
    assert IsPhase(w, Advance(c), Taking);
  }

  lemma TakeKeepsRoutes(w: World, c: Conn)
    requires RoutesKept(w) && SessionsOk(w) && c in w.sessions && w.sessions[c].phase == Taking
    ensures RoutesKept(TakeStep(w, c))
  {
    var v := TakeStep(w, c);
    assert SessionOk(w.pools, w.sessions[c]);
    forall d, f: Family | Current(v, d) && v.pools.At(f).Some? && v.sessions[d].slots.At(f).routed
      ensures var addr := v.sessions[d].slots.At(f).addr;
              addr.Some? && addr.value in v.clients && v.clients[addr.value] == d
    {
      assert d != c && Current(w, d);
    }
  }

  lemma TakeKeepsTables(w: World, c: Conn)
    requires TablesSafe(w) && SessionsOk(w) && c in w.sessions && w.sessions[c].phase == Taking
    requires Serialized(w, Advance(c))
    ensures TablesSafe(TakeStep(w, c))
  {
    TakeKeepsNewest(w, c);
    TakeKeepsRoutes(w, c);
    FamiliesFrame(w, TakeStep(w, c), c);
  }

  lemma NoPoolKeepsTables(w: World, c: Conn, f: Family)
    requires TablesSafe(w) && SessionsOk(w) && w.pools.At(f) == None
    requires c in w.sessions && w.sessions[c].phase == Allocating(f)
    ensures TablesSafe(NoPoolStep(w, c, f))
  {
    var v := NoPoolStep(w, c, f);
    assert SessionOk(w.pools, w.sessions[c]);
    NewestFrame(w, v, c);
    RoutesFrame(w, v, c);
    FamiliesFrame(w, v, c);
  }

  lemma GrantKeepsTables(w: World, c: Conn, f: Family, p: Pool, q: Pool, g: Grant)
    requires TablesSafe(w) && SessionsOk(w) && c in w.sessions && w.sessions[c].phase == Allocating(f)
    requires w.pools.At(f) == Some(p) && q.prefix == p.prefix
    requires g.Granted? ==> g.prefix.addr.IP? && g.prefix.addr.family == f
    ensures TablesSafe(AllocWith(w, c, f, q, g))
  {
    var v := AllocWith(w, c, f, q, g);
    assert SessionOk(w.pools, w.sessions[c]);
    NewestFrame(w, v, c);
    RoutesFrame(w, v, c);
    FamiliesFrame(w, v, c);
  }

  lemma AllocKeepsTables(w: World, c: Conn, f: Family)
    requires TablesSafe(w) && WorldOk(w) && Shaped(w) && c in w.sessions && w.sessions[c].phase == Allocating(f)
    ensures TablesSafe(AllocStep(w, c, f))
  {
    if w.pools.At(f) == None {
      NoPoolKeepsTables(w, c, f);
      return;
    }
    var p, cn := w.pools.At(f).value, w.sessions[c].cn;
    AllocateLaw(p, cn);
    var (q, g) := AllocateFor(p, cn);
    if g.Granted? {
      AssignableIsInterval(p, g.prefix.addr);
    }
    GrantKeepsTables(w, c, f, p, q, g);
  }

  lemma ReturnKeepsTables(w: World, c: Conn, f: Family, p: Pool, q: Pool)
    requires TablesSafe(w) && c in w.sessions && w.sessions[c].phase == Releasing(f)
    requires w.pools.At(f) == Some(p) && q.prefix == p.prefix
    ensures TablesSafe(ReleaseWith(w, c, f, q))
  {
    var v := ReleaseWith(w, c, f, q);
    NewestFrame(w, v, c);
    RoutesFrame(w, v, c);
    FamiliesFrame(w, v, c);
  }

  lemma ReleaseKeepsTables(w: World, c: Conn, f: Family)
    requires TablesSafe(w) && SessionsOk(w) && c in w.sessions && w.sessions[c].phase == Releasing(f)
    ensures TablesSafe(ReleaseStep(w, c, f))
  {
    var s := w.sessions[c];
    assert SessionOk(w.pools, s);
    if Holds(s, f) {
      var p, slot := w.pools.At(f).value, s.slots.At(f);
      ReturnKeepsTables(w, c, f, p, Release(p, s.cn, slot.lease.value, HostPrefix(slot.addr.value, p.Is4())));
    } else {
      MoveOnKeepsTables(w, c, if f == V6 then Releasing(V4) else Dropping);
    }
  }

  /** A session that is about to add its route and another current one hold different pool addresses. */
  lemma RoutesDiffer(w: World, c: Conn, d: Conn, f: Family)
    requires Apart(w, f) && NewestOk(w) && WorldOk(w) && w.pools.At(f).Some?
    requires c in w.sessions && w.sessions[c].phase == Adding(f) && Current(w, d) && d != c
    requires w.sessions[d].slots.At(f).routed && w.sessions[d].slots.At(f).addr.Some?
    ensures w.sessions[c].slots.At(f).addr != w.sessions[d].slots.At(f).addr
  {
    assert SessionOk(w.pools, w.sessions[c]) && SessionOk(w.pools, w.sessions[d]);
    ApartMeansDifferent(w, f, c, d);
  }

  /** No other current session has a route for the pool address this one is about to register. */
  ghost predicate RouteIsFree(w: World, c: Conn, f: Family)
    requires c in w.sessions
  {
    w.pools.At(f).Some? ==>
      forall d :: && Current(w, d) && d != c
                  && w.sessions[d].slots.At(f).routed && w.sessions[d].slots.At(f).addr.Some? ==>
        w.sessions[c].slots.At(f).addr != w.sessions[d].slots.At(f).addr
  }

  /** A route for an address of a pool is taken over only from an older session of the same client. */
  lemma AddingRouteIsFree(w: World, c: Conn, f: Family)
    requires Apart(w, f) && NewestOk(w) && WorldOk(w) && c in w.sessions && w.sessions[c].phase == Adding(f)
    ensures RouteIsFree(w, c, f)
  {
    forall d | w.pools.At(f).Some? && Current(w, d) && d != c && w.sessions[d].slots.At(f).routed
                 && w.sessions[d].slots.At(f).addr.Some?
      ensures w.sessions[c].slots.At(f).addr != w.sessions[d].slots.At(f).addr
    {
      RoutesDiffer(w, c, d, f);
    }
  }

  lemma AddKeepsRoutes(w: World, c: Conn, f: Family)
    requires RoutesKept(w) && FamiliesApart(w) && c in w.sessions && RouteIsFree(w, c, f)
    requires w.sessions[c].phase == Adding(f) && SessionOk(w.pools, w.sessions[c])
    ensures RoutesKept(AddStep(w, c, f))
  {
    var v := AddStep(w, c, f);
    forall d, h: Family | Current(v, d) && v.pools.At(h).Some? && v.sessions[d].slots.At(h).routed
      ensures var addr := v.sessions[d].slots.At(h).addr;
              addr.Some? && addr.value in v.clients && v.clients[addr.value] == d
    {
      if d != c {
        assert Current(w, d) && w.sessions[d].slots.At(h).routed;
      }
    }
  }

  lemma AddKeepsTables(w: World, c: Conn, f: Family)
    requires TablesSafe(w) && c in w.sessions && w.sessions[c].phase == Adding(f)
    requires RoutesKept(AddStep(w, c, f))
    ensures TablesSafe(AddStep(w, c, f))
  {
    var v := AddStep(w, c, f);
    NewestFrame(w, v, c);
    FamiliesFrame(w, v, c);
  }

  lemma RemoveKeepsRoutes(w: World, c: Conn, f: Family)
    requires RoutesKept(w) && FamiliesApart(w) && c in w.sessions
    ensures RoutesKept(RemoveStep(w, c, f))
  {
    var v := RemoveStep(w, c, f);
    forall d, h: Family | Current(v, d) && v.pools.At(h).Some? && v.sessions[d].slots.At(h).routed
      ensures var addr := v.sessions[d].slots.At(h).addr;
              addr.Some? && addr.value in v.clients && v.clients[addr.value] == d
    {
      assert Current(w, d) && w.sessions[d].slots.At(h).routed;
    }
  }

  lemma RemoveKeepsTables(w: World, c: Conn, f: Family)
    requires TablesSafe(w) && c in w.sessions && w.sessions[c].phase == Removing(f)
    ensures TablesSafe(RemoveStep(w, c, f))
  {
    var v := RemoveStep(w, c, f);
    NewestFrame(w, v, c);
    RemoveKeepsRoutes(w, c, f);
    FamiliesFrame(w, v, c);
  }

  lemma DropKeepsTables(w: World, c: Conn)
    requires TablesSafe(w) && c in w.sessions && w.sessions[c].phase == Dropping
    ensures TablesSafe(DropStep(w, c))
  {
    var v := DropStep(w, c);
    NewestFrame(w, v, c);
    RoutesFrame(w, v, c);
    FamiliesFrame(w, v, c);
  }

  // ---- all steps ----

  lemma AddingKeepsTables(w: World, c: Conn, f: Family)
    requires Apart(w, f) && TablesSafe(w) && WorldOk(w) && c in w.sessions && w.sessions[c].phase == Adding(f)
    ensures TablesSafe(AddStep(w, c, f))
  {
    AddingRouteIsFree(w, c, f);
    assert SessionOk(w.pools, w.sessions[c]);
    AddKeepsRoutes(w, c, f);
    AddKeepsTables(w, c, f);
  }

  /** The steps on the router. */
  lemma RoutingKeepsTables(w: World, c: Conn)
    requires Apart(w, V4) && Apart(w, V6) && TablesSafe(w) && WorldOk(w) && Shaped(w) && c in w.sessions
    requires w.sessions[c].phase.Adding? || w.sessions[c].phase.Removing?
    ensures TablesSafe(AdvanceStep(w, c))
  {
    match w.sessions[c].phase
    case Adding(f) => AddingKeepsTables(w, c, f);
    case Removing(f) => RemoveKeepsTables(w, c, f);
  }

  lemma AdvanceKeepsTables(w: World, c: Conn)
    requires Apart(w, V4) && Apart(w, V6) && TablesSafe(w) && WorldOk(w) && Shaped(w)
    requires c in w.sessions && w.sessions[c].phase != Done && Serialized(w, Advance(c))
    ensures TablesSafe(AdvanceStep(w, c))
  {
    match w.sessions[c].phase
    case Taking => TakeKeepsTables(w, c);
    case Allocating(f) => AllocKeepsTables(w, c, f);
    case Announcing => MoveOnKeepsTables(w, c, Adding(V4));
    case Adding(_) => RoutingKeepsTables(w, c);
    case Forwarding => ForwardingKeepsTables(w, c);
    case Removing(_) => RoutingKeepsTables(w, c);
    case Releasing(f) => ReleaseKeepsTables(w, c, f);
    case Dropping => DropKeepsTables(w, c);
  }

  lemma ForwardingKeepsTables(w: World, c: Conn)
    requires TablesSafe(w) && c in w.sessions && w.sessions[c].phase == Forwarding
    ensures TablesSafe(MoveOn(w, c, Removing(V6)).(closed := w.closed + {c}))
  {
    MoveOnKeepsTables(w, c, Removing(V6));
  }

  lemma StepKeepsTables(w: World, a: Action)
    requires Apart(w, V4) && Apart(w, V6) && TablesSafe(w) && WorldOk(w) && Shaped(w) && Enabled(w, a)
    requires Obeys(w, a, TakesTurns)
    ensures TablesSafe(Apply(w, a))
  {
    match a
    case Accept(c, cn) => AcceptKeepsTables(w, c, cn);
    case Abort(c) => MoveOnKeepsTables(w, c, Releasing(V6));
    case Advance(c) => AdvanceKeepsTables(w, c);
  }

  /** One tame step keeps everything reconnects rely on. */
  lemma StepKeepsSafe(w: World, a: Action)
    requires Safe(w) && WorldOk(w) && Shaped(w) && Enabled(w, a) && Tame(w, a)
    ensures Safe(Apply(w, a))
  {
    StepKeepsPools(w, a);
    StepKeepsTables(w, a);
  }
}
