/** Server and client together: a reconnecting client is never told that its address changed. */
module AddressStability {
  import opened Prelude
  import opened Addresses
  import opened PoolSpec
  import opened PoolSearch
  import opened PoolLaws
  import opened ServerSpec
  import opened ServerLaws
  import opened ServerRuns
  import opened FamilySteps
  import opened Exclusivity
  import opened ExclusivityRuns
  import opened ClientRedial

  /** The list handleConn announces: the IPv4 prefix first, which without a pool is the configured one,
      then the IPv6 prefix if there is one. */
  function Announced(w: World, s: Session): seq<Prefix>
    requires s.slots.v4.addr.Some?
  {
    [if w.pools.v4.Some? then Host(s.slots.v4.addr.value) else w.assign]
    + if s.slots.v6.addr.Some? then [Host(s.slots.v6.addr.value)] else []
  }

  /** The prefix AllocateFor granted with the address. */
  function Host(a: Addr): Prefix {
    HostPrefix(a, Is4(a))
  }

  // ---- what no step changes ----

  /** The IPv4 side: the pool's prefix, or the fixed address, which then every session has. */
  predicate SameIPv4Side(w: World, v: World) {
    && v.assign == w.assign && v.pools.v4.Some? == w.pools.v4.Some?
    && (w.pools.v4.Some? ==> v.pools.v4.value.prefix == w.pools.v4.value.prefix)
  }

  ghost predicate FixedAddress(w: World) {
    w.pools.v4 == None ==>
      forall c <- w.sessions :: w.sessions[c].slots.v4.addr.Some? ==> w.sessions[c].slots.v4.addr.value == w.assign.addr
  }

  lemma AssignStays(w: World, a: Action)
    requires Shaped(w) && Enabled(w, a)
    ensures Apply(w, a).assign == w.assign
  {
  }

  /** The only step that gives an address without a pool gives the fixed one. */
  lemma StepKeepsFixed(w: World, a: Action)
    requires WorldOk(w) && Shaped(w) && Enabled(w, a) && FixedAddress(w) && w.pools.v4 == None
    ensures FixedAddress(Apply(w, a))
  {
    AssignStays(w, a);
    if IsPhase(w, a, Allocating(V4)) {
      assert Apply(w, a) == NoPoolStep(w, a.conn, V4);
    } else {
      OtherStep(w, a, V4);
    }
  }

  lemma {:induction false} IPv4SideStays(w: World, acts: seq<Action>, v: World)
    requires WorldOk(w) && FixedAddress(w) && Reaches(w, acts, v)
    ensures SameIPv4Side(w, v) && FixedAddress(v)
    decreases |acts|
  {
    if acts != [] {
      PoolsLearn(w, acts[0]);
      AssignStays(w, acts[0]);
      StepKeepsOk(w, acts[0]);
      if w.pools.v4 == None {
        StepKeepsFixed(w, acts[0]);
      }
      IPv4SideStays(Apply(w, acts[0]), acts[1..], v);
    }
  }

  // ---- the theorem ----

  /** A session that has been given its addresses, so that its list can be announced. */
  predicate Addressed(w: World, c: Conn) {
    && c in w.sessions && w.sessions[c].slots.v4.addr.Some?
    && (w.pools.v6.Some? ==> w.sessions[c].slots.v6.addr.Some?)
  }

  /** The IPv4 pool, or the fixed address where there is none, is IPv4. */
  predicate IPv4Configured(w: World) {
    if w.pools.v4.Some? then w.pools.v4.value.Is4() else Is4(w.assign.addr)
  }

  lemma SameIPv4Prefix(w: World, acts: seq<Action>, v: World, c: Conn, d: Conn)
    requires Started(w) && Reaches(w, acts, v) && IPv4Configured(w)
    requires Addressed(v, c) && Addressed(v, d) && v.sessions[c].cn == v.sessions[d].cn != ""
    ensures Announced(v, v.sessions[c])[0] == Announced(v, v.sessions[d])[0]
    ensures Is4(Announced(v, v.sessions[d])[0].addr)
  {
    StartedIsOk(w);
    RunKeepsOk(w, acts, v);
    IPv4SideStays(w, acts, v);
    if w.pools.v4.Some? {
      SameClientSameAddress(w, acts, v, V4, c, d);
      assert SessionOk(v.pools, v.sessions[d]);
      PoolAddressesAreIPv4(v.pools.v4.value, v.sessions[d].cn);
    }
  }

  /** In one server lifetime, whatever all other clients do in between, every session of a named
      client is announced the same list, IPv4 first; so a tunnel that remembers the list of one
      accepts the other, and the client's changed-address branch is never taken. */
  lemma ReconnectsKeepTheAddress(w: World, acts: seq<Action>, v: World, c: Conn, d: Conn, m: Memory)
    requires Started(w) && Reaches(w, acts, v) && IPv4Configured(w)
    requires Addressed(v, c) && Addressed(v, d) && v.sessions[c].cn == v.sessions[d].cn != ""
    ensures Announced(v, v.sessions[c]) == Announced(v, v.sessions[d]) && IPv4First(Announced(v, v.sessions[d]))
    ensures !AddressChanged(Remember(m, Announced(v, v.sessions[c])), Announced(v, v.sessions[d]))
  {
    StartedIsOk(w);
    RunKeepsOk(w, acts, v);
    SameIPv4Prefix(w, acts, v, c, d);
    assert SessionOk(v.pools, v.sessions[c]) && SessionOk(v.pools, v.sessions[d]);
    if v.pools.v6.Some? {
      SameClientSameAddress(w, acts, v, V6, c, d);
    }
    IPv4FirstAcceptsSame(m, Announced(v, v.sessions[c]), Announced(v, v.sessions[d]));
  }

  lemma PoolAddressesAreIPv4(p: Pool, id: string)
    requires Inv(p) && p.Is4() && id in p.sticky
    ensures p.sticky[id].IP? && p.sticky[id].family == V4
  {
    AssignableIsInterval(p, p.sticky[id]);
  }

  // ---- the list is what the session was given ----

  /** Every address a session was given came from the pool. */
  ghost predicate GivenFromPool(w: World, f: Family) {
    w.pools.At(f).Some? ==>
      w.pools.At(f).value.Shaped() && forall c <- w.sessions :: FromPool(w.pools.At(f).value, w.sessions[c], f)
  }

  predicate FromPool(p: Pool, s: Session, f: Family)
    requires p.Shaped()
  {
    s.slots.At(f).addr.Some? ==> Assignable(p, s.slots.At(f).addr.value)
  }

  lemma SameAssignable(w: World, v: World, c: Conn, f: Family)
    requires GivenFromPool(w, f) && w.pools.At(f).Some? && v.pools.At(f).Some?
    requires v.pools.At(f).value.prefix == w.pools.At(f).value.prefix
    requires v.pools.At(f).value.server == w.pools.At(f).value.server
    requires c in v.sessions && v.sessions == w.sessions[c := v.sessions[c]]
    requires FromPool(w.pools.At(f).value, v.sessions[c], f)
    ensures GivenFromPool(v, f)
  {
    var p, q := w.pools.At(f).value, v.pools.At(f).value;
    forall d <- v.sessions
      ensures FromPool(q, v.sessions[d], f)
    {
      assert d != c ==> FromPool(p, w.sessions[d], f);
    }
  }

  lemma AskingGivesFromPool(w: World, a: Action, f: Family)
    requires WorldOk(w) && Shaped(w) && Enabled(w, a) && Asks(w, a, f) && GivenFromPool(w, f)
    ensures GivenFromPool(Apply(w, a), f)
  {
    var q, g := AskingStep(w, a, f);
    AllocateLaw(w.pools.At(f).value, w.sessions[a.conn].cn);
    assert FromPool(w.pools.At(f).value, w.sessions[a.conn], f);
    assert AllocWith(w, a.conn, f, q, g).pools.At(f) == Some(q);
    SameAssignable(w, Apply(w, a), a.conn, f);
  }

  lemma ReturningLeavesGiven(w: World, a: Action, f: Family)
    requires Shaped(w) && Enabled(w, a) && Returns(w, a, f) && GivenFromPool(w, f)
    ensures GivenFromPool(Apply(w, a), f)
  {
    var q := ReturningStep(w, a, f);
    assert FromPool(w.pools.At(f).value, w.sessions[a.conn], f);
    assert ReleaseWith(w, a.conn, f, q).pools.At(f) == Some(q);
    SameAssignable(w, Apply(w, a), a.conn, f);
  }

  lemma StepGivesFromPool(w: World, a: Action, f: Family)
    requires WorldOk(w) && Shaped(w) && Enabled(w, a) && GivenFromPool(w, f)
    ensures GivenFromPool(Apply(w, a), f)
  {
    if Asks(w, a, f) {
      AskingGivesFromPool(w, a, f);
    } else if Returns(w, a, f) {
      ReturningLeavesGiven(w, a, f);
    } else {
      OtherStep(w, a, f);
      if w.pools.At(f).Some? {
        assert a.conn in w.sessions ==> FromPool(w.pools.At(f).value, w.sessions[a.conn], f);
        SameAssignable(w, Apply(w, a), a.conn, f);
      }
    }
  }

  /** The pool is there all the time, with the prefix it was configured with. */
  predicate SamePrefix(w: World, v: World, f: Family) {
    && v.pools.At(f).Some? == w.pools.At(f).Some?
    && (w.pools.At(f).Some? ==> v.pools.At(f).value.prefix == w.pools.At(f).value.prefix)
  }

  lemma {:induction false} RunGivesFromPool(w: World, acts: seq<Action>, v: World, f: Family)
    requires WorldOk(w) && GivenFromPool(w, f) && Reaches(w, acts, v)
    ensures GivenFromPool(v, f) && SamePrefix(w, v, f)
    decreases |acts|
  {
    if acts != [] {
      StepGivesFromPool(w, acts[0], f);
      PoolsLearn(w, acts[0]);
      StepKeepsOk(w, acts[0]);
      RunGivesFromPool(Apply(w, acts[0]), acts[1..], v, f);
    }
  }

  /** The list lets its owner use address a. */
  ghost predicate Covers(list: seq<Prefix>, a: Addr) {
    exists p <- list :: p.Valid() && p.Contains(a)
  }

  lemma HostOfPool(p: Pool, a: Addr)
    requires p.Shaped() && Assignable(p, a)
    ensures Host(a).addr == a && OneAddress(Host(a)) && Is4(a) == p.Is4()
  {
    HostIsOneAddress(p, a);
    AssignableIsInterval(p, a);
  }

  /** With an IPv4 pool the list a session is announced covers exactly the addresses the session was given,
      the IPv6 one included when there is one, by one host prefix each. */
  lemma AnnouncesWhatWasGiven(w: World, acts: seq<Action>, v: World, c: Conn, a: Addr)
    requires Started(w) && Reaches(w, acts, v) && w.pools.v4.Some? && Addressed(v, c)
    ensures Covers(Announced(v, v.sessions[c]), a) <==> WasGiven(v, c, a)
    ensures forall p <- Announced(v, v.sessions[c]) :: OneAddress(p)
  {
    StartedIsOk(w);
    RunKeepsOk(w, acts, v);
    RunGivesFromPool(w, acts, v, V4);
    RunGivesFromPool(w, acts, v, V6);
    assert SessionOk(v.pools, v.sessions[c]);
    ListIsGiven(v, c, a);
  }

  lemma ListIsGiven(v: World, c: Conn, a: Addr)
    requires GivenFromPool(v, V4) && GivenFromPool(v, V6) && v.pools.v4.Some? && c in v.sessions
    requires v.sessions[c].slots.v4.addr.Some? && (v.sessions[c].slots.v6.addr.Some? ==> v.pools.v6.Some?)
    ensures Covers(Announced(v, v.sessions[c]), a) <==> WasGiven(v, c, a)
    ensures forall p <- Announced(v, v.sessions[c]) :: OneAddress(p)
  {
    var s := v.sessions[c];
    var list := Announced(v, s);
    assert FromPool(v.pools.v4.value, s, V4);
    HostOfPool(v.pools.v4.value, s.slots.v4.addr.value);
    assert list[0] in list;
    if s.slots.v6.addr.Some? {
      assert FromPool(v.pools.v6.value, s, V6);
      HostOfPool(v.pools.v6.value, s.slots.v6.addr.value);
      assert list[1] in list;
    }
  }

  /** Without one it starts with the configured prefix, which is for the address every session has. */
  lemma AnnouncesFixedPrefix(w: World, acts: seq<Action>, v: World, c: Conn)
    requires Started(w) && Reaches(w, acts, v) && w.pools.v4 == None && Addressed(v, c)
    ensures Announced(v, v.sessions[c])[0] == w.assign && WasGiven(v, c, w.assign.addr)
  {
    StartedIsOk(w);
    IPv4SideStays(w, acts, v);
  }

  /** Sessions of different clients that hold their addresses are announced lists that cover nothing in common,
      while neither pool gives a newcomer a remembered address. */
  lemma ListsAreDisjoint(w: World, acts: seq<Action>, v: World, c: Conn, d: Conn, a: Addr)
    requires Started(w) && Reaches(w, acts, v) && w.pools.v4.Some? && w.pools.v4.value.Is4()
    requires w.pools.v6.Some? ==> !w.pools.v6.value.Is4()
    requires Always(w, acts, SparesMemory(V4)) && Always(w, acts, SparesMemory(V6))
    requires DifferentClients(v, c, d) && Addressed(v, c) && Addressed(v, d)
    requires BothHold(v, c, d, V4) && (v.pools.v6.Some? ==> BothHold(v, c, d, V6))
    ensures !(Covers(Announced(v, v.sessions[c]), a) && Covers(Announced(v, v.sessions[d]), a))
  {
    StartedIsOk(w);
    RunKeepsOk(w, acts, v);
    RunGivesFromPool(w, acts, v, V4);
    RunGivesFromPool(w, acts, v, V6);
    assert SessionOk(v.pools, v.sessions[c]) && SessionOk(v.pools, v.sessions[d]);
    ListIsGiven(v, c, a);
    ListIsGiven(v, d, a);
    ClientsNeverShare(w, acts, v, V4, c, d);
    if v.pools.v6.Some? {
      ClientsNeverShare(w, acts, v, V6, c, d);
    }
    FamiliesDiffer(v, c, d);
    FamiliesDiffer(v, d, c);
  }

  lemma FamiliesDiffer(v: World, c: Conn, d: Conn)
    requires GivenFromPool(v, V4) && GivenFromPool(v, V6) && v.pools.v4.Some? && v.pools.v4.value.Is4()
    requires v.pools.v6.Some? ==> !v.pools.v6.value.Is4()
    requires c in v.sessions && d in v.sessions && v.sessions[c].slots.v4.addr.Some?
    requires v.sessions[d].slots.v6.addr.Some? ==> v.pools.v6.Some?
    ensures v.sessions[c].slots.v4.addr != v.sessions[d].slots.v6.addr
  {
    assert FromPool(v.pools.v4.value, v.sessions[c], V4);
    HostOfPool(v.pools.v4.value, v.sessions[c].slots.v4.addr.value);
    if v.sessions[d].slots.v6.addr.Some? {
      assert FromPool(v.pools.v6.value, v.sessions[d], V6);
      HostOfPool(v.pools.v6.value, v.sessions[d].slots.v6.addr.value);
    }
  }
}
