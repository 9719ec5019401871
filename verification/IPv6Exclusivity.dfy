/** Exclusivity of an IPv6 pool, until its cursor first passes the end of the prefix. */
module IPv6Exclusivity {
  import opened Prelude
  import opened Addresses
  import opened PoolSpec
  import opened PoolSearch
  import opened PoolLaws
  import opened ServerSpec
  import opened ServerLaws
  import opened FamilySteps
  import opened Exclusivity
  import opened ServerRuns
  import opened ExclusivityRuns

  /** Every address the IPv6 pool gave out or remembers is behind its cursor. */
  ghost predicate AllBehind(pool: Option<Pool>) {
    pool.Some? && Inv(pool.value) && !pool.value.Is4() && Behind(pool.value)
  }

  lemma AskingKeepsPoolBehind(w: World, a: Action, f: Family)
    requires WorldOk(w) && Shaped(w) && Enabled(w, a) && Asks(w, a, f)
    requires AllBehind(w.pools.At(f)) && Obeys(w, a, StaysForward(f))
    ensures AllBehind(Apply(w, a).pools.At(f)) && Obeys(w, a, SparesMemory(f))
  {
    var q, g := AskingStep(w, a, f);
    IPv6FreshIsLargest(w.pools.At(f).value, w.sessions[a.conn].cn);
    assert AllocWith(w, a.conn, f, q, g).pools.At(f) == Some(q);
  }

  lemma StepKeepsBehind(w: World, a: Action, f: Family)
    requires WorldOk(w) && Shaped(w) && Enabled(w, a) && AllBehind(w.pools.At(f)) && Obeys(w, a, StaysForward(f))
    ensures AllBehind(Apply(w, a).pools.At(f)) && Obeys(w, a, SparesMemory(f))
  {
    if Asks(w, a, f) {
      AskingKeepsPoolBehind(w, a, f);
    } else if Returns(w, a, f) {
      ReturningKeepsBehind(w, a.conn, f);
    } else {
      OtherStep(w, a, f);
    }
  }

  lemma ReturningKeepsBehind(w: World, c: Conn, f: Family)
    requires c in w.sessions && AllBehind(w.pools.At(f))
    ensures AllBehind(ReleaseStep(w, c, f).pools.At(f))
  {
    var p, s := w.pools.At(f).value, w.sessions[c];
    if Holds(s, f) {
      ReleaseKeepsBehind(p, s.cn, s.slots.At(f).lease.value, HostPrefix(s.slots.At(f).addr.value, p.Is4()));
    }
  }

  /** As long as the cursor has not passed the end of the prefix, nothing of the IPv6 pool is reissued. */
  lemma {:induction false} ForwardRunSparesMemory(w: World, acts: seq<Action>, f: Family)
    requires WorldOk(w) && AllBehind(w.pools.At(f)) && Always(w, acts, StaysForward(f))
    ensures Always(w, acts, SparesMemory(f))
    decreases |acts|
  {
    if acts != [] {
      StepKeepsBehind(w, acts[0], f);
      StepKeepsOk(w, acts[0]);
      ForwardRunSparesMemory(Apply(w, acts[0]), acts[1..], f);
    }
  }

  /** Every address of the family that any session was ever given is behind the cursor, as are those the
      pool remembers or has in use. */
  ghost predicate EverBehind(w: World, f: Family) {
    && AllBehind(w.pools.At(f))
    && forall d <- w.sessions :: GivenBehind(w.pools.At(f).value, w.sessions[d], f)
  }

  predicate GivenBehind(p: Pool, s: Session, f: Family) {
    s.slots.At(f).addr.Some? ==> s.slots.At(f).addr.value.IP? && s.slots.At(f).addr.value.value < CursorValue(p.next)
  }

  lemma OthersStayBehind(w: World, v: World, c: Conn, f: Family)
    requires EverBehind(w, f) && AllBehind(v.pools.At(f))
    requires c in v.sessions && v.sessions == w.sessions[c := v.sessions[c]]
    requires CursorValue(w.pools.At(f).value.next) <= CursorValue(v.pools.At(f).value.next)
    requires GivenBehind(v.pools.At(f).value, v.sessions[c], f)
    ensures EverBehind(v, f)
  {
    forall d <- v.sessions
      ensures GivenBehind(v.pools.At(f).value, v.sessions[d], f)
    {
      assert d in w.sessions ==> GivenBehind(w.pools.At(f).value, w.sessions[d], f);
    }
  }

  lemma KnownAreBehind(p: Pool, b: Addr)
    requires AllBehind(Some(p)) && b in p.inUse + p.sticky.Values
    ensures b.IP? && b.value < CursorValue(p.next)
  {
    AssignableIsInterval(p, b);
  }

  lemma AskingKeepsBehind(w: World, a: Action, f: Family)
    requires WorldOk(w) && Shaped(w) && Enabled(w, a) && Asks(w, a, f) && EverBehind(w, f)
    requires Obeys(w, a, StaysForward(f))
    ensures EverBehind(Apply(w, a), f)
  {
    var p, cn := w.pools.At(f).value, w.sessions[a.conn].cn;
    var q, g := AskingStep(w, a, f);
    StepKeepsBehind(w, a, f);
    CursorAdvances(p, cn);
    AllocateLaw(p, cn);
    assert GivenBehind(p, w.sessions[a.conn], f);
    if g.Granted? {
      KnownAreBehind(q, g.prefix.addr);
    }
    OthersStayBehind(w, Apply(w, a), a.conn, f);
  }

  lemma ReturningKeepsEverBehind(w: World, a: Action, f: Family)
    requires WorldOk(w) && Shaped(w) && Enabled(w, a) && Returns(w, a, f) && EverBehind(w, f)
    ensures EverBehind(Apply(w, a), f)
  {
    ReturningKeepsBehind(w, a.conn, f);
    assert GivenBehind(w.pools.At(f).value, w.sessions[a.conn], f);
    OthersStayBehind(w, ReleaseStep(w, a.conn, f), a.conn, f);
  }

  lemma OtherStepStaysBehind(w: World, a: Action, f: Family)
    requires Shaped(w) && Enabled(w, a) && !Asks(w, a, f) && !Returns(w, a, f) && EverBehind(w, f)
    ensures EverBehind(Apply(w, a), f)
  {
    OtherStep(w, a, f);
    assert a.conn in w.sessions ==> GivenBehind(w.pools.At(f).value, w.sessions[a.conn], f);
    OthersStayBehind(w, Apply(w, a), a.conn, f);
  }

  lemma StepKeepsEverBehind(w: World, a: Action, f: Family)
    requires WorldOk(w) && Shaped(w) && Enabled(w, a) && EverBehind(w, f) && Obeys(w, a, StaysForward(f))
    ensures EverBehind(Apply(w, a), f)
  {
    if Asks(w, a, f) {
      AskingKeepsBehind(w, a, f);
    } else if Returns(w, a, f) {
      ReturningKeepsEverBehind(w, a, f);
    } else {
      OtherStepStaysBehind(w, a, f);
    }
  }

  lemma {:induction false} RunKeepsEverBehind(w: World, acts: seq<Action>, v: World, f: Family)
    requires WorldOk(w) && EverBehind(w, f) && Reaches(w, acts, v) && Always(w, acts, StaysForward(f))
    ensures WorldOk(v) && EverBehind(v, f)
    decreases |acts|
  {
    if acts != [] {
      StepKeepsEverBehind(w, acts[0], f);
      StepKeepsOk(w, acts[0]);
      RunKeepsEverBehind(Apply(w, acts[0]), acts[1..], v, f);
    }
  }

  predicate Precedes(b: Addr, a: Addr) {
    a.IP? && b.IP? && b.value < a.value
  }

  /** Until the cursor first wraps, an address given to a newcomer exceeds every address of the pool that any
      session was ever given, ended ones included, and all that are in use or remembered. */
  lemma IPv6FreshExceedsAll(w: World, acts: seq<Action>, v: World, f: Family, c: Conn, a: Addr)
    requires Started(w) && w.pools.At(f).Some? && !w.pools.At(f).value.Is4()
    requires Reaches(w, acts, v) && Always(w, acts, StaysForward(f))
    requires Shaped(v) && v.pools.At(f).Some? && c in v.sessions && !v.pools.At(f).value.Is4()
    requires !Remembered(v.pools.At(f).value, v.sessions[c].cn) && !Wraps(v.pools.At(f).value, v.sessions[c].cn)
    requires Offered(v.pools.At(f).value, v.sessions[c].cn, a)
    ensures forall d <- v.sessions ::
              v.sessions[d].slots.At(f).addr.Some? ==> Precedes(v.sessions[d].slots.At(f).addr.value, a)
    ensures forall b <- v.pools.At(f).value.inUse + v.pools.At(f).value.sticky.Values :: Precedes(b, a)
  {
    StartedIsOk(w);
    RunKeepsEverBehind(w, acts, v, f);
    var p := v.pools.At(f).value;
    OfferIsAhead(p, v.sessions[c].cn, a);
    forall d <- v.sessions | v.sessions[d].slots.At(f).addr.Some?
      ensures Precedes(v.sessions[d].slots.At(f).addr.value, a)
    {
      assert GivenBehind(p, v.sessions[d], f);
    }
    forall b <- p.inUse + p.sticky.Values
      ensures Precedes(b, a)
    {
      KnownAreBehind(p, b);
    }
  }

  lemma OfferIsAhead(p: Pool, cn: string, a: Addr)
    requires Inv(p) && !p.Is4() && !Remembered(p, cn) && !Wraps(p, cn) && Offered(p, cn, a)
    ensures a.IP? && CursorValue(p.next) <= a.value
  {
    OfferedIff(p, cn, a);
    WrapsIff(p);
    ForwardOnly(p);
    assert SearchFrom(Stamp(p, cn)) == SearchFrom(p);
  }

  /** IPv6 exclusivity: from the start and until the cursor of this pool first passes the end of its
      prefix, sessions of different clients never share an address of it. */
  lemma IPv6ClientsNeverShare(w: World, acts: seq<Action>, v: World, f: Family, c: Conn, d: Conn)
    requires Started(w) && w.pools.At(f).Some? && !w.pools.At(f).value.Is4()
    requires Reaches(w, acts, v) && Always(w, acts, StaysForward(f))
    requires v.pools.At(f).Some? && DifferentClients(v, c, d) && BothHold(v, c, d, f)
    ensures v.sessions[c].slots.At(f).addr != v.sessions[d].slots.At(f).addr
  {
    StartedIsOk(w);
    ForwardRunSparesMemory(w, acts, f);
    ClientsNeverShare(w, acts, v, f, c, d);
  }
}
