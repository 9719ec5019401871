/** A run of the server, possible with every IPv4 pool that has an address to give, at the end of which two
    clients hold one address, each under its current lease. */
module SharedAddress {
  import opened Prelude
  import opened Addresses
  import opened PoolSpec
  import opened PoolLaws
  import opened ServerSpec
  import opened ServerLaws
  import opened FamilySteps
  import opened Exclusivity
  import opened CurrentLeases
  import opened ServerRuns
  import opened LeaseRuns

  /** A session that has just been given this grant of the IPv4 pool. */
  function Given(cn: string, g: Grant): Session
    requires g.Granted?
  {
    Session(cn, Allocating(V6), Pair(Slot(Some(g.prefix.addr), Some(g.lease), false), EMPTY_SLOT))
  }

  lemma {:induction false} Arrives(w: World, c: Conn, cn: string) returns (acts: seq<Action>, u: World)
    requires WorldOk(w) && c !in w.sessions
    ensures Reaches(w, acts, u) && WorldOk(u) && u.pools == w.pools
    ensures u.sessions == w.sessions[c := Session(cn, Allocating(V4), Pair(EMPTY_SLOT, EMPTY_SLOT))]
  {
    var w1 := Apply(w, Accept(c, cn));
    StepKeepsOk(w, Accept(c, cn));
    u := TakeStep(w1, c);
    StepKeepsOk(w1, Advance(c));
    StepThen(w1, Advance(c), [], u);
    acts := [Accept(c, cn)] + [Advance(c)];
    StepThen(w, Accept(c, cn), [Advance(c)], u);
  }

  lemma GivesAddress(w: World, c: Conn, cn: string, q: Pool, g: Grant)
    requires c in w.sessions && w.sessions[c] == Session(cn, Allocating(V4), Pair(EMPTY_SLOT, EMPTY_SLOT)) && g.Granted?
    ensures var u := AllocWith(w, c, V4, q, g);
            u.pools == Pair(Some(q), w.pools.v6) && u.sessions == w.sessions[c := Given(cn, g)]
  {
  }

  /** The allocation of a session that has called take. */
  lemma {:induction false} IsServed(w: World, c: Conn, cn: string, q: Pool, g: Grant) returns (u: World)
    requires WorldOk(w) && c in w.sessions && w.pools.v4.Some?
    requires w.sessions[c] == Session(cn, Allocating(V4), Pair(EMPTY_SLOT, EMPTY_SLOT))
    requires AllocateFor(w.pools.v4.value, cn) == (q, g) && g.Granted?
    ensures Reaches(w, [Advance(c)], u) && WorldOk(u)
    ensures u.pools == Pair(Some(q), w.pools.v6) && u.sessions == w.sessions[c := Given(cn, g)]
  {
    AllocatesIn(w, c, V4, q, g);
    GivesAddress(w, c, cn, q, g);
    u := AllocWith(w, c, V4, q, g);
    StepKeepsOk(w, Advance(c));
    StepThen(w, Advance(c), [], u);
  }

  /** A client connects and is given an IPv4 address. */
  lemma {:induction false} ConnectsNow(w: World, c: Conn, cn: string, q: Pool, g: Grant)
    returns (acts: seq<Action>, u: World)
    requires WorldOk(w) && c !in w.sessions && w.pools.v4.Some?
    requires AllocateFor(w.pools.v4.value, cn) == (q, g) && g.Granted?
    ensures Reaches(w, acts, u) && WorldOk(u)
    ensures u.pools == Pair(Some(q), w.pools.v6) && u.sessions == w.sessions[c := Given(cn, g)]
  {
    var v;
    acts, v := Arrives(w, c, cn);
    u := IsServed(v, c, cn, q, g);
    ReachesThen(w, acts, v, [Advance(c)], u);
    acts := acts + [Advance(c)];
  }

  /** It goes away again: first the announcement fails, */
  lemma {:induction false} GivesUp(w: World, c: Conn, cn: string, g: Grant) returns (u: World)
    requires WorldOk(w) && w.pools.v6 == None && g.Granted? && c in w.sessions && w.sessions[c] == Given(cn, g)
    ensures Reaches(w, [Advance(c), Abort(c)], u) && WorldOk(u) && u.pools == w.pools
    ensures u.sessions == w.sessions[c := Given(cn, g).(phase := Releasing(V6))]
  {
    var v := NoPoolStep(w, c, V6);
    StepKeepsOk(w, Advance(c));
    u := MoveOn(v, c, Releasing(V6));
    StepKeepsOk(v, Abort(c));
    StepThen(v, Abort(c), [], u);
    StepThen(w, Advance(c), [Abort(c)], u);
  }

  /** then there is nothing to release for IPv6, */
  lemma {:induction false} SkipsIPv6(w: World, c: Conn, s: Session) returns (u: World)
    requires WorldOk(w) && w.pools.v6 == None && c in w.sessions && w.sessions[c] == s.(phase := Releasing(V6))
    ensures Reaches(w, [Advance(c)], u) && WorldOk(u) && u.pools == w.pools
    ensures u.sessions == w.sessions[c := s.(phase := Releasing(V4))]
  {
    u := ReleaseStep(w, c, V6);
    StepKeepsOk(w, Advance(c));
    StepThen(w, Advance(c), [], u);
  }

  /** and then the IPv4 address is released. */
  lemma {:induction false} Releases(w: World, c: Conn, cn: string, g: Grant) returns (u: World)
    requires WorldOk(w) && w.pools.v4.Some? && w.pools.v6 == None && g.Granted?
    requires c in w.sessions && w.sessions[c] == Given(cn, g).(phase := Releasing(V4))
    requires g.prefix == HostPrefix(g.prefix.addr, w.pools.v4.value.Is4())
    ensures Reaches(w, [Advance(c)], u) && WorldOk(u)
    ensures u.pools == Pair(Some(Release(w.pools.v4.value, cn, g.lease, g.prefix)), None)
    ensures u.sessions.Keys == w.sessions.Keys
  {
    u := ReleaseStep(w, c, V4);
    StepKeepsOk(w, Advance(c));
    StepThen(w, Advance(c), [], u);
  }

  lemma {:induction false} LeavesNow(w: World, c: Conn, cn: string, g: Grant) returns (acts: seq<Action>, u: World)
    requires WorldOk(w) && w.pools.v4.Some? && w.pools.v6 == None && g.Granted?
    requires c in w.sessions && w.sessions[c] == Given(cn, g)
    requires g.prefix == HostPrefix(g.prefix.addr, w.pools.v4.value.Is4())
    ensures Reaches(w, acts, u) && WorldOk(u)
    ensures u.pools == Pair(Some(Release(w.pools.v4.value, cn, g.lease, g.prefix)), None)
    ensures u.sessions.Keys == w.sessions.Keys
  {
    var v := GivesUp(w, c, cn, g);
    var x := SkipsIPv6(v, c, Given(cn, g));
    u := Releases(x, c, cn, g);
    ReachesThen(v, [Advance(c)], x, [Advance(c)], u);
    ReachesThen(w, [Advance(c), Abort(c)], v, [Advance(c)] + [Advance(c)], u);
    acts := [Advance(c), Abort(c)] + ([Advance(c)] + [Advance(c)]);
  }

  /** What the pool answers in this run. */
  predicate Answers(p: Pool, one: string, two: string, p1: Pool, g1: Grant, p3: Pool, g2: Grant, p4: Pool, g3: Grant) {
    && p.Shaped() && AllocateFor(p, one) == (p1, g1) && g1.Granted? && g1.prefix == HostPrefix(g1.prefix.addr, p1.Is4())
    && var p2 := Release(p1, one, g1.lease, g1.prefix);
       && p2.Shaped() && AllocateFor(p2, two) == (p3, g2)
       && p3.Shaped() && AllocateFor(p3, one) == (p4, g3)
  }

  lemma {:induction false} AnswersOf(p: Pool, one: string, two: string)
    returns (p1: Pool, g1: Grant, p3: Pool, g2: Grant, p4: Pool, g3: Grant)
    requires Inv(p) && p.Is4() && |p.free| > 0
    requires one != "" && two != "" && one != two && one !in p.sticky && two !in p.sticky
    ensures Answers(p, one, two, p1, g1, p3, g2, p4, g3)
    ensures g2.Granted? && g3.Granted? && g2.prefix == g3.prefix
    ensures p4.LeaseOf(two) == g2.lease && p4.LeaseOf(one) == g3.lease
  {
    TwoClientsOneAddress(p, one, two);
    AllocateLaw(p, one);
    p1, g1 := AllocateFor(p, one).0, AllocateFor(p, one).1;
    var p2 := Release(p1, one, g1.lease, g1.prefix);
    p3, g2 := AllocateFor(p2, two).0, AllocateFor(p2, two).1;
    p4, g3 := AllocateFor(p3, one).0, AllocateFor(p3, one).1;
  }

  /** The first client connects as a and leaves, the second connects as b, and the first comes back as c. */
  lemma {:induction false} TwoClientsShare(w: World, one: string, two: string, a: Conn, b: Conn, c: Conn)
    returns (acts: seq<Action>, v: World)
    requires Started(w) && w.pools.v4.Some? && w.pools.v4.value.Is4() && |w.pools.v4.value.free| > 0
    requires w.pools.v6 == None && one != "" && two != "" && one != two && a != b && a != c && b != c
    ensures Reaches(w, acts, v)
    ensures DifferentClients(v, b, c) && IsCurrent(v, b, V4) && IsCurrent(v, c, V4) && SameAddress(v, b, c, V4)
  {
    StartedIsOk(w);
    var p1, g1, p3, g2, p4, g3 := AnswersOf(w.pools.v4.value, one, two);
    var first, u := ComesAndGoes(w, a, one, p1, g1);
    acts, v := BothConnect(u, one, two, b, c, p3, g2, p4, g3);
    ReachesThen(w, first, u, acts, v);
    acts := first + acts;
  }

  lemma {:induction false} BothConnect(w: World, one: string, two: string, b: Conn, c: Conn,
                                       p: Pool, g: Grant, q: Pool, h: Grant)
    returns (acts: seq<Action>, v: World)
    requires WorldOk(w) && b !in w.sessions && c !in w.sessions && b != c && w.pools.v4.Some?
    requires AllocateFor(w.pools.v4.value, two) == (p, g) && p.Shaped() && AllocateFor(p, one) == (q, h)
    requires g.Granted? && h.Granted? && one != "" && two != "" && one != two && g.prefix == h.prefix
    requires q.LeaseOf(two) == g.lease && q.LeaseOf(one) == h.lease
    ensures Reaches(w, acts, v)
    ensures DifferentClients(v, b, c) && IsCurrent(v, b, V4) && IsCurrent(v, c, V4) && SameAddress(v, b, c, V4)
  {
    var first, u := ConnectsNow(w, b, two, p, g);
    acts, v := ConnectsNow(u, c, one, q, h);
    ReachesThen(w, first, u, acts, v);
    acts := first + acts;
    NowShared(v, b, c, one, two, q, g, h);
  }

  lemma NowShared(v: World, b: Conn, c: Conn, one: string, two: string, q: Pool, g: Grant, h: Grant)
    requires g.Granted? && h.Granted? && g.prefix == h.prefix && one != "" && two != "" && one != two
    requires b in v.sessions && c in v.sessions && v.sessions[b] == Given(two, g) && v.sessions[c] == Given(one, h)
    requires v.pools.v4 == Some(q) && q.LeaseOf(two) == g.lease && q.LeaseOf(one) == h.lease
    ensures DifferentClients(v, b, c) && IsCurrent(v, b, V4) && IsCurrent(v, c, V4) && SameAddress(v, b, c, V4)
  {
  }

  lemma {:induction false} ComesAndGoes(w: World, c: Conn, cn: string, q: Pool, g: Grant)
    returns (acts: seq<Action>, u: World)
    requires WorldOk(w) && c !in w.sessions && w.pools.v4.Some? && w.pools.v6 == None
    requires AllocateFor(w.pools.v4.value, cn) == (q, g) && g.Granted? && g.prefix == HostPrefix(g.prefix.addr, q.Is4())
    ensures Reaches(w, acts, u) && WorldOk(u)
    ensures u.pools == Pair(Some(Release(q, cn, g.lease, g.prefix)), None) && u.sessions.Keys == w.sessions.Keys + {c}
  {
    var v, more;
    acts, v := ConnectsNow(w, c, cn, q, g);
    more, u := LeavesNow(v, c, cn, g);
    ReachesThen(w, acts, v, more, u);
    acts := acts + more;
  }
}
