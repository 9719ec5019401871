/** What every interleaving of handlers keeps, with no assumption on clients or timing. */
module ServerLaws {
  import opened Prelude
  import opened Addresses
  import opened PoolSpec
  import opened PoolLaws
  import opened ServerSpec

  /** A handler at this point has taken an address of the family and not yet given it back. */
  predicate Holding(ph: Phase, f: Family) {
    match ph
    case Allocating(g) => f == V4 && g == V6
    case Announcing => true
    case Adding(_) => true
    case Forwarding => true
    case Removing(_) => true
    case Releasing(g) => f == V4 || g == V6
    case _ => false
  }

  /** A handler at this point has registered its route of the family and not yet removed it. */
  predicate Routing(ph: Phase, f: Family) {
    match ph
    case Adding(g) => f == V4 && g == V6
    case Forwarding => true
    case Removing(g) => f == V4 || g == V6
    case _ => false
  }

  /** A handler at this point has not yet been given an address of the family. */
  predicate NotYet(ph: Phase, f: Family) {
    ph.Taking? || (ph.Allocating? && (f == V6 || ph.family == V4))
  }

  /** A handler's variables for family f fit its place in the program and the pool's memory of its client. */
  predicate SlotOk(pool: Option<Pool>, cn: string, ph: Phase, f: Family, slot: Slot) {
    && (slot.lease.Some? <==> pool.Some? && Holding(ph, f))
    && (slot.routed <==> slot.addr.Some? && Routing(ph, f))
    && (Holding(ph, f) && (pool.Some? || f == V4) ==> slot.addr.Some?)
    && (f == V6 && slot.addr.Some? ==> pool.Some?)
    && (NotYet(ph, f) ==> slot.addr == None)
    && (slot.addr.Some? && pool.Some? && cn != "" ==>
          cn in pool.value.sticky && pool.value.sticky[cn] == slot.addr.value)
  }

  predicate SessionOk(pools: Pair<Option<Pool>>, s: Session) {
    && SlotOk(pools.v4, s.cn, s.phase, V4, s.slots.v4)
    && SlotOk(pools.v6, s.cn, s.phase, V6, s.slots.v6)
  }

  ghost predicate SessionsOk(w: World) {
    forall c <- w.sessions :: SessionOk(w.pools, w.sessions[c])
  }

  /** This session holds address a from pool p and its Release will free it: the client is
      anonymous or the session's lease is the client's current one. */
  predicate WillFree(p: Pool, s: Session, f: Family, a: Addr) {
    var slot := s.slots.At(f);
    slot.addr == Some(a) && slot.lease.Some? && MayRelease(p, s.cn, slot.lease.value)
  }

  ghost predicate Accounted(pool: Option<Pool>, sessions: map<Conn, Session>, f: Family) {
    pool.Some? ==>
      forall a <- pool.value.inUse :: exists c :: c in sessions && WillFree(pool.value, sessions[c], f, a)
  }

  /** Every address in use has a handler that will free it. */
  ghost predicate NoLeak(w: World) {
    Accounted(w.pools.v4, w.sessions, V4) && Accounted(w.pools.v6, w.sessions, V6)
  }

  /** The session has registered a route for address a, which it was given. */
  predicate Routes(s: Session, a: Addr) {
    (s.slots.v4.routed && s.slots.v4.addr == Some(a)) || (s.slots.v6.routed && s.slots.v6.addr == Some(a))
  }

  ghost predicate RouterOk(w: World) {
    forall a <- w.clients :: w.clients[a] in w.sessions && Routes(w.sessions[w.clients[a]], a)
  }

  ghost predicate IndexOk(w: World) {
    forall cn <- w.byCN ::
      && cn != ""
      && w.byCN[cn] in w.sessions
      && w.sessions[w.byCN[cn]].cn == cn
      && w.sessions[w.byCN[cn]].phase != Taking && w.sessions[w.byCN[cn]].phase != Done
  }

  ghost predicate PoolsOk(pools: Pair<Option<Pool>>) {
    (pools.v4.Some? ==> Inv(pools.v4.value)) && (pools.v6.Some? ==> Inv(pools.v6.value))
  }

  ghost predicate BooksOk(w: World) {
    SessionsOk(w) && NoLeak(w) && RouterOk(w) && IndexOk(w)
  }

  ghost predicate WorldOk(w: World) {
    PoolsOk(w.pools) && BooksOk(w)
  }

  // ---- each step keeps each part ----

  /** A pool never changes its prefix or what it remembers. */
  predicate Learns(pool: Option<Pool>, pool': Option<Pool>) {
    && pool'.Some? == pool.Some?
    && (pool.Some? ==>
          pool'.value.prefix == pool.value.prefix &&
          forall id <- pool.value.sticky ::
            id in pool'.value.sticky && pool'.value.sticky[id] == pool.value.sticky[id])
  }

  /** When one handler moves and the pools only learn, the others' variables still fit. */
  lemma OthersStayOk(w: World, v: World, c: Conn)
    requires SessionsOk(w) && Learns(w.pools.v4, v.pools.v4) && Learns(w.pools.v6, v.pools.v6)
    requires c in v.sessions && v.sessions == w.sessions[c := v.sessions[c]] && SessionOk(v.pools, v.sessions[c])
    ensures SessionsOk(v)
  {
    forall d <- v.sessions | d != c
      ensures SessionOk(v.pools, v.sessions[d])
    {
      assert SessionOk(w.pools, w.sessions[d]);
    }
  }

  lemma AllocKeepsSessions(w: World, c: Conn, f: Family, p: Pool, q: Pool, g: Grant)
    requires SessionsOk(w) && c in w.sessions && w.sessions[c].phase == Allocating(f) && w.pools.At(f) == Some(p)
    requires Served(p, w.sessions[c].cn, q, g)
    ensures SessionsOk(AllocWith(w, c, f, q, g))
  {
    var v := AllocWith(w, c, f, q, g);
    assert SessionOk(w.pools, w.sessions[c]);
    OthersStayOk(w, v, c);
  }

  lemma ReleaseKeepsSessions(w: World, c: Conn, f: Family, p: Pool, q: Pool)
    requires SessionsOk(w) && c in w.sessions && w.sessions[c].phase == Releasing(f) && w.pools.At(f) == Some(p)
    requires q.sticky == p.sticky && q.prefix == p.prefix
    ensures SessionsOk(ReleaseWith(w, c, f, q))
  {
    var v := ReleaseWith(w, c, f, q);
    assert SessionOk(w.pools, w.sessions[c]);
    OthersStayOk(w, v, c);
  }

  /** The accounts of a family do not notice steps that leave the family's slot and pool alone. */
  lemma SameAccounts(pool: Option<Pool>, sessions: map<Conn, Session>, c: Conn, s: Session, f: Family)
    requires Accounted(pool, sessions, f)
    requires c in sessions ==>
               && s.cn == sessions[c].cn
               && s.slots.At(f).addr == sessions[c].slots.At(f).addr
               && s.slots.At(f).lease == sessions[c].slots.At(f).lease
    ensures Accounted(pool, sessions[c := s], f)
  {
    if pool.Some? {
      var sessions' := sessions[c := s];
      forall a <- pool.value.inUse
        ensures exists d :: d in sessions' && WillFree(pool.value, sessions'[d], f, a)
      {
        var d :| d in sessions && WillFree(pool.value, sessions[d], f, a);
        assert d in sessions' && WillFree(pool.value, sessions'[d], f, a);
      }
    }
  }

  /** A grant is accounted for by the handler that got it; the client's older lease holds the same address. */
  lemma GrantAccounts(w: World, c: Conn, f: Family, p: Pool, q: Pool, g: Grant)
    requires SessionsOk(w) && c in w.sessions && w.pools.At(f) == Some(p)
    requires w.sessions[c].slots.At(f).lease == None
    requires Accounted(Some(p), w.sessions, f) && Served(p, w.sessions[c].cn, q, g)
    ensures Accounted(Some(q), AllocWith(w, c, f, q, g).sessions, f)
  {
    var v := AllocWith(w, c, f, q, g);
    forall a <- q.inUse
      ensures exists d :: d in v.sessions && WillFree(q, v.sessions[d], f, a)
    {
      if g.Granted? && a == g.prefix.addr {
        assert WillFree(q, v.sessions[c], f, a);
      } else {
        var d :| d in w.sessions && WillFree(p, w.sessions[d], f, a);
        assert SessionOk(w.pools, w.sessions[d]);
        assert WillFree(q, v.sessions[d], f, a);
      }
    }
  }

  /** A release takes one address off the accounts, and with it the lease only of handlers holding that address. */
  lemma ReturnAccounts(w: World, c: Conn, f: Family, p: Pool, q: Pool)
    requires SessionsOk(w) && c in w.sessions && w.pools.At(f) == Some(p)
    requires w.sessions[c].slots.At(f).lease.Some? && w.sessions[c].slots.At(f).addr.Some?
    requires Accounted(Some(p), w.sessions, f)
    requires var slot := w.sessions[c].slots.At(f);
             Returned(p, w.sessions[c].cn, slot.lease.value, slot.addr.value, q)
    ensures Accounted(Some(q), ReleaseWith(w, c, f, q).sessions, f)
  {
    var v := ReleaseWith(w, c, f, q);
    assert SessionOk(w.pools, w.sessions[c]);
    forall a <- q.inUse
      ensures exists d :: d in v.sessions && WillFree(q, v.sessions[d], f, a)
    {
      var d :| d in w.sessions && WillFree(p, w.sessions[d], f, a);
      assert SessionOk(w.pools, w.sessions[d]);
      assert WillFree(q, v.sessions[d], f, a);
    }
  }

  // ---- all steps together ----

  /** A step that touches no pool: the moving handler keeps its addresses and leases. */
  lemma QuietStep(w: World, v: World, c: Conn)
    requires SessionsOk(w) && NoLeak(w)
    requires v.pools == w.pools && c in v.sessions && v.sessions == w.sessions[c := v.sessions[c]]
    requires SessionOk(v.pools, v.sessions[c])
    requires c in w.sessions ==>
               && v.sessions[c].cn == w.sessions[c].cn
               && v.sessions[c].slots.v4.addr == w.sessions[c].slots.v4.addr
               && v.sessions[c].slots.v6.addr == w.sessions[c].slots.v6.addr
               && v.sessions[c].slots.v4.lease == w.sessions[c].slots.v4.lease
               && v.sessions[c].slots.v6.lease == w.sessions[c].slots.v6.lease
    ensures SessionsOk(v) && NoLeak(v)
  {
    SameAccounts(w.pools.v4, w.sessions, c, v.sessions[c], V4);
    SameAccounts(w.pools.v6, w.sessions, c, v.sessions[c], V6);
  }

  /** The router's entries stay owned while the moving handler keeps its routes. */
  lemma RouterFrame(w: World, v: World, c: Conn)
    requires RouterOk(w) && v.clients == w.clients
    requires c in v.sessions && v.sessions == w.sessions[c := v.sessions[c]]
    requires c in w.sessions ==> forall a :: Routes(w.sessions[c], a) ==> Routes(v.sessions[c], a)
    ensures RouterOk(v)
  {
  }

  lemma IndexFrame(w: World, v: World, c: Conn)
    requires IndexOk(w) && v.byCN == w.byCN
    requires c in v.sessions && v.sessions == w.sessions[c := v.sessions[c]]
    requires c in w.sessions && w.sessions[c].phase != Taking ==>
               v.sessions[c].cn == w.sessions[c].cn && v.sessions[c].phase != Taking && v.sessions[c].phase != Done
    ensures IndexOk(v)
  {
  }

  lemma NoPoolKeepsOk(w: World, c: Conn, f: Family)
    requires WorldOk(w) && c in w.sessions && w.sessions[c].phase == Allocating(f) && w.pools.At(f) == None
    ensures WorldOk(NoPoolStep(w, c, f))
  {
    var v := NoPoolStep(w, c, f);
    assert SessionOk(w.pools, w.sessions[c]);
    SameAccounts(w.pools.At(Other(f)), w.sessions, c, v.sessions[c], Other(f));
    RouterFrame(w, v, c);
    IndexFrame(w, v, c);
  }

  function Other(f: Family): Family {
    if f == V4 then V6 else V4
  }

  lemma AllocKeepsOk(w: World, c: Conn, f: Family)
    requires WorldOk(w) && Shaped(w) && c in w.sessions && w.sessions[c].phase == Allocating(f)
    ensures WorldOk(AllocStep(w, c, f))
  {
    if w.pools.At(f) == None {
      NoPoolKeepsOk(w, c, f);
      return;
    }
    var p, cn := w.pools.At(f).value, w.sessions[c].cn;
    AllocateKeepsInv(p, cn);
    AllocateLaw(p, cn);
    var (q, g) := AllocateFor(p, cn);
    AllocBooksOk(w, c, f, p, q, g);
  }

  lemma AllocBooksOk(w: World, c: Conn, f: Family, p: Pool, q: Pool, g: Grant)
    requires BooksOk(w) && c in w.sessions && w.sessions[c].phase == Allocating(f) && w.pools.At(f) == Some(p)
    requires Served(p, w.sessions[c].cn, q, g)
    ensures BooksOk(AllocWith(w, c, f, q, g))
  {
    var v := AllocWith(w, c, f, q, g);
    assert SessionOk(w.pools, w.sessions[c]);
    AllocKeepsSessions(w, c, f, p, q, g);
    GrantAccounts(w, c, f, p, q, g);
    SameAccounts(w.pools.At(Other(f)), w.sessions, c, v.sessions[c], Other(f));
    RouterFrame(w, v, c);
    IndexFrame(w, v, c);
  }

  lemma ReleaseKeepsOk(w: World, c: Conn, f: Family)
    requires WorldOk(w) && c in w.sessions && w.sessions[c].phase == Releasing(f)
    ensures WorldOk(ReleaseStep(w, c, f))
  {
    var s := w.sessions[c];
    var slot := s.slots.At(f);
    assert SessionOk(w.pools, s);
    if slot.lease.Some? {
      var p := w.pools.At(f).value;
      var host := HostPrefix(slot.addr.value, p.Is4());
      ReleaseKeepsInv(p, s.cn, slot.lease.value, host);
      ReleaseLaw(p, s.cn, slot.lease.value, host);
      ReleaseBooksOk(w, c, f, p, Release(p, s.cn, slot.lease.value, host));
    } else {
      QuietBooks(w, ReleaseStep(w, c, f), c);
    }
  }

  lemma ReleaseBooksOk(w: World, c: Conn, f: Family, p: Pool, q: Pool)
    requires BooksOk(w) && c in w.sessions && w.sessions[c].phase == Releasing(f) && w.pools.At(f) == Some(p)
    requires w.sessions[c].slots.At(f).lease.Some? && w.sessions[c].slots.At(f).addr.Some?
    requires var slot := w.sessions[c].slots.At(f);
             Returned(p, w.sessions[c].cn, slot.lease.value, slot.addr.value, q)
    ensures BooksOk(ReleaseWith(w, c, f, q))
  {
    var v := ReleaseWith(w, c, f, q);
    ReleaseKeepsSessions(w, c, f, p, q);
    ReturnAccounts(w, c, f, p, q);
    SameAccounts(w.pools.At(Other(f)), w.sessions, c, v.sessions[c], Other(f));
    RouterFrame(w, v, c);
    IndexFrame(w, v, c);
  }

  /** A step that only moves a handler on. */
  lemma QuietBooks(w: World, v: World, c: Conn)
    requires BooksOk(w) && c in w.sessions
    requires v.pools == w.pools && v.clients == w.clients && v.byCN == w.byCN
    requires c in v.sessions && v.sessions == w.sessions[c := w.sessions[c].(phase := v.sessions[c].phase)]
    requires SessionOk(v.pools, v.sessions[c])
    requires v.sessions[c].phase != Taking && v.sessions[c].phase != Done
    ensures BooksOk(v)
  {
    QuietStep(w, v, c);
    RouterFrame(w, v, c);
    IndexFrame(w, v, c);
  }

  lemma TakeKeepsOk(w: World, c: Conn)
    requires BooksOk(w) && c in w.sessions && w.sessions[c].phase == Taking
    ensures BooksOk(TakeStep(w, c))
  {
    var v := TakeStep(w, c);
    assert SessionOk(w.pools, w.sessions[c]);
    QuietStep(w, v, c);
    RouterFrame(w, v, c);
  }

  lemma AddKeepsOk(w: World, c: Conn, f: Family)
    requires BooksOk(w) && c in w.sessions && w.sessions[c].phase == Adding(f)
    ensures BooksOk(AddStep(w, c, f))
  {
    var v := AddStep(w, c, f);
    assert SessionOk(w.pools, w.sessions[c]);
    QuietStep(w, v, c);
    IndexFrame(w, v, c);
    AddKeepsRouter(w, c, f);
  }

  lemma AddKeepsRouter(w: World, c: Conn, f: Family)
    requires RouterOk(w) && c in w.sessions
    ensures RouterOk(AddStep(w, c, f))
  {
    var v := AddStep(w, c, f);
    forall a <- v.clients
      ensures v.clients[a] in v.sessions && Routes(v.sessions[v.clients[a]], a)
    {
      if a in w.clients && v.clients[a] == w.clients[a] {
        assert Routes(w.sessions[w.clients[a]], a);
      }
    }
  }

  lemma RemoveKeepsOk(w: World, c: Conn, f: Family)
    requires BooksOk(w) && c in w.sessions && w.sessions[c].phase == Removing(f)
    ensures BooksOk(RemoveStep(w, c, f))
  {
    var v := RemoveStep(w, c, f);
    assert SessionOk(w.pools, w.sessions[c]);
    QuietStep(w, v, c);
    IndexFrame(w, v, c);
    RemoveKeepsRouter(w, c, f);
  }

  lemma RemoveKeepsRouter(w: World, c: Conn, f: Family)
    requires RouterOk(w) && c in w.sessions
    ensures RouterOk(RemoveStep(w, c, f))
    ensures forall a <- w.clients :: w.clients[a] != c ==>
              a in RemoveStep(w, c, f).clients && RemoveStep(w, c, f).clients[a] == w.clients[a]
  {
    var v := RemoveStep(w, c, f);
    forall a <- v.clients
      ensures v.clients[a] in v.sessions && Routes(v.sessions[v.clients[a]], a)
    {
      assert Routes(w.sessions[w.clients[a]], a);
    }
  }

  lemma DropKeepsOk(w: World, c: Conn)
    requires BooksOk(w) && c in w.sessions && w.sessions[c].phase == Dropping
    ensures BooksOk(DropStep(w, c))
  {
    var v := DropStep(w, c);
    assert SessionOk(w.pools, w.sessions[c]);
    QuietStep(w, v, c);
    RouterFrame(w, v, c);
  }

  lemma MoveOnKeepsOk(w: World, c: Conn, phase: Phase)
    requires BooksOk(w) && c in w.sessions
    requires match w.sessions[c].phase
             case Announcing => phase == Adding(V4) || phase == Releasing(V6)
             case Forwarding => phase == Removing(V6)
             case _ => false
    ensures BooksOk(MoveOn(w, c, phase))
  {
    assert SessionOk(w.pools, w.sessions[c]);
    QuietBooks(w, MoveOn(w, c, phase), c);
  }

  lemma AdvanceKeepsOk(w: World, c: Conn)
    requires WorldOk(w) && Shaped(w) && c in w.sessions
    ensures WorldOk(AdvanceStep(w, c))
  {
    match w.sessions[c].phase
    case Taking => TakeKeepsOk(w, c);
    case Allocating(f) => AllocKeepsOk(w, c, f);
    case Announcing => MoveOnKeepsOk(w, c, Adding(V4));
    case Adding(f) => AddKeepsOk(w, c, f);
    case Forwarding => MoveOnKeepsOk(w, c, Removing(V6));
    case Removing(f) => RemoveKeepsOk(w, c, f);
    case Releasing(f) => ReleaseKeepsOk(w, c, f);
    case Dropping => DropKeepsOk(w, c);
    case Done =>
  }

  /** Every step of every handler keeps the whole invariant. */
  lemma StepKeepsOk(w: World, a: Action)
    requires WorldOk(w) && Enabled(w, a)
    ensures Shaped(w) && WorldOk(Apply(w, a))
  {
    match a
    case Accept(c, cn) => AcceptKeepsOk(w, c, cn);
    case Abort(c) => MoveOnKeepsOk(w, c, Releasing(V6));
    case Advance(c) => AdvanceKeepsOk(w, c);
  }

  lemma AcceptKeepsOk(w: World, c: Conn, cn: string)
    requires BooksOk(w) && c !in w.sessions
    ensures BooksOk(With(w, c, Session(cn, Taking, Pair(EMPTY_SLOT, EMPTY_SLOT))))
  {
    var v := With(w, c, Session(cn, Taking, Pair(EMPTY_SLOT, EMPTY_SLOT)));
    QuietStep(w, v, c);
    RouterFrame(w, v, c);
    IndexFrame(w, v, c);
  }
}
