/** When clients share no address. Each family is looked at on its own; nothing is assumed of the other
    family, of the lease counter, or of how setups of one CN overlap. */
module Exclusivity {
  import opened Prelude
  import opened Addresses
  import opened PoolSpec
  import opened PoolLaws
  import opened ServerSpec
  import opened ServerLaws
  import opened FamilySteps

  /** An anonymous holder's address is in use, and nobody is remembered under it. */
  predicate AnonymousOk(p: Pool, s: Session, f: Family) {
    Holds(s, f) && s.cn == "" ==>
      s.slots.At(f).addr.value in p.inUse && s.slots.At(f).addr.value !in p.sticky.Values
  }

  predicate AnonymousPair(s: Session, t: Session, f: Family) {
    Holds(s, f) && Holds(t, f) && s.cn == "" && t.cn == "" ==> s.slots.At(f).addr != t.slots.At(f).addr
  }

  ghost predicate HoldersApart(p: Pool, sessions: map<Conn, Session>, f: Family) {
    && (forall c <- sessions :: AnonymousOk(p, sessions[c], f))
    && (forall c, d :: c in sessions && d in sessions && c != d ==> AnonymousPair(sessions[c], sessions[d], f))
  }

  /** Remembered addresses are different, and so are those of anonymous holders from them and each other. */
  ghost predicate Apart(w: World, f: Family) {
    w.pools.At(f).Some? ==>
      Distinct(w.pools.At(f).value.sticky) && HoldersApart(w.pools.At(f).value, w.sessions, f)
  }

  // ---- one step ----

  lemma OthersKeepApart(p: Pool, sessions: map<Conn, Session>, c: Conn, s: Session, f: Family)
    requires HoldersApart(p, sessions, f) && SameHolding(sessions, c, s, f)
    ensures HoldersApart(p, sessions[c := s], f)
  {
    var sessions' := sessions[c := s];
    forall d <- sessions'
      ensures AnonymousOk(p, sessions'[d], f)
    {
      assert d in sessions ==> AnonymousOk(p, sessions[d], f);
    }
    forall d, e | d in sessions' && e in sessions' && d != e
      ensures AnonymousPair(sessions'[d], sessions'[e], f)
    {
      assert d in sessions && e in sessions ==> AnonymousPair(sessions[d], sessions[e], f);
    }
  }

  /** A fresh address is neither in use nor remembered, so it is nobody's. */
  lemma GrantKeepsApart(p: Pool, q: Pool, g: Grant, sessions: map<Conn, Session>, c: Conn, s: Session, f: Family)
    requires HoldersApart(p, sessions, f) && "" !in p.sticky
    requires c in sessions && !Holds(sessions[c], f) && s.cn == sessions[c].cn && Served(p, s.cn, q, g)
    requires g.Granted? && s.cn !in p.sticky ==> g.prefix.addr !in p.sticky.Values
    requires if g == Denied then !Holds(s, f) else s.slots.At(f).addr == Some(g.prefix.addr)
    ensures HoldersApart(q, sessions[c := s], f)
  {
    var sessions' := sessions[c := s];
    forall d <- sessions'
      ensures AnonymousOk(q, sessions'[d], f)
    {
      assert AnonymousOk(p, sessions[d], f);
    }
    forall d, e | d in sessions' && e in sessions' && d != e
      ensures AnonymousPair(sessions'[d], sessions'[e], f)
    {
      assert AnonymousPair(sessions[d], sessions[e], f);
      assert AnonymousOk(p, sessions[d], f) && AnonymousOk(p, sessions[e], f);
    }
  }

  /** The address given back was held by no anonymous session but the one that gives it back. */
  lemma ReturnKeepsApart(p: Pool, q: Pool, sessions: map<Conn, Session>, c: Conn, s: Session, f: Family)
    requires HoldersApart(p, sessions, f) && c in sessions && Holds(sessions[c], f) && !Holds(s, f)
    requires Returned(p, sessions[c].cn, sessions[c].slots.At(f).lease.value, sessions[c].slots.At(f).addr.value, q)
    requires sessions[c].cn != "" ==> sessions[c].slots.At(f).addr.value in p.sticky.Values
    ensures HoldersApart(q, sessions[c := s], f)
  {
    var sessions' := sessions[c := s];
    forall d <- sessions'
      ensures AnonymousOk(q, sessions'[d], f)
    {
      if d != c {
        assert AnonymousOk(p, sessions[d], f) && AnonymousPair(sessions[c], sessions[d], f);
      }
    }
    forall d, e | d in sessions' && e in sessions' && d != e
      ensures AnonymousPair(sessions'[d], sessions'[e], f)
    {
      assert AnonymousPair(sessions[d], sessions[e], f);
    }
  }

  lemma AskingKeepsApart(w: World, a: Action, f: Family)
    requires WorldOk(w) && Shaped(w) && Enabled(w, a) && Apart(w, f) && Asks(w, a, f) && Obeys(w, a, SparesMemory(f))
    ensures Apart(Apply(w, a), f)
  {
    var p, cn := w.pools.At(f).value, w.sessions[a.conn].cn;
    var q, g := AskingStep(w, a, f);
    FreshIsUnremembered(p, cn);
    GrantKeepsDistinct(p, q, g, cn);
    GrantKeepsApart(p, q, g, w.sessions, a.conn, Apply(w, a).sessions[a.conn], f);
  }

  lemma GrantKeepsDistinct(p: Pool, q: Pool, g: Grant, cn: string)
    requires Distinct(p.sticky) && Served(p, cn, q, g)
    requires g.Granted? && cn !in p.sticky ==> g.prefix.addr !in p.sticky.Values
    ensures Distinct(q.sticky)
  {
  }

  lemma ReturningKeepsApart(w: World, a: Action, f: Family)
    requires WorldOk(w) && Shaped(w) && Enabled(w, a) && Apart(w, f) && Returns(w, a, f)
    ensures Apart(Apply(w, a), f)
  {
    var q := ReturningStep(w, a, f);
    assert SessionOk(w.pools, w.sessions[a.conn]);
    ReturnKeepsApart(w.pools.At(f).value, q, w.sessions, a.conn, Apply(w, a).sessions[a.conn], f);
  }

  /** A step that gives no newcomer a remembered address of this family keeps clients apart in it. */
  lemma StepKeepsApart(w: World, a: Action, f: Family)
    requires WorldOk(w) && Shaped(w) && Enabled(w, a) && Apart(w, f) && Obeys(w, a, SparesMemory(f))
    ensures Apart(Apply(w, a), f)
  {
    if Asks(w, a, f) {
      AskingKeepsApart(w, a, f);
    } else if Returns(w, a, f) {
      ReturningKeepsApart(w, a, f);
    } else {
      OtherStep(w, a, f);
      if w.pools.At(f).Some? {
        OthersKeepApart(w.pools.At(f).value, w.sessions, a.conn, Apply(w, a).sessions[a.conn], f);
      }
    }
  }

  predicate BothHold(w: World, c: Conn, d: Conn, f: Family) {
    c in w.sessions && d in w.sessions && Holds(w.sessions[c], f) && Holds(w.sessions[d], f)
  }

  lemma ApartMeansDifferent(w: World, f: Family, c: Conn, d: Conn)
    requires WorldOk(w) && Apart(w, f) && w.pools.At(f).Some? && DifferentClients(w, c, d) && BothHold(w, c, d, f)
    ensures w.sessions[c].slots.At(f).addr != w.sessions[d].slots.At(f).addr
  {
    var p := w.pools.At(f).value;
    assert SessionOk(w.pools, w.sessions[c]) && SessionOk(w.pools, w.sessions[d]);
    assert AnonymousOk(p, w.sessions[c], f) && AnonymousOk(p, w.sessions[d], f);
    assert AnonymousPair(w.sessions[c], w.sessions[d], f);
  }

  // ---- exactly when two clients come to share an address ----

  predicate SameAddress(w: World, c: Conn, d: Conn, f: Family)
    requires c in w.sessions && d in w.sessions
  {
    w.sessions[c].slots.At(f).addr == w.sessions[d].slots.At(f).addr
  }

  /** No address of the family is held by sessions of different clients. */
  ghost predicate NoShare(w: World, f: Family) {
    forall c, d :: DifferentClients(w, c, d) && BothHold(w, c, d, f) ==> !SameAddress(w, c, d, f)
  }

  /** Only the session that has moved can have come to share an address. */
  lemma GrantSharesIff(w: World, v: World, c: Conn, f: Family)
    requires NoShare(w, f) && c in w.sessions && c in v.sessions && !Holds(w.sessions[c], f)
    requires v.sessions == w.sessions[c := v.sessions[c]] && v.sessions[c].cn == w.sessions[c].cn
    ensures NoShare(v, f) <==>
              forall d :: DifferentClients(v, c, d) && BothHold(v, c, d, f) ==> !SameAddress(v, c, d, f)
  {
    if forall d :: DifferentClients(v, c, d) && BothHold(v, c, d, f) ==> !SameAddress(v, c, d, f) {
      forall d, e | DifferentClients(v, d, e) && BothHold(v, d, e, f)
        ensures !SameAddress(v, d, e, f)
      {
        if e == c {
          assert DifferentClients(v, c, d) && BothHold(v, c, d, f);
        } else if d != c {
          assert DifferentClients(w, d, e) && BothHold(w, d, e, f);
        }
      }
    }
  }

  /** Losing or keeping what it holds, a session comes to share nothing. */
  lemma OthersShareNothing(w: World, v: World, c: Conn, f: Family)
    requires NoShare(w, f) && c in v.sessions && v.sessions == w.sessions[c := v.sessions[c]]
    requires Holds(v.sessions[c], f) ==>
               && c in w.sessions && v.sessions[c].cn == w.sessions[c].cn && Holds(w.sessions[c], f)
               && v.sessions[c].slots.At(f).addr == w.sessions[c].slots.At(f).addr
    ensures NoShare(v, f)
  {
    forall d, e | DifferentClients(v, d, e) && BothHold(v, d, e, f)
      ensures !SameAddress(v, d, e, f)
    {
      assert DifferentClients(w, d, e) && BothHold(w, d, e, f);
    }
  }

  lemma OfferIsWhatIsShared(w: World, v: World, c: Conn, f: Family, g: Grant)
    requires Shaped(w) && w.pools.At(f).Some? && c in w.sessions && c in v.sessions
    requires v.sessions == w.sessions[c := v.sessions[c]] && v.sessions[c].cn == w.sessions[c].cn
    requires if g == Denied then !Holds(v.sessions[c], f)
             else Holds(v.sessions[c], f) && v.sessions[c].slots.At(f).addr == Some(g.prefix.addr)
    requires forall a :: Offered(w.pools.At(f).value, w.sessions[c].cn, a) <==> g.Granted? && g.prefix.addr == a
    ensures forall d :: DifferentClients(w, c, d) <==> DifferentClients(v, c, d)
    ensures forall d :: DifferentClients(w, c, d) ==>
              (HoldsOffer(w, c, d, f) <==> BothHold(v, c, d, f) && SameAddress(v, c, d, f))
  {
  }

  lemma AskingSharesIff(w: World, a: Action, f: Family)
    requires WorldOk(w) && Shaped(w) && Enabled(w, a) && Asks(w, a, f) && NoShare(w, f)
    ensures NoShare(Apply(w, a), f) <==> !OffersHeld(w, a, f)
  {
    var c, p := a.conn, w.pools.At(f).value;
    var q, g := AskingStep(w, a, f);
    forall x
      ensures Offered(p, w.sessions[c].cn, x) <==> g.Granted? && g.prefix.addr == x
    {
      OfferedIff(p, w.sessions[c].cn, x);
    }
    GrantSharesIff(w, Apply(w, a), c, f);
    OfferIsWhatIsShared(w, Apply(w, a), c, f, g);
  }

  /** Two clients come to share an address of a family in exactly one way: a step is an AllocateFor, and what
      the pool has for its client is held by a session of another client. */
  lemma SharesIff(w: World, a: Action, f: Family)
    requires WorldOk(w) && Shaped(w) && Enabled(w, a) && w.pools.At(f).Some? && NoShare(w, f)
    ensures NoShare(Apply(w, a), f) <==> !OffersHeld(w, a, f)
  {
    if Asks(w, a, f) {
      AskingSharesIff(w, a, f);
    } else if Returns(w, a, f) {
      var q := ReturningStep(w, a, f);
      OthersShareNothing(w, Apply(w, a), a.conn, f);
    } else {
      OtherStep(w, a, f);
      OthersShareNothing(w, Apply(w, a), a.conn, f);
    }
  }
}
