/** Who holds the current lease of a client, and what that protects. */
module CurrentLeases {
  import opened Prelude
  import opened Addresses
  import opened PoolSpec
  import opened PoolLaws
  import opened ServerSpec
  import opened ServerLaws
  import opened FamilySteps
  import opened Exclusivity

  /** Session n of a named client holds the client's current lease of this family. */
  predicate IsCurrent(w: World, n: Conn, f: Family) {
    && n in w.sessions && w.sessions[n].cn != "" && w.pools.At(f).Some? && Holds(w.sessions[n], f)
    && w.pools.At(f).value.LeaseOf(w.sessions[n].cn) == w.sessions[n].slots.At(f).lease.value
  }

  predicate Issued(p: Pool, s: Session, f: Family) {
    Holds(s, f) ==> 0 < s.slots.At(f).lease.value <= p.nextLease
  }

  predicate LeasesDiffer(s: Session, t: Session, f: Family) {
    Holds(s, f) && Holds(t, f) ==> s.slots.At(f).lease != t.slots.At(f).lease
  }

  /** Every lease was issued, and no two holders have the same. */
  ghost predicate LeasesOk(p: Pool, sessions: map<Conn, Session>, f: Family) {
    && (forall id <- p.lease :: p.lease[id] <= p.nextLease)
    && (forall c <- sessions :: Issued(p, sessions[c], f))
    && (forall c, d :: c in sessions && d in sessions && c != d ==> LeasesDiffer(sessions[c], sessions[d], f))
  }

  ghost predicate Numbered(w: World, f: Family) {
    w.pools.At(f).Some? ==> LeasesOk(w.pools.At(f).value, w.sessions, f)
  }

  // ---- lease numbers ----

  lemma OthersKeepLeases(p: Pool, sessions: map<Conn, Session>, c: Conn, s: Session, f: Family)
    requires LeasesOk(p, sessions, f) && SameHolding(sessions, c, s, f)
    ensures LeasesOk(p, sessions[c := s], f)
  {
    var sessions' := sessions[c := s];
    forall d <- sessions'
      ensures Issued(p, sessions'[d], f)
    {
      assert d in sessions ==> Issued(p, sessions[d], f);
    }
    forall d, e | d in sessions' && e in sessions' && d != e
      ensures LeasesDiffer(sessions'[d], sessions'[e], f)
    {
      assert d in sessions && e in sessions ==> LeasesDiffer(sessions[d], sessions[e], f);
    }
  }

  lemma GrantKeepsLeases(p: Pool, q: Pool, g: Grant, sessions: map<Conn, Session>, c: Conn, s: Session, f: Family)
    requires LeasesOk(p, sessions, f) && c in sessions && Served(p, s.cn, q, g) && p.nextLease + 1 < LEASE_SPAN
    requires if g == Denied then !Holds(s, f) else s.slots.At(f).lease == Some(g.lease)
    ensures LeasesOk(q, sessions[c := s], f)
  {
    var sessions' := sessions[c := s];
    forall d <- sessions'
      ensures Issued(q, sessions'[d], f)
    {
      assert Issued(p, sessions[d], f);
    }
    forall d, e | d in sessions' && e in sessions' && d != e
      ensures LeasesDiffer(sessions'[d], sessions'[e], f)
    {
      assert LeasesDiffer(sessions[d], sessions[e], f);
      assert Issued(p, sessions[d], f) && Issued(p, sessions[e], f);
    }
  }

  lemma ReturnKeepsLeases(p: Pool, q: Pool, sessions: map<Conn, Session>, c: Conn, s: Session, f: Family)
    requires LeasesOk(p, sessions, f) && c in sessions && !Holds(s, f) && q.nextLease == p.nextLease
    requires forall id <- q.lease :: id in p.lease && q.lease[id] == p.lease[id]
    ensures LeasesOk(q, sessions[c := s], f)
  {
    var sessions' := sessions[c := s];
    forall d <- sessions'
      ensures Issued(q, sessions'[d], f)
    {
      assert Issued(p, sessions[d], f);
    }
    forall d, e | d in sessions' && e in sessions' && d != e
      ensures LeasesDiffer(sessions'[d], sessions'[e], f)
    {
      assert LeasesDiffer(sessions[d], sessions[e], f);
    }
  }

  lemma StepKeepsNumbered(w: World, a: Action, f: Family)
    requires WorldOk(w) && Shaped(w) && Enabled(w, a) && Numbered(w, f) && Obeys(w, a, CountsUp(f))
    ensures Numbered(Apply(w, a), f)
  {
    var v := Apply(w, a);
    if Asks(w, a, f) {
      var q, g := AskingStep(w, a, f);
      GrantKeepsLeases(w.pools.At(f).value, q, g, w.sessions, a.conn, v.sessions[a.conn], f);
    } else if Returns(w, a, f) {
      var q := ReturningStep(w, a, f);
      ReturnKeepsLeases(w.pools.At(f).value, q, w.sessions, a.conn, v.sessions[a.conn], f);
    } else {
      OtherStep(w, a, f);
      if w.pools.At(f).Some? {
        OthersKeepLeases(w.pools.At(f).value, w.sessions, a.conn, v.sessions[a.conn], f);
      }
    }
  }

  /** No session but c differs. */
  predicate OnlyMoves(w: World, v: World, c: Conn) {
    c in w.sessions && c in v.sessions && v.sessions == w.sessions[c := v.sessions[c]]
  }

  /** What an AllocateFor by session c does to lease numbers and to the other sessions. */
  ghost predicate Asked(w: World, v: World, c: Conn, f: Family)
    requires w.pools.At(f).Some? && c in w.sessions
  {
    && v.pools.At(f).Some? && OnlyMoves(w, v, c) && v.sessions[c].cn == w.sessions[c].cn && !Holds(w.sessions[c], f)
    && NewLease(w.pools.At(f).value, v.pools.At(f).value, w.sessions[c].cn)
    && (Holds(v.sessions[c], f) ==> v.sessions[c].slots.At(f).addr.value in v.pools.At(f).value.inUse)
  }

  ghost predicate NewLease(p: Pool, q: Pool, cn: string) {
    && (forall id :: q.LeaseOf(id) == if id == cn != "" then p.nextLease + 1 else p.LeaseOf(id))
    && p.inUse <= q.inUse
  }

  lemma ServedLeases(p: Pool, cn: string, q: Pool, g: Grant)
    requires Served(p, cn, q, g) && p.nextLease + 1 < LEASE_SPAN
    ensures NewLease(p, q, cn) && (g.Granted? ==> g.lease == p.nextLease + 1)
  {
  }

  lemma AskedLeases(w: World, a: Action, f: Family)
    requires WorldOk(w) && Shaped(w) && Enabled(w, a) && Asks(w, a, f) && Obeys(w, a, CountsUp(f))
    ensures Asked(w, Apply(w, a), a.conn, f)
  {
    var q, g := AskingStep(w, a, f);
    ServedLeases(w.pools.At(f).value, w.sessions[a.conn].cn, q, g);
    assert AllocWith(w, a.conn, f, q, g).pools.At(f) == Some(q);
  }

  /** A session that has just been served has the new lease number. */
  predicate AskerHasNewLease(w: World, v: World, c: Conn, f: Family)
    requires w.pools.At(f).Some? && c in v.sessions
  {
    Holds(v.sessions[c], f) ==> v.sessions[c].slots.At(f).lease.value == w.pools.At(f).value.nextLease + 1
  }

  lemma AskedNewLease(w: World, a: Action, f: Family)
    requires WorldOk(w) && Shaped(w) && Enabled(w, a) && Asks(w, a, f) && Obeys(w, a, CountsUp(f))
    ensures a.conn in Apply(w, a).sessions && AskerHasNewLease(w, Apply(w, a), a.conn, f)
  {
    var q, g := AskingStep(w, a, f);
    ServedLeases(w.pools.At(f).value, w.sessions[a.conn].cn, q, g);
  }

  /** What a Release by session c does to them. */
  ghost predicate GaveBack(w: World, v: World, c: Conn, f: Family)
    requires w.pools.At(f).Some? && c in w.sessions && Holds(w.sessions[c], f)
  {
    && v.pools.At(f).Some? && OnlyMoves(w, v, c) && !Holds(v.sessions[c], f)
    && var p, q, s := w.pools.At(f).value, v.pools.At(f).value, w.sessions[c];
       var allowed := MayRelease(p, s.cn, s.slots.At(f).lease.value);
       && (forall id :: q.LeaseOf(id) == if id == s.cn != "" && allowed then 0 else p.LeaseOf(id))
       && q.inUse == p.inUse - if allowed then {s.slots.At(f).addr.value} else {}
  }

  lemma ReturnedLeases(w: World, a: Action, f: Family)
    requires Shaped(w) && Enabled(w, a) && Returns(w, a, f)
    ensures GaveBack(w, Apply(w, a), a.conn, f)
  {
    var q := ReturningStep(w, a, f);
    assert ReleaseWith(w, a.conn, f, q).pools.At(f) == Some(q);
  }

  // ---- when a session stops being current ----

  /** This step is an AllocateFor by another session of n's client. */
  predicate Supersedes(w: World, a: Action, n: Conn, f: Family)
    requires n in w.sessions
  {
    Asks(w, a, f) && a.conn != n && w.sessions[a.conn].cn == w.sessions[n].cn
  }

  /** Session n gives its own lease back. */
  predicate GivesBack(w: World, a: Action, n: Conn, f: Family) {
    Returns(w, a, f) && a.conn == n
  }

  lemma AskingIff(w: World, v: World, c: Conn, n: Conn, f: Family)
    requires IsCurrent(w, n, f) && Numbered(w, f) && c in w.sessions && Asked(w, v, c, f)
    ensures IsCurrent(v, n, f) <==> w.sessions[c].cn != w.sessions[n].cn
  {
    assert Issued(w.pools.At(f).value, w.sessions[n], f);
  }

  lemma ReturningElsewhere(w: World, v: World, c: Conn, n: Conn, f: Family)
    requires IsCurrent(w, n, f) && Numbered(w, f) && c in w.sessions && c != n
    requires Holds(w.sessions[c], f) && GaveBack(w, v, c, f)
    ensures IsCurrent(v, n, f)
  {
    assert LeasesDiffer(w.sessions[c], w.sessions[n], f);
  }

  lemma OthersLeaveCurrent(w: World, v: World, c: Conn, n: Conn, f: Family)
    requires IsCurrent(w, n, f) && LeavesAlone(w, v, c, f)
    ensures IsCurrent(v, n, f)
  {
  }

  /** In any step but its own release the holder of the current lease stays it exactly if the step is not an
      AllocateFor by another session of its client: not take, and not a release by anybody else. */
  lemma StaysCurrentIff(w: World, a: Action, n: Conn, f: Family)
    requires WorldOk(w) && Shaped(w) && Enabled(w, a) && Numbered(w, f) && Obeys(w, a, CountsUp(f))
    requires IsCurrent(w, n, f) && !GivesBack(w, a, n, f)
    ensures IsCurrent(Apply(w, a), n, f) <==> !Supersedes(w, a, n, f)
  {
    if Asks(w, a, f) {
      AskedLeases(w, a, f);
      AskingIff(w, Apply(w, a), a.conn, n, f);
    } else if Returns(w, a, f) {
      ReturnedLeases(w, a, f);
      ReturningElsewhere(w, Apply(w, a), a.conn, n, f);
    } else {
      OtherStep(w, a, f);
      OthersLeaveCurrent(w, Apply(w, a), a.conn, n, f);
    }
  }

  /** Holding a lease that is not the current one. */
  predicate IsSuperseded(w: World, n: Conn, f: Family) {
    && n in w.sessions && w.sessions[n].cn != "" && w.pools.At(f).Some? && Holds(w.sessions[n], f)
    && !IsCurrent(w, n, f)
  }

  lemma AskingSuperseded(w: World, v: World, c: Conn, n: Conn, f: Family)
    requires IsSuperseded(w, n, f) && Numbered(w, f) && c in w.sessions && Asked(w, v, c, f)
    ensures IsSuperseded(v, n, f)
  {
    assert Issued(w.pools.At(f).value, w.sessions[n], f);
  }

  lemma ReturningSuperseded(w: World, v: World, c: Conn, n: Conn, f: Family)
    requires IsSuperseded(w, n, f) && Numbered(w, f) && c in w.sessions && c != n
    requires Holds(w.sessions[c], f) && GaveBack(w, v, c, f)
    ensures IsSuperseded(v, n, f)
  {
    assert Issued(w.pools.At(f).value, w.sessions[n], f);
  }

  lemma OthersLeaveSuperseded(w: World, v: World, c: Conn, n: Conn, f: Family)
    requires IsSuperseded(w, n, f) && LeavesAlone(w, v, c, f)
    ensures IsSuperseded(v, n, f)
  {
  }

  /** A superseded session never becomes current again. */
  lemma StaysSuperseded(w: World, a: Action, n: Conn, f: Family)
    requires WorldOk(w) && Shaped(w) && Enabled(w, a) && Numbered(w, f) && Obeys(w, a, CountsUp(f))
    requires IsSuperseded(w, n, f) && !GivesBack(w, a, n, f)
    ensures IsSuperseded(Apply(w, a), n, f)
  {
    if Asks(w, a, f) {
      AskedLeases(w, a, f);
      AskingSuperseded(w, Apply(w, a), a.conn, n, f);
    } else if Returns(w, a, f) {
      ReturnedLeases(w, a, f);
      ReturningSuperseded(w, Apply(w, a), a.conn, n, f);
    } else {
      OtherStep(w, a, f);
      OthersLeaveSuperseded(w, Apply(w, a), a.conn, n, f);
    }
  }

  lemma BecomesSuperseded(w: World, a: Action, n: Conn, f: Family)
    requires WorldOk(w) && Shaped(w) && Enabled(w, a) && Numbered(w, f) && Obeys(w, a, CountsUp(f))
    requires IsCurrent(w, n, f) && Supersedes(w, a, n, f)
    ensures IsSuperseded(Apply(w, a), n, f)
  {
    AskedLeases(w, a, f);
    AskingIff(w, Apply(w, a), a.conn, n, f);
  }

  /** The Release of a superseded session changes nothing in the pool, so it never frees the address of the
      session that took its place; this needs no assumption. */
  lemma SupersededReleaseIsHarmless(w: World, a: Action, f: Family)
    requires Shaped(w) && Enabled(w, a) && Returns(w, a, f) && IsSuperseded(w, a.conn, f)
    ensures Apply(w, a).pools == w.pools
  {
  }

  // ---- the address of a current holder stays in use ----

  /** If session n holds the current lease, its address is in use. */
  predicate Covered(w: World, n: Conn, f: Family) {
    IsCurrent(w, n, f) ==> w.sessions[n].slots.At(f).addr.value in w.pools.At(f).value.inUse
  }

  lemma ReturningKeepsCovered(w: World, v: World, c: Conn, n: Conn, f: Family)
    requires WorldOk(w) && Apart(w, f) && Numbered(w, f) && Covered(w, n, f) && c in w.sessions
    requires w.pools.At(f).Some? && Holds(w.sessions[c], f) && GaveBack(w, v, c, f)
    ensures Covered(v, n, f)
  {
    if IsCurrent(v, n, f) {
      var p := w.pools.At(f).value;
      assert n != c && n in w.sessions;
      assert Issued(p, w.sessions[n], f) && LeasesDiffer(w.sessions[c], w.sessions[n], f);
      assert SessionOk(w.pools, w.sessions[n]) && SessionOk(w.pools, w.sessions[c]);
      assert AnonymousOk(p, w.sessions[c], f);
      assert IsCurrent(w, n, f);
    }
  }

  lemma AskingKeepsCovered(w: World, v: World, c: Conn, n: Conn, f: Family)
    requires Numbered(w, f) && Covered(w, n, f) && c in w.sessions && w.pools.At(f).Some?
    requires Asked(w, v, c, f)
    ensures Covered(v, n, f)
  {
    if IsCurrent(v, n, f) && n != c {
      assert Issued(w.pools.At(f).value, w.sessions[n], f);
      assert IsCurrent(w, n, f);
    }
  }

  lemma OthersKeepCovered(w: World, v: World, c: Conn, n: Conn, f: Family)
    requires LeavesAlone(w, v, c, f) && Covered(w, n, f)
    ensures Covered(v, n, f)
  {
  }

  lemma StepKeepsCovered(w: World, a: Action, n: Conn, f: Family)
    requires WorldOk(w) && Shaped(w) && Enabled(w, a) && Apart(w, f) && Numbered(w, f) && Covered(w, n, f)
    requires Obeys(w, a, CountsUp(f))
    ensures Covered(Apply(w, a), n, f)
  {
    if Asks(w, a, f) {
      AskedLeases(w, a, f);
      AskingKeepsCovered(w, Apply(w, a), a.conn, n, f);
    } else if Returns(w, a, f) {
      ReturnedLeases(w, a, f);
      ReturningKeepsCovered(w, Apply(w, a), a.conn, n, f);
    } else {
      OtherStep(w, a, f);
      OthersKeepCovered(w, Apply(w, a), a.conn, n, f);
    }
  }
}
