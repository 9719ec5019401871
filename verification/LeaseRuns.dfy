/** Current leases over whole runs of the server, and why setups of one client must not overlap. */
module LeaseRuns {
  import opened Prelude
  import opened Addresses
  import opened PoolSpec
  import opened PoolLaws
  import opened ServerSpec
  import opened ServerLaws
  import opened FamilySteps
  import opened Exclusivity
  import opened CurrentLeases
  import opened ServerRuns
  import opened ExclusivityRuns
  import opened IPv6Exclusivity

  /** Somewhere in the run another session of n's client is served by the pool. */
  ghost predicate EverSuperseded(w: World, acts: seq<Action>, n: Conn, f: Family)
    decreases |acts|
  {
    acts != [] && Shaped(w) && Enabled(w, acts[0]) && n in w.sessions &&
    (Supersedes(w, acts[0], n, f) || EverSuperseded(Apply(w, acts[0]), acts[1..], n, f))
  }

  /** Nowhere in the run n gives its lease back. */
  ghost predicate KeepsLease(w: World, acts: seq<Action>, n: Conn, f: Family)
    decreases |acts|
  {
    acts == [] ||
    (Shaped(w) && Enabled(w, acts[0]) && !GivesBack(w, acts[0], n, f) && KeepsLease(Apply(w, acts[0]), acts[1..], n, f))
  }

  lemma {:induction false} SupersededForGood(w: World, acts: seq<Action>, v: World, n: Conn, f: Family)
    requires WorldOk(w) && Numbered(w, f) && Reaches(w, acts, v) && Always(w, acts, CountsUp(f))
    requires IsSuperseded(w, n, f) && KeepsLease(w, acts, n, f)
    ensures IsSuperseded(v, n, f)
    decreases |acts|
  {
    if acts != [] {
      StaysSuperseded(w, acts[0], n, f);
      StepKeepsOk(w, acts[0]);
      StepKeepsNumbered(w, acts[0], f);
      SupersededForGood(Apply(w, acts[0]), acts[1..], v, n, f);
    }
  }

  /** Over any run in which it does not give the lease back, the holder of the current lease is still the
      holder at the end exactly if no other session of its client was served in between. */
  lemma {:induction false} CurrentUntilSuperseded(w: World, acts: seq<Action>, v: World, n: Conn, f: Family)
    requires WorldOk(w) && Numbered(w, f) && Reaches(w, acts, v) && Always(w, acts, CountsUp(f))
    requires IsCurrent(w, n, f) && KeepsLease(w, acts, n, f)
    ensures IsCurrent(v, n, f) <==> !EverSuperseded(w, acts, n, f)
    decreases |acts|
  {
    if acts != [] {
      var u := Apply(w, acts[0]);
      StaysCurrentIff(w, acts[0], n, f);
      StepKeepsOk(w, acts[0]);
      StepKeepsNumbered(w, acts[0], f);
      if Supersedes(w, acts[0], n, f) {
        BecomesSuperseded(w, acts[0], n, f);
        SupersededForGood(u, acts[1..], v, n, f);
      } else {
        CurrentUntilSuperseded(u, acts[1..], v, n, f);
      }
    }
  }

  // ---- the address of a current holder stays in use ----

  lemma {:induction false} RunKeepsCovered(w: World, acts: seq<Action>, v: World, n: Conn, f: Family)
    requires WorldOk(w) && Apart(w, f) && Numbered(w, f) && Covered(w, n, f) && Reaches(w, acts, v)
    requires Always(w, acts, SparesMemory(f)) && Always(w, acts, CountsUp(f))
    ensures WorldOk(v) && Apart(v, f) && Numbered(v, f) && Covered(v, n, f)
    decreases |acts|
  {
    if acts != [] {
      StepKeepsCovered(w, acts[0], n, f);
      StepKeepsApart(w, acts[0], f);
      StepKeepsNumbered(w, acts[0], f);
      StepKeepsOk(w, acts[0]);
      RunKeepsCovered(Apply(w, acts[0]), acts[1..], v, n, f);
    }
  }

  /** Whatever else happens, other clients' and older sessions' releases included, the address of a session
      with the current lease is in use: it stays so until that session's own Release or until another
      session of the client is given it. Setups of one CN may overlap. */
  lemma CurrentAddressInUse(w: World, acts: seq<Action>, v: World, n: Conn, f: Family)
    requires Started(w) && Reaches(w, acts, v)
    requires Always(w, acts, SparesMemory(f)) && Always(w, acts, CountsUp(f))
    requires IsCurrent(v, n, f)
    ensures v.sessions[n].slots.At(f).addr.value in v.pools.At(f).value.inUse
  {
    StartedIsOk(w);
    RunKeepsCovered(w, acts, v, n, f);
  }

  /** For IPv6, end to end: until the cursor of this pool first passes the end of its prefix. */
  lemma IPv6CurrentAddressInUse(w: World, acts: seq<Action>, v: World, n: Conn, f: Family)
    requires Started(w) && w.pools.At(f).Some? && !w.pools.At(f).value.Is4() && Reaches(w, acts, v)
    requires Always(w, acts, StaysForward(f)) && Always(w, acts, CountsUp(f))
    requires IsCurrent(v, n, f)
    ensures v.sessions[n].slots.At(f).addr.value in v.pools.At(f).value.inUse
  {
    StartedIsOk(w);
    ForwardRunSparesMemory(w, acts, f);
    CurrentAddressInUse(w, acts, v, n, f);
  }

  /** The same for a known population, from any state in which the pool remembers different addresses for
      different clients, its holders are named and its leases numbered: every session given its
      address after that, and every one whose address was in use then, is covered. */
  lemma KnownAddressInUse(w: World, acts: seq<Action>, v: World, n: Conn, f: Family, known: set<string>)
    requires WorldOk(w) && w.pools.At(f).Some? && Distinct(w.pools.At(f).value.sticky)
    requires forall e <- w.sessions :: Holds(w.sessions[e], f) ==> w.sessions[e].cn != ""
    requires Numbered(w, f) && Covered(w, n, f)
    requires "" !in known && known <= w.pools.At(f).value.sticky.Keys
    requires Reaches(w, acts, v) && Always(w, acts, AsksFor(f, known)) && Always(w, acts, CountsUp(f))
    requires IsCurrent(v, n, f)
    ensures v.sessions[n].slots.At(f).addr.value in v.pools.At(f).value.inUse
  {
    KnownRunSparesMemory(w, acts, f, known);
    RunKeepsCovered(w, acts, v, n, f);
  }

  // ---- why setups of one CN must not overlap ----

  /** take and AllocateFor are separate steps. When two setups of one CN overlap, the newer session
      can end up without the current lease: the older one's release will then free the address
      the newer one is using, and the newer one's own release will do nothing. */
  lemma {:induction false} OverlappingSetups(w: World, cn: string, older: Conn, newer: Conn) returns (v: World)
    requires Started(w) && cn != "" && older != newer
    requires w.pools.v4.Some? && w.pools.v4.value.Is4() && |w.pools.v4.value.free| > 0
    ensures Reaches(w, Takes(cn, older, newer) + [Advance(newer), Advance(older)], v)
    ensures v.byCN == map[cn := newer] && v.newest == map[cn := newer] && v.pools.v4.Some?
    ensures older in v.sessions && newer in v.sessions && Holds(v.sessions[older], V4) && Holds(v.sessions[newer], V4)
    ensures var p, o, n := v.pools.v4.value, v.sessions[older].slots.v4, v.sessions[newer].slots.v4;
            o.addr == n.addr && MayRelease(p, cn, o.lease.value) && !MayRelease(p, cn, n.lease.value)
  {
    var u := BothTake(w, cn, older, newer);
    v := OverlappingAllocations(u, cn, older, newer);
    ReachesThen(w, Takes(cn, older, newer), u, [Advance(newer), Advance(older)], v);
  }

  function Takes(cn: string, older: Conn, newer: Conn): seq<Action> {
    [Accept(older, cn), Accept(newer, cn), Advance(older), Advance(newer)]
  }

  lemma {:induction false} BothTake(w: World, cn: string, older: Conn, newer: Conn) returns (u: World)
    requires Started(w) && cn != "" && older != newer
    ensures Reaches(w, Takes(cn, older, newer), u)
    ensures u.pools == w.pools && u.byCN == map[cn := newer] && u.newest == map[cn := newer]
    ensures older in u.sessions && newer in u.sessions
    ensures u.sessions[older] == u.sessions[newer] == Session(cn, Allocating(V4), Pair(EMPTY_SLOT, EMPTY_SLOT))
  {
    var w1 := Apply(w, Accept(older, cn));
    var w2 := Apply(w1, Accept(newer, cn));
    var w3 := TakeStep(w2, older);
    u := TakeStep(w3, newer);
    assert Reaches(u, [], u);
    StepThen(w3, Advance(newer), [], u);
    StepThen(w2, Advance(older), [Advance(newer)], u);
    StepThen(w1, Accept(newer, cn), [Advance(older), Advance(newer)], u);
    StepThen(w, Accept(older, cn), [Accept(newer, cn), Advance(older), Advance(newer)], u);
  }

  lemma {:induction false} ReachesThen(w: World, acts: seq<Action>, u: World, more: seq<Action>, v: World)
    requires Reaches(w, acts, u) && Reaches(u, more, v)
    ensures Reaches(w, acts + more, v)
    decreases |acts|
  {
    if acts == [] {
      assert acts + more == more;
    } else {
      assert (acts + more)[1..] == acts[1..] + more;
      ReachesThen(Apply(w, acts[0]), acts[1..], u, more, v);
    }
  }

  lemma AllocatesIn(w: World, c: Conn, f: Family, q: Pool, g: Grant)
    requires Shaped(w) && c in w.sessions && w.sessions[c].phase == Allocating(f) && w.pools.At(f).Some?
    requires AllocateFor(w.pools.At(f).value, w.sessions[c].cn) == (q, g)
    ensures Enabled(w, Advance(c)) && Apply(w, Advance(c)) == AllocWith(w, c, f, q, g)
  {
  }

  lemma {:induction false} OverlappingAllocations(w: World, cn: string, older: Conn, newer: Conn) returns (v: World)
    requires Shaped(w) && cn != "" && older != newer && older in w.sessions && newer in w.sessions
    requires w.sessions[older] == w.sessions[newer] == Session(cn, Allocating(V4), Pair(EMPTY_SLOT, EMPTY_SLOT))
    requires w.pools.v4.Some? && Inv(w.pools.v4.value) && Unused(w.pools.v4.value)
    requires w.pools.v4.value.Is4() && |w.pools.v4.value.free| > 0
    ensures Reaches(w, [Advance(newer), Advance(older)], v)
    ensures v.byCN == w.byCN && v.newest == w.newest && v.pools.v4.Some?
    ensures older in v.sessions && newer in v.sessions && Holds(v.sessions[older], V4) && Holds(v.sessions[newer], V4)
    ensures var p, o, n := v.pools.v4.value, v.sessions[older].slots.v4, v.sessions[newer].slots.v4;
            o.addr == n.addr && MayRelease(p, cn, o.lease.value) && !MayRelease(p, cn, n.lease.value)
  {
    var p := w.pools.v4.value;
    var (q, g) := AllocateFor(p, cn);
    var (r, h) := AllocateFor(q, cn);
    TakesTheLast(p, cn);
    TwiceTheSame(p, cn);
    var u := AllocWith(w, newer, V4, q, g);
    v := AllocWith(u, older, V4, r, h);
    AllocatesIn(w, newer, V4, q, g);
    AllocatesTwice(w, cn, older, newer, q, g, r, h);
    AllocatesIn(u, older, V4, r, h);
    assert Reaches(v, [], v);
    StepThen(u, Advance(older), [], v);
    StepThen(w, Advance(newer), [Advance(older)], v);
  }

  /** Two allocations for one client give it one address, and only the second lease may release it. */
  lemma TwiceTheSame(p: Pool, cn: string)
    requires Inv(p) && cn != "" && AllocateFor(p, cn).1.Granted?
    ensures var (q, g) := AllocateFor(p, cn);
            Inv(q) &&
            var (r, h) := AllocateFor(q, cn);
            && h.Granted? && g.prefix.addr == h.prefix.addr
            && MayRelease(r, cn, h.lease) && !MayRelease(r, cn, g.lease)
  {
    AllocateKeepsInv(p, cn);
    AllocateLaw(p, cn);
    var (q, g) := AllocateFor(p, cn);
    AllocateLaw(q, cn);
    var (r, h) := AllocateFor(q, cn);
    ServedTwice(p, cn, q, g, r, h);
  }

  lemma ServedTwice(p: Pool, cn: string, q: Pool, g: Grant, r: Pool, h: Grant)
    requires cn != "" && Served(p, cn, q, g) && Served(q, cn, r, h) && g.Granted?
    ensures h.Granted? && g.prefix.addr == h.prefix.addr
    ensures MayRelease(r, cn, h.lease) && !MayRelease(r, cn, g.lease)
  {
  }

  lemma AllocatesTwice(w: World, cn: string, older: Conn, newer: Conn, q: Pool, g: Grant, r: Pool, h: Grant)
    requires older != newer && older in w.sessions && newer in w.sessions && g.Granted? && h.Granted?
    requires w.sessions[older] == w.sessions[newer] == Session(cn, Allocating(V4), Pair(EMPTY_SLOT, EMPTY_SLOT))
    ensures var u := AllocWith(w, newer, V4, q, g);
            && u.sessions[older] == w.sessions[older] && u.pools.v4 == Some(q)
            && older in u.sessions &&
            var v := AllocWith(u, older, V4, r, h);
            && v.byCN == w.byCN && v.newest == w.newest && v.pools.v4 == Some(r)
            && older in v.sessions && newer in v.sessions
            && v.sessions[newer].slots.v4 == Slot(Some(g.prefix.addr), Some(g.lease), false)
            && v.sessions[older].slots.v4 == Slot(Some(h.prefix.addr), Some(h.lease), false)
  {
  }

  lemma StepThen(w: World, a: Action, acts: seq<Action>, v: World)
    requires Shaped(w) && Enabled(w, a) && Reaches(Apply(w, a), acts, v)
    ensures Reaches(w, [a] + acts, v)
  {
    assert ([a] + acts)[1..] == acts;
  }
}
