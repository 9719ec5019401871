/** Which connections the server has closed: at most one session of a client is alive at a time. */
module LiveSessions {
  import opened Prelude
  import opened Addresses
  import opened PoolSpec
  import opened ServerSpec
  import opened ServerLaws
  import opened ServerRuns

  /** The session has called take and not yet dropped out of the index. */
  predicate Live(s: Session) {
    s.cn != "" && s.phase != Taking && s.phase != Done
  }

  predicate IsIndexed(w: World, c: Conn) {
    c in w.sessions && w.sessions[c].cn in w.byCN && w.byCN[w.sessions[c].cn] == c
  }

  /** Every session of a named client past take is the index entry, or its connection has been closed. */
  ghost predicate OthersClosed(w: World) {
    forall c <- w.sessions :: Live(w.sessions[c]) ==> IsIndexed(w, c) || c in w.closed
  }

  // ---- one step ----

  /** The moving session keeps its client, connections stay closed, and the index is touched only by take and drop. */
  predicate KeepsIndex(w: World, v: World, c: Conn) {
    && c in w.sessions && c in v.sessions && v.sessions == w.sessions[c := v.sessions[c]]
    && v.sessions[c].cn == w.sessions[c].cn && w.sessions[c].phase != Taking
    && v.byCN == w.byCN && w.closed <= v.closed
  }

  lemma QuietKeepsClosed(w: World, v: World, c: Conn)
    requires OthersClosed(w) && KeepsIndex(w, v, c) && w.sessions[c].phase != Done
    ensures OthersClosed(v)
  {
    forall d <- v.sessions
      ensures Live(v.sessions[d]) ==> IsIndexed(v, d) || d in v.closed
    {
      assert Live(w.sessions[d]) ==> IsIndexed(w, d) || d in w.closed;
    }
  }

  lemma TakeClosesOlder(w: World, c: Conn)
    requires OthersClosed(w) && c in w.sessions && w.sessions[c].phase == Taking
    ensures OthersClosed(TakeStep(w, c))
  {
    var v := TakeStep(w, c);
    forall d <- v.sessions
      ensures Live(v.sessions[d]) ==> IsIndexed(v, d) || d in v.closed
    {
      assert Live(w.sessions[d]) ==> IsIndexed(w, d) || d in w.closed;
    }
  }

  lemma DropLeavesOthers(w: World, c: Conn)
    requires OthersClosed(w) && c in w.sessions
    ensures OthersClosed(DropStep(w, c))
  {
    var v := DropStep(w, c);
    forall d <- v.sessions
      ensures Live(v.sessions[d]) ==> IsIndexed(v, d) || d in v.closed
    {
      assert Live(w.sessions[d]) ==> IsIndexed(w, d) || d in w.closed;
    }
  }

  lemma AllocKeepsIndex(w: World, c: Conn, f: Family)
    requires Shaped(w) && c in w.sessions && w.sessions[c].phase == Allocating(f)
    ensures KeepsIndex(w, AllocStep(w, c, f), c)
  {
    if w.pools.At(f).Some? {
      var (q, g) := AllocateFor(w.pools.At(f).value, w.sessions[c].cn);
      assert AllocStep(w, c, f) == AllocWith(w, c, f, q, g);
    }
  }

  lemma RoutesKeepIndex(w: World, c: Conn, f: Family)
    requires c in w.sessions && w.sessions[c].phase != Taking
    ensures KeepsIndex(w, AddStep(w, c, f), c) && KeepsIndex(w, RemoveStep(w, c, f), c)
  {
  }

  lemma ReleaseKeepsIndex(w: World, c: Conn, f: Family)
    requires c in w.sessions && w.sessions[c].phase != Taking
    ensures KeepsIndex(w, ReleaseStep(w, c, f), c)
  {
  }

  lemma AdvanceKeepsClosed(w: World, c: Conn)
    requires OthersClosed(w) && Shaped(w) && c in w.sessions && w.sessions[c].phase != Done
    ensures OthersClosed(AdvanceStep(w, c))
  {
    match w.sessions[c].phase
    case Taking => TakeClosesOlder(w, c);
    case Allocating(f) => AllocKeepsIndex(w, c, f); QuietKeepsClosed(w, AllocStep(w, c, f), c);
    case Adding(f) => RoutesKeepIndex(w, c, f); QuietKeepsClosed(w, AddStep(w, c, f), c);
    case Removing(f) => RoutesKeepIndex(w, c, f); QuietKeepsClosed(w, RemoveStep(w, c, f), c);
    case Releasing(f) => ReleaseKeepsIndex(w, c, f); QuietKeepsClosed(w, ReleaseStep(w, c, f), c);
    case Dropping => DropLeavesOthers(w, c);
    case Announcing => QuietKeepsClosed(w, MoveOn(w, c, Adding(V4)), c);
    case Forwarding => QuietKeepsClosed(w, MoveOn(w, c, Removing(V6)).(closed := w.closed + {c}), c);
  }

  lemma AcceptKeepsClosed(w: World, c: Conn, cn: string)
    requires OthersClosed(w) && c !in w.sessions
    ensures OthersClosed(With(w, c, Session(cn, Taking, Pair(EMPTY_SLOT, EMPTY_SLOT))))
  {
    var v := With(w, c, Session(cn, Taking, Pair(EMPTY_SLOT, EMPTY_SLOT)));
    forall d <- v.sessions
      ensures Live(v.sessions[d]) ==> IsIndexed(v, d) || d in v.closed
    {
      assert d != c ==> (Live(w.sessions[d]) ==> IsIndexed(w, d) || d in w.closed);
    }
  }

  lemma StepKeepsClosed(w: World, a: Action)
    requires OthersClosed(w) && Shaped(w) && Enabled(w, a)
    ensures OthersClosed(Apply(w, a))
  {
    match a
    case Accept(c, cn) => AcceptKeepsClosed(w, c, cn);
    case Abort(c) => QuietKeepsClosed(w, MoveOn(w, c, Releasing(V6)), c);
    case Advance(c) => AdvanceKeepsClosed(w, c);
  }

  lemma {:induction false} RunKeepsClosed(w: World, acts: seq<Action>, v: World)
    requires OthersClosed(w) && Reaches(w, acts, v)
    ensures OthersClosed(v)
    decreases |acts|
  {
    if acts != [] {
      StepKeepsClosed(w, acts[0]);
      RunKeepsClosed(Apply(w, acts[0]), acts[1..], v);
    }
  }

  /** At most one live session per CN, in every interleaving: of the sessions of a named client that are past
      take and have not finished, every one but the index entry has been closed. */
  lemma OneLiveSession(w: World, acts: seq<Action>, v: World, c: Conn, d: Conn)
    requires Started(w) && Reaches(w, acts, v)
    requires c in v.sessions && d in v.sessions && v.sessions[c].cn == v.sessions[d].cn != ""
    requires v.sessions[c].phase != Taking && v.sessions[c].phase != Done && c !in v.closed
    requires v.sessions[d].phase != Taking && v.sessions[d].phase != Done && d !in v.closed
    ensures c == d && v.sessions[c].cn in v.byCN && v.byCN[v.sessions[c].cn] == c
  {
    RunKeepsClosed(w, acts, v);
    assert IsIndexed(v, c) && IsIndexed(v, d);
  }

  // ---- sessions that end ----

  /** No address of this pool was given to the session. */
  predicate Refused(w: World, c: Conn, f: Family)
    requires c in w.sessions
  {
    w.pools.At(f).Some? && w.sessions[c].slots.At(f).addr == None
  }

  predicate OnItsWayOut(s: Session) {
    s.phase.Releasing? || s.phase == Dropping || s.phase == Done
  }

  /** A session whose forwarding has ended, and one that was refused an address, has been closed. */
  predicate EndsClosed(w: World, c: Conn)
    requires c in w.sessions
  {
    && (w.sessions[c].phase.Removing? ==> c in w.closed)
    && (OnItsWayOut(w.sessions[c]) && (Refused(w, c, V4) || Refused(w, c, V6)) ==> c in w.closed)
  }

  /** One step changes one session, and opens no connection again. */
  predicate OneMoves(w: World, v: World, c: Conn) {
    c in v.sessions && v.sessions == w.sessions[c := v.sessions[c]] && w.closed <= v.closed
  }

  lemma StepMovesOne(w: World, a: Action)
    requires Shaped(w) && Enabled(w, a)
    ensures OneMoves(w, Apply(w, a), a.conn)
  {
    if a.Advance? {
      match w.sessions[a.conn].phase
      case Allocating(f) => AllocKeepsIndex(w, a.conn, f);
      case Adding(f) => RoutesKeepIndex(w, a.conn, f);
      case Removing(f) => RoutesKeepIndex(w, a.conn, f);
      case Releasing(f) => ReleaseKeepsIndex(w, a.conn, f);
      case _ =>
    }
  }

  lemma OtherSessionMoves(w: World, a: Action, c: Conn)
    requires WorldOk(w) && Shaped(w) && Enabled(w, a) && a.conn != c && c in w.sessions && EndsClosed(w, c)
    ensures c in Apply(w, a).sessions && EndsClosed(Apply(w, a), c)
  {
    StepMovesOne(w, a);
    PoolsLearn(w, a);
    SamePoolsKnown(w, Apply(w, a), c);
  }

  lemma SamePoolsKnown(w: World, v: World, c: Conn)
    requires Learns(w.pools.v4, v.pools.v4) && Learns(w.pools.v6, v.pools.v6) && w.closed <= v.closed
    requires c in w.sessions && c in v.sessions && v.sessions[c] == w.sessions[c] && EndsClosed(w, c)
    ensures EndsClosed(v, c)
  {
  }

  /** What is still held when the teardown starts was given. */
  lemma TeardownHasAddresses(w: World, c: Conn)
    requires c in w.sessions && SessionOk(w.pools, w.sessions[c])
    requires w.sessions[c].phase.Announcing? || w.sessions[c].phase.Removing?
    ensures !Refused(w, c, V4) && !Refused(w, c, V6)
  {
  }

  lemma AllocKeepsEnds(w: World, c: Conn, f: Family)
    requires Shaped(w) && c in w.sessions && w.sessions[c].phase == Allocating(f)
    ensures EndsClosed(AllocStep(w, c, f), c)
  {
    if w.pools.At(f).Some? {
      var (q, g) := AllocateFor(w.pools.At(f).value, w.sessions[c].cn);
      assert AllocStep(w, c, f) == AllocWith(w, c, f, q, g);
    }
  }

  lemma RemoveKeepsEnds(w: World, c: Conn, f: Family)
    requires c in w.sessions && w.sessions[c].phase == Removing(f)
    requires SessionOk(w.pools, w.sessions[c]) && EndsClosed(w, c)
    ensures EndsClosed(RemoveStep(w, c, f), c)
  {
    TeardownHasAddresses(w, c);
  }

  lemma ReleaseKeepsEnds(w: World, c: Conn, f: Family)
    requires c in w.sessions && w.sessions[c].phase == Releasing(f) && EndsClosed(w, c)
    ensures EndsClosed(ReleaseStep(w, c, f), c)
  {
  }

  lemma AddKeepsEnds(w: World, c: Conn, f: Family)
    requires c in w.sessions && w.sessions[c].phase == Adding(f)
    ensures EndsClosed(AddStep(w, c, f), c)
  {
  }

  lemma OwnStepKeepsEnds(w: World, v: World, c: Conn)
    requires WorldOk(w) && Shaped(w) && c in w.sessions && w.sessions[c].phase != Done && EndsClosed(w, c)
    requires v == AdvanceStep(w, c) && c in v.sessions
    ensures EndsClosed(v, c)
  {
    assert SessionOk(w.pools, w.sessions[c]);
    match w.sessions[c].phase
    case Allocating(f) => AllocKeepsEnds(w, c, f);
    case Adding(f) => AddKeepsEnds(w, c, f);
    case Removing(f) => RemoveKeepsEnds(w, c, f);
    case Releasing(f) => ReleaseKeepsEnds(w, c, f);
    case _ =>
  }

  lemma StepKeepsEnds(w: World, a: Action, c: Conn)
    requires WorldOk(w) && Shaped(w) && Enabled(w, a) && (c in w.sessions ==> EndsClosed(w, c))
    requires c in Apply(w, a).sessions
    ensures EndsClosed(Apply(w, a), c)
  {
    if a.conn != c {
      StepMovesOne(w, a);
      OtherSessionMoves(w, a, c);
    } else if a.Advance? {
      OwnStepKeepsEnds(w, Apply(w, a), c);
    } else if a.Abort? {
      assert SessionOk(w.pools, w.sessions[c]);
      TeardownHasAddresses(w, c);
    }
  }

  lemma {:induction false} RunKeepsEnds(w: World, acts: seq<Action>, v: World, c: Conn)
    requires WorldOk(w) && (c in w.sessions ==> EndsClosed(w, c)) && Reaches(w, acts, v) && c in v.sessions
    ensures EndsClosed(v, c)
    decreases |acts|
  {
    if acts != [] {
      StepKeepsOk(w, acts[0]);
      if c in Apply(w, acts[0]).sessions {
        StepKeepsEnds(w, acts[0], c);
      }
      RunKeepsEnds(Apply(w, acts[0]), acts[1..], v, c);
    }
  }

  /** In every reachable state a session that has stopped forwarding, or that was refused an address by a pool
      and is on its way out or gone, has been closed. */
  lemma EndedSessionsAreClosed(w: World, acts: seq<Action>, v: World, c: Conn)
    requires Started(w) && Reaches(w, acts, v) && c in v.sessions
    ensures v.sessions[c].phase.Removing? ==> c in v.closed
    ensures OnItsWayOut(v.sessions[c]) && (Refused(v, c, V4) || Refused(v, c, V6)) ==> c in v.closed
  {
    StartedIsOk(w);
    RunKeepsEnds(w, acts, v, c);
  }
}
