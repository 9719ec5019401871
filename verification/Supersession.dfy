/** When a session is closed while its handler still serves it: exactly when its client has come back. */
module Supersession {
  import opened Prelude
  import opened Addresses
  import opened PoolSpec
  import opened ServerSpec
  import opened ServerLaws
  import opened ServerRuns
  import opened FamilySteps
  import opened LiveSessions

  /** Past take, and not refused or ended. */
  predicate InService(ph: Phase) {
    ph.Allocating? || ph == Announcing || ph.Adding? || ph == Forwarding
  }

  /** Another session of the same client took the index entry later. */
  predicate Older(w: World, c: Conn) {
    c in w.sessions && w.sessions[c].cn in w.newest && w.newest[w.sessions[c].cn] != c
  }

  ghost predicate ServiceOk(w: World) {
    && (forall cn <- w.byCN :: cn in w.newest && w.newest[cn] == w.byCN[cn])
    && (forall cn <- w.newest ::
          cn != "" && w.newest[cn] in w.sessions && w.sessions[w.newest[cn]].phase != Taking)
    && (forall c <- w.sessions :: Live(w.sessions[c]) ==> w.sessions[c].cn in w.newest)
    && (forall c <- w.closed ::
          c in w.sessions && w.sessions[c].phase != Taking && (InService(w.sessions[c].phase) ==> Older(w, c)))
  }

  /** A step of a session past take touches the tables of others no further than by closing itself when it ends. */
  ghost predicate Minds(w: World, v: World, c: Conn) {
    && c in w.sessions && c in v.sessions && v.sessions == w.sessions[c := v.sessions[c]]
    && v.sessions[c].cn == w.sessions[c].cn && w.sessions[c].phase != Taking && v.sessions[c].phase != Taking
    && (v.sessions[c].phase == Done || w.sessions[c].phase != Done)
    && (InService(v.sessions[c].phase) ==> InService(w.sessions[c].phase))
    && v.newest == w.newest && v.closed <= w.closed + (if InService(v.sessions[c].phase) then {} else {c})
    && (forall cn <- v.byCN :: cn in w.byCN && v.byCN[cn] == w.byCN[cn])
  }

  lemma MindingKeepsService(w: World, v: World, c: Conn)
    requires ServiceOk(w) && Minds(w, v, c)
    ensures ServiceOk(v)
  {
    forall d <- v.closed
      ensures d in v.sessions && v.sessions[d].phase != Taking && (InService(v.sessions[d].phase) ==> Older(v, d))
    {
      assert d in w.closed || d == c;
    }
    assert forall d <- v.sessions :: d != c ==> v.sessions[d] == w.sessions[d];
  }

  lemma TakeKeepsService(w: World, c: Conn)
    requires ServiceOk(w) && IndexOk(w) && c in w.sessions && w.sessions[c].phase == Taking
    ensures ServiceOk(TakeStep(w, c))
  {
  }

  lemma AllocMinds(w: World, c: Conn, f: Family)
    requires Shaped(w) && c in w.sessions && w.sessions[c].phase == Allocating(f)
    ensures Minds(w, AllocStep(w, c, f), c)
  {
    if w.pools.At(f).Some? {
      var (q, g) := AllocateFor(w.pools.At(f).value, w.sessions[c].cn);
      assert AllocStep(w, c, f) == AllocWith(w, c, f, q, g);
    }
  }

  lemma ReleaseMinds(w: World, c: Conn, f: Family)
    requires c in w.sessions && w.sessions[c].phase == Releasing(f)
    ensures Minds(w, ReleaseStep(w, c, f), c)
  {
  }

  lemma RoutesMind(w: World, c: Conn, f: Family)
    requires c in w.sessions
    ensures w.sessions[c].phase == Adding(f) ==> Minds(w, AddStep(w, c, f), c)
    ensures w.sessions[c].phase == Removing(f) ==> Minds(w, RemoveStep(w, c, f), c)
  {
  }

  lemma AdvanceMinds(w: World, c: Conn)
    requires Shaped(w) && c in w.sessions && w.sessions[c].phase != Taking && w.sessions[c].phase != Done
    ensures Minds(w, AdvanceStep(w, c), c)
  {
    match w.sessions[c].phase
    case Allocating(f) => AllocMinds(w, c, f);
    case Adding(f) => RoutesMind(w, c, f);
    case Removing(f) => RoutesMind(w, c, f);
    case Releasing(f) => ReleaseMinds(w, c, f);
    case _ =>
  }

  lemma StepKeepsService(w: World, a: Action)
    requires ServiceOk(w) && IndexOk(w) && Shaped(w) && Enabled(w, a)
    ensures ServiceOk(Apply(w, a))
  {
    match a
    case Accept(c, cn) =>
    case Abort(c) => MindingKeepsService(w, Apply(w, a), c);
    case Advance(c) =>
      if w.sessions[c].phase == Taking {
        TakeKeepsService(w, c);
      } else {
        AdvanceMinds(w, c);
        MindingKeepsService(w, AdvanceStep(w, c), c);
      }
  }

  /** The connection of this client that called take last, read off the steps alone. */
  ghost function LastTaker(w: World, acts: seq<Action>, cn: string, last: Option<Conn>): Option<Conn>
    decreases |acts|
  {
    if acts == [] || !Shaped(w) || !Enabled(w, acts[0]) then last
    else LastTaker(Apply(w, acts[0]), acts[1..], cn, TakerAfter(w, acts[0], cn, last))
  }

  function TakerAfter(w: World, a: Action, cn: string, last: Option<Conn>): Option<Conn> {
    if IsPhase(w, a, Taking) && w.sessions[a.conn].cn == cn then Some(a.conn) else last
  }

  predicate NewestIs(w: World, cn: string, last: Option<Conn>) {
    if cn in w.newest then last == Some(w.newest[cn]) else last == None
  }

  lemma StepMovesNewest(w: World, a: Action, cn: string, last: Option<Conn>)
    requires Shaped(w) && Enabled(w, a) && cn != "" && NewestIs(w, cn, last)
    ensures NewestIs(Apply(w, a), cn, TakerAfter(w, a, cn, last))
  {
    if a.Advance? && w.sessions[a.conn].phase != Taking {
      AdvanceMinds(w, a.conn);
    }
  }

  lemma {:induction false} RunKeepsService(w: World, acts: seq<Action>, v: World, cn: string, last: Option<Conn>)
    requires WorldOk(w) && ServiceOk(w) && OthersClosed(w) && Reaches(w, acts, v)
    requires cn != "" ==> NewestIs(w, cn, last)
    ensures ServiceOk(v) && OthersClosed(v)
    ensures cn != "" ==> NewestIs(v, cn, LastTaker(w, acts, cn, last))
    decreases |acts|
  {
    if acts != [] {
      StepKeepsOk(w, acts[0]);
      StepKeepsService(w, acts[0]);
      StepKeepsClosed(w, acts[0]);
      if cn != "" {
        StepMovesNewest(w, acts[0], cn, last);
      }
      RunKeepsService(Apply(w, acts[0]), acts[1..], v, cn, TakerAfter(w, acts[0], cn, last));
    }
  }

  /** In every interleaving a session that is being served has been closed exactly if it is a named client's and
      another session of that client has called take since. */
  lemma ClosedIffSuperseded(w: World, acts: seq<Action>, v: World, c: Conn)
    requires Started(w) && Reaches(w, acts, v)
    requires c in v.sessions && InService(v.sessions[c].phase)
    ensures var cn := v.sessions[c].cn;
            c in v.closed <==> cn != "" && LastTaker(w, acts, cn, None) != Some(c)
  {
    StartedIsOk(w);
    RunKeepsService(w, acts, v, v.sessions[c].cn, None);
  }

  /** What the model calls the newest session of a client is the one that called take last. */
  lemma NewestIsLastTaker(w: World, acts: seq<Action>, v: World, cn: string)
    requires Started(w) && Reaches(w, acts, v) && cn != ""
    ensures cn in v.newest <==> LastTaker(w, acts, cn, None).Some?
    ensures cn in v.newest ==> LastTaker(w, acts, cn, None) == Some(v.newest[cn])
  {
    StartedIsOk(w);
    RunKeepsService(w, acts, v, cn, None);
  }
}
