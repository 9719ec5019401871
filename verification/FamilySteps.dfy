/** One address family at a time: which steps touch a family's pool and holders, and runs in which every
    step obeys a rule about that family. */
module FamilySteps {
  import opened Prelude
  import opened Addresses
  import opened PoolSpec
  import opened PoolLaws
  import opened ServerSpec
  import opened ServerLaws

  /** Between take and the last Router.Add. */
  predicate SettingUp(ph: Phase) {
    ph.Allocating? || ph.Announcing? || ph.Adding?
  }

  predicate IsPhase(w: World, a: Action, ph: Phase) {
    a.Advance? && a.conn in w.sessions && w.sessions[a.conn].phase == ph
  }

  /** A CN calls take only when no other session of that CN is still setting up. */
  predicate Serialized(w: World, a: Action) {
    IsPhase(w, a, Taking) ==>
      forall d <- w.sessions ::
        d != a.conn && w.sessions[d].cn == w.sessions[a.conn].cn != "" ==> !SettingUp(w.sessions[d].phase)
  }

  predicate Holds(s: Session, f: Family) {
    s.slots.At(f).lease.Some? && s.slots.At(f).addr.Some?
  }

  /** This step is an AllocateFor from the family's pool. */
  predicate Asks(w: World, a: Action, f: Family) {
    IsPhase(w, a, Allocating(f)) && w.pools.At(f).Some?
  }

  /** This step is a Release to the family's pool. */
  predicate Returns(w: World, a: Action, f: Family) {
    IsPhase(w, a, Releasing(f)) && w.pools.At(f).Some? && Holds(w.sessions[a.conn], f)
  }

  /** Sessions of different clients, two anonymous ones included. */
  predicate DifferentClients(w: World, c: Conn, d: Conn) {
    c in w.sessions && d in w.sessions && c != d && (w.sessions[c].cn != w.sessions[d].cn || w.sessions[c].cn == "")
  }

  /** This step is an AllocateFor, and what the pool has for its client is held by a session of another. */
  ghost predicate OffersHeld(w: World, a: Action, f: Family)
    requires Shaped(w)
  {
    Asks(w, a, f) && exists d :: DifferentClients(w, a.conn, d) && HoldsOffer(w, a.conn, d, f)
  }

  ghost predicate HoldsOffer(w: World, c: Conn, d: Conn, f: Family)
    requires Shaped(w) && w.pools.At(f).Some? && c in w.sessions && d in w.sessions
  {
    Holds(w.sessions[d], f) && Offered(w.pools.At(f).value, w.sessions[c].cn, w.sessions[d].slots.At(f).addr.value)
  }

  // ---- rules for steps ----

  datatype Rule =
    | TakesTurns                                  // no two setups of one CN overlap
    | CountsUp(f: Family)                         // the lease counter of this pool does not wrap
    | SparesMemory(f: Family)                     // this pool gives no newcomer a remembered address
    | StaysForward(f: Family)                     // the cursor of this IPv6 pool does not pass the end
    | AsksFor(f: Family, known: set<string>)      // only these clients ask this pool
    | SparesHolders(f: Family)                    // this pool offers no client what another client holds

  ghost predicate Obeys(w: World, a: Action, rule: Rule)
    requires Shaped(w)
  {
    match rule
    case TakesTurns => Serialized(w, a)
    case CountsUp(f) => Asks(w, a, f) ==> w.pools.At(f).value.nextLease + 1 < LEASE_SPAN
    case SparesMemory(f) => Asks(w, a, f) ==> !Reissues(w.pools.At(f).value, w.sessions[a.conn].cn)
    case StaysForward(f) =>
      Asks(w, a, f) && !w.pools.At(f).value.Is4() ==> !Wraps(w.pools.At(f).value, w.sessions[a.conn].cn)
    case SparesHolders(f) => !OffersHeld(w, a, f)
    case AsksFor(f, known) => Asks(w, a, f) ==> w.sessions[a.conn].cn in known
  }

  /** Every step of the run obeys the rule. */
  ghost predicate Always(w: World, acts: seq<Action>, rule: Rule)
    decreases |acts|
  {
    acts == [] ||
    (Shaped(w) && Enabled(w, acts[0]) && Obeys(w, acts[0], rule) && Always(Apply(w, acts[0]), acts[1..], rule))
  }

  // ---- steps that leave a family alone ----

  /** The family's pool is the same, and the moving session keeps its address and lease in the family,
      unless it is given the fixed address because there is no pool. */
  predicate LeavesAlone(w: World, v: World, c: Conn, f: Family) {
    && v.pools.At(f) == w.pools.At(f)
    && c in v.sessions && v.sessions == w.sessions[c := v.sessions[c]]
    && (w.pools.At(f).Some? || !(c in w.sessions && w.sessions[c].phase == Allocating(f)) ==>
          SameHolding(w.sessions, c, v.sessions[c], f))
  }

  predicate SameHolding(sessions: map<Conn, Session>, c: Conn, s: Session, f: Family) {
    if c in sessions then
      && s.cn == sessions[c].cn
      && s.slots.At(f).addr == sessions[c].slots.At(f).addr
      && s.slots.At(f).lease == sessions[c].slots.At(f).lease
    else s.slots.At(f) == EMPTY_SLOT
  }

  lemma AllocElsewhere(w: World, c: Conn, g: Family, f: Family)
    requires Shaped(w) && c in w.sessions && w.sessions[c].phase == Allocating(g) && (g != f || w.pools.At(f) == None)
    ensures LeavesAlone(w, AllocStep(w, c, g), c, f)
  {
    if w.pools.At(g).Some? {
      var (q, grant) := AllocateFor(w.pools.At(g).value, w.sessions[c].cn);
      assert AllocStep(w, c, g) == AllocWith(w, c, g, q, grant);
    }
  }

  lemma ReleaseElsewhere(w: World, c: Conn, g: Family, f: Family)
    requires Shaped(w) && c in w.sessions && (g != f || w.pools.At(f) == None || !Holds(w.sessions[c], f))
    ensures LeavesAlone(w, ReleaseStep(w, c, g), c, f)
  {
  }

  lemma AddElsewhere(w: World, c: Conn, g: Family, f: Family)
    requires c in w.sessions
    ensures LeavesAlone(w, AddStep(w, c, g), c, f)
  {
  }

  lemma RemoveElsewhere(w: World, c: Conn, g: Family, f: Family)
    requires c in w.sessions
    ensures LeavesAlone(w, RemoveStep(w, c, g), c, f)
  {
  }

  /** Only an AllocateFor and a Release in the family touch its pool and its holders. */
  lemma OtherStep(w: World, a: Action, f: Family)
    requires Shaped(w) && Enabled(w, a) && !Asks(w, a, f) && !Returns(w, a, f)
    ensures LeavesAlone(w, Apply(w, a), a.conn, f)
  {
    if a.Advance? {
      match w.sessions[a.conn].phase
      case Allocating(g) => AllocElsewhere(w, a.conn, g, f);
      case Adding(g) => AddElsewhere(w, a.conn, g, f);
      case Removing(g) => RemoveElsewhere(w, a.conn, g, f);
      case Releasing(g) => ReleaseElsewhere(w, a.conn, g, f);
      case _ =>
    }
  }

  /** What an AllocateFor leaves: the pool served, and the session given what was granted. */
  lemma {:induction false} AskingStep(w: World, a: Action, f: Family) returns (q: Pool, g: Grant)
    requires WorldOk(w) && Shaped(w) && Enabled(w, a) && Asks(w, a, f)
    ensures (q, g) == AllocateFor(w.pools.At(f).value, w.sessions[a.conn].cn)
    ensures Served(w.pools.At(f).value, w.sessions[a.conn].cn, q, g)
    ensures Apply(w, a) == AllocWith(w, a.conn, f, q, g)
    ensures !Holds(w.sessions[a.conn], f) && w.sessions[a.conn].slots.At(f).lease == None
    ensures var s := Apply(w, a).sessions[a.conn];
            && s.cn == w.sessions[a.conn].cn
            && if g == Denied then !Holds(s, f)
               else s.slots.At(f).addr == Some(g.prefix.addr) && s.slots.At(f).lease == Some(g.lease)
  {
    var p, cn := w.pools.At(f).value, w.sessions[a.conn].cn;
    assert SessionOk(w.pools, w.sessions[a.conn]);
    AllocateLaw(p, cn);
    q, g := AllocateFor(p, cn).0, AllocateFor(p, cn).1;
  }

  /** What a Release leaves: the address returned if the lease allows it, and the session without its lease. */
  lemma {:induction false} ReturningStep(w: World, a: Action, f: Family) returns (q: Pool)
    requires Shaped(w) && Enabled(w, a) && Returns(w, a, f)
    ensures var s := w.sessions[a.conn];
            Returned(w.pools.At(f).value, s.cn, s.slots.At(f).lease.value, s.slots.At(f).addr.value, q)
    ensures Apply(w, a) == ReleaseWith(w, a.conn, f, q)
    ensures Apply(w, a).sessions[a.conn].cn == w.sessions[a.conn].cn && !Holds(Apply(w, a).sessions[a.conn], f)
  {
    var p, s := w.pools.At(f).value, w.sessions[a.conn];
    var host := HostPrefix(s.slots.At(f).addr.value, p.Is4());
    ReleaseLaw(p, s.cn, s.slots.At(f).lease.value, host);
    q := Release(p, s.cn, s.slots.At(f).lease.value, host);
  }
}
