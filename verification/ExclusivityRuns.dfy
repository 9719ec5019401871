/** Exclusivity over whole runs of the server. */
module ExclusivityRuns {
  import opened Addresses
  import opened PoolLaws
  import opened ServerSpec
  import opened ServerLaws
  import opened FamilySteps
  import opened Exclusivity
  import opened ServerRuns

  lemma {:induction false} RunKeepsApart(w: World, acts: seq<Action>, v: World, f: Family)
    requires WorldOk(w) && Apart(w, f) && Reaches(w, acts, v) && Always(w, acts, SparesMemory(f))
    ensures WorldOk(v) && Apart(v, f)
    decreases |acts|
  {
    if acts != [] {
      StepKeepsApart(w, acts[0], f);
      StepKeepsOk(w, acts[0]);
      RunKeepsApart(Apply(w, acts[0]), acts[1..], v, f);
    }
  }

  /** While a family's pool gives no newcomer a remembered address, two sessions of different clients,
      anonymous ones included, never hold one address of that family at the same time. */
  lemma ClientsNeverShare(w: World, acts: seq<Action>, v: World, f: Family, c: Conn, d: Conn)
    requires Started(w) && Reaches(w, acts, v) && Always(w, acts, SparesMemory(f))
    requires v.pools.At(f).Some? && DifferentClients(v, c, d) && BothHold(v, c, d, f)
    ensures v.sessions[c].slots.At(f).addr != v.sessions[d].slots.At(f).addr
  {
    StartedIsOk(w);
    RunKeepsApart(w, acts, v, f);
    ApartMeansDifferent(v, f, c, d);
  }

  // ---- exactly the runs in which clients share no address ----

  /** In every state of the run clients share no address of the family. */
  ghost predicate NeverShare(w: World, acts: seq<Action>, f: Family)
    decreases |acts|
  {
    NoShare(w, f) &&
    (acts == [] || (Shaped(w) && Enabled(w, acts[0]) && NeverShare(Apply(w, acts[0]), acts[1..], f)))
  }

  lemma NextIsOk(w: World, a: Action, f: Family)
    requires WorldOk(w) && Shaped(w) && Enabled(w, a) && w.pools.At(f).Some?
    ensures WorldOk(Apply(w, a)) && Apply(w, a).pools.At(f).Some?
  {
    StepKeepsOk(w, a);
    PoolsLearn(w, a);
  }

  lemma SparingStepSharesNothing(w: World, a: Action, f: Family)
    requires WorldOk(w) && Shaped(w) && Enabled(w, a) && w.pools.At(f).Some? && NoShare(w, f)
    requires Obeys(w, a, SparesHolders(f))
    ensures NoShare(Apply(w, a), f)
  {
    SharesIff(w, a, f);
  }

  lemma {:induction false} SparingRunNeverShares(w: World, acts: seq<Action>, f: Family)
    requires WorldOk(w) && w.pools.At(f).Some? && NoShare(w, f) && Always(w, acts, SparesHolders(f))
    ensures NeverShare(w, acts, f)
    decreases |acts|
  {
    if acts != [] {
      SparingStepSharesNothing(w, acts[0], f);
      NextIsOk(w, acts[0], f);
      SparingRunNeverShares(Apply(w, acts[0]), acts[1..], f);
    }
  }

  lemma {:induction false} UnsharedRunSpares(w: World, acts: seq<Action>, f: Family)
    requires WorldOk(w) && w.pools.At(f).Some? && NeverShare(w, acts, f)
    ensures Always(w, acts, SparesHolders(f))
    decreases |acts|
  {
    if acts != [] {
      SharesIff(w, acts[0], f);
      NextIsOk(w, acts[0], f);
      UnsharedRunSpares(Apply(w, acts[0]), acts[1..], f);
    }
  }

  /** From a state in which clients share nothing, they share nothing throughout a run exactly if no step of
      it offers a client what another client holds. */
  lemma NeverShareIff(w: World, acts: seq<Action>, v: World, f: Family)
    requires WorldOk(w) && w.pools.At(f).Some? && NoShare(w, f) && Reaches(w, acts, v)
    ensures NeverShare(w, acts, f) <==> Always(w, acts, SparesHolders(f))
  {
    if Always(w, acts, SparesHolders(f)) {
      SparingRunNeverShares(w, acts, f);
    }
    if NeverShare(w, acts, f) {
      UnsharedRunSpares(w, acts, f);
    }
  }

  /** From the start, then: two clients never share an address of the family exactly if the pool is never
      asked by a client for which it has an address that a session of another client holds. */
  lemma ShareNothingFromTheStartIff(w: World, acts: seq<Action>, v: World, f: Family)
    requires Started(w) && w.pools.At(f).Some? && Reaches(w, acts, v)
    ensures NeverShare(w, acts, f) <==> Always(w, acts, SparesHolders(f))
  {
    StartedIsOk(w);
    NeverShareIff(w, acts, v, f);
  }

  // ---- a known population ----

  lemma {:induction false} KnownRunSparesMemory(w: World, acts: seq<Action>, f: Family, known: set<string>)
    requires WorldOk(w) && Always(w, acts, AsksFor(f, known))
    requires w.pools.At(f).Some? && "" !in known && known <= w.pools.At(f).value.sticky.Keys
    ensures Always(w, acts, SparesMemory(f))
    decreases |acts|
  {
    if acts != [] {
      PoolsLearn(w, acts[0]);
      StepKeepsOk(w, acts[0]);
      KnownRunSparesMemory(Apply(w, acts[0]), acts[1..], f, known);
    }
  }

  /** Exclusivity for a known population: from any state in which the pool remembers different addresses
      for different clients and all its holders are named, as long as only clients it remembers ask
      it, sessions of different clients never share an address of it. */
  lemma KnownClientsNeverShare(w: World, acts: seq<Action>, v: World, f: Family, known: set<string>, c: Conn, d: Conn)
    requires WorldOk(w) && w.pools.At(f).Some? && Distinct(w.pools.At(f).value.sticky)
    requires forall e <- w.sessions :: Holds(w.sessions[e], f) ==> w.sessions[e].cn != ""
    requires "" !in known && known <= w.pools.At(f).value.sticky.Keys
    requires Reaches(w, acts, v) && Always(w, acts, AsksFor(f, known))
    requires v.pools.At(f).Some? && DifferentClients(v, c, d) && BothHold(v, c, d, f)
    ensures v.sessions[c].slots.At(f).addr != v.sessions[d].slots.At(f).addr
  {
    KnownRunSparesMemory(w, acts, f, known);
    RunKeepsApart(w, acts, v, f);
    ApartMeansDifferent(v, f, c, d);
  }
}
