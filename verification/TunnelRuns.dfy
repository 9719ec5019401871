/** The mobile tunnel around the pump: its mutex-protected fields, Stop, and the redial that runs inside Run.
    Connecting, the locked section, the later close and the cancellation are steps of their own,
    and Stop and both loops of the pump interleave with them. */
module TunnelRuns {
  import opened Prelude
  import opened Addresses
  import opened PumpSpec
  import opened PumpLaws
  import opened ClientRedial

  /** Where the redial is. */
  datatype RedialAt =
    | Idle
    | Connected(s: Sess, prefixes: seq<Prefix>)  // before the locked section
    | Refused(s: Sess, changed: bool)            // about to close the new session
    | Changed                                    // about to cancel, after a changed address
    | Failing                                    // about to return context.Canceled

  /** connected records every session the tunnel ever connected. */
  datatype State = State(
    pump: Pump,
    stopped: bool,
    sess: Option<Sess>,
    memory: Memory,
    redial: RedialAt,
    connected: set<Sess>)

  datatype Action =
    | Stop
    | Connect(s: Sess, prefixes: seq<Prefix>)
    | ConnectFails
    | Lock
    | CloseRefused
    | CancelPump
    | ReturnCanceled
    | Other(step: Step)       // any step of the pump but the end of a redial

  /** After Dial and startWithDevice. */
  function Begun(s: Sess, prefixes: seq<Prefix>): State {
    State(Start(Some(s)), false, Some(s), Remember(Memory(None, 0, None), prefixes), Idle, {s})
  }

  predicate Enabled(t: State, a: Action) {
    match a
    case Stop => true
    case Connect(s, _) => t.pump.run.Redialing? && t.redial.Idle? && s !in t.connected
    case ConnectFails => t.pump.run.Redialing? && t.redial.Idle?
    case Lock => t.redial.Connected? && PumpSpec.Enabled(t.pump, RedialOk(t.redial.s))
    case CloseRefused => t.redial.Refused?
    case CancelPump => t.redial.Changed?
    case ReturnCanceled => t.redial.Failing? && t.pump.run.Redialing?
    case Other(step) => !step.RedialOk? && !step.RedialFails? && PumpSpec.Enabled(t.pump, step)
  }

  function Close(p: Pump, s: Option<Sess>): Pump {
    if s == None then p else p.(closed := p.closed + {s.value})
  }

  /** The locked section: a stopped tunnel and a changed address refuse the new session. */
  function LockStep(t: State): State
    requires Enabled(t, Lock)
  {
    var s := t.redial.s;
    if t.stopped then t.(redial := Refused(s, false))
    else if AddressChanged(t.memory, t.redial.prefixes) then t.(redial := Refused(s, true))
    else t.(sess := Some(s), memory := Remember(t.memory, t.redial.prefixes), redial := Idle,
            pump := PumpSpec.Apply(t.pump, RedialOk(s)))
  }

  function Apply(t: State, a: Action): State
    requires Enabled(t, a)
  {
    match a
    case Stop => if t.stopped then t else t.(stopped := true, pump := Close(t.pump.(cancelled := true), t.sess))
    case Connect(s, prefixes) => t.(redial := Connected(s, prefixes), connected := t.connected + {s})
    case ConnectFails => t.(pump := PumpSpec.Apply(t.pump, RedialFails))
    case Lock => LockStep(t)
    case CloseRefused =>
      t.(redial := if t.redial.changed then Changed else Failing, pump := Close(t.pump, Some(t.redial.s)))
    case CancelPump => t.(redial := Failing, pump := t.pump.(cancelled := true))
    case ReturnCanceled => t.(redial := Idle, pump := PumpSpec.Apply(t.pump, RedialFails))
    case Other(step) => t.(pump := PumpSpec.Apply(t.pump, step))
  }

  ghost predicate Reaches(t: State, acts: seq<Action>, u: State)
    decreases |acts|
  {
    if acts == [] then u == t
    else Enabled(t, acts[0]) && Reaches(Apply(t, acts[0]), acts[1..], u)
  }

  // ---- what is kept ----

  predicate InHand(t: State, s: Sess) {
    (t.redial.Connected? || t.redial.Refused?) && t.redial.s == s
  }

  /** The redial runs inside Run; what it holds has not been given to the pump; every connected session has
      been given to the pump, is in the redial's hand, or is closed. */
  ghost predicate RedialOkay(t: State) {
    && (!t.redial.Idle? ==> t.pump.run.Redialing?)
    && (forall s :: InHand(t, s) ==> s in t.connected && s !in t.pump.supplied)
    && t.pump.supplied <= t.connected
    && (forall s <- t.connected :: s in t.pump.supplied || s in t.pump.closed || InHand(t, s))
  }

  /** Of the sessions given to the pump, only the tunnel's own and one that readTUN is about to close may be open. */
  ghost predicate OthersClosed(t: State) {
    && (forall s <- t.pump.supplied :: s in t.pump.closed || t.sess == Some(s) || InTunsHands(t.pump.tun, s))
    && (t.sess.Some? ==> t.sess.value in t.pump.supplied)
  }

  ghost predicate StoppedOk(t: State) {
    t.stopped ==> t.pump.cancelled && (t.sess.Some? ==> t.sess.value in t.pump.closed)
  }

  /** What readTUN closes was in the slot, so it is not what Run is about to install. */
  predicate TunClosesInstalled(t: State) {
    t.pump.tun.TunClosing? ==>
      && t.pump.tun.s in t.pump.supplied
      && (t.pump.run.Dialed? || t.pump.run.Installing? ==> t.pump.run.s != t.pump.tun.s)
  }

  ghost predicate TunnelInv(t: State) {
    OwnershipOk(t.pump) && RedialOkay(t) && OthersClosed(t) && StoppedOk(t) && TunClosesInstalled(t)
  }

  lemma CloseKeepsOwnership(p: Pump, s: Option<Sess>, cancelled: bool)
    requires OwnershipOk(p)
    ensures OwnershipOk(Close(p.(cancelled := cancelled), s))
  {
  }

  lemma PumpStaysOwned(t: State, a: Action)
    requires TunnelInv(t) && Enabled(t, a)
    ensures OwnershipOk(Apply(t, a).pump)
  {
    match a
    case Stop => CloseKeepsOwnership(t.pump, t.sess, true);
    case ConnectFails => StepKeepsOwnership(t.pump, RedialFails);
    case Lock => StepKeepsOwnership(t.pump, RedialOk(t.redial.s));
    case CloseRefused => CloseKeepsOwnership(t.pump, Some(t.redial.s), t.pump.cancelled);
    case CancelPump => CloseKeepsOwnership(t.pump, None, true);
    case ReturnCanceled => StepKeepsOwnership(t.pump, RedialFails);
    case Other(step) => StepKeepsOwnership(t.pump, step);
    case _ =>
  }

  lemma StepKeepsRedial(t: State, a: Action)
    requires TunnelInv(t) && Enabled(t, a)
    ensures RedialOkay(Apply(t, a))
  {
  }

  /** When a new session becomes the tunnel's, Run has no other in its hands and the slot is empty. */
  lemma StepKeepsOthersClosed(t: State, a: Action)
    requires TunnelInv(t) && Enabled(t, a)
    ensures OthersClosed(Apply(t, a))
  {
    if a.Lock? {
      forall s <- t.pump.supplied
        ensures s in t.pump.closed || InTunsHands(t.pump.tun, s)
      {
        assert s in t.pump.closed || Owned(t.pump, s);
      }
    }
  }

  lemma StepKeepsStopped(t: State, a: Action)
    requires TunnelInv(t) && Enabled(t, a)
    ensures StoppedOk(Apply(t, a))
    ensures t.stopped ==> Apply(t, a).stopped && Apply(t, a).sess == t.sess
  {
  }

  lemma StepKeepsTunCloses(t: State, a: Action)
    requires TunnelInv(t) && Enabled(t, a)
    ensures TunClosesInstalled(Apply(t, a))
  {
  }

  lemma StepKeepsTunnel(t: State, a: Action)
    requires TunnelInv(t) && Enabled(t, a)
    ensures TunnelInv(Apply(t, a))
  {
    PumpStaysOwned(t, a);
    StepKeepsRedial(t, a);
    StepKeepsOthersClosed(t, a);
    StepKeepsStopped(t, a);
    StepKeepsTunCloses(t, a);
  }

  lemma {:induction false} RunKeepsTunnel(t: State, acts: seq<Action>, u: State)
    requires TunnelInv(t) && Reaches(t, acts, u)
    ensures TunnelInv(u)
    decreases |acts|
  {
    if acts != [] {
      StepKeepsTunnel(t, acts[0]);
      RunKeepsTunnel(Apply(t, acts[0]), acts[1..], u);
    }
  }

  // ---- theorems ----

  /** No session becomes the tunnel's after Stop, whatever redial was under way. */
  lemma {:induction false} NoSessionAfterStop(t: State, acts: seq<Action>, u: State)
    requires TunnelInv(t) && t.stopped && Reaches(t, acts, u)
    ensures u.stopped && u.sess == t.sess
    decreases |acts|
  {
    if acts != [] {
      StepKeepsTunnel(t, acts[0]);
      StepKeepsStopped(t, acts[0]);
      NoSessionAfterStop(Apply(t, acts[0]), acts[1..], u);
    }
  }

  /** After Stop every session ever connected is closed, or a thread holds it and is about to close it: the
      redial, once its locked section has seen or will see the stop, or readTUN. In particular whatever
      the pump still installs is closed already. */
  lemma StopClosesEverything(s0: Sess, prefixes: seq<Prefix>, acts: seq<Action>, t: State, s: Sess)
    requires Reaches(Begun(s0, prefixes), acts, t) && t.stopped && s in t.connected
    ensures s in t.pump.closed || InHand(t, s) || InTunsHands(t.pump.tun, s)
    ensures t.pump.run == Installing(s) || t.pump.run == Dialed(s) ==> s in t.pump.closed
  {
    RunKeepsTunnel(Begun(s0, prefixes), acts, t);
    assert InRunsHands(t.pump.run, s) ==> s in t.pump.supplied;
  }

  /** Once both loops have ended, stopped or not, every session ever connected is closed. */
  lemma EverySessionIsClosed(s0: Sess, prefixes: seq<Prefix>, acts: seq<Action>, t: State)
    requires Reaches(Begun(s0, prefixes), acts, t) && t.pump.run.Returned? && t.pump.tun == TunDone
    ensures t.connected <= t.pump.closed
  {
    RunKeepsTunnel(Begun(s0, prefixes), acts, t);
    forall s <- t.connected
      ensures s in t.pump.closed
    {
      assert s in t.pump.supplied ==> s in t.pump.closed || Owned(t.pump, s);
    }
  }

  /** A session refused without a changed address was refused by a stopped tunnel, and the pump is cancelled before
      the redial returns. */
  predicate RefusalOk(t: State) {
    && (t.stopped ==> t.pump.cancelled)
    && (t.redial.Refused? && !t.redial.changed ==> t.stopped)
    && (t.redial.Failing? ==> t.pump.cancelled)
  }

  lemma {:induction false} RunKeepsRefusal(t: State, acts: seq<Action>, u: State)
    requires RefusalOk(t) && Reaches(t, acts, u)
    ensures RefusalOk(u)
    decreases |acts|
  {
    if acts != [] {
      RunKeepsRefusal(Apply(t, acts[0]), acts[1..], u);
    }
  }

  /** A redial that refuses its session is the last one: Run goes on to return context.Canceled, without
      another wait, and the session is closed. */
  lemma RefusalEndsRun(s0: Sess, prefixes: seq<Prefix>, acts: seq<Action>, t: State)
    requires Reaches(Begun(s0, prefixes), acts, t) && Enabled(t, ReturnCanceled)
    ensures Apply(t, ReturnCanceled).pump == t.pump.(run := Emptying(ThenReturn(Canceled)))
    ensures forall s <- t.connected :: s in t.pump.supplied || s in t.pump.closed
  {
    RunKeepsRefusal(Begun(s0, prefixes), acts, t);
    RunKeepsTunnel(Begun(s0, prefixes), acts, t);
  }

  /** The list of a redial under way starts with an IPv4 address. */
  predicate HandIPv4First(t: State) {
    t.redial.Connected? ==> IPv4First(t.redial.prefixes)
  }

  predicate ListsIPv4First(acts: seq<Action>) {
    forall a <- acts :: a.Connect? ==> IPv4First(a.prefixes)
  }

  lemma {:induction false} AddressStays(t: State, acts: seq<Action>, u: State)
    requires t.memory.addr.Some? && HandIPv4First(t) && ListsIPv4First(acts) && Reaches(t, acts, u)
    ensures u.memory.addr == t.memory.addr && HandIPv4First(u)
    decreases |acts|
  {
    if acts != [] {
      assert acts[0] in acts;
      AddressStays(Apply(t, acts[0]), acts[1..], u);
    }
  }

  /** Against a server that lists IPv4 first the tunnel remembers the first address of the dial the TUN was built
      with, over every run of redials, refusals and stops. */
  lemma TunAddressStays(s0: Sess, prefixes: seq<Prefix>, acts: seq<Action>, u: State)
    requires IPv4First(prefixes) && ListsIPv4First(acts) && Reaches(Begun(s0, prefixes), acts, u)
    ensures u.memory.addr == Some(prefixes[0].addr)
  {
    AddressStays(Begun(s0, prefixes), acts, u);
  }

  /** So in such a run a redial's session reaches the pump exactly if the tunnel was not stopped and the session was
      assigned that very address; any other is turned away. */
  lemma ReachesThePumpIff(s0: Sess, prefixes: seq<Prefix>, acts: seq<Action>, u: State)
    requires IPv4First(prefixes) && ListsIPv4First(acts) && Reaches(Begun(s0, prefixes), acts, u)
    requires Enabled(u, Lock)
    ensures var v, s := Apply(u, Lock), u.redial.s;
            if !u.stopped && |u.redial.prefixes| > 0 && u.redial.prefixes[0].addr == prefixes[0].addr then
              v.pump.run == Dialed(s) && v.sess == Some(s)
            else v.pump == u.pump && v.sess == u.sess && v.redial == Refused(s, !u.stopped)
  {
    AddressStays(Begun(s0, prefixes), acts, u);
  }
}
