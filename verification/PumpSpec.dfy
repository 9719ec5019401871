/** The client pump: Run, which owns reconnecting, and readTUN share one session slot.
    Each access to the slot or to the TUN error under the mutex is one step, closing a session is
    a step of its own, and the two loops, cancellation and outside closes interleave freely.
    The TUN device is attached (Run without one returns at once and starts nothing). */
module PumpSpec {
  import opened Prelude

  /** A session supplied to the pump. */
  type Sess = nat

  /** Why Run returned: its context was cancelled, or the TUN device failed in some way. */
  datatype Cause = Canceled | TunError(what: nat)

  const MIN_BACKOFF: nat := 1
  const MAX_BACKOFF: nat := 15

  /** What Run does once it has closed the session it took out of the slot. */
  datatype After = ThenCheck | ThenReturn(cause: Cause)

  datatype RunAt =
    | CheckCtx
    | CheckTun
    | LookSession
    | Redialing
    | Sleeping
    | Dialed(s: Sess)
    | Discarding(s: Sess, cause: Cause)
    | Installing(s: Sess)
    | Reading(s: Sess)
    | Emptying(after: After)
    | Closing(s: Sess, after: After)
    | CheckCtxAgain
    | CheckTunAgain
    | Returned(cause: Cause)

  datatype TunAt =
    | TunReading
    | TunFailed(what: nat)
    | TunEmptying
    | TunClosing(s: Sess)
    | TunDone

  /** slot and tunErr are the mutex-protected fields. supplied, closed and waits record what
      happened: all sessions ever given to the pump, those closed, and for each sleep the number
      of redials that had failed in a row and the seconds slept. */
  datatype Pump = Pump(
    slot: Option<Sess>,
    tunErr: Option<Cause>,
    cancelled: bool,
    run: RunAt,
    tun: TunAt,
    backoff: nat,
    failures: nat,
    supplied: set<Sess>,
    closed: set<Sess>,
    waits: seq<(nat, nat)>)

  datatype Step =
    | Cancel                 // the context is cancelled
    | CloseOutside(s: Sess)  // Tunnel.Stop, or the peer, closes a session
    | RunGoesOn              // Run's next step where it has no choice
    | RedialOk(s: Sess)
    | RedialFails
    | WakeUp                 // the sleep ends by the timer
    | SleepCut               // the sleep ends by cancellation
    | ReadEnds               // readConn returns without a TUN failure
    | TunWriteFails(what: nat)
    | TunReadFails(what: nat)
    | TunReadOk              // a batch is forwarded; the loop checks the context
    | TunGoesOn

  /** The pump as NewPump and Run leave it before their first step. */
  function Start(sess: Option<Sess>): Pump {
    Pump(sess, None, false, CheckCtx, TunReading, MIN_BACKOFF, 0,
         if sess == None then {} else {sess.value}, {}, [])
  }

  predicate Enabled(p: Pump, step: Step) {
    match step
    case Cancel => true
    case CloseOutside(s) => s in p.supplied
    case RunGoesOn => !p.run.Redialing? && !p.run.Sleeping? && !p.run.Reading? && !p.run.Returned?
    case RedialOk(s) => p.run.Redialing? && s !in p.supplied
    case RedialFails => p.run.Redialing?
    case WakeUp => p.run.Sleeping?
    case SleepCut => p.run.Sleeping? && p.cancelled
    case ReadEnds => p.run.Reading?
    case TunWriteFails(_) => p.run.Reading?
    case TunReadFails(_) => p.tun.TunReading?
    case TunReadOk => p.tun.TunReading?
    case TunGoesOn => p.tun.TunFailed? || p.tun.TunEmptying? || p.tun.TunClosing?
  }

  /** setTunErr keeps the first error. */
  function SetTunErr(tunErr: Option<Cause>, e: Cause): Option<Cause> {
    if tunErr == None then Some(e) else tunErr
  }

  function NextBackoff(backoff: nat): nat {
    if 2 * backoff > MAX_BACKOFF then MAX_BACKOFF else 2 * backoff
  }

  function AfterClose(after: After): RunAt {
    match after
    case ThenCheck => CheckCtxAgain
    case ThenReturn(cause) => Returned(cause)
  }

  /** One step of Run that offers no choice. */
  function RunOn(p: Pump): Pump
    requires Enabled(p, RunGoesOn)
  {
    match p.run
    case CheckCtx => p.(run := if p.cancelled then Emptying(ThenReturn(Canceled)) else CheckTun)
    case CheckTun =>
      p.(run := if p.tunErr.Some? then Emptying(ThenReturn(p.tunErr.value)) else LookSession)
    case LookSession => p.(run := if p.slot == None then Redialing else Reading(p.slot.value))
    case Dialed(s) =>
      p.(run := if p.tunErr.Some? then Discarding(s, p.tunErr.value) else Installing(s))
    case Discarding(s, cause) => p.(run := Emptying(ThenReturn(cause)), closed := p.closed + {s})
    case Installing(s) => p.(run := Reading(s), slot := Some(s), backoff := MIN_BACKOFF, failures := 0)
    case Emptying(after) =>
      p.(run := if p.slot == None then AfterClose(after) else Closing(p.slot.value, after), slot := None)
    case Closing(s, after) => p.(run := AfterClose(after), closed := p.closed + {s})
    case CheckCtxAgain => p.(run := if p.cancelled then Returned(Canceled) else CheckTunAgain)
    case CheckTunAgain => p.(run := if p.tunErr.Some? then Returned(p.tunErr.value) else CheckCtx)
  }

  /** One step of readTUN after its read has failed. */
  function TunOn(p: Pump): Pump
    requires Enabled(p, TunGoesOn)
  {
    match p.tun
    case TunFailed(what) => p.(tun := TunEmptying, tunErr := SetTunErr(p.tunErr, TunError(what)))
    case TunEmptying => p.(tun := if p.slot == None then TunDone else TunClosing(p.slot.value), slot := None)
    case TunClosing(s) => p.(tun := TunDone, closed := p.closed + {s})
  }

  function Apply(p: Pump, step: Step): Pump
    requires Enabled(p, step)
  {
    match step
    case Cancel => p.(cancelled := true)
    case CloseOutside(s) => p.(closed := p.closed + {s})
    case RunGoesOn => RunOn(p)
    case RedialOk(s) => p.(run := Dialed(s), supplied := p.supplied + {s})
    case RedialFails =>
      if p.cancelled then p.(run := Emptying(ThenReturn(Canceled)))
      else p.(run := Sleeping, failures := p.failures + 1, waits := p.waits + [(p.failures + 1, p.backoff)])
    case WakeUp => p.(run := CheckCtx, backoff := NextBackoff(p.backoff))
    case SleepCut => p.(run := Emptying(ThenReturn(Canceled)))
    case ReadEnds => p.(run := Emptying(ThenCheck))
    case TunWriteFails(what) => p.(run := Emptying(ThenCheck), tunErr := SetTunErr(p.tunErr, TunError(what)))
    case TunReadFails(what) => p.(tun := TunFailed(what))
    case TunReadOk => p.(tun := if p.cancelled then TunDone else TunReading)
    case TunGoesOn => TunOn(p)
  }

  ghost predicate Reaches(p: Pump, steps: seq<Step>, q: Pump)
    decreases |steps|
  {
    if steps == [] then q == p
    else Enabled(p, steps[0]) && Reaches(Apply(p, steps[0]), steps[1..], q)
  }
}
