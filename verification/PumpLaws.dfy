/** What every interleaving of Run and readTUN keeps. */
module PumpLaws {
  import opened Prelude
  import opened PumpSpec

  /** Run is about to install s or to close it. */
  predicate InRunsHands(run: RunAt, s: Sess) {
    match run
    case Dialed(t) => t == s
    case Discarding(t, _) => t == s
    case Installing(t) => t == s
    case Closing(t, _) => t == s
    case _ => false
  }

  predicate InTunsHands(tun: TunAt, s: Sess) {
    tun == TunClosing(s)
  }

  predicate Owned(p: Pump, s: Sess) {
    p.slot == Some(s) || InRunsHands(p.run, s) || InTunsHands(p.tun, s)
  }

  /** Between finding the slot empty and filling it, and from emptying it until the next look, Run
      knows that the slot is empty: only Run fills it. */
  predicate SlotEmptyAt(run: RunAt) {
    match run
    case Redialing => true
    case Sleeping => true
    case Dialed(_) => true
    case Discarding(_, _) => true
    case Installing(_) => true
    case Closing(_, _) => true
    case CheckCtxAgain => true
    case CheckTunAgain => true
    case Returned(_) => true
    case _ => false
  }

  /** cause is a reason to stop: the context was cancelled, or it is the TUN error on record. */
  predicate Justified(p: Pump, cause: Cause) {
    if cause == Canceled then p.cancelled else p.tunErr == Some(cause)
  }

  predicate CauseOk(p: Pump) {
    match p.run
    case Returned(cause) => Justified(p, cause)
    case Discarding(_, cause) => Justified(p, cause)
    case Emptying(after) => after.ThenReturn? ==> Justified(p, after.cause)
    case Closing(_, after) => after.ThenReturn? ==> Justified(p, after.cause)
    case _ => true
  }

  /** The k-th redial failure in a row waits min(2^(k-1), 15) seconds. */
  function WaitAfter(k: nat): nat
    requires k > 0
  {
    Min(Pow2(k - 1), 15)
  }

  /** Run will not redial any more. */
  predicate Stopping(run: RunAt) {
    match run
    case Returned(_) => true
    case Emptying(after) => after.ThenReturn?
    case Closing(_, after) => after.ThenReturn?
    case _ => false
  }

  predicate BackoffOk(p: Pump) {
    && (if p.run.Sleeping? then p.failures > 0 && p.backoff == WaitAfter(p.failures)
        else Stopping(p.run) || p.backoff == WaitAfter(p.failures + 1))
    && forall i :: 0 <= i < |p.waits| ==> p.waits[i].0 > 0 && p.waits[i].1 == WaitAfter(p.waits[i].0)
  }

  ghost predicate OwnershipOk(p: Pump) {
    && (forall s <- p.supplied :: s in p.closed || Owned(p, s))
    && (p.slot.Some? ==> p.slot.value in p.supplied)
    && (forall s :: InRunsHands(p.run, s) ==> s in p.supplied)
    && (SlotEmptyAt(p.run) ==> p.slot == None)
  }

  ghost predicate Inv(p: Pump) {
    OwnershipOk(p) && CauseOk(p) && BackoffOk(p) && (p.tunErr.Some? ==> p.tunErr.value.TunError?)
  }

  lemma StartOk(sess: Option<Sess>)
    ensures Inv(Start(sess))
  {
  }

  lemma DoubledWait(k: nat)
    requires k > 0
    ensures NextBackoff(WaitAfter(k)) == WaitAfter(k + 1)
  {
    if k > 4 {
      Pow2Add(4, k - 5);
      assert Pow2(4) == 16;
    }
  }

  lemma StepKeepsOwnership(p: Pump, step: Step)
    requires OwnershipOk(p) && Enabled(p, step)
    ensures OwnershipOk(Apply(p, step))
  {
    var q := Apply(p, step);
    forall s <- q.supplied
      ensures s in q.closed || Owned(q, s)
    {
      assert s in p.supplied ==> s in p.closed || Owned(p, s);
    }
  }

  lemma StepKeepsBackoff(p: Pump, step: Step)
    requires BackoffOk(p) && Enabled(p, step)
    ensures BackoffOk(Apply(p, step))
  {
    if step == WakeUp {
      DoubledWait(p.failures);
    }
  }

  lemma StepKeepsCause(p: Pump, step: Step)
    requires CauseOk(p) && (p.tunErr.Some? ==> p.tunErr.value.TunError?) && Enabled(p, step)
    ensures var q := Apply(p, step);
            CauseOk(q) && (q.tunErr.Some? ==> q.tunErr.value.TunError?) && (p.tunErr.Some? ==> q.tunErr == p.tunErr)
  {
  }

  lemma StepKeepsInv(p: Pump, step: Step)
    requires Inv(p) && Enabled(p, step)
    ensures Inv(Apply(p, step))
  {
    StepKeepsOwnership(p, step);
    StepKeepsCause(p, step);
    StepKeepsBackoff(p, step);
  }

  lemma {:induction false} RunKeepsInv(p: Pump, steps: seq<Step>, q: Pump)
    requires Inv(p) && Reaches(p, steps, q)
    ensures Inv(q)
    decreases |steps|
  {
    if steps != [] {
      StepKeepsInv(p, steps[0]);
      RunKeepsInv(Apply(p, steps[0]), steps[1..], q);
    }
  }

  /** In every interleaving each unclosed session sits in the slot, or a loop holds it and is about
      to install it or to close it. */
  lemma NoSessionIsLost(sess: Option<Sess>, steps: seq<Step>, p: Pump, s: Sess)
    requires Reaches(Start(sess), steps, p) && s in p.supplied && s !in p.closed
    ensures p.slot == Some(s) || InRunsHands(p.run, s) || InTunsHands(p.tun, s)
  {
    StartOk(sess);
    RunKeepsInv(Start(sess), steps, p);
  }

  /** After Run has returned the slot is empty, and no later step fills it or restarts Run. */
  lemma {:induction false} SlotStaysEmpty(p: Pump, steps: seq<Step>, q: Pump)
    requires Inv(p) && p.run.Returned? && Reaches(p, steps, q)
    ensures p.slot == None && q.slot == None && q.run == p.run
    decreases |steps|
  {
    if steps != [] {
      StepKeepsInv(p, steps[0]);
      SlotStaysEmpty(Apply(p, steps[0]), steps[1..], q);
    }
  }

  /** Once both loops have ended, every session the pump was ever given is closed. */
  lemma AllClosedAtTheEnd(sess: Option<Sess>, steps: seq<Step>, p: Pump)
    requires Reaches(Start(sess), steps, p) && p.run.Returned? && p.tun == TunDone
    ensures p.supplied <= p.closed
  {
    StartOk(sess);
    RunKeepsInv(Start(sess), steps, p);
  }

  /** Run returns only after a cancellation, or with the TUN error on record; nothing that happens
      to sessions or redials ends it. */
  lemma WhyRunReturned(sess: Option<Sess>, steps: seq<Step>, p: Pump)
    requires Reaches(Start(sess), steps, p) && p.run.Returned?
    ensures p.run.cause == Canceled ==> p.cancelled
    ensures p.run.cause != Canceled ==> p.tunErr == Some(p.run.cause)
  {
    StartOk(sess);
    RunKeepsInv(Start(sess), steps, p);
  }

  /** The first TUN error is the one kept. */
  lemma {:induction false} FirstTunErrorIsKept(p: Pump, steps: seq<Step>, q: Pump)
    requires Inv(p) && Reaches(p, steps, q) && p.tunErr.Some?
    ensures q.tunErr == p.tunErr
    decreases |steps|
  {
    if steps != [] {
      StepKeepsCause(p, steps[0]);
      StepKeepsInv(p, steps[0]);
      FirstTunErrorIsKept(Apply(p, steps[0]), steps[1..], q);
    }
  }

  /** Once readTUN has ended it reads no more. */
  lemma {:induction false} DoneReadsNothing(p: Pump, steps: seq<Step>, q: Pump)
    requires p.tun == TunDone && Reaches(p, steps, q)
    ensures q.tun == TunDone && forall step <- steps :: step != TunReadOk && !step.TunReadFails?
    decreases |steps|
  {
    if steps != [] {
      DoneReadsNothing(Apply(p, steps[0]), steps[1..], q);
      assert steps == [steps[0]] + steps[1..];
    }
  }

  /** After a cancellation readTUN forwards at most one more batch, over every run. */
  lemma {:induction false} OneMoreBatch(p: Pump, steps: seq<Step>, q: Pump, i: nat, j: nat)
    requires p.cancelled && Reaches(p, steps, q) && i < j < |steps|
    ensures steps[i] != TunReadOk || steps[j] != TunReadOk
    decreases |steps|
  {
    if i > 0 {
      OneMoreBatch(Apply(p, steps[0]), steps[1..], q, i - 1, j - 1);
    } else if steps[0] == TunReadOk {
      DoneReadsNothing(Apply(p, steps[0]), steps[1..], q);
      assert steps[1..][j - 1] in steps[1..];
    }
  }

  /** Every sleep lasts min(2^(k-1), 15) seconds, k counting the failures since the last session was installed. */
  lemma BackoffSchedule(sess: Option<Sess>, steps: seq<Step>, p: Pump)
    requires Reaches(Start(sess), steps, p)
    ensures forall i :: 0 <= i < |p.waits| ==> p.waits[i].0 > 0 && p.waits[i].1 == WaitAfter(p.waits[i].0)
  {
    StartOk(sess);
    RunKeepsInv(Start(sess), steps, p);
  }

  /** How many redials in a row have failed, counted from the steps alone: one for every failed redial, and
      none again when a session is installed. */
  function FailedInARow(p: Pump, steps: seq<Step>, k: nat): nat
    decreases |steps|
  {
    if steps == [] || !Enabled(p, steps[0]) then k
    else FailedInARow(Apply(p, steps[0]), steps[1..], CountStep(p, steps[0], k))
  }

  function CountStep(p: Pump, step: Step, k: nat): nat {
    if step == RedialFails then k + 1
    else if step == RunGoesOn && p.run.Installing? then 0
    else k
  }

  lemma {:induction false} CountIsKept(p: Pump, steps: seq<Step>, q: Pump, k: nat)
    requires Inv(p) && Reaches(p, steps, q) && (Stopping(p.run) || p.failures == k)
    ensures Inv(q) && (Stopping(q.run) || q.failures == FailedInARow(p, steps, k))
    decreases |steps|
  {
    if steps != [] {
      StepKeepsInv(p, steps[0]);
      CountIsKept(Apply(p, steps[0]), steps[1..], q, CountStep(p, steps[0], k));
    }
  }

  /** A redial that fails when k - 1 have failed since the last installation, or since the start, makes Run wait
      min(2^(k-1), 15) seconds, and nothing else makes it wait. */
  lemma EveryWait(sess: Option<Sess>, steps: seq<Step>, p: Pump, step: Step)
    requires Reaches(Start(sess), steps, p) && Enabled(p, step)
    ensures step == RedialFails && !p.cancelled ==>
              var k := FailedInARow(Start(sess), steps, 0) + 1;
              Apply(p, step).waits == p.waits + [(k, Min(Pow2(k - 1), 15))] && Apply(p, step).run == Sleeping
    ensures !(step == RedialFails && !p.cancelled) ==>
              Apply(p, step).waits == p.waits && (Apply(p, step).run == Sleeping ==> p.run == Sleeping)
  {
    StartOk(sess);
    CountIsKept(Start(sess), steps, p, 0);
  }

  /** A TUN error does not stop the pump at once: Run tests for it before it installs a new session,
      and readTUN can fail between the test and the installation. Then readTUN has ended, and
      Run is reading from a live session which nothing will close until its connection ends. */
  lemma {:induction false} LateInstall(s: Sess, what: nat) returns (steps: seq<Step>, p: Pump)
    ensures Reaches(Start(None), steps, p)
    ensures p.tunErr == Some(TunError(what)) && p.tun == TunDone
    ensures p.run == Reading(s) && p.slot == Some(s) && s !in p.closed && !p.cancelled
  {
    var first, last := [RunGoesOn, RunGoesOn, RunGoesOn, RedialOk(s), RunGoesOn],
                       [TunReadFails(what), TunGoesOn, TunGoesOn, RunGoesOn];
    steps := first + last;
    p := FailBeforeInstall(s, what);
    DialAndTest(s);
    ReachesThen(Start(None), first, AboutToInstall(s), last, p);
  }

  /** readTUN has ended over a failure, and Run reads from the session in the slot all the same. */
  predicate LateReading(p: Pump) {
    p.tun == TunDone && p.tunErr.Some? && p.run.Reading? && p.slot == Some(p.run.s)
  }

  ghost predicate CanReach(p: Pump, steps: seq<Step>, q: Pump) {
    Reaches(p, steps, q) && LateReading(q)
  }

  /** That can follow a failure of the TUN read, whatever happens next, exactly if Run stood between its test
      and the installation when the error was recorded. */
  lemma LateReadingIff(p: Pump)
    requires Inv(p) && p.tunErr.Some? && p.tun == TunEmptying
    ensures (exists steps, q :: CanReach(p, steps, q)) <==> p.run.Installing?
  {
    if p.run.Installing? {
      var s := p.run.s;
      var p1 := p.(tun := TunDone);
      var q := Apply(p1, RunGoesOn);
      StepThen(p1, RunGoesOn, [], q);
      StepThen(p, TunGoesOn, [RunGoesOn], q);
      assert CanReach(p, [TunGoesOn] + [RunGoesOn], q);
    } else {
      forall steps, q | Reaches(p, steps, q)
        ensures !CanReach(p, steps, q)
      {
        NoLaterInstall(p, steps, q);
      }
    }
  }

  /** The error is on record, Run is past installing anything, and readTUN is about to empty the slot or has. */
  predicate PastInstalling(p: Pump) {
    && p.tunErr.Some? && !p.run.Installing?
    && (p.tun.TunEmptying? || p.tun.TunClosing? || p.tun.TunDone?)
    && (p.slot.Some? ==> p.tun.TunEmptying?)
  }

  lemma {:induction false} NoLaterInstall(p: Pump, steps: seq<Step>, q: Pump)
    requires PastInstalling(p) && Reaches(p, steps, q)
    ensures PastInstalling(q)
    decreases |steps|
  {
    if steps != [] {
      NoLaterInstall(Apply(p, steps[0]), steps[1..], q);
    }
  }

  /** Run has redialed, has found no TUN error, and has not installed the session yet. */
  function AboutToInstall(s: Sess): Pump {
    Pump(None, None, false, Installing(s), TunReading, MIN_BACKOFF, 0, {s}, {}, [])
  }

  lemma DialAndTest(s: Sess)
    ensures Reaches(Start(None), [RunGoesOn, RunGoesOn, RunGoesOn, RedialOk(s), RunGoesOn], AboutToInstall(s))
  {
    var p0 := Start(None);
    var p1, p2, p3 := p0.(run := CheckTun), p0.(run := LookSession), p0.(run := Redialing);
    var p4 := p3.(run := Dialed(s), supplied := {s});
    StepThen(p4, RunGoesOn, [], AboutToInstall(s));
    StepThen(p3, RedialOk(s), [RunGoesOn], AboutToInstall(s));
    StepThen(p2, RunGoesOn, [RedialOk(s), RunGoesOn], AboutToInstall(s));
    StepThen(p1, RunGoesOn, [RunGoesOn, RedialOk(s), RunGoesOn], AboutToInstall(s));
    StepThen(p0, RunGoesOn, [RunGoesOn, RunGoesOn, RedialOk(s), RunGoesOn], AboutToInstall(s));
  }

  lemma {:induction false} FailBeforeInstall(s: Sess, what: nat) returns (p: Pump)
    ensures Reaches(AboutToInstall(s), [TunReadFails(what), TunGoesOn, TunGoesOn, RunGoesOn], p)
    ensures p.tunErr == Some(TunError(what)) && p.tun == TunDone
    ensures p.run == Reading(s) && p.slot == Some(s) && s !in p.closed && !p.cancelled
  {
    var p0 := AboutToInstall(s);
    var p1 := p0.(tun := TunFailed(what));
    var p2 := p0.(tun := TunEmptying, tunErr := Some(TunError(what)));
    var p3 := p2.(tun := TunDone);
    p := p3.(run := Reading(s), slot := Some(s));
    StepThen(p3, RunGoesOn, [], p);
    StepThen(p2, TunGoesOn, [RunGoesOn], p);
    StepThen(p1, TunGoesOn, [TunGoesOn, RunGoesOn], p);
    StepThen(p0, TunReadFails(what), [TunGoesOn, TunGoesOn, RunGoesOn], p);
  }

  lemma {:induction false} ReachesThen(p: Pump, steps: seq<Step>, q: Pump, more: seq<Step>, r: Pump)
    requires Reaches(p, steps, q) && Reaches(q, more, r)
    ensures Reaches(p, steps + more, r)
    decreases |steps|
  {
    if steps == [] {
      assert steps + more == more;
    } else {
      assert (steps + more)[1..] == steps[1..] + more;
      ReachesThen(Apply(p, steps[0]), steps[1..], q, more, r);
    }
  }

  lemma StepThen(p: Pump, step: Step, steps: seq<Step>, q: Pump)
    requires Enabled(p, step) && Reaches(Apply(p, step), steps, q)
    ensures Reaches(p, [step] + steps, q)
  {
    assert ([step] + steps)[1..] == steps;
  }

  // ---- what the mobile wrapper reports ----

  /** runPump calls OnError for what Run returned unless the tunnel was stopped or the cause is a cancellation. */
  function ReportedError(stopped: bool, cause: Cause): Option<Cause> {
    if stopped || cause == Canceled then None else Some(cause)
  }

  /** OnError fires exactly when Run returned for the recorded TUN error on a tunnel nobody stopped. */
  lemma OnlyTunErrorsAreReported(sess: Option<Sess>, steps: seq<Step>, p: Pump, stopped: bool)
    requires Reaches(Start(sess), steps, p) && p.run.Returned?
    ensures var reported := ReportedError(stopped, p.run.cause);
            && (reported.Some? ==> !stopped && p.tunErr == reported)
            && (reported == None ==> stopped || p.cancelled)
  {
    WhyRunReturned(sess, steps, p);
  }
}
