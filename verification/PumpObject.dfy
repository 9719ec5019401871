/** Pump as an object: its two mutex-protected fields, the methods that touch them, and one turn of
    the loop in Run. A turn is the state machine of PumpSpec with the other loop silent except
    where Run blocks. */
module PumpObject {
  import opened Prelude
  import opened PumpSpec
  import opened PumpLaws

  datatype ReadEnd = ConnLost | WriteFailed(what: nat)

  /** What happens while Run waits for the redial: the context may be cancelled and the TUN reader may fail. */
  datatype Meanwhile = Meanwhile(cancel: bool, tunFails: Option<nat>)

  /** What a turn of Run ends with: None to go round again. */
  function TurnEnds(p: Pump, redial: Option<Sess>, during: Meanwhile, wakes: bool, read: ReadEnd): Option<Cause> {
    if p.cancelled then Some(Canceled)
    else if p.tunErr.Some? then p.tunErr
    else if p.slot == None && redial == None then
      if during.cancel || !wakes then Some(Canceled) else None
    else if p.slot == None && during.tunFails.Some? then Some(TunError(during.tunFails.value))
    else if p.slot == None && during.cancel then Some(Canceled)
    else if read.WriteFailed? then Some(TunError(read.what))
    else None
  }

  /** The session a turn works with: the one in the slot, or else the one the redial supplies. */
  function TurnSession(p: Pump, redial: Option<Sess>): Option<Sess> {
    if p.slot.Some? then p.slot else if p.cancelled || p.tunErr.Some? then None else redial
  }

  function Only(s: Option<Sess>): set<Sess> {
    if s == None then {} else {s.value}
  }

  function Ended(r: Option<Cause>): RunAt {
    if r.Some? then Returned(r.value) else CheckCtx
  }

  class PumpState {
    var sess: Option<Sess>
    var tunErr: Option<Cause>
    var cancelled: bool
    var backoff: nat
    var readerRuns: bool
    var failures: nat
    var supplied: set<Sess>
    var closed: set<Sess>
    var waits: seq<(nat, nat)>

    constructor (sess: Option<Sess>)
      ensures View(CheckCtx) == Start(sess)
    {
      this.sess, tunErr, cancelled, backoff, readerRuns := sess, None, false, MIN_BACKOFF, true;
      failures, supplied, closed, waits := 0, Only(sess), {}, [];
    }

    function View(run: RunAt): Pump
      reads this
    {
      Pump(sess, tunErr, cancelled, run, if readerRuns then TunReading else TunDone,
           backoff, failures, supplied, closed, waits)
    }

    /** The slot is emptied and what was in it is closed. */
    method CloseSession()
      modifies this`sess, this`closed
      ensures sess == None && closed == old(closed) + Only(old(sess))
    {
      var s := sess;
      sess := None;
      if s.Some? {
        closed := closed + {s.value};
      }
    }

    /** The first error is the one kept. */
    method SetTunErr(e: Cause)
      modifies this`tunErr
      ensures tunErr == PumpSpec.SetTunErr(old(tunErr), e)
    {
      if tunErr == None {
        tunErr := Some(e);
      }
    }

    /** readTUN when its read fails: the error, then the session, then the end. */
    method ReaderFails(what: nat, run: RunAt) returns (ghost steps: seq<Step>)
      requires readerRuns
      modifies this`tunErr, this`sess, this`closed, this`readerRuns
      ensures !readerRuns && sess == None && closed == old(closed) + Only(old(sess))
      ensures tunErr == PumpSpec.SetTunErr(old(tunErr), TunError(what))
      ensures Reaches(old(View(run)), steps, View(run))
    {
      ghost var p := View(run);
      SetTunErr(TunError(what));
      CloseSession();
      readerRuns := false;
      ghost var p1 := Apply(Apply(p, TunReadFails(what)), TunGoesOn);
      ghost var p2 := Apply(p1, TunGoesOn);
      ghost var more := if p.slot == None then [] else [TunGoesOn];
      ghost var q := if p.slot == None then p2 else Apply(p2, TunGoesOn);
      assert q == View(run);
      if p.slot != None {
        StepThen(p2, TunGoesOn, [], q);
      }
      StepThen(p1, TunGoesOn, more, q);
      StepThen(Apply(p, TunReadFails(what)), TunGoesOn, [TunGoesOn] + more, q);
      StepThen(p, TunReadFails(what), [TunGoesOn] + ([TunGoesOn] + more), q);
      steps := [TunReadFails(what)] + ([TunGoesOn] + ([TunGoesOn] + more));
    }

    /** closeSession followed by a return, or by the checks after a lost connection. */
    method Leave(after: After) returns (ghost steps: seq<Step>)
      modifies this`sess, this`closed
      ensures sess == None && closed == old(closed) + Only(old(sess))
      ensures Reaches(old(View(Emptying(after))), steps, View(AfterClose(after)))
    {
      ghost var p := View(Emptying(after));
      CloseSession();
      ghost var p1 := Apply(p, RunGoesOn);
      if p.slot == None {
        steps := [RunGoesOn];
        StepThen(p, RunGoesOn, [], p1);
      } else {
        StepThen(p1, RunGoesOn, [], Apply(p1, RunGoesOn));
        StepThen(p, RunGoesOn, [RunGoesOn], Apply(p1, RunGoesOn));
        steps := [RunGoesOn] + [RunGoesOn];
      }
    }

    /** Waiting for the redial, with what happens meanwhile. */
    method AwaitRedial(during: Meanwhile) returns (ghost steps: seq<Step>)
      requires sess == None && (during.tunFails.Some? ==> readerRuns)
      modifies this`cancelled, this`tunErr, this`sess, this`closed, this`readerRuns
      ensures sess == None && closed == old(closed) && cancelled == (old(cancelled) || during.cancel)
      ensures during.tunFails.None? ==> tunErr == old(tunErr)
      ensures during.tunFails.Some? ==> tunErr == PumpSpec.SetTunErr(old(tunErr), TunError(during.tunFails.value))
      ensures Reaches(old(View(Redialing)), steps, View(Redialing))
    {
      ghost var p := View(Redialing);
      steps := [];
      if during.cancel {
        cancelled := true;
        Snoc(p, [], p, Cancel);
        steps := [] + [Cancel];
      }
      if during.tunFails.Some? {
        ghost var q := View(Redialing);
        ghost var more := ReaderFails(during.tunFails.value, Redialing);
        ReachesThen(p, steps, q, more, View(Redialing));
        steps := steps + more;
      }
    }

    /** The failed redial: return if cancelled, otherwise back off and try again. */
    method RedialFailed(wakes: bool) returns (r: Option<Cause>, ghost steps: seq<Step>)
      requires sess == None
      modifies this
      ensures sess == None && closed == old(closed) && supplied == old(supplied)
      ensures r == if old(cancelled) || !wakes then Some(Canceled) else None
      ensures backoff == if r == None then (if 2 * old(backoff) > 15 then 15 else 2 * old(backoff)) else old(backoff)
      ensures waits == old(waits) + if old(cancelled) then [] else [(old(failures) + 1, old(backoff))]
      ensures Reaches(old(View(Redialing)), steps, View(Ended(r)))
    {
      ghost var p := View(Redialing);
      ghost var q := Apply(p, RedialFails);
      ghost var leave;
      if cancelled {
        leave := Leave(ThenReturn(Canceled));
        StepThen(p, RedialFails, leave, View(Returned(Canceled)));
        return Some(Canceled), [RedialFails] + leave;
      }
      failures, waits := failures + 1, waits + [(failures + 1, backoff)];
      if !wakes {
        cancelled := true;
        assert Apply(Apply(q, Cancel), SleepCut) == View(Emptying(ThenReturn(Canceled)));
        leave := Leave(ThenReturn(Canceled));
        StepThen(Apply(q, Cancel), SleepCut, leave, View(Returned(Canceled)));
        StepThen(q, Cancel, [SleepCut] + leave, View(Returned(Canceled)));
        StepThen(p, RedialFails, [Cancel] + ([SleepCut] + leave), View(Returned(Canceled)));
        return Some(Canceled), [RedialFails] + ([Cancel] + ([SleepCut] + leave));
      }
      backoff := backoff * 2;
      if backoff > MAX_BACKOFF {
        backoff := MAX_BACKOFF;
      }
      StepThen(q, WakeUp, [], View(CheckCtx));
      StepThen(p, RedialFails, [WakeUp], View(CheckCtx));
      return None, [RedialFails] + [WakeUp];
    }

    /** The new session is installed, unless the TUN has failed meanwhile: then it is closed. */
    method RedialSucceeded(s: Sess) returns (r: Option<Cause>, ghost steps: seq<Step>)
      requires sess == None && s !in supplied
      modifies this
      ensures r == old(tunErr) && supplied == old(supplied) + {s} && waits == old(waits) && cancelled == old(cancelled)
      ensures r == None ==> backoff == MIN_BACKOFF == 1 && failures == 0
      ensures if r == None then sess == Some(s) && closed == old(closed) && tunErr == None
              else sess == None && closed == old(closed) + {s}
      ensures Reaches(old(View(Redialing)), steps, View(if r.Some? then Returned(r.value) else Reading(s)))
    {
      ghost var p := View(Redialing);
      ghost var q := Apply(p, RedialOk(s));
      supplied := supplied + {s};
      if tunErr.Some? {
        closed := closed + {s};
        assert Apply(Apply(q, RunGoesOn), RunGoesOn) == View(Emptying(ThenReturn(tunErr.value)));
        ghost var leave := Leave(ThenReturn(tunErr.value));
        ghost var u := View(Returned(tunErr.value));
        StepThen(Apply(q, RunGoesOn), RunGoesOn, leave, u);
        StepThen(q, RunGoesOn, [RunGoesOn] + leave, u);
        StepThen(p, RedialOk(s), [RunGoesOn] + ([RunGoesOn] + leave), u);
        return tunErr, [RedialOk(s)] + ([RunGoesOn] + ([RunGoesOn] + leave));
      }
      sess := Some(s);
      backoff, failures := MIN_BACKOFF, 0;
      ghost var u := View(Reading(s));
      StepThen(Apply(q, RunGoesOn), RunGoesOn, [], u);
      StepThen(q, RunGoesOn, [RunGoesOn], u);
      StepThen(p, RedialOk(s), [RunGoesOn] + [RunGoesOn], u);
      return None, [RedialOk(s)] + ([RunGoesOn] + [RunGoesOn]);
    }

    /** readConn and what follows it: the session is closed, and Run goes on unless the context was
        cancelled or the TUN failed. */
    method ReadUntilLost(s: Sess, read: ReadEnd) returns (r: Option<Cause>, ghost steps: seq<Step>)
      requires sess == Some(s)
      modifies this
      ensures sess == None && closed == old(closed) + {s} && supplied == old(supplied) && waits == old(waits)
      ensures r == if cancelled then Some(Canceled)
                   else if read.WriteFailed? then PumpSpec.SetTunErr(old(tunErr), TunError(read.what)) else old(tunErr)
      ensures cancelled == old(cancelled)
      ensures Reaches(old(View(Reading(s))), steps, View(Ended(r)))
    {
      ghost var p := View(Reading(s));
      ghost var step := if read.ConnLost? then ReadEnds else TunWriteFails(read.what);
      if read.WriteFailed? {
        SetTunErr(TunError(read.what));
      }
      ghost var leave := Leave(ThenCheck);
      ghost var q := View(CheckCtxAgain);
      StepThen(p, step, leave, q);
      steps := [step] + leave;
      Snoc(p, steps, q, RunGoesOn);
      steps := steps + [RunGoesOn];
      if cancelled {
        return Some(Canceled), steps;
      }
      Snoc(p, steps, View(CheckTunAgain), RunGoesOn);
      return tunErr, steps + [RunGoesOn];
    }

    /** From an empty slot to an installed session (got), to the head of the loop or to a return. */
    method AcquireSession(redial: Option<Sess>, during: Meanwhile, wakes: bool)
      returns (r: Option<Cause>, got: bool, ghost steps: seq<Step>)
      requires sess == None && tunErr == None && !cancelled
      requires redial.Some? ==> redial.value !in supplied
      requires during.tunFails.Some? ==> readerRuns
      modifies this
      ensures got <==> redial.Some? && during.tunFails.None?
      ensures Reaches(old(View(Redialing)), steps, View(if got then Reading(redial.value) else Ended(r)))
      ensures got ==>
        r == None && sess == redial && closed == old(closed) && tunErr == None && cancelled == during.cancel
      ensures !got ==> sess == None && closed == old(closed) + Only(redial)
      ensures !got ==> r == if redial.Some? then Some(TunError(during.tunFails.value))
                            else if during.cancel || !wakes then Some(Canceled) else None
      ensures supplied == old(supplied) + Only(redial)
      ensures waits == old(waits) + if redial == None && !during.cancel then [(old(failures) + 1, old(backoff))] else []
    {
      ghost var p := View(Redialing);
      steps := AwaitRedial(during);
      ghost var q, more := View(Redialing), [];
      if redial.None? {
        r, more := RedialFailed(wakes);
        got := false;
      } else {
        r, more := RedialSucceeded(redial.value);
        got := r == None;
      }
      ReachesThen(p, steps, q, more, View(if got then Reading(redial.value) else Ended(r)));
      steps := steps + more;
    }

    /** The checks at the head of the loop: a reason to return, or on to the slot. */
    method CheckStop() returns (r: Option<Cause>, ghost steps: seq<Step>)
      modifies this`sess, this`closed
      ensures r == if cancelled then Some(Canceled) else tunErr
      ensures if r == None then sess == old(sess) && closed == old(closed)
              else sess == None && closed == old(closed) + Only(old(sess))
      ensures Reaches(old(View(CheckCtx)), steps, View(if r.Some? then Returned(r.value) else LookSession))
    {
      ghost var p := View(CheckCtx);
      ghost var more;
      if cancelled {
        more := Leave(ThenReturn(Canceled));
        StepThen(p, RunGoesOn, more, View(Returned(Canceled)));
        return Some(Canceled), [RunGoesOn] + more;
      }
      if tunErr.Some? {
        ghost var q := View(CheckTun);
        more := Leave(ThenReturn(tunErr.value));
        StepThen(q, RunGoesOn, more, View(Returned(tunErr.value)));
        StepThen(p, RunGoesOn, [RunGoesOn] + more, View(Returned(tunErr.value)));
        return tunErr, [RunGoesOn] + ([RunGoesOn] + more);
      }
      StepThen(View(CheckTun), RunGoesOn, [], View(LookSession));
      StepThen(p, RunGoesOn, [RunGoesOn], View(LookSession));
      return None, [RunGoesOn] + [RunGoesOn];
    }

    /** One turn of the loop in Run is a run of the state machine, from the head of the loop back to it or
        to a return. It closes exactly the session it worked with, records a wait exactly when a redial
        fails uncancelled, and leaves the slot empty. */
    method Turn(redial: Option<Sess>, during: Meanwhile, wakes: bool, read: ReadEnd)
      returns (r: Option<Cause>, ghost steps: seq<Step>)
      requires redial.Some? ==> redial.value !in supplied
      requires during.tunFails.Some? ==> readerRuns
      modifies this
      ensures Reaches(old(View(CheckCtx)), steps, View(Ended(r)))
      ensures r == TurnEnds(old(View(CheckCtx)), redial, during, wakes, read) && sess == None
      ensures closed == old(closed) + Only(TurnSession(old(View(CheckCtx)), redial))
      ensures supplied == old(supplied) +
                if old(sess) == None then Only(TurnSession(old(View(CheckCtx)), redial)) else {}
      ensures waits == old(waits) +
                if !old(cancelled) && old(tunErr) == None && old(sess) == None && redial == None && !during.cancel
                then [(old(failures) + 1, old(backoff))] else []
    {
      ghost var p, more := View(CheckCtx), [];
      r, steps := CheckStop();
      if r.Some? {
        return;
      }
      ghost var q := View(LookSession);
      Snoc(p, steps, q, RunGoesOn);
      steps, q := steps + [RunGoesOn], Apply(q, RunGoesOn);
      if sess == None {
        var got: bool;
        r, got, more := AcquireSession(redial, during, wakes);
        ReachesThen(p, steps, q, more, View(if got then Reading(redial.value) else Ended(r)));
        steps := steps + more;
        if !got {
          return;
        }
        q := View(Reading(sess.value));
      }
      r, more := ReadUntilLost(sess.value, read);
      ReachesThen(p, steps, q, more, View(Ended(r)));
      steps := steps + more;
    }
  }

  lemma Snoc(p: Pump, steps: seq<Step>, q: Pump, step: Step)
    requires Reaches(p, steps, q) && Enabled(q, step)
    ensures Reaches(p, steps + [step], Apply(q, step))
  {
    StepThen(q, step, [], Apply(q, step));
    ReachesThen(p, steps, q, [step], Apply(q, step));
  }
}
