/** The read deadline of a datagram pipe: setters store it under the lock and then poke a one-slot
    channel, readers copy it under the lock and then wait. Every lock-protected access and every
    channel operation is a step of its own; any number of setters and readers. */
module Deadline {
  import opened Prelude

  type Time = int
  type Thread = nat

  /** None is the zero time: no deadline. */
  type Limit = Option<Time>

  datatype Reader =
    | Top                   // at the head of the loop
    | Open                  // not closed
    | Passed                // the deadline had not expired
    | Waiting(limit: Limit) // in the select, with a timer for the limit it copied

  datatype Pipe = Pipe(
    now: Time,
    readDead: Limit,
    poke: bool,
    closed: bool,
    setters: set<Thread>,   // between their store and their poke
    readers: map<Thread, Reader>)

  datatype Action =
    | Tick(now: Time)
    | Close
    | Store(t: Thread, limit: Limit)
    | Poke(t: Thread)
    | StartRead(r: Thread)
    | CheckClosed(r: Thread)
    | CheckDeadline(r: Thread)
    | Arm(r: Thread)
    | WakeClosed(r: Thread)
    | WakePacket(r: Thread)
    | WakeTimeout(r: Thread)
    | WakePoke(r: Thread)

  predicate Expired(now: Time, limit: Limit) {
    limit.Some? && now >= limit.value
  }

  predicate Is(s: Pipe, r: Thread, x: Reader) {
    r in s.readers && s.readers[r] == x
  }

  predicate Waits(s: Pipe, r: Thread) {
    r in s.readers && s.readers[r].Waiting?
  }

  predicate Enabled(s: Pipe, a: Action) {
    match a
    case Tick(now) => now >= s.now
    case Close => true
    case Store(t, _) => t !in s.setters
    case Poke(t) => t in s.setters
    case StartRead(r) => r !in s.readers
    case CheckClosed(r) => Is(s, r, Top)
    case CheckDeadline(r) => Is(s, r, Open)
    case Arm(r) => Is(s, r, Passed)
    case WakeClosed(r) => Waits(s, r) && s.closed
    case WakePacket(r) => Waits(s, r)
    case WakeTimeout(r) => Waits(s, r) && Expired(s.now, s.readers[r].limit)
    case WakePoke(r) => Waits(s, r) && s.poke
  }

  function Move(s: Pipe, r: Thread, x: Reader): Pipe {
    s.(readers := s.readers[r := x])
  }

  function Leave(s: Pipe, r: Thread): Pipe {
    s.(readers := s.readers - {r})
  }

  function Apply(s: Pipe, a: Action): Pipe
    requires Enabled(s, a)
  {
    match a
    case Tick(now) => s.(now := now)
    case Close => s.(closed := true)
    case Store(t, limit) => s.(readDead := limit, setters := s.setters + {t})
    case Poke(t) => s.(poke := true, setters := s.setters - {t})
    case StartRead(r) => Move(s, r, Top)
    case CheckClosed(r) => if s.closed then Leave(s, r) else Move(s, r, Open)
    case CheckDeadline(r) => if Expired(s.now, s.readDead) then Leave(s, r) else Move(s, r, Passed)
    case Arm(r) => Move(s, r, Waiting(s.readDead))
    case WakeClosed(r) => Leave(s, r)
    case WakePacket(r) => Leave(s, r)
    case WakeTimeout(r) => Leave(s, r)
    case WakePoke(r) => Move(s.(poke := false), r, Top)
  }

  ghost predicate Reaches(s: Pipe, acts: seq<Action>, u: Pipe)
    decreases |acts|
  {
    if acts == [] then u == s
    else Enabled(s, acts[0]) && Reaches(Apply(s, acts[0]), acts[1..], u)
  }

  predicate Started(s: Pipe) {
    s.readDead.None? && !s.poke && s.setters == {} && s.readers == map[]
  }

  // ---- no lost update ----

  /** This reader waits with a deadline that is no longer the one that was set. */
  predicate Outdated(s: Pipe, r: Thread) {
    Waits(s, r) && s.readers[r].limit != s.readDead
  }

  /** Somebody is about to wake a reader: the slot is full or a setter has yet to fill it. */
  predicate WakeUpPending(s: Pipe) {
    s.poke || s.setters != {}
  }

  predicate NoLostUpdate(s: Pipe) {
    forall r <- s.readers :: Outdated(s, r) ==> WakeUpPending(s)
  }

  /** Every step of any number of readers and setters keeps it, except a reader that empties the slot
      while another one is outdated and no setter is on its way. */
  lemma LosesUpdateIff(s: Pipe, a: Action)
    requires NoLostUpdate(s) && Enabled(s, a)
    ensures NoLostUpdate(Apply(s, a)) <==>
              !(a.WakePoke? && s.setters == {} && exists r <- s.readers :: r != a.r && Outdated(s, r))
  {
    var u := Apply(s, a);
    if a.WakePoke? {
      if r :| r in s.readers && r != a.r && Outdated(s, r) {
        assert Outdated(u, r) && r in u.readers;
      }
      assert forall r <- u.readers :: Outdated(u, r) ==> r != a.r && Outdated(s, r);
    } else {
      forall r <- u.readers
        ensures Outdated(u, r) ==> WakeUpPending(u)
      {
        if Outdated(u, r) && !a.Store? {
          assert r in s.readers && Outdated(s, r);
        }
      }
    }
  }

  /** A reader times out exactly at a deadline that is set and not in the future: the one in force when it looks,
      and the one it copied when it waits. */
  lemma TimesOutIff(s: Pipe, r: Thread)
    requires r in s.readers
    ensures s.readers[r] == Open ==>
              (r !in Apply(s, CheckDeadline(r)).readers <==> s.readDead.Some? && s.readDead.value <= s.now)
    ensures s.readers[r].Waiting? ==>
              var limit := s.readers[r].limit; (Enabled(s, WakeTimeout(r)) <==> limit.Some? && limit.value <= s.now)
  {
  }

  /** The reader an action belongs to. */
  predicate By(a: Action, r: Thread) {
    a.Tick? || a.Close? || a.Store? || a.Poke? || a.r == r
  }

  lemma {:induction false} SingleReaderRun(s: Pipe, r: Thread, acts: seq<Action>, u: Pipe)
    requires NoLostUpdate(s) && s.readers.Keys <= {r}
    requires Reaches(s, acts, u) && forall a <- acts :: By(a, r)
    ensures NoLostUpdate(u) && u.readers.Keys <= {r}
    decreases |acts|
  {
    if acts != [] {
      assert acts[0] in acts;
      LosesUpdateIff(s, acts[0]);
      SingleReaderRun(Apply(s, acts[0]), r, acts[1..], u);
    }
  }

  /** With one reader and any number of setters no deadline update is ever lost: a reader that waits on
      an outdated deadline has a full slot or a setter between its store and its poke. So once the
      setters are done and the slot is empty it waits on the deadline that was set last, and may time
      out exactly when that one has expired. */
  lemma NoUpdateIsLost(s: Pipe, r: Thread, acts: seq<Action>, u: Pipe)
    requires Started(s) && Reaches(s, acts, u) && forall a <- acts :: By(a, r)
    ensures Outdated(u, r) ==> u.poke || u.setters != {}
    ensures Waits(u, r) && !u.poke && u.setters == {} ==> (Enabled(u, WakeTimeout(r)) <==> Expired(u.now, u.readDead))
  {
    SingleReaderRun(s, r, acts, u);
  }

  /** What an outdated reader does next, once the pending poke is in the slot. */
  function CatchUp(r: Thread): seq<Action> {
    [WakePoke(r), CheckClosed(r), CheckDeadline(r), Arm(r)]
  }

  /** The wake-up works: from any outdated wait the pending poke brings the reader to the deadline that is
      set now, unless that has expired or the pipe is closed, when it returns. */
  lemma PokeBringsTheNewDeadline(s: Pipe, r: Thread, t: Thread)
    requires Outdated(s, r) && (s.poke || t in s.setters)
    ensures var first := if s.poke then [] else [Poke(t)];
            !s.closed && !Expired(s.now, s.readDead) ==>
              exists u :: Reaches(s, first + CatchUp(r), u) && Is(u, r, Waiting(s.readDead))
    ensures var first := if s.poke then [] else [Poke(t)];
            !s.closed && Expired(s.now, s.readDead) ==>
              exists u :: Reaches(s, first + CatchUp(r)[..3], u) && r !in u.readers
  {
    var v := if s.poke then s else Apply(s, Poke(t));
    var w1 := Apply(v, WakePoke(r));
    var w2 := Apply(w1, CheckClosed(r));
    if !s.closed {
      var w3 := Apply(w2, CheckDeadline(r));
      if Expired(s.now, s.readDead) {
        ReachesBy3(v, WakePoke(r), CheckClosed(r), CheckDeadline(r));
        assert CatchUp(r)[..3] == [WakePoke(r), CheckClosed(r), CheckDeadline(r)];
        After(s, t, CatchUp(r)[..3], w3);
      } else {
        var w4 := Apply(w3, Arm(r));
        ReachesBy3(w1, CheckClosed(r), CheckDeadline(r), Arm(r));
        assert CatchUp(r)[1..] == [CheckClosed(r), CheckDeadline(r), Arm(r)];
        assert Reaches(v, CatchUp(r), w4);
        After(s, t, CatchUp(r), w4);
        assert Is(w4, r, Waiting(s.readDead));
      }
    }
  }

  lemma ReachesBy3(s: Pipe, a: Action, b: Action, c: Action)
    requires Enabled(s, a) && Enabled(Apply(s, a), b) && Enabled(Apply(Apply(s, a), b), c)
    ensures Reaches(s, [a, b, c], Apply(Apply(Apply(s, a), b), c))
  {
    var u := Apply(Apply(s, a), b);
    assert [a, b, c][1..] == [b, c] && [b, c][1..] == [c] && [c][1..] == [];
    assert Reaches(Apply(u, c), [], Apply(u, c));
    assert Reaches(u, [c], Apply(u, c));
    assert Reaches(Apply(s, a), [b, c], Apply(u, c));
  }

  lemma After(s: Pipe, t: Thread, acts: seq<Action>, u: Pipe)
    requires s.poke || t in s.setters
    requires Reaches(if s.poke then s else Apply(s, Poke(t)), acts, u)
    ensures Reaches(s, (if s.poke then [] else [Poke(t)]) + acts, u)
  {
    if s.poke {
      assert [] + acts == acts;
    } else {
      assert ([Poke(t)] + acts)[1..] == acts;
    }
  }

  /** With two readers an update can be lost: both begin to wait without a limit, a deadline is set, and the
      reader that takes the one poke leaves the other waiting although the deadline has passed. */
  lemma {:induction false} TwoReadersLoseAnUpdate() returns (s: Pipe, acts: seq<Action>, u: Pipe)
    ensures Started(s) && Reaches(s, acts, u)
    ensures u.readDead == Some(0) && Expired(u.now, u.readDead)
    ensures Is(u, 2, Waiting(None)) && !WakeUpPending(u)
  {
    s := Pipe(5, None, false, false, {}, map[]);
    var two := [Store(3, Some(0)), Poke(3), WakePoke(1)];
    var one := BeginsToWait(s, 1);
    var v := BeginsToWait(one, 2);
    u := Apply(Apply(Apply(v, two[0]), two[1]), two[2]);
    ReachesBy3(v, two[0], two[1], two[2]);
    ReachesThen(one, Begin(2), v, two, u);
    ReachesThen(s, Begin(1), one, Begin(2) + two, u);
    acts := Begin(1) + (Begin(2) + two);
  }

  function Begin(r: Thread): seq<Action> {
    [StartRead(r), CheckClosed(r), CheckDeadline(r), Arm(r)]
  }

  lemma {:induction false} BeginsToWait(s: Pipe, r: Thread) returns (u: Pipe)
    requires r !in s.readers && !s.closed && s.readDead == None
    ensures Reaches(s, Begin(r), u) && u == s.(readers := s.readers[r := Waiting(None)])
  {
    var v := Apply(s, StartRead(r));
    u := Apply(Apply(Apply(v, CheckClosed(r)), CheckDeadline(r)), Arm(r));
    ReachesBy3(v, CheckClosed(r), CheckDeadline(r), Arm(r));
    assert Begin(r)[1..] == [CheckClosed(r), CheckDeadline(r), Arm(r)];
  }

  lemma {:induction false} ReachesThen(s: Pipe, acts: seq<Action>, u: Pipe, more: seq<Action>, v: Pipe)
    requires Reaches(s, acts, u) && Reaches(u, more, v)
    ensures Reaches(s, acts + more, v)
    decreases |acts|
  {
    if acts == [] {
      assert acts + more == more;
    } else {
      assert (acts + more)[1..] == acts[1..] + more;
      ReachesThen(Apply(s, acts[0]), acts[1..], u, more, v);
    }
  }
}
