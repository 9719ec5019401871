/** Whole runs of the packet queues: they refine plain bounded FIFOs of byte strings. */
module BridgeRuns {
  import opened Prelude
  import opened BridgeSpec
  import opened BridgeLaws

  // ---- a plain bounded FIFO of byte strings ----

  datatype Fifo = Fifo(waiting: seq<seq<Byte>>, offered: seq<seq<Byte>>, taken: seq<seq<Byte>>)

  datatype FifoOp = Skip | Push(x: seq<Byte>) | Drop(x: seq<Byte>) | Pop

  /** A FIFO takes a string unless 64 wait, and may drop one only when it is full or closed. */
  predicate Allowed(f: Fifo, closed: bool, op: FifoOp) {
    match op
    case Skip => true
    case Push(_) => |f.waiting| < 64
    case Drop(_) => |f.waiting| == 64 || closed
    case Pop => |f.waiting| > 0
  }

  function Do(f: Fifo, op: FifoOp): Fifo
    requires op.Pop? ==> |f.waiting| > 0
  {
    match op
    case Skip => f
    case Push(x) => Fifo(f.waiting + [x], f.offered + [x], f.taken)
    case Drop(x) => f.(offered := f.offered + [x])
    case Pop => Fifo(f.waiting[1..], f.offered, f.taken + [f.waiting[0]])
  }

  /** What a queue of recycled buffers means. */
  function View(s: Bridge, q: QueueId): Fifo
    requires q in s.queues
  {
    Fifo(Waiting(s.mem, s.queues[q].items), s.queues[q].offered, s.queues[q].taken)
  }

  /** Thread t is about to send to queue q. */
  predicate Offers(s: Bridge, t: Thread, q: QueueId) {
    t in s.hands && s.hands[t].Sending? && s.hands[t].q == q
  }

  /** What a step is, seen from one queue. */
  function Seen(s: Bridge, a: Action, q: QueueId): FifoOp {
    match a
    case Send(t) => if Offers(s, t, q) then Push(s.hands[t].bytes) else Skip
    case SendFull(t) => if Offers(s, t, q) then Drop(s.hands[t].bytes) else Skip
    case SendClosed(t) => if Offers(s, t, q) then Drop(s.hands[t].bytes) else Skip
    case Receive(_, p) => if p == q then Pop else Skip
    case _ => Skip
  }

  // ---- one step ----

  /** No step writes a buffer that waits in a queue. */
  lemma QueuedIsUntouched(s: Bridge, a: Action, q: QueueId, i: int)
    requires Apart(s) && Backed(s) && Enabled(s, a)
    requires q in s.queues && 0 <= i < |s.queues[q].items|
    ensures var b := s.queues[q].items[i]; b in s.mem && b in Apply(s, a).mem && Apply(s, a).mem[b] == s.mem[b]
  {
    assert At(s, s.queues[q].items[i], InQueue(q, i));
    if a.Fill? || a.Return? {
      assert At(s, s.hands[a.t].buf, InHand(a.t));
    }
  }

  lemma WaitingIsUntouched(s: Bridge, a: Action, q: QueueId)
    requires Apart(s) && Backed(s) && Enabled(s, a) && q in s.queues
    ensures Waiting(Apply(s, a).mem, s.queues[q].items) == Waiting(s.mem, s.queues[q].items)
  {
    forall i | 0 <= i < |s.queues[q].items|
      ensures var b := s.queues[q].items[i]; b in s.mem && b in Apply(s, a).mem && Apply(s, a).mem[b] == s.mem[b]
    {
      QueuedIsUntouched(s, a, q, i);
    }
  }

  lemma SendPushes(s: Bridge, t: Thread)
    requires Inv(s) && Enabled(s, Send(t))
    ensures var q := s.hands[t].q;
            View(Apply(s, Send(t)), q) == Do(View(s, q), Push(s.hands[t].bytes))
  {
    var q, u := s.hands[t].q, Apply(s, Send(t));
    assert HandOk(s.mem, s.hands[t]);
    assert u.queues[q].items == s.queues[q].items + [s.hands[t].buf];
    assert Waiting(u.mem, u.queues[q].items) == Waiting(s.mem, s.queues[q].items) + [s.hands[t].bytes];
  }

  /** Every step of the buffer machine is one step of the plain FIFO behind each queue. */
  lemma StepRefinesFifo(s: Bridge, a: Action, q: QueueId)
    requires Inv(s) && Enabled(s, a) && q in s.queues
    ensures q in Apply(s, a).queues
    ensures Allowed(View(s, q), s.queues[q].closed, Seen(s, a, q))
    ensures View(Apply(s, a), q) == Do(View(s, q), Seen(s, a, q))
  {
    var u := Apply(s, a);
    WaitingIsUntouched(s, a, q);
    assert QueueOk(s.mem, s.queues[q]);
    match Seen(s, a, q)
    case Skip =>
    case Push(x) => SendPushes(s, a.t);
    case Drop(_) =>
    case Pop =>
      assert u.queues[q].items == s.queues[q].items[1..];
      assert Waiting(u.mem, u.queues[q].items) == Waiting(s.mem, s.queues[q].items)[1..];
      QueuedIsUntouched(s, a, q, 0);
  }

  /** In a FIFO what was accepted is what was taken followed by what waits, and it was offered in that order. */
  predicate InOrder(f: Fifo, accepted: seq<seq<Byte>>) {
    |f.waiting| <= QUEUE_LEN && accepted == f.taken + f.waiting && Subsequence(accepted, f.offered)
  }

  lemma FifoKeepsOrder(f: Fifo, closed: bool, accepted: seq<seq<Byte>>, op: FifoOp)
    requires InOrder(f, accepted) && Allowed(f, closed, op)
    ensures InOrder(Do(f, op), if op.Push? then accepted + [op.x] else accepted)
  {
    match op
    case Skip =>
    case Push(x) =>
      OfferAccepted(accepted, f.offered, x);
      assert f.taken + (f.waiting + [x]) == (f.taken + f.waiting) + [x];
    case Drop(x) =>
      OfferRefused(accepted, f.offered, x);
    case Pop =>
      assert (f.taken + [f.waiting[0]]) + f.waiting[1..] == f.taken + f.waiting;
  }

  /** What has been accepted grows exactly when the step is a push. */
  lemma AcceptedGrows(s: Bridge, a: Action, q: QueueId)
    requires Enabled(s, a) && q in s.queues && q in Apply(s, a).queues
    ensures var op := Seen(s, a, q);
            Apply(s, a).queues[q].accepted == s.queues[q].accepted + if op.Push? then [op.x] else []
  {
  }

  lemma StepKeepsQueue(s: Bridge, a: Action, q: QueueId)
    requires Inv(s) && Enabled(s, a) && q in Apply(s, a).queues
    ensures QueueOk(Apply(s, a).mem, Apply(s, a).queues[q])
  {
    StepRefinesFifo(s, a, q);
    AcceptedGrows(s, a, q);
    assert QueueOk(s.mem, s.queues[q]);
    FifoKeepsOrder(View(s, q), s.queues[q].closed, s.queues[q].accepted, Seen(s, a, q));
    assert InOrder(View(Apply(s, a), q), Apply(s, a).queues[q].accepted);
  }

  lemma StepKeepsInv(s: Bridge, a: Action)
    requires Inv(s) && Enabled(s, a)
    ensures Inv(Apply(s, a))
  {
    StepKeepsApart(s, a);
    StepKeepsBacked(s, a);
    forall q <- Apply(s, a).queues
      ensures QueueOk(Apply(s, a).mem, Apply(s, a).queues[q])
    {
      StepKeepsQueue(s, a, q);
    }
  }

  // ---- whole runs ----

  lemma {:induction false} RunKeepsInv(s: Bridge, acts: seq<Action>, u: Bridge)
    requires Inv(s) && Reaches(s, acts, u)
    ensures Inv(u)
    decreases |acts|
  {
    if acts != [] {
      StepKeepsInv(s, acts[0]);
      RunKeepsInv(Apply(s, acts[0]), acts[1..], u);
    }
  }

  lemma StartedInv(s: Bridge)
    requires Started(s)
    ensures Inv(s)
  {
    forall q <- s.queues
      ensures QueueOk(s.mem, s.queues[q])
    {
      assert Waiting(s.mem, s.queues[q].items) == [];
    }
  }

  /** Ownership: in every reachable state no buffer is in two places, and a pooled one has
      capacity 2048, so a larger one never comes back from the pool. */
  lemma BuffersAreNeverShared(s: Bridge, acts: seq<Action>, u: Bridge)
    requires Started(s) && Reaches(s, acts, u)
    ensures forall b, x, y :: At(u, b, x) && At(u, b, y) ==> x == y
    ensures forall b <- u.pool :: b in u.mem && u.mem[b].Cap() == 2048 == u.mem[b].len
  {
    StartedInv(s);
    RunKeepsInv(s, acts, u);
  }

  /** At most 64 packets wait, and what came out is an in-order subsequence of what went in: the
      accepted strings are those taken, in order, followed by those waiting. */
  lemma InOrderAndIntact(s: Bridge, acts: seq<Action>, u: Bridge, q: QueueId)
    requires Started(s) && Reaches(s, acts, u) && q in u.queues
    ensures |u.queues[q].items| <= 64
    ensures u.queues[q].accepted == u.queues[q].taken + Waiting(u.mem, u.queues[q].items)
    ensures Subsequence(u.queues[q].taken, u.queues[q].offered)
  {
    StartedInv(s);
    RunKeepsInv(s, acts, u);
    PrefixSubsequence(u.queues[q].taken, Waiting(u.mem, u.queues[q].items), u.queues[q].offered);
  }

  /** Each step offers a queue at most one string. It is accepted only while fewer than 64 wait, and lost only
      when 64 wait or the queue is closed. */
  lemma LostOnlyWhenFull(s: Bridge, acts: seq<Action>, u: Bridge, a: Action, q: QueueId)
    requires Started(s) && Reaches(s, acts, u) && Enabled(u, a) && q in u.queues
    ensures q in Apply(u, a).queues
    ensures var before, after := u.queues[q], Apply(u, a).queues[q];
            if |after.offered| == |before.offered| then
              after.offered == before.offered && after.accepted == before.accepted
            else
              && |after.offered| == |before.offered| + 1
              && after.offered[..|before.offered|] == before.offered
              && if after.accepted == before.accepted then |before.items| == 64 || before.closed
                 else |before.items| < 64 && after.accepted == before.accepted + [after.offered[|before.offered|]]
  {
    StartedInv(s);
    RunKeepsInv(s, acts, u);
    StepRefinesFifo(u, a, q);
    AcceptedGrows(u, a, q);
    assert QueueOk(u.mem, u.queues[q]);
  }

  /** A reader takes the next accepted string and, however long it waits before its copy and whatever
      the other threads do meanwhile, its copy delivers exactly that string, cut to its room. */
  lemma ReaderGetsTheNext(s: Bridge, t: Thread, q: QueueId, more: seq<Action>, u: Bridge, room: nat)
    requires Inv(s) && Enabled(s, Receive(t, q)) && Reaches(Apply(s, Receive(t, q)), more, u)
    requires forall a <- more :: !(a.CopyOut? && a.t == t)
    ensures t in u.hands && u.hands[t].Received? && u.hands[t].buf in u.mem
    ensures var x := s.queues[q].accepted[|s.queues[q].taken|];
            CutTo(u, t, room) == if |x| <= room then x else x[..room]
  {
    var v := Apply(s, Receive(t, q));
    StepKeepsInv(s, Receive(t, q));
    RunKeepsInv(v, more, u);
    QueueOkAt(s, q);
    assert v.hands[t].bytes == Waiting(s.mem, s.queues[q].items)[0];
    ReceivedStays(v, t, more, u);
    assert HandOk(u.mem, u.hands[t]);
  }

  lemma QueueOkAt(s: Bridge, q: QueueId)
    requires Inv(s) && q in s.queues && |s.queues[q].items| > 0
    ensures |s.queues[q].accepted| > |s.queues[q].taken|
    ensures s.queues[q].accepted[|s.queues[q].taken|] == Waiting(s.mem, s.queues[q].items)[0]
  {
    assert QueueOk(s.mem, s.queues[q]);
  }

  lemma {:induction false} ReceivedStays(s: Bridge, t: Thread, acts: seq<Action>, u: Bridge)
    requires t in s.hands && s.hands[t].Received? && Reaches(s, acts, u)
    requires forall a <- acts :: !(a.CopyOut? && a.t == t)
    ensures t in u.hands && u.hands[t] == s.hands[t]
    decreases |acts|
  {
    if acts != [] {
      assert acts[0] in acts;
      ReceivedStays(Apply(s, acts[0]), t, acts[1..], u);
    }
  }
}
