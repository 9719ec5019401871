/** Buffers are never shared, and every queue is a bounded FIFO of byte strings. */
module BridgeLaws {
  import opened Prelude
  import opened BridgeSpec

  datatype Place = InPool | InQueue(q: QueueId, i: int) | InHand(t: Thread)

  /** Buffer b is at this place. */
  predicate At(s: Bridge, b: BufId, x: Place) {
    match x
    case InPool => b in s.pool
    case InQueue(q, i) => q in s.queues && 0 <= i < |s.queues[q].items| && s.queues[q].items[i] == b
    case InHand(t) => t in s.hands && s.hands[t].buf == b
  }

  /** No buffer is in two places: buffers in the pool, in queues and in hand are pairwise different. */
  ghost predicate Apart(s: Bridge) {
    forall b, x, y :: At(s, b, x) && At(s, b, y) ==> x == y
  }

  /** A pooled buffer has capacity and length 2048. */
  predicate Pooled(b: Buffer) {
    b.Cap() == PACKET_BUF_SIZE == b.len
  }

  predicate HandOk(mem: map<BufId, Buffer>, h: Hand) {
    && h.buf in mem
    && match h
       case Filling(b, _, bytes) => mem[b].Cap() == PACKET_BUF_SIZE && |bytes| <= PACKET_BUF_SIZE
       case Sending(b, _, bytes) => mem[b].Data() == bytes
       case Received(b, bytes) => mem[b].Data() == bytes
       case Returning(_) => true
  }

  ghost predicate Backed(s: Bridge) {
    && (forall b <- s.pool :: b in s.mem && Pooled(s.mem[b]))
    && (forall b, x :: At(s, b, x) ==> b in s.mem)
    && (forall t <- s.hands :: HandOk(s.mem, s.hands[t]))
  }

  /** The byte strings waiting in a queue. */
  function Waiting(mem: map<BufId, Buffer>, items: seq<BufId>): seq<seq<Byte>> {
    seq(|items|, i requires 0 <= i < |items| => if items[i] in mem then mem[items[i]].Data() else [])
  }

  /** a can be obtained from b by leaving elements out. */
  predicate Subsequence<T(==)>(a: seq<T>, b: seq<T>)
    decreases |b|
  {
    if a == [] then true
    else if b == [] then false
    else
      var n, m := |a| - 1, |b| - 1;
      (a[n] == b[m] && Subsequence(a[..n], b[..m])) || Subsequence(a, b[..m])
  }

  predicate QueueOk(mem: map<BufId, Buffer>, q: Queue) {
    && |q.items| <= QUEUE_LEN
    && q.accepted == q.taken + Waiting(mem, q.items)
    && Subsequence(q.accepted, q.offered)
  }

  ghost predicate Inv(s: Bridge) {
    Apart(s) && Backed(s) && forall q <- s.queues :: QueueOk(s.mem, s.queues[q])
  }

  // ---- subsequences ----

  lemma OfferAccepted<T>(a: seq<T>, b: seq<T>, x: T)
    requires Subsequence(a, b)
    ensures Subsequence(a + [x], b + [x])
  {
    assert (a + [x])[..|a|] == a && (b + [x])[..|b|] == b;
  }

  lemma OfferRefused<T>(a: seq<T>, b: seq<T>, x: T)
    requires Subsequence(a, b)
    ensures Subsequence(a, b + [x])
  {
    assert (b + [x])[..|b|] == b;
  }

  lemma {:induction false} ShorterSubsequence<T>(a: seq<T>, x: T, b: seq<T>)
    requires Subsequence(a + [x], b)
    ensures Subsequence(a, b)
    decreases |b|
  {
    if b != [] {
      var m := |b| - 1;
      assert b == b[..m] + [b[m]];
      assert (a + [x])[..|a|] == a;
      if Subsequence(a + [x], b[..m]) {
        ShorterSubsequence(a, x, b[..m]);
      }
      OfferRefused(a, b[..m], b[m]);
    }
  }

  lemma {:induction false} PrefixSubsequence<T>(a: seq<T>, c: seq<T>, b: seq<T>)
    requires Subsequence(a + c, b)
    ensures Subsequence(a, b)
    decreases |c|
  {
    if c == [] {
      assert a + c == a;
    } else {
      var n := |c| - 1;
      assert a + c == (a + c[..n]) + [c[n]];
      ShorterSubsequence(a + c[..n], c[n], b);
      PrefixSubsequence(a, c[..n], b);
    }
  }

  // ---- steps ----

  /** Where buffer b, at place x after the step, was before it. */
  function Before(s: Bridge, a: Action, b: BufId, x: Place): Place {
    match a
    case Recycle(t, _, _, _) => if x == InHand(t) then InPool else x
    case Send(t) =>
      if t in s.hands && s.hands[t].Sending? && s.hands[t].q in s.queues
         && x == InQueue(s.hands[t].q, |s.queues[s.hands[t].q].items|) then InHand(t) else x
    case Receive(t, q) =>
      if x == InHand(t) then InQueue(q, 0) else if x.InQueue? && x.q == q then InQueue(q, x.i + 1) else x
    case Return(t) => if x == InPool && t in s.hands && s.hands[t].buf == b then InHand(t) else x
    case _ => x
  }

  /** The step has just made buffer b, which is in its maker's hand. */
  predicate JustMade(s: Bridge, a: Action, b: BufId, x: Place) {
    (a.Make? || a.MakeLarge?) && x == InHand(a.t) && b == a.b && b !in s.mem
  }

  /** A buffer that is somewhere after a step has just been made or was somewhere before. */
  lemma CameFrom(s: Bridge, a: Action, b: BufId, x: Place)
    requires Enabled(s, a) && At(Apply(s, a), b, x)
    ensures JustMade(s, a, b, x) || At(s, b, Before(s, a, b, x))
  {
  }

  lemma BeforeIsInjective(s: Bridge, a: Action, b: BufId, x: Place, y: Place)
    requires Enabled(s, a) && At(Apply(s, a), b, x) && At(Apply(s, a), b, y)
    requires Before(s, a, b, x) == Before(s, a, b, y)
    ensures x == y
  {
  }

  lemma StepKeepsApart(s: Bridge, a: Action)
    requires Apart(s) && Backed(s) && Enabled(s, a)
    ensures Apart(Apply(s, a))
  {
    var u := Apply(s, a);
    forall b, x, y | At(u, b, x) && At(u, b, y)
      ensures x == y
    {
      CameFrom(s, a, b, x);
      CameFrom(s, a, b, y);
      if At(s, b, Before(s, a, b, x)) && At(s, b, Before(s, a, b, y)) {
        BeforeIsInjective(s, a, b, x, y);
      }
    }
  }

  lemma StepKeepsBacked(s: Bridge, a: Action)
    requires Apart(s) && Backed(s) && Enabled(s, a)
    ensures Backed(Apply(s, a))
  {
    var u := Apply(s, a);
    forall b, x | At(u, b, x)
      ensures b in u.mem
    {
      CameFrom(s, a, b, x);
    }
    forall b <- u.pool
      ensures b in u.mem && Pooled(u.mem[b])
    {
      PoolStaysPooled(s, a, b);
    }
    forall t <- u.hands
      ensures HandOk(u.mem, u.hands[t])
    {
      HandStaysOk(s, a, t);
    }
  }

  lemma PoolStaysPooled(s: Bridge, a: Action, b: BufId)
    requires Apart(s) && Backed(s) && Enabled(s, a) && b in Apply(s, a).pool
    ensures b in Apply(s, a).mem && Pooled(Apply(s, a).mem[b])
  {
    if b in s.pool {
      assert At(s, b, InPool);
    }
    if a.Fill? {
      assert At(s, s.hands[a.t].buf, InHand(a.t));
    }
  }

  /** Nobody else writes a buffer that is in a thread's hand. */
  lemma HandStaysOk(s: Bridge, a: Action, t: Thread)
    requires Apart(s) && Backed(s) && Enabled(s, a) && t in Apply(s, a).hands
    ensures HandOk(Apply(s, a).mem, Apply(s, a).hands[t])
  {
    if t in s.hands {
      assert At(s, s.hands[t].buf, InHand(t));
    }
    if (a.Fill? || a.Return?) && a.t != t {
      assert At(s, s.hands[a.t].buf, InHand(a.t));
    }
    if a.Recycle? {
      assert At(s, a.b, InPool);
    }
  }
}
