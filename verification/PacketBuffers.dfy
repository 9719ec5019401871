/** Recycled packet buffers and a queue of them, as objects updated in place: getBuf and putBuf over
    a shared pool, and the calls that send and receive on a bounded channel. Each call runs alone
    here; BridgeRuns lets the steps of any number of threads interleave. */
module PacketBuffers {
  import opened Prelude
  import opened BridgeSpec

  /** A byte slice behind a pointer: a fixed backing array and a length that moves. */
  class Buf {
    const backing: array<Byte>
    var len: nat

    constructor (size: nat, len: nat)
      requires len <= size
      ensures fresh(this) && fresh(backing) && backing.Length == size && this.len == len
    {
      backing := new Byte[size](_ => 0);
      this.len := len;
    }

    ghost predicate Valid()
      reads this
    {
      len <= backing.Length
    }

    function Data(): seq<Byte>
      requires Valid()
      reads this, backing
    {
      backing[..len]
    }

    /** copy(b, src) after reslicing to the length of src. */
    method Hold(src: seq<Byte>)
      requires |src| <= backing.Length
      modifies this, backing
      ensures Valid() && Data() == src
      ensures backing[|src|..] == old(backing[|src|..])
    {
      forall i | 0 <= i < |src| {
        backing[i] := src[i];
      }
      len := |src|;
    }
  }

  /** sync.Pool with the 2048-byte constructor: Get hands out any pooled buffer or a new one. */
  class BufPool {
    var free: set<Buf>

    constructor ()
      ensures Valid() && free == {}
    {
      free := {};
    }

    ghost predicate Valid()
      reads this, free
    {
      && (forall b <- free :: b.backing.Length == PACKET_BUF_SIZE == b.len)
      && (forall b <- free, c <- free :: b.backing == c.backing ==> b == c)
    }

    /** A buffer holding a copy of src. A short one leaves the pool or is new, and nothing else that is
        pooled is written; a long one is new and as large as append makes it. */
    method GetBuf(src: seq<Byte>, spare: nat) returns (p: Buf)
      requires Valid()
      modifies this, free, set b <- free :: b.backing
      ensures Valid() && p !in free && p.Valid() && p.Data() == src
      ensures free == old(free) - {p}
      ensures p in old(free) || (fresh(p) && fresh(p.backing))
      ensures forall b <- free :: b.backing != p.backing
      ensures p.backing.Length == if |src| <= 2048 then 2048 else |src| + spare
      ensures |src| > 2048 ==> fresh(p)
    {
      if |src| > PACKET_BUF_SIZE {
        p := new Buf(|src| + spare, 0);
      } else if {
        case free != {} =>
          p :| p in free;
          free := free - {p};
        case true =>
          p := new Buf(PACKET_BUF_SIZE, PACKET_BUF_SIZE);
      }
      p.Hold(src);
    }

    /** Only a buffer of capacity exactly 2048 is pooled, stretched back to its full length. */
    method PutBuf(p: Buf?)
      requires Valid()
      requires p != null ==> p !in free && forall b <- free :: b.backing != p.backing
      modifies this, if p == null then {} else {p}
      ensures Valid()
      ensures free == if p != null && p.backing.Length == 2048 then old(free) + {p} else old(free)
      ensures p != null ==> p.len == if p.backing.Length == 2048 then 2048 else old(p.len)
    {
      if p == null || p.backing.Length != PACKET_BUF_SIZE {
        return;
      }
      p.len := PACKET_BUF_SIZE;
      free := free + {p};
    }
  }

  /** The byte strings a list of buffers holds. */
  ghost function Strings(items: seq<Buf>): (r: seq<seq<Byte>>)
    requires forall b <- items :: b.Valid()
    reads items, set b <- items :: b.backing
    ensures |r| == |items| && forall i :: 0 <= i < |items| ==> r[i] == items[i].Data()
  {
    if items == [] then [] else Strings(items[..|items| - 1]) + [items[|items| - 1].Data()]
  }

  /** What a Write of the first n buffers has to send: each one from the offset on, if it reaches that far. */
  ghost function Tails(bufs: seq<seq<Byte>>, n: nat, offset: nat): seq<seq<Byte>>
    requires n <= |bufs|
  {
    if n == 0 then []
    else if offset > |bufs[n - 1]| then Tails(bufs, n - 1, offset)
    else Tails(bufs, n - 1, offset) + [bufs[n - 1][offset..]]
  }

  /** The places in the batch of the buffers that reach the offset. */
  ghost function Reaching(bufs: seq<seq<Byte>>, n: nat, offset: nat): set<int>
    requires n <= |bufs|
  {
    set i | 0 <= i < n && offset <= |bufs[i]|
  }

  /** What is sent is one buffer after the other from the offset on, leaving out those that do not reach it:
      at lists their places. */
  lemma {:induction false} TailsInOrder(bufs: seq<seq<Byte>>, n: nat, offset: nat) returns (at: seq<int>)
    requires n <= |bufs|
    ensures Lists(at, Reaching(bufs, n, offset)) && |Tails(bufs, n, offset)| == |at|
    ensures forall k :: 0 <= k < |at| ==> at[k] in Reaching(bufs, n, offset)
    ensures forall k :: 0 <= k < |at| ==> Tails(bufs, n, offset)[k] == bufs[at[k]][offset..]
  {
    if n == 0 {
      at := [];
    } else {
      at := TailsInOrder(bufs, n - 1, offset);
      if offset <= |bufs[n - 1]| {
        ListsOneMore(at, Reaching(bufs, n - 1, offset), n - 1);
        assert Reaching(bufs, n, offset) == Reaching(bufs, n - 1, offset) + {n - 1};
        at := at + [n - 1];
      } else {
        assert Reaching(bufs, n, offset) == Reaching(bufs, n - 1, offset);
      }
    }
  }

  /** A queue holding c after t is offered to it, item by item: as much of t is added as there is room for. */
  ghost function Fitting(c: seq<seq<Byte>>, t: seq<seq<Byte>>): seq<seq<Byte>>
    requires |c| <= QUEUE_LEN
  {
    c + t[..Min(|t|, QUEUE_LEN - |c|)]
  }

  /** The queue keeps what it holds and takes the first of what is offered, until it is full. */
  lemma FittingLaw(c: seq<seq<Byte>>, t: seq<seq<Byte>>)
    requires |c| <= QUEUE_LEN
    ensures c <= Fitting(c, t) <= c + t && |Fitting(c, t)| == Min(|c| + |t|, QUEUE_LEN)
  {
    assert c + t == Fitting(c, t) + t[Min(|t|, QUEUE_LEN - |c|)..];
  }

  lemma FittingOne(c: seq<seq<Byte>>, t: seq<seq<Byte>>, x: seq<Byte>)
    requires |c| <= QUEUE_LEN
    ensures |Fitting(c, t)| <= QUEUE_LEN && Fitting(Fitting(c, t), [x]) == Fitting(c, t + [x])
  {
  }

  datatype Outcome = Stopped | ShortBuffer | Done(n: nat)

  /** A bounded channel of recycled buffers: fromOS, toOS or incoming. */
  class PacketQueue {
    const pool: BufPool
    var items: seq<Buf>
    var closed: bool

    constructor (pool: BufPool)
      requires pool.Valid()
      ensures Valid() && this.pool == pool && items == [] && !closed
    {
      this.pool := pool;
      items, closed := [], false;
    }

    ghost predicate Valid()
      reads this, items, pool, pool.free
    {
      && pool.Valid()
      && |items| <= QUEUE_LEN
      && (forall b <- items :: b.Valid() && b !in pool.free)
      && (forall i, j :: 0 <= i < j < |items| ==> items[i] != items[j] && items[i].backing != items[j].backing)
      && (forall b <- items, c <- pool.free :: b.backing != c.backing)
    }

    /** The byte strings that wait, oldest first. */
    ghost function Contents(): seq<seq<Byte>>
      requires Valid()
      reads this, items, set b <- items :: b.backing, pool, pool.free
    {
      Strings(items)
    }

    /** p is in hand: neither pooled nor queued. */
    ghost predicate InHand(p: Buf)
      reads this, pool
    {
      && p !in pool.free && p !in items
      && (forall b <- pool.free :: b.backing != p.backing)
      && (forall b <- items :: b.backing != p.backing)
    }

    /** getBuf, as seen from the queue: it stays as it was. */
    method Copy(src: seq<Byte>, spare: nat) returns (p: Buf)
      requires Valid()
      modifies pool, pool.free, set b <- pool.free :: b.backing
      ensures Valid() && InHand(p) && p.Valid() && p.Data() == src
      ensures p in old(pool.free) || (fresh(p) && fresh(p.backing))
      ensures pool.free == old(pool.free) - {p}
      ensures Contents() == old(Contents())
    {
      p := pool.GetBuf(src, spare);
    }

    method Append(p: Buf)
      requires Valid() && InHand(p) && p.Valid() && |items| < QUEUE_LEN
      modifies this`items
      ensures Valid() && Contents() == old(Contents()) + [p.Data()]
    {
      items := items + [p];
      assert items[..|items| - 1] == old(items);
    }

    /** putBuf, as seen from the queue. */
    method Discard(p: Buf)
      requires Valid() && InHand(p)
      modifies pool, p
      ensures Valid() && Contents() == old(Contents())
      ensures pool.free <= old(pool.free) + {p}
    {
      pool.PutBuf(p);
    }

    /** WritePacket and deliver past their first checks: copy, then send, drop or give up, whichever of
        the select's cases is ready. */
    method Offer(src: seq<Byte>, spare: nat) returns (stopped: bool)
      requires Valid()
      modifies this`items, pool, pool.free, set b <- pool.free :: b.backing
      ensures Valid()
      ensures stopped ==> closed && Contents() == old(Contents())
      ensures forall b <- pool.free :: b in old(pool.free) || (fresh(b) && fresh(b.backing))
      ensures !stopped ==> Contents() == Fitting(old(Contents()), [src])
      ensures !stopped && old(|items|) < 64 ==> Contents() == old(Contents()) + [src]
      ensures !stopped && old(|items|) == 64 ==> !closed && Contents() == old(Contents())
    {
      var p := Copy(src, spare);
      if {
        case closed =>
          Discard(p);
          stopped := true;
        case |items| < QUEUE_LEN =>
          Append(p);
          stopped := false;
        case !closed && |items| == QUEUE_LEN =>
          Discard(p);
          stopped := false;
      }
    }

    /** bridgeTUN.Write: every buffer longer than the offset is offered, in order. Closing may stop it
        after `done` buffers; otherwise every one counts as written, whether or not there was room. */
    method Write(bufs: seq<seq<Byte>>, offset: nat, spare: nat) returns (n: nat, stopped: bool, ghost done: nat)
      requires Valid()
      modifies this`items, pool, pool.free, set b <- pool.free :: b.backing
      ensures Valid()
      ensures if stopped then closed && done < |bufs| else done == |bufs|
      ensures n == |Tails(bufs, done, offset)|
      ensures Contents() == Fitting(old(Contents()), Tails(bufs, done, offset))
    {
      n, stopped, done := 0, false, 0;
      ghost var c, t := Contents(), [];
      for i := 0 to |bufs|
        invariant Valid() && !stopped && done == i
        invariant forall b <- pool.free :: b in old(pool.free) || (fresh(b) && fresh(b.backing))
        invariant t == Tails(bufs, i, offset) && n == |t|
        invariant Contents() == Fitting(c, t)
      {
        if offset > |bufs[i]| {
          done := i + 1;
          continue;
        }
        FittingOne(c, t, bufs[i][offset..]);
        stopped := Offer(bufs[i][offset..], spare);
        if stopped {
          return;
        }
        n, t, done := n + 1, t + [bufs[i][offset..]], i + 1;
      }
    }

    /** Takes the oldest buffer off the channel. */
    method Receive() returns (p: Buf)
      requires Valid() && |items| > 0
      modifies this`items
      ensures Valid() && InHand(p) && p == old(items[0]) && items == old(items[1..])
      ensures p.Valid() && p.Data() == old(Contents())[0] && Contents() == old(Contents())[1..]
    {
      p := items[0];
      items := items[1..];
      assert Contents() == old(Contents())[1..];
    }

    /** ReadPacket, once the channel has a packet or is closed: a copy of the oldest packet. */
    method ReadPacket() returns (out: Option<seq<Byte>>)
      requires Valid() && (closed || |items| > 0)
      modifies this`items, pool, items
      ensures Valid()
      ensures out.None? ==> closed && Contents() == old(Contents())
      ensures out.Some? ==> old(|items|) > 0 && out.value == old(Contents())[0] && Contents() == old(Contents())[1..]
    {
      if {
        case closed =>
          out := None;
        case |items| > 0 =>
          var p := Receive();
          out := Some(p.Data());
          Discard(p);
      }
    }

    /** copy(buf[offset:], p), as seen from the queue. */
    method CopyOut(p: Buf, n: nat, buf: array<Byte>, offset: nat)
      requires Valid() && InHand(p) && p.Valid() && n <= p.len && offset + n <= buf.Length
      requires Foreign(buf) && p.backing != buf
      modifies buf
      ensures Valid() && p.Valid() && Contents() == old(Contents())
      ensures buf[..] == old(buf[..offset]) + old(p.Data())[..n] + old(buf[..])[offset + n..]
    {
      var src := p.Data()[..n];
      forall i | 0 <= i < n {
        buf[offset + i] := src[i];
      }
      assert Contents() == old(Contents());
    }

    /** buf is not the memory of a queued or pooled buffer. */
    ghost predicate Foreign(buf: array<Byte>)
      reads this, pool
    {
      (forall b <- items :: b.backing != buf) && (forall b <- pool.free :: b.backing != buf)
    }

    /** bridgeTUN.Read into the first buffer: a packet that does not fit is lost with an error. */
    method Read(buf: array<Byte>, offset: nat) returns (r: Outcome)
      requires Valid() && (closed || |items| > 0)
      requires Foreign(buf)
      modifies this`items, pool, items, buf
      ensures Valid()
      ensures r.Stopped? ==> closed && Contents() == old(Contents()) && buf[..] == old(buf[..])
      ensures !r.Stopped? ==> old(|items|) > 0 && Contents() == old(Contents())[1..]
      ensures r.ShortBuffer? ==> offset + |old(Contents())[0]| > buf.Length && buf[..] == old(buf[..])
      ensures r.Done? ==>
        && r.n == |old(Contents())[0]| && offset + r.n <= buf.Length
        && buf[..] == old(buf[..offset]) + old(Contents())[0] + old(buf[..])[offset + r.n..]
    {
      if {
        case closed =>
          r := Stopped;
        case |items| > 0 =>
          var p := Receive();
          if offset + p.len > buf.Length {
            r := ShortBuffer;
          } else {
            CopyOut(p, p.len, buf, offset);
            r := Done(p.len);
          }
          Discard(p);
      }
    }

    /** The packet arm of ReadFrom: what does not fit is cut off. */
    method ReadFrom(buf: array<Byte>) returns (n: nat)
      requires Valid() && |items| > 0
      requires Foreign(buf)
      modifies this`items, pool, items, buf
      ensures Valid() && Contents() == old(Contents())[1..]
      ensures n == Min(|old(Contents())[0]|, buf.Length)
      ensures buf[..] == old(Contents())[0][..n] + old(buf[..])[n..]
    {
      var p := Receive();
      n := Min(p.len, buf.Length);
      CopyOut(p, n, buf, 0);
      Discard(p);
    }
  }
}
