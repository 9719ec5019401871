/** The datagram pipe as an object: the packet queue of PacketBuffers with the deadline of Deadline. */
module DatagramPipe {
  import opened Prelude
  import opened Deadline
  import opened PacketBuffers

  datatype ReadResult = ErrClosed | ErrDeadline | Got(n: nat)

  class BridgePacketConn {
    const incoming: PacketQueue
    var readDead: Limit
    var poke: bool

    constructor (incoming: PacketQueue)
      requires incoming.Valid()
      ensures this.incoming == incoming && readDead == None && !poke
    {
      this.incoming := incoming;
      readDead, poke := None, false;
    }

    /** The pipe as the step relation sees it, with nobody inside a call. */
    ghost function Quiet(now: Time): Pipe
      reads this, incoming
    {
      Pipe(now, readDead, poke, incoming.closed, {}, map[])
    }

    /** Both steps of a setter, one after the other. */
    method SetReadDeadline(limit: Limit)
      modifies this
      ensures readDead == limit && poke
      ensures forall now, t :: var s := old(Quiet(now)); Quiet(now) == Apply(Apply(s, Store(t, limit)), Poke(t))
    {
      readDead := limit;
      poke := true;
    }

    predicate ClosedErr()
      reads this, incoming
    {
      incoming.closed
    }

    predicate ReadDeadlineErr(now: Time)
      reads this
    {
      Expired(now, readDead)
    }

    method Deliver(b: seq<Byte>, spare: nat)
      requires incoming.Valid()
      modifies incoming`items, incoming.pool, incoming.pool.free, set b <- incoming.pool.free :: b.backing
      ensures incoming.Valid()
      ensures b == [] ==> incoming.Contents() == old(incoming.Contents())
      ensures b != [] && !incoming.closed ==>
        incoming.Contents() == old(incoming.Contents()) + if old(|incoming.items|) < 64 then [b] else []
      ensures || incoming.Contents() == old(incoming.Contents())
              || incoming.Contents() == old(incoming.Contents()) + [b]
    {
      if |b| == 0 {
        return;
      }
      var _ := incoming.Offer(b, spare);
    }

    /** ReadFrom when it can return and nobody else acts meanwhile: a closed pipe and then an expired
        deadline come first, and a poke left over from an earlier setter costs one more turn of the
        loop but never a packet. */
    method ReadFrom(buf: array<Byte>, now: Time) returns (r: ReadResult)
      requires incoming.Valid() && incoming.Foreign(buf)
      requires ClosedErr() || ReadDeadlineErr(now) || |incoming.items| > 0
      modifies this`poke, incoming`items, incoming.pool, incoming.items, buf
      ensures incoming.Valid()
      ensures r == ErrClosed <==> incoming.closed
      ensures r == ErrDeadline <==> !incoming.closed && readDead.Some? && now >= readDead.value
      ensures !r.Got? ==>
        incoming.Contents() == old(incoming.Contents()) && buf[..] == old(buf[..]) && poke == old(poke)
      ensures r.Got? ==>
        && old(|incoming.items|) > 0 && incoming.Contents() == old(incoming.Contents())[1..]
        && r.n == Min(|old(incoming.Contents())[0]|, buf.Length)
        && buf[..] == old(incoming.Contents())[0][..r.n] + old(buf[..])[r.n..]
    {
      while true
        invariant incoming.Valid() && incoming.Foreign(buf)
        invariant incoming.items == old(incoming.items) && incoming.Contents() == old(incoming.Contents())
        invariant buf[..] == old(buf[..])
        invariant ClosedErr() || ReadDeadlineErr(now) ==> poke == old(poke)
        modifies this`poke
        decreases poke
      {
        if ClosedErr() {
          return ErrClosed;
        }
        if ReadDeadlineErr(now) {
          return ErrDeadline;
        }
        if {
          case |incoming.items| > 0 =>
            break;
          case poke =>
            poke := false;
        }
      }
      var n := incoming.ReadFrom(buf);
      r := Got(n);
    }
  }
}
