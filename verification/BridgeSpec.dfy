/** Packet queues that carry recycled buffers: WritePacket, bridgeTUN.Read and Write, ReadPacket,
    deliver and ReadFrom, all drawing buffers from one pool. Any number of threads and queues;
    taking a buffer, copying into it, the channel operation, copying out and returning the
    buffer are separate steps. */
module BridgeSpec {
  import opened Prelude

  const PACKET_BUF_SIZE: nat := 2048
  const QUEUE_LEN: nat := 64

  type BufId = nat
  type Thread = nat
  type QueueId = nat

  /** A []byte behind a pointer: its backing array and its length. */
  datatype Buffer = Buffer(backing: seq<Byte>, len: nat) {
    function Cap(): nat {
      |backing|
    }

    function Data(): seq<Byte> {
      if len <= |backing| then backing[..len] else backing
    }

    /** copy into the front of the backing array and cut to that length. */
    function Holding(src: seq<Byte>): Buffer {
      if |src| <= |backing| then Buffer(src + backing[|src|..], |src|) else this
    }
  }

  /** A bounded channel. offered, accepted and taken record the byte strings senders tried to send,
      those that went in and those that came out. */
  datatype Queue = Queue(
    items: seq<BufId>,
    closed: bool,
    offered: seq<seq<Byte>>,
    accepted: seq<seq<Byte>>,
    taken: seq<seq<Byte>>)

  /** What a thread has in hand. bytes is what it means the buffer to hold. */
  datatype Hand =
    | Filling(buf: BufId, q: QueueId, bytes: seq<Byte>)   // in getBuf, before the copy
    | Sending(buf: BufId, q: QueueId, bytes: seq<Byte>)   // in front of the select
    | Received(buf: BufId, bytes: seq<Byte>)              // taken from a queue, not yet copied out
    | Returning(buf: BufId)                               // in front of putBuf

  datatype Bridge = Bridge(
    mem: map<BufId, Buffer>,
    pool: set<BufId>,
    queues: map<QueueId, Queue>,
    hands: map<Thread, Hand>)

  datatype Action =
    | Recycle(t: Thread, q: QueueId, src: seq<Byte>, b: BufId)  // getBuf takes a pooled buffer
    | Make(t: Thread, q: QueueId, src: seq<Byte>, b: BufId)     // the pool makes a new one
    | MakeLarge(t: Thread, q: QueueId, src: seq<Byte>, b: BufId, spare: seq<Byte>)
    | Fill(t: Thread)
    | Send(t: Thread)
    | SendFull(t: Thread)
    | SendClosed(t: Thread)
    | Receive(t: Thread, q: QueueId)
    | CopyOut(t: Thread)
    | Return(t: Thread)
    | Evict(b: BufId)                                           // the garbage collector empties the pool
    | CloseQueue(q: QueueId)

  predicate Enabled(s: Bridge, a: Action) {
    match a
    case Recycle(t, q, src, b) =>
      t !in s.hands && q in s.queues && |src| <= PACKET_BUF_SIZE && b in s.pool && b in s.mem
    case Make(t, q, src, b) =>
      t !in s.hands && q in s.queues && |src| <= PACKET_BUF_SIZE && b !in s.mem
    case MakeLarge(t, q, src, b, _) =>
      t !in s.hands && q in s.queues && |src| > PACKET_BUF_SIZE && b !in s.mem
    case Fill(t) => t in s.hands && s.hands[t].Filling? && s.hands[t].buf in s.mem
    case Send(t) =>
      t in s.hands && s.hands[t].Sending? && s.hands[t].q in s.queues && |s.queues[s.hands[t].q].items| < QUEUE_LEN
    case SendFull(t) =>
      && t in s.hands && s.hands[t].Sending? && s.hands[t].q in s.queues
      && |s.queues[s.hands[t].q].items| >= QUEUE_LEN && !s.queues[s.hands[t].q].closed
    case SendClosed(t) =>
      t in s.hands && s.hands[t].Sending? && s.hands[t].q in s.queues && s.queues[s.hands[t].q].closed
    case Receive(t, q) =>
      t !in s.hands && q in s.queues && |s.queues[q].items| > 0 && s.queues[q].items[0] in s.mem
    case CopyOut(t) => t in s.hands && s.hands[t].Received?
    case Return(t) => t in s.hands && s.hands[t].Returning? && s.hands[t].buf in s.mem
    case Evict(b) => b in s.pool
    case CloseQueue(q) => q in s.queues
  }

  function Put(q: Queue, b: BufId, bytes: seq<Byte>): Queue {
    q.(items := q.items + [b], offered := q.offered + [bytes], accepted := q.accepted + [bytes])
  }

  function Refuse(q: Queue, bytes: seq<Byte>): Queue {
    q.(offered := q.offered + [bytes])
  }

  function Apply(s: Bridge, a: Action): Bridge
    requires Enabled(s, a)
  {
    match a
    case Recycle(t, q, src, b) => s.(pool := s.pool - {b}, hands := s.hands[t := Filling(b, q, src)])
    case Make(t, q, src, b) =>
      var blank := Buffer(seq(PACKET_BUF_SIZE, _ => 0), PACKET_BUF_SIZE);
      s.(mem := s.mem[b := blank], hands := s.hands[t := Filling(b, q, src)])
    case MakeLarge(t, q, src, b, spare) =>
      s.(mem := s.mem[b := Buffer(src + spare, |src|)], hands := s.hands[t := Sending(b, q, src)])
    case Fill(t) =>
      var h := s.hands[t];
      s.(mem := s.mem[h.buf := s.mem[h.buf].Holding(h.bytes)], hands := s.hands[t := Sending(h.buf, h.q, h.bytes)])
    case Send(t) =>
      var h := s.hands[t];
      s.(queues := s.queues[h.q := Put(s.queues[h.q], h.buf, h.bytes)], hands := s.hands - {t})
    case SendFull(t) =>
      var h := s.hands[t];
      s.(queues := s.queues[h.q := Refuse(s.queues[h.q], h.bytes)], hands := s.hands[t := Returning(h.buf)])
    case SendClosed(t) =>
      var h := s.hands[t];
      s.(queues := s.queues[h.q := Refuse(s.queues[h.q], h.bytes)], hands := s.hands[t := Returning(h.buf)])
    case Receive(t, q) =>
      var b := s.queues[q].items[0];
      var bytes := s.mem[b].Data();
      s.(queues := s.queues[q := s.queues[q].(items := s.queues[q].items[1..], taken := s.queues[q].taken + [bytes])],
         hands := s.hands[t := Received(b, bytes)])
    case CopyOut(t) => s.(hands := s.hands[t := Returning(s.hands[t].buf)])
    case Return(t) =>
      var b := s.hands[t].buf;
      if s.mem[b].Cap() == PACKET_BUF_SIZE then
        s.(mem := s.mem[b := s.mem[b].(len := PACKET_BUF_SIZE)], pool := s.pool + {b}, hands := s.hands - {t})
      else s.(hands := s.hands - {t})
    case Evict(b) => s.(pool := s.pool - {b})
    case CloseQueue(q) => s.(queues := s.queues[q := s.queues[q].(closed := true)])
  }

  /** What the reader's copy delivers into a buffer with this much room: ReadFrom cuts, bridgeTUN.Read
      gives up with an error, ReadPacket always has room. */
  function CutTo(s: Bridge, t: Thread, room: nat): seq<Byte>
    requires t in s.hands && s.hands[t].Received? && s.hands[t].buf in s.mem
  {
    var data := s.mem[s.hands[t].buf].Data();
    if |data| <= room then data else data[..room]
  }

  ghost predicate Reaches(s: Bridge, acts: seq<Action>, u: Bridge)
    decreases |acts|
  {
    if acts == [] then u == s
    else Enabled(s, acts[0]) && Reaches(Apply(s, acts[0]), acts[1..], u)
  }

  /** Queues as their constructors make them. */
  predicate Started(s: Bridge) {
    s.mem == map[] && s.pool == {} && s.hands == map[] &&
    forall q <- s.queues :: s.queues[q] == Queue([], false, [], [], [])
  }
}
