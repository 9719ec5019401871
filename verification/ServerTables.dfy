/** The Router and the session index as objects, and where a packet from the TUN device goes. */
module ServerTables {
  import opened Prelude
  import opened Addresses
  import opened LastAddress
  import opened ServerSpec
  import opened ServerLaws
  import opened ServerRuns

  /** The destination a raw IPv4 or IPv6 packet names. */
  function DstIP(pkt: seq<Byte>): Option<Addr> {
    if |pkt| < 1 then None
    else if pkt[0] / 16 == 4 then
      if |pkt| < 20 then None else Some(FromBytes(V4, pkt[16..20]))
    else if pkt[0] / 16 == 6 then
      if |pkt| < 40 then None else Some(FromBytes(V6, pkt[24..40]))
    else None
  }

  /** Where the destination stands in a header of this family. */
  function DstAt(f: Family): nat {
    if f == V4 then 16 else 24
  }

  function HeaderLen(f: Family): nat {
    if f == V4 then 20 else 40
  }

  /** A packet of family f, long enough for its header, with destination a written into it is read
      back as addressed to a; nothing else is ever read as addressed anywhere. */
  lemma DstIPReadsBack(pkt: seq<Byte>, f: Family, a: Addr)
    requires |pkt| >= HeaderLen(f) && pkt[0] / 16 == (if f == V4 then 4 else 6)
    requires a.Valid() && a.family == f
    ensures DstIP(pkt[..DstAt(f)] + AsBytes(a) + pkt[DstAt(f) + ByteCount(f)..]) == Some(a)
    ensures forall p: seq<Byte> :: DstIP(p).Some? <==>
              exists g: Family :: |p| >= HeaderLen(g) && p[0] / 16 == (if g == V4 then 4 else 6)
  {
    var at, n := DstAt(f), ByteCount(f);
    var out := pkt[..at] + AsBytes(a) + pkt[at + n..];
    assert out[at..at + n] == AsBytes(a);
    BytesRoundTrip(a, AsBytes(a));
    forall p: seq<Byte>
      ensures DstIP(p).Some? <==> exists g: Family :: |p| >= HeaderLen(g) && p[0] / 16 == (if g == V4 then 4 else 6)
    {
      assert HeaderLen(V4) == 20 && HeaderLen(V6) == 40;
    }
  }

  /** An IPv4 packet is addressed by bytes 16 to 19, an IPv6 packet by bytes 24 to 39. */
  predicate IsFor(pkt: seq<Byte>, a: Addr)
    requires a.Valid()
  {
    if a.family == V4 then |pkt| >= 20 && pkt[0] / 16 == 4 && pkt[16..20] == AsBytes(a)
    else |pkt| >= 40 && pkt[0] / 16 == 6 && pkt[24..40] == AsBytes(a)
  }

  lemma DstIPBytes(pkt: seq<Byte>, a: Addr)
    requires a.Valid()
    ensures DstIP(pkt) == Some(a) <==> IsFor(pkt, a)
  {
    if |pkt| >= 20 && pkt[0] / 16 == 4 && a.family == V4 {
      BytesRoundTrip(a, pkt[16..20]);
    }
    if |pkt| >= 40 && pkt[0] / 16 == 6 && a.family == V6 {
      BytesRoundTrip(a, pkt[24..40]);
    }
  }

  /** The connection the TUN reader hands a packet to, if any. */
  function Recipient(clients: map<Addr, Conn>, pkt: seq<Byte>): Option<Conn> {
    match DstIP(pkt)
    case None => None
    case Some(a) => if a in clients then Some(clients[a]) else None
  }

  /** In every reachable state the TUN reader hands a packet only to a connection that was given
      the packet's destination address and has its route for it registered. */
  lemma PacketsReachTheirOwner(w: World, acts: seq<Action>, v: World, pkt: seq<Byte>)
    requires Started(w) && Reaches(w, acts, v)
    requires Recipient(v.clients, pkt).Some?
    ensures DstIP(pkt).Some? && WasGiven(v, Recipient(v.clients, pkt).value, DstIP(pkt).value)
    ensures Routes(v.sessions[Recipient(v.clients, pkt).value], DstIP(pkt).value)
  {
    RouteOwner(w, acts, v, DstIP(pkt).value);
  }

  /** A packet for an address goes to the connection with a route for it, if there is one. */
  lemma RoutedByBytes(clients: map<Addr, Conn>, pkt: seq<Byte>, a: Addr)
    requires a.Valid() && IsFor(pkt, a)
    ensures Recipient(clients, pkt) == if a in clients then Some(clients[a]) else None
  {
    DstIPBytes(pkt, a);
  }

  /** Reconnect safety as its client sees it: once the newest session of a CN is forwarding, every packet for an
      address it was given from a pool is handed to it, whatever older sessions of the CN still do. */
  lemma NewestGetsItsPackets(w: World, acts: seq<Action>, v: World, cn: string, pkt: seq<Byte>, a: Addr)
    requires Configured(w) && Reaches(w, acts, v) && TameRun(w, acts)
    requires cn in v.newest && v.newest[cn] in v.sessions && v.sessions[v.newest[cn]].phase == Forwarding
    requires WasGiven(v, v.newest[cn], a) && (v.pools.v4.Some? || v.sessions[v.newest[cn]].slots.v6.addr == Some(a))
    requires a.Valid() && IsFor(pkt, a)
    ensures Recipient(v.clients, pkt) == Some(v.newest[cn])
  {
    NewestSessionIsUndisturbed(w, acts, v, cn);
    StartedIsOk(w);
    RunKeepsOk(w, acts, v);
    assert SessionOk(v.pools, v.sessions[v.newest[cn]]);
    RoutedByBytes(v.clients, pkt, a);
  }

  class Router {
    var clients: map<Addr, Conn>

    constructor ()
      ensures clients == map[]
    {
      clients := map[];
    }

    method Add(addr: Addr, conn: Conn)
      modifies this
      ensures clients == RouterAdd(old(clients), addr, conn)
    {
      clients := clients[addr := conn];
    }

    method Remove(addr: Addr, conn: Conn)
      modifies this
      ensures clients == RouterRemove(old(clients), addr, conn)
    {
      if addr in clients && clients[addr] == conn {
        clients := clients - {addr};
      }
    }

    method Lookup(dst: Addr) returns (conn: Option<Conn>)
      ensures conn == if dst in clients then Some(clients[dst]) else None
    {
      if dst in clients {
        return Some(clients[dst]);
      }
      return None;
    }

    /** One batch read from the TUN device: every packet with an owner goes to it, in order. */
    method Dispatch(pkts: seq<seq<Byte>>) returns (sent: seq<(Conn, seq<Byte>)>)
      ensures sent == Dispatched(clients, pkts)
    {
      sent := [];
      for i := 0 to |pkts|
        invariant sent == Dispatched(clients, pkts[..i])
      {
        assert pkts[..i + 1][..i] == pkts[..i];
        var pkt := pkts[i];
        var dst := DstIP(pkt);
        if dst == None {
          continue;
        }
        var conn := Lookup(dst.value);
        if conn == None {
          continue;
        }
        sent := sent + [(conn.value, pkt)];
      }
      assert pkts[..|pkts|] == pkts;
    }
  }

  function Dispatched(clients: map<Addr, Conn>, pkts: seq<seq<Byte>>): seq<(Conn, seq<Byte>)> {
    if |pkts| == 0 then []
    else
      var n := |pkts| - 1;
      Dispatched(clients, pkts[..n]) +
      match Recipient(clients, pkts[n]) case None => [] case Some(c) => [(c, pkts[n])]
  }

  /** The places of the packets that have a recipient. */
  ghost function Addressed(clients: map<Addr, Conn>, pkts: seq<seq<Byte>>): set<int> {
    set i | 0 <= i < |pkts| && Recipient(clients, pkts[i]).Some?
  }

  /** What a batch sends is exactly the packets that have a recipient, in order and each once, each to its own:
      at lists their places. So each connection gets its packets in the order of the batch. */
  lemma {:induction false} DispatchedInOrder(clients: map<Addr, Conn>, pkts: seq<seq<Byte>>) returns (at: seq<int>)
    ensures Lists(at, Addressed(clients, pkts)) && |Dispatched(clients, pkts)| == |at|
    ensures forall k :: 0 <= k < |at| ==> at[k] in Addressed(clients, pkts)
    ensures forall k :: 0 <= k < |at| ==>
              Dispatched(clients, pkts)[k] == (Recipient(clients, pkts[at[k]]).value, pkts[at[k]])
  {
    if |pkts| == 0 {
      at := [];
    } else {
      var n := |pkts| - 1;
      at := DispatchedInOrder(clients, pkts[..n]);
      if Recipient(clients, pkts[n]).Some? {
        ListsOneMore(at, Addressed(clients, pkts[..n]), n);
        assert Addressed(clients, pkts) == Addressed(clients, pkts[..n]) + {n};
        at := at + [n];
      } else {
        assert Addressed(clients, pkts) == Addressed(clients, pkts[..n]);
      }
    }
  }

  /** What a batch sends goes to each packet's recipient, and every packet that has one is sent. */
  lemma {:induction false} DispatchedToOwners(clients: map<Addr, Conn>, pkts: seq<seq<Byte>>)
    ensures forall x <- Dispatched(clients, pkts) :: x.1 in pkts && Recipient(clients, x.1) == Some(x.0)
    ensures forall pkt <- pkts :: Recipient(clients, pkt).Some? ==>
              (Recipient(clients, pkt).value, pkt) in Dispatched(clients, pkts)
  {
    if |pkts| > 0 {
      var n := |pkts| - 1;
      DispatchedToOwners(clients, pkts[..n]);
      assert pkts == pkts[..n] + [pkts[n]];
    }
  }

  /** So in every reachable state a whole batch goes to connections that were given the destinations. */
  lemma BatchReachesItsOwners(w: World, acts: seq<Action>, v: World, pkts: seq<seq<Byte>>)
    requires Started(w) && Reaches(w, acts, v)
    ensures forall x <- Dispatched(v.clients, pkts) ::
              DstIP(x.1).Some? && WasGiven(v, x.0, DstIP(x.1).value) && Routes(v.sessions[x.0], DstIP(x.1).value)
  {
    DispatchedToOwners(v.clients, pkts);
    forall x <- Dispatched(v.clients, pkts)
      ensures DstIP(x.1).Some? && WasGiven(v, x.0, DstIP(x.1).value) && Routes(v.sessions[x.0], DstIP(x.1).value)
    {
      PacketsReachTheirOwner(w, acts, v, x.1);
    }
  }

  class SessionIndex {
    var byCN: map<string, Conn>

    constructor ()
      ensures byCN == map[]
    {
      byCN := map[];
    }

    /** stale is the connection take closes before it returns. */
    method Take(cn: string, conn: Conn) returns (stale: Option<Conn>)
      modifies this
      ensures byCN == IndexTake(old(byCN), cn, conn)
      ensures stale == if cn != "" && cn in old(byCN) && old(byCN)[cn] != conn then Some(old(byCN)[cn]) else None
      ensures (if stale == None then {} else {stale.value}) == Superseded(old(byCN), cn, conn)
    {
      stale := None;
      if cn == "" {
        return;
      }
      if cn in byCN && byCN[cn] != conn {
        stale := Some(byCN[cn]);
      }
      byCN := byCN[cn := conn];
    }

    method Drop(cn: string, conn: Conn)
      modifies this
      ensures byCN == IndexDrop(old(byCN), cn, conn)
    {
      if cn == "" {
        return;
      }
      if cn in byCN && byCN[cn] == conn {
        byCN := byCN - {cn};
      }
    }
  }
}
