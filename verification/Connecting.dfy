/** Connecting: from a profile to a session that owns its connections, and back to nothing. */
module Connecting {
  import opened Prelude
  import opened Dialing
  import Addresses

  /** What the server answers to CONNECT-IP. None where the call fails. */
  datatype Reply = Reply(
    request: bool,
    client: bool,
    dial: bool,
    status: int,
    prefixes: Option<seq<Addresses.Prefix>>,
    routes: bool)

  const HTTP_OK: int := 200

  predicate Accepts(reply: Reply) {
    && reply.request && reply.client && reply.dial && reply.status == HTTP_OK
    && reply.prefixes.Some? && reply.prefixes.value != [] && reply.routes
  }

  /** Which stage is to blame when the server's answer does not make a session. */
  function Refusal(reply: Reply): (e: Option<Error>)
    ensures e.None? <==> Accepts(reply)
  {
    if !reply.request then Some(RequestFailed)
    else if !reply.client then Some(ClientFailed)
    else if !reply.dial then Some(ConnectIPFailed)
    else if reply.status != HTTP_OK then Some(BadStatus(reply.status))
    else if reply.prefixes.None? then Some(PrefixesFailed)
    else if reply.prefixes.value == [] then Some(NoPrefixes)
    else if !reply.routes then Some(RoutesFailed)
    else None
  }

  /** The stages in their order: request, client, dial, status, prefixes, one of them, routes. */
  predicate Passes(reply: Reply, stage: nat) {
    match stage
    case 0 => reply.request
    case 1 => reply.client
    case 2 => reply.dial
    case 3 => reply.status == 200
    case 4 => reply.prefixes.Some?
    case 5 => reply.prefixes != Some([])
    case 6 => reply.routes
    case _ => true
  }

  /** The error names the first stage that is not passed. */
  lemma RefusalIsFirst(reply: Reply, stage: nat)
    requires stage < 7 && !Passes(reply, stage) && forall k :: 0 <= k < stage ==> Passes(reply, k)
    ensures var named := [RequestFailed, ClientFailed, ConnectIPFailed, BadStatus(reply.status),
                          PrefixesFailed, NoPrefixes, RoutesFailed];
            Refusal(reply) == Some(named[stage])
  {
    assert stage > 0 ==> Passes(reply, 0);
    assert stage > 1 ==> Passes(reply, 1);
    assert stage > 2 ==> Passes(reply, 2);
    assert stage > 3 ==> Passes(reply, 3);
    assert stage > 4 ==> Passes(reply, 4);
    assert stage > 5 ==> Passes(reply, 5);
  }

  class Session {
    const packetConn: Handle
    const ownUDP: bool
    const qconn: Handle
    const ipconn: Handle
    const assignedPrefixes: seq<Addresses.Prefix>
    const dialAddr: UDPAddr
    var closed: bool

    constructor (leg: Leg, ipconn: Handle, prefixes: seq<Addresses.Prefix>)
      requires leg.qconn.Some?
      ensures fresh(this) && !closed && Owns() == leg.Owns() + {ipconn} && this.ipconn == ipconn
      ensures qconn == leg.qconn.value && ownUDP == leg.ownUDP && packetConn == leg.packetConn
      ensures assignedPrefixes == prefixes && dialAddr == leg.addr
    {
      packetConn, ownUDP, qconn := leg.packetConn, leg.ownUDP, leg.qconn.value;
      this.ipconn, assignedPrefixes, dialAddr := ipconn, prefixes, leg.addr;
      closed := false;
    }

    /** The shared PacketConn of a reconnecting tunnel is not among them. */
    function Owns(): set<Handle> {
      {ipconn, qconn} + if ownUDP then {packetConn} else {}
    }

    /** Closes everything it owns the first time, and nothing after that. */
    method Close(net: Net)
      requires net.Valid()
      modifies this, net`open
      ensures net.Valid() && closed
      ensures net.open == if old(closed) then old(net.open) else old(net.open) - Owns()
    {
      if closed {
        return;
      }
      closed := true;
      net.Close(ipconn);
      net.Close(qconn);
      if ownUDP {
        net.Close(packetConn);
      }
    }
  }

  /** Takes the leg over: it ends up in the session, or closed on every one of the failures. */
  method FinishCONNECTIP(net: Net, leg: Leg, reply: Reply) returns (r: Outcome<Session>)
    requires net.Valid() && leg.Live(net)
    modifies net
    ensures net.Valid()
    ensures r.Ok? <==> Accepts(reply)
    ensures r.Ok? ==>
      && fresh(r.value) && !r.value.closed
      && r.value.qconn == leg.qconn.value && r.value.packetConn == leg.packetConn && r.value.ownUDP == leg.ownUDP
      && r.value.dialAddr == leg.addr && r.value.assignedPrefixes == reply.prefixes.value
      && r.value.ipconn !in old(net.open) && net.open == old(net.open) + {r.value.ipconn}
      && r.value.Owns() == leg.Owns() + {r.value.ipconn} && |r.value.Owns()| == (if leg.ownUDP then 3 else 2)
    ensures r.Err? ==> net.open == old(net.open) - leg.Owns() && Some(r.error) == Refusal(reply)
  {
    if !reply.request {
      leg.Close(net);
      return Err(RequestFailed);
    }
    if !reply.client {
      leg.Close(net);
      return Err(ClientFailed);
    }
    if !reply.dial {
      leg.Close(net);
      return Err(ConnectIPFailed);
    }
    var ipconn := net.Open();
    if reply.status != HTTP_OK {
      net.Close(ipconn);
      leg.Close(net);
      return Err(BadStatus(reply.status));
    }
    if reply.prefixes.None? {
      net.Close(ipconn);
      leg.Close(net);
      return Err(PrefixesFailed);
    }
    if |reply.prefixes.value| == 0 {
      net.Close(ipconn);
      leg.Close(net);
      return Err(NoPrefixes);
    }
    if !reply.routes {
      net.Close(ipconn);
      leg.Close(net);
      return Err(RoutesFailed);
    }
    var s := new Session(leg, ipconn, reply.prefixes.value);
    return Ok(s);
  }

  /** The profile as far as it decides a branch: valid or not, its server resolved or not, its TLS
      files readable or not, and the alternate port. */
  datatype Profile = Profile(valid: bool, server: Option<UDPAddr>, tls: bool, altPort: int)

  /** Some dial that is made gets through: over a shared PacketConn only the first address is dialled. */
  predicate Connected(attempts: seq<Attempt>, pc: Option<Handle>) {
    if pc.Some? then attempts != [] && attempts[0] == Connects
    else exists k :: 0 <= k < |attempts| && attempts[k] == Connects
  }

  /** What every successful connect leaves behind. */
  ghost predicate Conserves(r: Outcome<Session>, was: set<Handle>, now: set<Handle>, ownUDP: bool)
    reads if r.Ok? then {r.value} else {}
  {
    if r.Err? then now == was
    else
      && !r.value.closed && r.value.ownUDP == ownUDP && |r.value.Owns()| == (if ownUDP then 3 else 2)
      && now == was + r.value.Owns() && r.value.Owns() !! was
  }

  /** The branch of ConnectWithPacketConn for a shared PacketConn. */
  method ConnectShared(net: Net, to: UDPAddr, pc: Handle, connects: bool, reply: Reply) returns (r: Outcome<Session>)
    requires net.Valid() && pc in net.open
    modifies net
    ensures net.Valid() && pc in net.open && Conserves(r, old(net.open), net.open, false)
    ensures r.Ok? <==> connects && Accepts(reply)
    ensures r.Err? ==> r.error == if connects then Refusal(reply).value else DialFailed
    ensures r.Ok? ==> fresh(r.value) && r.value.dialAddr == to && r.value.assignedPrefixes == reply.prefixes.value
  {
    var leg := new Leg(pc, false, to);
    var ok := leg.Dial(net, to, connects);
    if !ok {
      return Err(DialFailed);
    }
    r := FinishCONNECTIP(net, leg, reply);
  }

  /** The error of a dial over own sockets in which no attempt connects: the failure of the one attempt, or
      all failures in order of arrival. */
  function DialError(attempts: seq<Attempt>, order: seq<nat>): (e: Error)
    requires IsOrder(order, |attempts|) && |attempts| > 0
    ensures |attempts| > 1 ==> e.AllPortsFailed? && |e.errs| == |attempts|
  {
    if |attempts| == 1 then Failure(attempts[0])
    else AllPortsFailed(seq(|attempts|, k requires 0 <= k < |attempts| => Failure(attempts[order[k]])))
  }

  /** The address whose attempt is the first to connect. */
  function WinningAddr(addrs: seq<UDPAddr>, attempts: seq<Attempt>, order: seq<nat>): UDPAddr
    requires |attempts| == |addrs| && IsOrder(order, |attempts|) && Connected(attempts, None)
  {
    SomebodyWins(attempts, order);
    addrs[order[Winner(Finished(attempts, order)).value]]
  }

  /** One dial or a race, as the profile has one usable port or two. */
  method DialOwn(net: Net, addrs: seq<UDPAddr>, attempts: seq<Attempt>, order: seq<nat>) returns (r: Outcome<Leg>)
    requires net.Valid() && |attempts| == |addrs| > 0 && IsOrder(order, |addrs|)
    modifies net
    ensures net.Valid() && (r.Ok? <==> Connected(attempts, None))
    ensures r.Ok? ==>
      && fresh(r.value) && r.value.ownUDP && r.value.addr == WinningAddr(addrs, attempts, order)
      && r.value.Live(net) && Adds(r.value, old(net.open), net.open)
    ensures r.Err? ==> net.open == old(net.open) && r.error == DialError(attempts, order)
  {
    if |addrs| == 1 {
      r := ListenAndDialQUIC(net, addrs[0], attempts[0]);
    } else {
      SomebodyWins(attempts, order);
      r := RaceQUIC(net, addrs, attempts, order);
      assert r.Err? ==> r.error.errs == DialError(attempts, order).errs;
    }
  }

  /** The branch that opens its own sockets. */
  method ConnectOwn(net: Net, addrs: seq<UDPAddr>, attempts: seq<Attempt>, order: seq<nat>, reply: Reply)
    returns (r: Outcome<Session>)
    requires net.Valid() && |attempts| == |addrs| > 0 && IsOrder(order, |addrs|)
    modifies net
    ensures net.Valid() && Conserves(r, old(net.open), net.open, true)
    ensures r.Ok? <==> Connected(attempts, None) && Accepts(reply)
    ensures r.Err? && Connected(attempts, None) ==> Some(r.error) == Refusal(reply)
    ensures !Connected(attempts, None) ==> r == Err(DialError(attempts, order))
    ensures r.Ok? ==>
      && fresh(r.value) && r.value.dialAddr == WinningAddr(addrs, attempts, order)
      && r.value.assignedPrefixes == reply.prefixes.value
  {
    var dialled := DialOwn(net, addrs, attempts, order);
    if dialled.Err? {
      return Err(dialled.error);
    }
    r := FinishCONNECTIP(net, dialled.value, reply);
  }

  /** Conservation: a session comes with exactly one leg open beside what was open before, and an error
      leaves exactly what was open before, on every path and for every order of arrival. A shared
      PacketConn is never closed. */
  method ConnectWithPacketConn(net: Net, p: Profile, pc: Option<Handle>,
                               attempts: seq<Attempt>, order: seq<nat>, reply: Reply)
    returns (r: Outcome<Session>)
    requires net.Valid() && (pc.Some? ==> pc.value in net.open)
    requires var n := |DualDialAddrs(p.server, p.altPort)|; |attempts| == n && IsOrder(order, n)
    modifies net
    ensures net.Valid()
    ensures r.Ok? <==> p.valid && p.server.Some? && p.tls && Connected(attempts, pc) && Accepts(reply)
    ensures r.Err? && p.valid && p.server.Some? && p.tls && Connected(attempts, pc) ==> Some(r.error) == Refusal(reply)
    ensures p.valid && p.server.Some? && p.tls && !Connected(attempts, pc) ==>
              r == Err(if pc.Some? then DialFailed else DialError(attempts, order))
    ensures !p.valid ==> r == Err(Invalid)
    ensures p.valid && p.server.None? ==> r == Err(Unresolved)
    ensures p.valid && p.server.Some? && !p.tls ==> r == Err(BadTLS)
    ensures Conserves(r, old(net.open), net.open, pc.None?)
    ensures r.Ok? ==>
      && fresh(r.value)
      && r.value.dialAddr ==
           (if pc.Some? then p.server.value else WinningAddr(DualDialAddrs(p.server, p.altPort), attempts, order))
      && r.value.assignedPrefixes == reply.prefixes.value != []
    ensures pc.Some? ==> pc.value in net.open
  {
    if !p.valid {
      return Err(Invalid);
    }
    if p.server.None? {
      return Err(Unresolved);
    }
    if !p.tls {
      return Err(BadTLS);
    }
    var addrs := DualDialAddrs(p.server, p.altPort);
    if pc.Some? {
      r := ConnectShared(net, p.server.value, pc.value, attempts[0] == Connects, reply);
    } else {
      r := ConnectOwn(net, addrs, attempts, order, reply);
    }
  }
}
