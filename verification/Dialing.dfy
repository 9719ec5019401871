/** Dialling: who owns a socket, a QUIC connection and a CONNECT-IP session, and who closes them.
    What the network answers comes in as parameters; what is open is kept in one set of handles. */
module Dialing {
  import opened Prelude

  type Handle = nat

  /** Everything the process has open. */
  class Net {
    var open: set<Handle>
    var next: Handle

    constructor ()
      ensures Valid() && open == {}
    {
      open, next := {}, 0;
    }

    ghost predicate Valid()
      reads this
    {
      forall h <- open :: h < next
    }

    method Open() returns (h: Handle)
      requires Valid()
      modifies this
      ensures Valid() && h !in old(open) && open == old(open) + {h}
      ensures old(next) <= h < next
    {
      h := next;
      next := next + 1;
      open := open + {h};
    }

    method Close(h: Handle)
      requires Valid()
      modifies this`open
      ensures Valid() && open == old(open) - {h}
    {
      open := open - {h};
    }
  }

  // ---- addresses ----

  datatype UDPAddr = UDPAddr(host: string, port: int)

  /** The primary address and, if it names another usable port, the same host on the alternate port. */
  function DualDialAddrs(primary: Option<UDPAddr>, altPort: int): (r: seq<UDPAddr>)
    ensures r == [] <==> primary.None?
    ensures primary.Some? ==> r[0] == primary.value && forall a <- r :: a.host == primary.value.host
    ensures forall i, j :: 0 <= i < j < |r| ==> r[i] != r[j]
    ensures |r| == 2 <==> primary.Some? && 1 <= altPort <= 65535 && altPort != primary.value.port
    ensures |r| == 2 ==> r[1].port == altPort
    ensures |r| <= 2
  {
    if primary.None? then []
    else if altPort < 1 || altPort > 65535 || altPort == primary.value.port then [primary.value]
    else [primary.value, primary.value.(port := altPort)]
  }

  // ---- legs ----

  /** What happens to one attempt. */
  datatype Attempt = NoSocket | NoHandshake | Connects

  datatype Error =
    | Invalid | Unresolved | BadTLS | ListenFailed | DialFailed | AllPortsFailed(errs: seq<Error>)
    | RequestFailed | ClientFailed | ConnectIPFailed | BadStatus(code: int)
    | PrefixesFailed | NoPrefixes | RoutesFailed

  datatype Outcome<T> = Ok(value: T) | Err(error: Error)

  function Failure(attempt: Attempt): Error {
    if attempt == NoSocket then ListenFailed else DialFailed
  }

  class Leg {
    const packetConn: Handle
    const ownUDP: bool
    var qconn: Option<Handle>
    var addr: UDPAddr

    constructor (packetConn: Handle, ownUDP: bool, addr: UDPAddr)
      ensures fresh(this) && this.packetConn == packetConn && this.ownUDP == ownUDP
      ensures qconn == None && this.addr == addr
    {
      this.packetConn, this.ownUDP, this.addr, qconn := packetConn, ownUDP, addr, None;
    }

    /** What the leg owns: its QUIC connection, and its socket if it opened that itself. */
    function Owns(): set<Handle>
      reads this
    {
      (if qconn.Some? then {qconn.value} else {}) + (if ownUDP then {packetConn} else {})
    }

    /** A leg with a QUIC connection of its own, all of it open. */
    ghost predicate Live(net: Net)
      reads this, net
    {
      qconn.Some? && qconn.value != packetConn && packetConn in net.open && Owns() <= net.open
    }

    method Dial(net: Net, to: UDPAddr, connects: bool) returns (ok: bool)
      requires net.Valid() && qconn.None? && packetConn in net.open
      modifies this, net
      ensures net.Valid() && ok == connects
      ensures ok ==>
        Live(net) && addr == to && qconn.value !in old(net.open) && net.open == old(net.open) + {qconn.value}
      ensures !ok ==> qconn.None? && addr == old(addr) && net.open == old(net.open)
    {
      if !connects {
        return false;
      }
      var q := net.Open();
      qconn := Some(q);
      addr := to;
      return true;
    }

    method Close(net: Net)
      requires net.Valid()
      modifies net`open
      ensures net.Valid() && net.open == old(net.open) - Owns()
    {
      if qconn.Some? {
        net.Close(qconn.value);
      }
      if ownUDP {
        net.Close(packetConn);
      }
    }
  }

  /** Exactly what this leg owns has been opened since. */
  ghost predicate Adds(leg: Leg, was: set<Handle>, now: set<Handle>)
    reads leg
  {
    now == was + leg.Owns() && leg.Owns() !! was
  }

  /** One socket and one QUIC connection on success, nothing left open on failure. */
  method ListenAndDialQUIC(net: Net, to: UDPAddr, attempt: Attempt) returns (r: Outcome<Leg>)
    requires net.Valid()
    modifies net
    ensures net.Valid()
    ensures r.Ok? <==> attempt == Connects
    ensures r.Ok? ==>
      && fresh(r.value) && r.value.ownUDP && r.value.addr == to
      && r.value.Live(net) && Adds(r.value, old(net.open), net.open)
    ensures r.Err? ==> net.open == old(net.open)
    ensures r.Err? ==> r.error == Failure(attempt) == if attempt == NoSocket then ListenFailed else DialFailed
  {
    if attempt == NoSocket {
      return Err(ListenFailed);
    }
    var udp := net.Open();
    var leg := new Leg(udp, true, to);
    var ok := leg.Dial(net, to, attempt == Connects);
    if !ok {
      leg.Close(net);
      return Err(DialFailed);
    }
    return Ok(leg);
  }

  // ---- the race ----

  /** The order in which the attempts finish. */
  predicate IsOrder(order: seq<nat>, n: nat) {
    && |order| == n
    && (forall k :: 0 <= k < n ==> order[k] < n)
    && (forall j, k :: 0 <= j < k < n ==> order[j] != order[k])
  }

  /** What the attempts end with, in the order in which they finish. */
  function Finished(attempts: seq<Attempt>, order: seq<nat>): (r: seq<Attempt>)
    requires IsOrder(order, |attempts|)
    ensures |r| == |attempts| && forall k :: 0 <= k < |r| ==> r[k] == attempts[order[k]]
  {
    seq(|order|, k requires 0 <= k < |order| => attempts[order[k]])
  }

  /** The order does not matter to whether there is a winner: a race is won exactly if some attempt connects. */
  lemma SomebodyWins(attempts: seq<Attempt>, order: seq<nat>)
    requires IsOrder(order, |attempts|)
    ensures Winner(Finished(attempts, order)).Some? <==> exists k :: 0 <= k < |attempts| && attempts[k] == Connects
  {
    var finished := Finished(attempts, order);
    if k :| 0 <= k < |attempts| && attempts[k] == Connects {
      var j := PlaceOf(order, k);
      assert finished[j] == Connects;
    }
  }

  /** Every attempt finishes. */
  lemma {:induction false} PlaceOf(order: seq<nat>, k: nat) returns (j: nat)
    requires IsOrder(order, |order|) && k < |order|
    ensures j < |order| && order[j] == k
  {
    if forall i :: 0 <= i < |order| ==> order[i] != k {
      var all, hit := Below(|order|), set i | 0 <= i < |order| :: order[i];
      HitCount(order, |order|);
      assert hit <= all - {k};
      SubsetCount(hit, all - {k});
      assert false;
    }
    j :| 0 <= j < |order| && order[j] == k;
  }

  function Below(n: nat): (r: set<nat>)
    ensures |r| == n && forall i: nat :: i in r <==> i < n
  {
    if n == 0 then {} else Below(n - 1) + {n - 1}
  }

  lemma {:induction false} HitCount(order: seq<nat>, m: nat)
    requires m <= |order| && forall j, k :: 0 <= j < k < |order| ==> order[j] != order[k]
    ensures |set i | 0 <= i < m :: order[i]| == m
  {
    if m > 0 {
      HitCount(order, m - 1);
      assert (set i | 0 <= i < m :: order[i]) == (set i | 0 <= i < m - 1 :: order[i]) + {order[m - 1]};
    }
  }

  lemma {:induction false} SubsetCount(a: set<nat>, b: set<nat>)
    requires a <= b
    ensures |a| <= |b|
  {
    if x :| x in a {
      SubsetCount(a - {x}, b - {x});
    }
  }

  /** The place in that order of the first to connect. */
  function Winner(finished: seq<Attempt>): (w: Option<nat>)
    ensures w.None? <==> forall j :: 0 <= j < |finished| ==> finished[j] != Connects
    ensures w.Some? ==> w.value < |finished| && finished[w.value] == Connects
    ensures w.Some? ==> forall j :: 0 <= j < w.value ==> finished[j] != Connects
  {
    if finished == [] then None
    else if finished[0] == Connects then Some(0)
    else
      var w := Winner(finished[1..]);
      if w.Some? then Some(w.value + 1) else None
  }

  function Own(o: Outcome<Leg>): set<Handle>
    reads if o.Ok? then {o.value} else {}
  {
    if o.Ok? then o.value.Owns() else {}
  }

  /** All the handles in a list of sets. */
  function Union(own: seq<set<Handle>>): set<Handle> {
    if own == [] then {} else own[0] + Union(own[1..])
  }

  /** The sets have nothing in common with each other, nor with what was there before. */
  predicate Separate(own: seq<set<Handle>>, was: set<Handle>) {
    own == [] || (own[0] !! was + Union(own[1..]) && Separate(own[1..], was))
  }

  lemma {:induction false} SeparateLast(own: seq<set<Handle>>, x: set<Handle>, was: set<Handle>)
    requires Separate(own, was) && x !! was + Union(own)
    ensures Separate(own + [x], was) && Union(own + [x]) == Union(own) + x
  {
    if own == [] {
      assert own + [x] == [x] && [x][1..] == [];
    } else {
      assert (own + [x])[1..] == own[1..] + [x];
      SeparateLast(own[1..], x, was);
    }
  }

  /** What arrives on the channel for an attempt. */
  ghost predicate Answers(o: Outcome<Leg>, attempt: Attempt, to: UDPAddr)
    reads if o.Ok? then {o.value} else {}
  {
    && (o.Ok? <==> attempt == Connects)
    && (o.Err? ==> o.error == Failure(attempt))
    && (o.Ok? ==> o.value.addr == to && o.value.ownUDP)
    && (o.Ok? ==> o.value.qconn.Some? && o.value.qconn.value != o.value.packetConn)
  }

  /** The dialling goroutines, listed in the order in which they finish. */
  method DialAll(net: Net, addrs: seq<UDPAddr>, attempts: seq<Attempt>, order: seq<nat>)
    returns (ch: seq<Outcome<Leg>>, ghost own: seq<set<Handle>>)
    requires net.Valid() && |attempts| == |addrs| && IsOrder(order, |addrs|)
    modifies net
    ensures net.Valid() && |ch| == |own| == |addrs|
    ensures forall k :: 0 <= k < |ch| ==> Answers(ch[k], Finished(attempts, order)[k], addrs[order[k]])
    ensures forall k :: 0 <= k < |ch| ==> own[k] == Own(ch[k])
    ensures forall k :: 0 <= k < |ch| && ch[k].Ok? ==> fresh(ch[k].value)
    ensures net.open == old(net.open) + Union(own) && Separate(own, old(net.open))
  {
    ch, own := [], [];
    for k := 0 to |addrs|
      invariant net.Valid() && |ch| == |own| == k
      invariant forall j :: 0 <= j < k ==> Answers(ch[j], attempts[order[j]], addrs[order[j]]) && own[j] == Own(ch[j])
      invariant forall j :: 0 <= j < k && ch[j].Ok? ==> fresh(ch[j].value)
      invariant net.open == old(net.open) + Union(own) && Separate(own, old(net.open))
    {
      var o := ListenAndDialQUIC(net, addrs[order[k]], attempts[order[k]]);
      SeparateLast(own, Own(o), old(net.open));
      ch, own := ch + [o], own + [Own(o)];
    }
  }

  /** The receiving loop: the first leg to arrive is kept, later ones are closed, failures are collected. */
  method KeepFirst(net: Net, ch: seq<Outcome<Leg>>, ghost own: seq<set<Handle>>, ghost was: set<Handle>)
    returns (winner: Option<Leg>, errs: seq<Error>, ghost w: nat)
    requires net.Valid() && |own| == |ch| && forall k :: 0 <= k < |ch| ==> own[k] == Own(ch[k])
    requires net.open == was + Union(own) && Separate(own, was)
    modifies net`open
    ensures net.Valid()
    ensures winner.None? ==> net.open == was && |errs| == |ch| && forall j :: 0 <= j < |ch| ==> ch[j] == Err(errs[j])
    ensures winner.Some? ==>
      && w < |ch| && ch[w] == Ok(winner.value) && (forall j :: 0 <= j < w ==> ch[j].Err?)
      && Adds(winner.value, was, net.open)
  {
    winner, errs, w := None, [], 0;
    ghost var kept: set<Handle> := {};
    for i := 0 to |ch|
      invariant net.Valid() && Separate(own[i..], was)
      invariant winner.None? ==> kept == {} && |errs| == i && forall j :: 0 <= j < i ==> ch[j] == Err(errs[j])
      invariant winner.Some? ==>
        && w < i && ch[w] == Ok(winner.value) && (forall j :: 0 <= j < w ==> ch[j].Err?)
        && kept == own[w]
      invariant kept !! was + Union(own[i..])
      invariant net.open == was + kept + Union(own[i..])
    {
      assert own[i..][1..] == own[i + 1..] && own[i..][0] == own[i];
      var o := ch[i];
      if o.Err? {
        errs := errs + [o.error];
        continue;
      }
      if winner.None? {
        winner, w, kept := Some(o.value), i, own[i];
        continue;
      }
      o.value.Close(net);
    }
  }

  /** However many addresses and in whatever order the attempts finish: the first to connect is kept, every
      other connection is closed again, and if none connects nothing stays open and every
      failure is reported. */
  method RaceQUIC(net: Net, addrs: seq<UDPAddr>, attempts: seq<Attempt>, order: seq<nat>) returns (r: Outcome<Leg>)
    requires net.Valid() && |attempts| == |addrs| && IsOrder(order, |addrs|)
    modifies net
    ensures net.Valid()
    ensures r.Ok? <==> Winner(Finished(attempts, order)).Some?
    ensures r.Ok? ==>
      && fresh(r.value) && r.value.ownUDP && r.value.addr == addrs[order[Winner(Finished(attempts, order)).value]]
      && r.value.Live(net) && Adds(r.value, old(net.open), net.open)
    ensures r.Err? ==> net.open == old(net.open) && r.error.AllPortsFailed? && |r.error.errs| == |addrs|
    ensures r.Err? ==> forall k :: 0 <= k < |addrs| ==> r.error.errs[k] == Failure(Finished(attempts, order)[k])
  {
    var ch, own := DialAll(net, addrs, attempts, order);
    var winner, errs, w := KeepFirst(net, ch, own, old(net.open));
    if winner.Some? {
      assert Answers(ch[w], Finished(attempts, order)[w], addrs[order[w]]);
      return Ok(winner.value);
    }
    return Err(AllPortsFailed(errs));
  }
}
