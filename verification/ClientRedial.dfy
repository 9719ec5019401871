/** The mobile client's rule for reconnects: a new session is installed only if the first address
    the server lists is the IPv4 address the TUN was built with. */
module ClientRedial {
  import opened Prelude
  import opened Addresses
  import opened Packets
  import opened PumpSpec

  /** firstPrefix: the first prefix that is, or is not, plain IPv6. */
  function FirstPrefix(prefixes: seq<Prefix>, want6: bool): Option<Prefix> {
    if |prefixes| == 0 then None
    else if IsPlain6(prefixes[0].addr) == want6 then Some(prefixes[0])
    else FirstPrefix(prefixes[1..], want6)
  }

  /** lastAddr, lastBits and lastAddrV6; None is the empty string. */
  datatype Memory = Memory(addr: Option<Addr>, bits: nat, addrV6: Option<Addr>)

  function Remember(m: Memory, prefixes: seq<Prefix>): Memory {
    var p, q := FirstPrefix(prefixes, false), FirstPrefix(prefixes, true);
    Memory(
      if p.Some? then Some(p.value.addr) else m.addr,
      if p.Some? then p.value.bits else m.bits,
      if q.Some? then Some(q.value.addr) else m.addrV6)
  }

  /** The address-changed branch of the redial. */
  predicate AddressChanged(m: Memory, prefixes: seq<Prefix>) {
    m.addr.Some? && |prefixes| > 0 && m.addr.value != prefixes[0].addr
  }

  predicate IPv4First(prefixes: seq<Prefix>) {
    |prefixes| > 0 && !IsPlain6(prefixes[0].addr)
  }

  /** The tunnel's fields that reconnecting touches, all protected by one mutex. */
  class Tunnel {
    var memory: Memory
    var sess: Option<Sess>
    var stopped: bool
    var cancelled: bool
    var closed: set<Sess>
    var pipeOpen: bool     // false also where there is no datagram pipe
    var bridgeOpen: bool   // false also where there is no packet bridge

    constructor (s: Sess, prefixes: seq<Prefix>, pipe: bool)
      ensures pipeOpen == pipe && !bridgeOpen
      ensures memory == Remember(Memory(None, 0, None), prefixes)
      ensures sess == Some(s) && !stopped && !cancelled && closed == {}
    {
      memory := Remember(Memory(None, 0, None), prefixes);
      sess, stopped, cancelled, closed := Some(s), false, false, {};
      pipeOpen, bridgeOpen := pipe, false;
    }

    method RememberAssigned(prefixes: seq<Prefix>)
      modifies this`memory
      ensures memory == Remember(old(memory), prefixes)
    {
      var p := FindPrefix(prefixes, false);
      if p.Some? {
        memory := memory.(addr := Some(p.value.addr), bits := p.value.bits);
      }
      var q := FindPrefix(prefixes, true);
      if q.Some? {
        memory := memory.(addrV6 := Some(q.value.addr));
      }
    }

    static method FindPrefix(prefixes: seq<Prefix>, want6: bool) returns (p: Option<Prefix>)
      ensures p == FirstPrefix(prefixes, want6)
    {
      for i := 0 to |prefixes|
        invariant FirstPrefix(prefixes, want6) == FirstPrefix(prefixes[i..], want6)
      {
        assert prefixes[i..][1..] == prefixes[i + 1..];
        if IsPlain6(prefixes[i].addr) == want6 {
          return Some(prefixes[i]);
        }
      }
      return None;
    }

    /** What the redial does with the session it has connected: on a stopped tunnel or a changed
        address the session is closed and not handed to the pump, and a change also
        cancels the pump; otherwise it becomes the tunnel's session. */
    method Redialed(s: Sess, prefixes: seq<Prefix>) returns (installed: bool)
      modifies this
      ensures stopped == old(stopped) && pipeOpen == old(pipeOpen) && bridgeOpen == old(bridgeOpen)
      ensures installed <==> !old(stopped) && !AddressChanged(old(memory), prefixes)
      ensures installed ==> sess == Some(s) && memory == Remember(old(memory), prefixes)
      ensures installed ==> closed == old(closed) && cancelled == old(cancelled)
      ensures !installed ==> sess == old(sess) && memory == old(memory) && closed == old(closed) + {s}
      ensures !installed ==> cancelled == (old(cancelled) || !old(stopped))
    {
      if stopped {
        closed := closed + {s};
        return false;
      }
      if memory.addr.Some? && |prefixes| > 0 && memory.addr.value != prefixes[0].addr {
        closed := closed + {s};
        cancelled := true;
        return false;
      }
      sess := Some(s);
      RememberAssigned(prefixes);
      return true;
    }

    /** Idempotent; the session known to the tunnel, its datagram pipe and its packet bridge are closed and
        the pump is cancelled. */
    method Stop()
      modifies this
      ensures stopped && memory == old(memory) && sess == old(sess)
      ensures old(stopped) ==>
        && closed == old(closed) && cancelled == old(cancelled)
        && pipeOpen == old(pipeOpen) && bridgeOpen == old(bridgeOpen)
      ensures !old(stopped) ==>
        && cancelled && !pipeOpen && !bridgeOpen
        && closed == old(closed) + (if sess.Some? then {sess.value} else {})
    {
      if stopped {
        return;
      }
      stopped := true;
      cancelled := true;
      if sess.Some? {
        closed := closed + {sess.value};
      }
      if pipeOpen {
        pipeOpen := false;
      }
      if bridgeOpen {
        bridgeOpen := false;
      }
    }
  }

  // ---- which lists the rule accepts ----

  /** Against a server that lists IPv4 first, the rule accepts a new session exactly when its first
      address is the one remembered from the last installed session. */
  lemma IPv4FirstAcceptsSame(m: Memory, before: seq<Prefix>, now: seq<Prefix>)
    requires IPv4First(before) && IPv4First(now)
    ensures AddressChanged(Remember(m, before), now) <==> now[0].addr != before[0].addr
  {
  }

  /** A server that answers every dial with the same list is taken to have changed the address
      exactly when that list puts a plain IPv6 address before one that is not: the remembered
      address is the first IPv4 one, the compared address is the first of the list. */
  lemma SameListRefusedIff(m: Memory, prefixes: seq<Prefix>)
    requires m.addr == None
    ensures AddressChanged(Remember(m, prefixes), prefixes) <==>
              && |prefixes| > 0 && IsPlain6(prefixes[0].addr)
              && exists p <- prefixes :: !IsPlain6(p.addr)
  {
    FirstPrefixFound(prefixes, false);
  }

  lemma {:induction false} FirstPrefixFound(prefixes: seq<Prefix>, want6: bool)
    ensures var p := FirstPrefix(prefixes, want6);
            && (p.Some? <==> exists q <- prefixes :: IsPlain6(q.addr) == want6)
            && (p.Some? ==> p.value in prefixes && IsPlain6(p.value.addr) == want6)
  {
    if |prefixes| > 0 {
      FirstPrefixFound(prefixes[1..], want6);
      assert prefixes == [prefixes[0]] + prefixes[1..];
      assert prefixes[0] in prefixes;
    }
  }

  /** The prefix at index i is the first that is, or is not, plain IPv6. */
  predicate IsFirst(prefixes: seq<Prefix>, want6: bool, i: nat)
    requires i < |prefixes|
  {
    IsPlain6(prefixes[i].addr) == want6 && forall j :: 0 <= j < i ==> IsPlain6(prefixes[j].addr) != want6
  }

  /** The prefix found is the one at index i exactly when that is the first of its kind. */
  lemma {:induction false} FirstPrefixIsFirst(prefixes: seq<Prefix>, want6: bool, i: nat)
    requires i < |prefixes| && IsFirst(prefixes, want6, i)
    ensures FirstPrefix(prefixes, want6) == Some(prefixes[i])
  {
    if i > 0 {
      FirstPrefixIsFirst(prefixes[1..], want6, i - 1);
    }
  }

  /** Address and length remembered are those of the first prefix that is not plain IPv6, the IPv6 address that of
      the first one that is; what the list does not name stays as it was. */
  lemma RememberedIs(m: Memory, prefixes: seq<Prefix>)
    ensures forall i | 0 <= i < |prefixes| && IsFirst(prefixes, false, i) ::
              var r := Remember(m, prefixes);
              r.addr == Some(prefixes[i].addr) && r.bits == prefixes[i].bits
    ensures forall i | 0 <= i < |prefixes| && IsFirst(prefixes, true, i) ::
              Remember(m, prefixes).addrV6 == Some(prefixes[i].addr)
    ensures (forall p <- prefixes :: IsPlain6(p.addr)) ==>
              Remember(m, prefixes).addr == m.addr && Remember(m, prefixes).bits == m.bits
    ensures (forall p <- prefixes :: !IsPlain6(p.addr)) ==> Remember(m, prefixes).addrV6 == m.addrV6
  {
    FirstPrefixFound(prefixes, false);
    FirstPrefixFound(prefixes, true);
    forall i, want6 | 0 <= i < |prefixes| && IsFirst(prefixes, want6, i)
      ensures FirstPrefix(prefixes, want6) == Some(prefixes[i])
    {
      FirstPrefixIsFirst(prefixes, want6, i);
    }
  }

  /** What the tunnel remembers after dialing a server that lists IPv4 first any number of times,
      with every session whose first address differs turned away. */
  function AfterRedials(m: Memory, lists: seq<seq<Prefix>>): Memory
    decreases |lists|
  {
    if lists == [] then m
    else AfterRedials(if AddressChanged(m, lists[0]) then m else Remember(m, lists[0]), lists[1..])
  }

  /** The address the TUN was built with is never replaced by another one. */
  lemma {:induction false} TunAddressNeverChanges(m: Memory, lists: seq<seq<Prefix>>)
    requires m.addr.Some? && forall l <- lists :: IPv4First(l)
    ensures AfterRedials(m, lists).addr == m.addr
    decreases |lists|
  {
    if lists != [] {
      assert lists[0] in lists;
      var n := if AddressChanged(m, lists[0]) then m else Remember(m, lists[0]);
      TunAddressNeverChanges(n, lists[1..]);
    }
  }
}
