/** The address pool as a value: what NewIPPool, AllocateFor and Release do to its fields. */
module PoolSpec {
  import opened Prelude
  import opened Addresses

  const MAX_IPV6_SEARCH: nat := 65536
  const LEASE_SPAN: nat := 0x1_0000_0000_0000_0000

  /** A uint64: the counter wraps at LEASE_SPAN. */
  type Lease = nat

  datatype Grant = Denied | Granted(prefix: Prefix, lease: Lease)

  datatype Pool = Pool(
    prefix: Prefix,
    server: Addr,
    free: seq<Addr>,
    next: Addr,
    inUse: set<Addr>,
    prefixOf: map<Addr, Prefix>,
    sticky: map<string, Addr>,
    lease: map<string, Lease>,
    nextLease: Lease)
  {
    predicate Is4() {
      Addresses.Is4(prefix.addr)
    }

    /** What the constructor checked about its arguments. */
    predicate Shaped() {
      prefix.Valid() && prefix.Masked() == prefix && prefix.Contains(server)
    }

    /** The lease a client holds now; a missing map entry reads as 0. */
    function LeaseOf(id: string): Lease {
      if id in lease then lease[id] else 0
    }
  }

  /** The addresses from lo up to but not including hi, ascending, without the server's. */
  function Hosts(lo: nat, hi: nat, server: Addr): seq<Addr>
    requires hi <= Span(V4)
    decreases hi - lo
  {
    if hi <= lo then []
    else Hosts(lo, hi - 1, server) + if IP(V4, hi - 1) == server then [] else [IP(V4, hi - 1)]
  }

  /** The pre-listed hosts of an IPv4 pool: strictly between network and broadcast. */
  function HostsOf(prefix: Prefix, server: Addr): seq<Addr>
    requires prefix.Valid() && Is4(prefix.addr)
  {
    BlockFits(prefix);
    Hosts(prefix.Base() + 1, prefix.Last(), server)
  }

  function FirstIPv6Candidate(prefix: Prefix, server: Addr): Addr
    requires prefix.Valid() && server.IP?
  {
    var second := Next(prefix.addr);
    var addr := if second == server then Next(second) else second;
    if prefix.Contains(addr) then addr else NoAddr
  }

  /** The list without the first occurrence of addr. */
  function Without(free: seq<Addr>, addr: Addr): seq<Addr> {
    if |free| == 0 then []
    else if free[0] == addr then free[1..]
    else [free[0]] + Without(free[1..], addr)
  }

  function HostPrefix(addr: Addr, is4: bool): Prefix {
    Prefix(addr, if is4 then 32 else 128)
  }

  /** What the IPv6 walk found, where it left the cursor, and whether it passed the end of the prefix. */
  datatype Found = Found(addr: Option<Addr>, next: Addr, wrapped: bool)

  /** The IPv6 walk from its i-th step on. */
  function Search(prefix: Prefix, server: Addr, inUse: set<Addr>, start: Addr, next: Addr, i: nat): Found
    requires prefix.Valid() && server.IP?
    decreases MAX_IPV6_SEARCH - i
  {
    if i >= MAX_IPV6_SEARCH then Found(None, next, false)
    else
      var reset := !prefix.Contains(next);
      var addr := if reset then FirstIPv6Candidate(prefix, server) else next;
      if addr == NoAddr then Found(None, NoAddr, true)
      else if addr == server || addr in inUse then
        if Next(addr) == start || (i > 0 && addr == start) then Found(None, Next(addr), reset)
        else
          var rest := Search(prefix, server, inUse, start, Next(addr), i + 1);
          rest.(wrapped := rest.wrapped || reset)
      else Found(Some(addr), Next(addr), reset)
  }

  function SearchFrom(p: Pool): Found
    requires p.Shaped()
  {
    Search(p.prefix, p.server, p.inUse, p.next, p.next, 0)
  }

  /** The pool NewIPPool builds, or None where it returns an error. */
  function NewPool(parsed: Option<Prefix>, server: Addr): Option<Pool>
    requires parsed.Some? ==> parsed.value.Valid()
    requires server.IP?
  {
    if parsed == None then None
    else
      var prefix := parsed.value.Masked();
      if Is4(prefix.addr) != Is4(server) then None
      else if !prefix.Contains(server) then None
      else
        var free := if Is4(prefix.addr) then HostsOf(prefix, server) else [];
        var next := if Is4(prefix.addr) then NoAddr else FirstIPv6Candidate(prefix, server);
        if Is4(prefix.addr) && |free| == 0 then None
        else if !Is4(prefix.addr) && next == NoAddr then None
        else Some(Pool(prefix, server, free, next, {}, map[], map[], map[], 0))
  }

  /** allocFreshLocked. */
  function AllocFresh(p: Pool): (Pool, Option<Addr>)
    requires p.Shaped()
  {
    if p.Is4() then
      if |p.free| == 0 then (p, None)
      else (p.(free := p.free[..|p.free| - 1]), Some(p.free[|p.free| - 1]))
    else
      var found := SearchFrom(p);
      (p.(next := found.next), found.addr)
  }

  /** Take the next lease number; a named client's current lease becomes this one. */
  function Stamp(p: Pool, id: string): Pool {
    var lease := (p.nextLease + 1) % LEASE_SPAN;
    p.(nextLease := lease, lease := if id == "" then p.lease else p.lease[id := lease])
  }

  function Occupy(p: Pool, addr: Addr): Pool {
    p.(inUse := p.inUse + {addr}, prefixOf := p.prefixOf[addr := HostPrefix(addr, p.Is4())])
  }

  predicate Remembered(p: Pool, id: string) {
    id != "" && id in p.sticky
  }

  function AllocateFor(p: Pool, id: string): (Pool, Grant)
    requires p.Shaped()
  {
    var q := Stamp(p, id);
    if Remembered(p, id) then
      var addr := p.sticky[id];
      (Occupy(q.(free := Without(p.free, addr)), addr), Granted(HostPrefix(addr, p.Is4()), q.nextLease))
    else
      var (r, taken) := AllocFresh(q);
      if taken == None then (r, Denied)
      else
        var addr := taken.value;
        var s := Occupy(r, addr);
        (s.(sticky := if id == "" then s.sticky else s.sticky[id := addr]),
         Granted(HostPrefix(addr, p.Is4()), q.nextLease))
  }

  /** Release acts only for an anonymous client or under the client's current lease. */
  predicate MayRelease(p: Pool, id: string, lease: Lease) {
    id == "" || p.LeaseOf(id) == lease
  }

  function Release(p: Pool, id: string, lease: Lease, prefix: Prefix): Pool {
    if !MayRelease(p, id, lease) then p
    else
      var q := if id == "" then p else p.(lease := p.lease - {id});
      var addr := prefix.addr;
      if addr !in p.inUse then q
      else q.(inUse := p.inUse - {addr}, prefixOf := p.prefixOf - {addr},
              free := if p.Is4() then p.free + [addr] else p.free)
  }

  function Available(p: Pool): nat
    requires p.Shaped()
  {
    if p.Is4() then |p.free|
    else if p.next.IP? && p.prefix.Contains(p.next) then 1
    else 0
  }
}
