/** IPPool: the pool's fields updated in place, each method against the pool specification. */
module IPPoolClass {
  import opened Prelude
  import opened Addresses
  import opened LastAddress
  import opened PoolSpec
  import opened PoolLaws

  class IPPool {
    const prefix: Prefix
    const server: Addr
    const is4: bool
    var free: seq<Addr>
    var next: Addr
    var inUse: set<Addr>
    var prefixOf: map<Addr, Prefix>
    var sticky: map<string, Addr>
    var lease: map<string, Lease>
    var nextLease: Lease

    ghost function View(): Pool
      reads this
    {
      Pool(prefix, server, free, next, inUse, prefixOf, sticky, lease, nextLease)
    }

    ghost predicate Valid()
      reads this
    {
      Inv(View()) && is4 == Addresses.Is4(prefix.addr)
    }

    constructor Empty(prefix: Prefix, server: Addr, free: seq<Addr>, next: Addr)
      ensures View() == Pool(prefix, server, free, next, {}, map[], map[], map[], 0)
      ensures is4 == Addresses.Is4(prefix.addr)
    {
      this.prefix, this.server, this.is4 := prefix, server, Addresses.Is4(prefix.addr);
      this.free, this.next := free, next;
      inUse, prefixOf, sticky, lease, nextLease := {}, map[], map[], map[], 0;
    }

    /** parsed is what netip.ParsePrefix made of the configured text; null stands for an error. */
    static method NewIPPool(parsed: Option<Prefix>, server: Addr) returns (p: IPPool?)
      requires parsed.Some? ==> parsed.value.Valid()
      requires server.IP?
      ensures p == null <==> NewPool(parsed, server) == None
      ensures p != null ==> fresh(p) && p.Valid() && p.View() == NewPool(parsed, server).value
    {
      if parsed == None {
        return null;
      }
      var prefix := parsed.value.Masked();
      MaskedBlock(parsed.value);
      if Addresses.Is4(prefix.addr) != Addresses.Is4(server) || !prefix.Contains(server) {
        return null;
      }
      var free, next := [], NoAddr;
      if Addresses.Is4(prefix.addr) {
        free := ListHosts(prefix, server);
        if |free| == 0 {
          return null;
        }
      } else {
        next := FirstIPv6Candidate(prefix, server);
        if next == NoAddr {
          return null;
        }
      }
      p := new IPPool.Empty(prefix, server, free, next);
      NewPoolInOrder(parsed, server);
    }

    static method ListHosts(prefix: Prefix, server: Addr) returns (free: seq<Addr>)
      requires prefix.Valid() && prefix.Masked() == prefix && Addresses.Is4(prefix.addr)
      ensures free == HostsOf(prefix, server)
    {
      var network := prefix.addr;
      var broadcast := LastIPOfPrefix(prefix);
      MaskedEnds(prefix);
      free := EnumerateHosts(network, broadcast, server);
    }

    /** Go's loop from the address after the network up to the broadcast address. */
    static method EnumerateHosts(network: Addr, broadcast: Addr, server: Addr) returns (free: seq<Addr>)
      requires Addresses.Is4(network) && Addresses.Is4(broadcast) && broadcast.Valid()
      requires network.value <= broadcast.value
      ensures free == Hosts(network.value + 1, broadcast.value, server)
    {
      free := [];
      var addr := Next(network);
      var n := network.value + 1;
      while Addresses.Is4(addr) && Less(addr, broadcast)
        invariant network.value + 1 <= n <= broadcast.value + 1 && addr == FromValue(V4, n)
        invariant n <= broadcast.value || n == network.value + 1
        invariant free == Hosts(network.value + 1, n, server)
        decreases broadcast.value + 1 - n
      {
        if addr != server {
          free := free + [addr];
        }
        addr := Next(addr);
        n := n + 1;
      }
      assert free == Hosts(network.value + 1, broadcast.value, server);
    }

    method TakeFree(addr: Addr)
      modifies this`free
      ensures free == Without(old(free), addr)
    {
      for i := 0 to |free|
        invariant free == old(free)
        invariant Without(free, addr) == free[..i] + Without(free[i..], addr)
      {
        var a := free[i];
        assert free[i..][1..] == free[i + 1..];
        if a == addr {
          free := free[..i] + free[i + 1..];
          return;
        }
        assert free[..i + 1] == free[..i] + [a];
      }
      assert free[..|free|] == free;
    }

    method AllocFreshLocked() returns (addr: Option<Addr>)
      requires View().Shaped() && is4 == Addresses.Is4(prefix.addr)
      modifies this`free, this`next
      ensures (View(), addr) == AllocFresh(old(View()))
    {
      if is4 {
        if |free| == 0 {
          return None;
        }
        addr := Some(free[|free| - 1]);
        free := free[..|free| - 1];
        return;
      }
      ghost var was := SearchFrom(View());
      var start := next;
      var i := 0;
      while i < MAX_IPV6_SEARCH
        invariant i <= MAX_IPV6_SEARCH
        invariant View() == old(View()).(next := next)
        invariant Search(prefix, server, inUse, start, next, i).addr == was.addr
        invariant Search(prefix, server, inUse, start, next, i).next == was.next
        decreases MAX_IPV6_SEARCH - i
      {
        var candidate := next;
        if !prefix.Contains(candidate) {
          next := FirstIPv6Candidate(prefix, server);
          if next == NoAddr {
            break;
          }
          candidate := next;
        }
        next := Next(candidate);
        if candidate == server || candidate in inUse {
          if next == start || (i > 0 && candidate == start) {
            break;
          }
          i := i + 1;
          continue;
        }
        return Some(candidate);
      }
      return None;
    }

    method AllocateFor(id: string) returns (g: Grant)
      requires Valid()
      modifies this
      ensures Valid()
      ensures (View(), g) == PoolSpec.AllocateFor(old(View()), id)
    {
      AllocateKeepsInv(View(), id);
      g := AllocateLocked(id);
    }

    /** The body of AllocateFor between taking and releasing the mutex. */
    method AllocateLocked(id: string) returns (g: Grant)
      requires View().Shaped() && is4 == Addresses.Is4(prefix.addr)
      modifies this
      ensures (View(), g) == PoolSpec.AllocateFor(old(View()), id)
    {
      nextLease := (nextLease + 1) % LEASE_SPAN;
      var current := nextLease;
      if id != "" {
        lease := lease[id := current];
        if id in sticky {
          var addr := sticky[id];
          TakeFree(addr);
          inUse := inUse + {addr};
          var host := HostPrefix(addr, is4);
          prefixOf := prefixOf[addr := host];
          return Granted(host, current);
        }
      }
      assert View() == Stamp(old(View()), id);
      var taken := AllocFreshLocked();
      if taken == None {
        return Denied;
      }
      var addr := taken.value;
      inUse := inUse + {addr};
      var host := HostPrefix(addr, is4);
      prefixOf := prefixOf[addr := host];
      if id != "" {
        sticky := sticky[id := addr];
      }
      return Granted(host, current);
    }

    method Release(id: string, held: Lease, host: Prefix)
      requires Valid()
      modifies this
      ensures Valid()
      ensures View() == PoolSpec.Release(old(View()), id, held, host)
    {
      ReleaseKeepsInv(View(), id, held, host);
      var addr := host.addr;
      if id != "" && (if id in lease then lease[id] else 0) != held {
        return;
      }
      if id != "" {
        lease := lease - {id};
      }
      if addr !in inUse {
        return;
      }
      inUse := inUse - {addr};
      prefixOf := prefixOf - {addr};
      if is4 {
        free := free + [addr];
      }
    }

    /** For IPv4, how many of the pool's addresses are not in use. */
    method Available() returns (n: nat)
      requires Valid()
      ensures n == PoolSpec.Available(View())
      ensures is4 ==> n + |inUse| == |HostsOf(prefix, server)|
    {
      if is4 {
        AvailableIsTheRest(View());
        return |free|;
      }
      if next != NoAddr && prefix.Contains(next) {
        return 1;
      }
      return 0;
    }
  }
}
