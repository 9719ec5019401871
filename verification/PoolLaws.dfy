/** What every sequence of pool calls keeps. */
module PoolLaws {
  import opened Prelude
  import opened Addresses
  import opened PoolSpec
  import opened PoolSearch

  predicate NoDups<T(==)>(s: seq<T>) {
    forall i, j :: 0 <= i < j < |s| ==> s[i] != s[j]
  }

  /** The addresses a pool may ever hand out. */
  ghost function Candidates(prefix: Prefix, server: Addr): iset<Addr>
    requires prefix.Valid()
  {
    iset a: Addr | AssignableIn(prefix, server, a)
  }

  function Elements(s: seq<Addr>): set<Addr> {
    set a <- s
  }

  ghost function Finite(s: set<Addr>): iset<Addr> {
    iset a | a in s
  }

  /** The books of a pool over the addresses hosts, of which `out` is being handed over: it has
      left the free list and is not yet marked in use. For IPv4 the free, handed-over and in-use
      addresses are exactly the hosts, each once; an IPv6 pool keeps no free list. */
  ghost predicate Books(p: Pool, hosts: iset<Addr>, out: set<Addr>) {
    && p.prefixOf.Keys == p.inUse
    && (forall a <- p.inUse :: p.prefixOf[a] == HostPrefix(a, p.Is4()) && a in hosts)
    && (forall id <- p.sticky :: id != "" && p.sticky[id] in hosts)
    && (forall a <- out :: a in hosts)
    && (if p.Is4() then
          && NoDups(p.free)
          && hosts == Finite(Elements(p.free) + p.inUse + out)
          && Elements(p.free) !! p.inUse && Elements(p.free) !! out
        else p.free == [])
  }

  ghost predicate InvBut(p: Pool, out: set<Addr>) {
    && p.Shaped()
    && Books(p, Candidates(p.prefix, p.server), out)
    && (!p.Is4() ==> Walkable(p))
  }

  ghost predicate Inv(p: Pool) {
    InvBut(p, {})
  }

  // ---- construction ----

  predicate Ascending(s: seq<Addr>) {
    forall i, j :: 0 <= i < j < |s| ==> Is4(s[i]) && Is4(s[j]) && s[i].value < s[j].value
  }

  lemma {:induction false} HostsExact(lo: nat, hi: nat, server: Addr)
    requires hi <= Span(V4)
    ensures forall a: Addr :: a in Hosts(lo, hi, server) <==> Is4(a) && lo <= a.value < hi && a != server
    ensures Ascending(Hosts(lo, hi, server))
    decreases hi - lo
  {
    if lo < hi {
      HostsExact(lo, hi - 1, server);
      var front := Hosts(lo, hi - 1, server);
      forall i | 0 <= i < |front|
        ensures Is4(front[i]) && front[i].value < hi - 1
      {
        assert front[i] in front;
      }
    }
  }

  /** NewIPPool's pre-listed IPv4 hosts are, in ascending order, exactly the assignable addresses. */
  lemma HostsAreAssignable(prefix: Prefix, server: Addr)
    requires prefix.Valid() && Is4(prefix.addr)
    ensures Ascending(HostsOf(prefix, server))
    ensures forall a: Addr :: a in HostsOf(prefix, server) <==> AssignableIn(prefix, server, a)
  {
    BlockFits(prefix);
    HostsExact(prefix.Base() + 1, prefix.Last(), server);
    forall a: Addr
      ensures a in HostsOf(prefix, server) <==> AssignableIn(prefix, server, a)
    {
      ContainsIsInterval(prefix, a);
    }
  }

  /** The constructor succeeds exactly when the text parses, the server lies inside the prefix
      (and so has its family) and some address is left to assign; the new pool is empty and in order. */
  lemma NewPoolLaw(parsed: Option<Prefix>, server: Addr)
    requires parsed.Some? ==> parsed.value.Valid()
    requires server.IP?
    ensures NewPool(parsed, server).Some? <==>
            && parsed.Some?
            && parsed.value.Contains(server)
            && exists a: Addr :: AssignableIn(parsed.value.Masked(), server, a)
    ensures NewPool(parsed, server).Some? ==>
              var p := NewPool(parsed, server).value;
              && Inv(p) && p.inUse == {} && p.sticky == map[] && p.lease == map[] && p.nextLease == 0
              && p.prefix == parsed.value.Masked() && p.server == server
              && (p.Is4() ==> p.free == HostsOf(p.prefix, server))
  {
    if parsed.Some? {
      var prefix := parsed.value.Masked();
      MaskedBlock(parsed.value);
      ContainsIsInterval(parsed.value, server);
      ContainsIsInterval(prefix, server);
      if prefix.Contains(server) {
        if Is4(prefix.addr) {
          HostsAreAssignable(prefix, server);
          if |HostsOf(prefix, server)| > 0 {
            assert AssignableIn(prefix, server, HostsOf(prefix, server)[0]);
          }
        } else {
          NewIPv6Pool(prefix, server);
        }
      }
    }
  }

  lemma NewPoolInOrder(parsed: Option<Prefix>, server: Addr)
    requires parsed.Some? ==> parsed.value.Valid()
    requires server.IP? && NewPool(parsed, server).Some?
    ensures Inv(NewPool(parsed, server).value)
  {
    NewPoolLaw(parsed, server);
  }

  lemma NewIPv6Pool(prefix: Prefix, server: Addr)
    requires prefix.Valid() && prefix.Masked() == prefix && !Is4(prefix.addr) && prefix.Contains(server)
    ensures var first := FirstIPv6Candidate(prefix, server);
            && (first != NoAddr <==> exists a: Addr :: AssignableIn(prefix, server, a))
            && (first != NoAddr ==> Walkable(Pool(prefix, server, [], first, {}, map[], map[], map[], 0)))
  {
    var first := FirstIPv6Candidate(prefix, server);
    var p := Pool(prefix, server, [], first, {}, map[], map[], map[], 0);
    FirstIsLo(p);
    if first != NoAddr {
      AssignableIsInterval(p, first);
      MaskedBlock(prefix);
      assert AssignableIn(prefix, server, first);
    } else {
      forall a: Addr
        ensures !AssignableIn(prefix, server, a)
      {
        AssignableIsInterval(p, a);
      }
    }
  }

  // ---- one call ----

  lemma {:induction false} WithoutLaw(free: seq<Addr>, addr: Addr)
    requires NoDups(free)
    ensures NoDups(Without(free, addr))
    ensures Elements(Without(free, addr)) == Elements(free) - {addr}
  {
    if |free| > 0 {
      assert free == [free[0]] + free[1..];
      assert Elements(free) == {free[0]} + Elements(free[1..]);
      assert free[0] !in Elements(free[1..]);
      if free[0] != addr {
        WithoutLaw(free[1..], addr);
        var rest := Without(free[1..], addr);
        assert free[0] !in Elements(rest);
        assert Elements([free[0]] + rest) == {free[0]} + Elements(rest);
      }
    }
  }

  lemma OccupyBooks(p: Pool, hosts: iset<Addr>, addr: Addr, id: string)
    requires Books(p, hosts, {addr})
    ensures var q := Occupy(p, addr);
            Books(q.(sticky := if id == "" then q.sticky else q.sticky[id := addr]), hosts, {})
  {
    var r := Occupy(p, addr);
    var q := r.(sticky := if id == "" then r.sticky else r.sticky[id := addr]);
    assert Elements(p.free) + q.inUse + {} == Elements(p.free) + p.inUse + {addr};
  }

  /** Handing out a remembered address takes it from the free list if it is there. */
  lemma RecallBooks(p: Pool, hosts: iset<Addr>, addr: Addr)
    requires Books(p, hosts, {}) && addr in hosts
    ensures Books(p.(free := Without(p.free, addr)), hosts, {addr})
  {
    if p.Is4() {
      WithoutLaw(p.free, addr);
    }
  }

  /** The last host of the free list is one of the hosts and unused, and the rest no longer holds it. */
  lemma TakeLastBooks(p: Pool, hosts: iset<Addr>)
    requires Books(p, hosts, {}) && p.Is4() && |p.free| > 0
    ensures var n := |p.free| - 1;
            p.free[n] in hosts && p.free[n] !in p.inUse && Books(p.(free := p.free[..n]), hosts, {p.free[n]})
  {
    var n := |p.free| - 1;
    assert p.free == p.free[..n] + [p.free[n]];
    assert Elements(p.free[..n]) == Elements(p.free) - {p.free[n]};
    assert p.free[n] in Elements(p.free);
  }

  lemma ReleaseBooks(p: Pool, hosts: iset<Addr>, addr: Addr)
    requires Books(p, hosts, {}) && addr in p.inUse
    ensures Books(p.(inUse := p.inUse - {addr}, prefixOf := p.prefixOf - {addr},
                     free := if p.Is4() then p.free + [addr] else p.free), hosts, {})
  {
    assert Elements(p.free + [addr]) == Elements(p.free) + {addr};
  }

  /** A fresh address is assignable and was not in use. */
  lemma FreshLaw(p: Pool)
    requires Inv(p)
    ensures var (q, taken) := AllocFresh(p);
            && q == p.(free := q.free, next := q.next)
            && (taken == None ==> Inv(q))
            && (taken.Some? ==> InvBut(q, {taken.value}) && Assignable(p, taken.value) && taken.value !in p.inUse)
  {
    if p.Is4() {
      if |p.free| > 0 {
        TakeLastBooks(p, Candidates(p.prefix, p.server));
      }
    } else {
      var skipped := FirstFit(p);
    }
  }

  lemma OccupyKeepsInv(p: Pool, addr: Addr, id: string)
    requires InvBut(p, {addr})
    ensures var q := Occupy(p, addr);
            Inv(q.(sticky := if id == "" then q.sticky else q.sticky[id := addr]))
  {
    OccupyBooks(p, Candidates(p.prefix, p.server), addr, id);
  }

  lemma RecallKeepsInv(p: Pool, id: string)
    requires Inv(p) && Remembered(p, id)
    ensures InvBut(Stamp(p, id).(free := Without(p.free, p.sticky[id])), {p.sticky[id]})
  {
    RecallBooks(Stamp(p, id), Candidates(p.prefix, p.server), p.sticky[id]);
  }

  /** AllocateFor keeps the pool in order. */
  lemma AllocateKeepsInv(p: Pool, id: string)
    requires Inv(p)
    ensures Inv(AllocateFor(p, id).0)
  {
    if Remembered(p, id) {
      RecallKeepsInv(p, id);
      OccupyKeepsInv(Stamp(p, id).(free := Without(p.free, p.sticky[id])), p.sticky[id], "");
    } else {
      var q := Stamp(p, id);
      assert Inv(q);
      FreshLaw(q);
      var (r, taken) := AllocFresh(q);
      if taken.Some? {
        OccupyKeepsInv(r, taken.value, id);
      }
    }
  }

  /** What one AllocateFor does: a refusal leaves everything but the lease bookkeeping and the IPv6
      cursor alone; a grant is for one assignable address, which is now in use, and which was
      free before unless it is the client's remembered one. */
  lemma AllocateLaw(p: Pool, id: string)
    requires Inv(p)
    ensures var (q, g) := AllocateFor(p, id);
            Served(p, id, q, g) && (g.Granted? ==> Assignable(p, g.prefix.addr))
  {
    if Remembered(p, id) {
      assert p.sticky[id := p.sticky[id]] == p.sticky;
    } else {
      FreshLaw(Stamp(p, id));
    }
  }

  /** A prefix of full length, which covers its address and no other. */
  ghost predicate OneAddress(prefix: Prefix) {
    && prefix.Valid() && prefix.bits == Width(prefix.addr.family)
    && forall b: Addr :: prefix.Contains(b) <==> b == prefix.addr
  }

  lemma HostIsOneAddress(p: Pool, a: Addr)
    requires p.Shaped() && Assignable(p, a)
    ensures OneAddress(HostPrefix(a, p.Is4())) && HostPrefix(a, p.Is4()).addr == a
  {
    AssignableIsInterval(p, a);
    BlockFits(p.prefix);
  }

  /** Of either family a grant is a host prefix, and so is every prefix on record: /32 or /128, covering the one
      address and no other. */
  lemma GrantsAreHosts(p: Pool, id: string)
    requires Inv(p)
    ensures var g := AllocateFor(p, id).1; g.Granted? ==> OneAddress(g.prefix)
    ensures p.prefixOf.Keys == p.inUse && forall a <- p.inUse :: OneAddress(p.prefixOf[a]) && p.prefixOf[a].addr == a
  {
    AllocateLaw(p, id);
    var g := AllocateFor(p, id).1;
    if g.Granted? {
      HostIsOneAddress(p, g.prefix.addr);
    }
    forall a <- p.inUse
      ensures OneAddress(p.prefixOf[a]) && p.prefixOf[a].addr == a
    {
      HostIsOneAddress(p, a);
    }
  }

  /** Available of an IPv6 pool is 0 exactly when the cursor has passed the last address of the prefix. */
  lemma AvailableIPv6(p: Pool)
    requires Inv(p) && !p.Is4()
    ensures Available(p) == if CursorValue(p.next) > p.prefix.Last() then 0 else 1
  {
    InCircle(p, p.next);
  }

  /** The outcome of AllocateFor for the pool's books. */
  predicate Served(p: Pool, id: string, q: Pool, g: Grant) {
    && q.prefix == p.prefix && q.server == p.server
    && q.nextLease == (p.nextLease + 1) % LEASE_SPAN
    && q.lease == (if id == "" then p.lease else p.lease[id := q.nextLease])
    && match g
       case Denied => q.inUse == p.inUse && q.sticky == p.sticky && id !in p.sticky
       case Granted(prefix, lease) =>
         && prefix == HostPrefix(prefix.addr, p.Is4()) && lease == q.nextLease
         && q.inUse == p.inUse + {prefix.addr}
         && q.sticky == (if id == "" then p.sticky else p.sticky[id := prefix.addr])
         && (if id in p.sticky then prefix.addr == p.sticky[id] else prefix.addr !in p.inUse)
  }

  /** In an IPv4 pool that is in order, the free list and the addresses in use are exactly the
      assignable ones, each once, and every address in use is recorded with its /32. */
  lemma PartitionLaw(p: Pool)
    requires Inv(p) && p.Is4()
    ensures NoDups(p.free)
    ensures forall a: Addr :: Assignable(p, a) <==> a in p.free || a in p.inUse
    ensures forall a <- p.inUse :: a !in p.free
    ensures p.prefixOf.Keys == p.inUse && forall a <- p.inUse :: p.prefixOf[a] == Prefix(a, 32)
  {
    forall a: Addr
      ensures Assignable(p, a) <==> a in p.free || a in p.inUse
    {
      assert a in Candidates(p.prefix, p.server) <==> a in Finite(Elements(p.free) + p.inUse + {});
    }
    forall a <- p.inUse
      ensures a !in p.free
    {
      assert a !in Elements(p.free);
    }
  }

  /** An IPv4 pool refuses a client exactly when it remembers no address for it and all are in use. */
  lemma IPv4DeniedIffAllInUse(p: Pool, id: string)
    requires Inv(p) && p.Is4()
    ensures AllocateFor(p, id).1 == Denied <==>
            !Remembered(p, id) && forall a: Addr :: Assignable(p, a) ==> a in p.inUse
  {
    PartitionLaw(p);
    if |p.free| > 0 {
      assert p.free[0] in p.free;
    }
  }

  /** The same for an IPv6 pool whose prefix one search can cover, such as every /112 or longer. */
  lemma IPv6DeniedIffAllInUse(p: Pool, id: string)
    requires Inv(p) && !p.Is4() && Circle(p) <= MAX_IPV6_SEARCH
    ensures AllocateFor(p, id).1 == Denied <==>
            !Remembered(p, id) && forall a: Addr :: Assignable(p, a) ==> a in p.inUse
  {
    var q := Stamp(p, id);
    ExhaustedIffAllInUse(q);
    assert forall a: Addr :: Assignable(q, a) <==> Assignable(p, a);
  }

  /** Release, with any arguments at all, keeps the pool in order. */
  lemma ReleaseKeepsInv(p: Pool, id: string, lease: Lease, prefix: Prefix)
    requires Inv(p)
    ensures Inv(Release(p, id, lease, prefix))
  {
    if prefix.addr in p.inUse {
      ReleaseBooks(p, Candidates(p.prefix, p.server), prefix.addr);
    }
  }

  /** It frees the address it is given exactly when the caller may release. */
  lemma ReleaseLaw(p: Pool, id: string, lease: Lease, prefix: Prefix)
    ensures Returned(p, id, lease, prefix.addr, Release(p, id, lease, prefix))
  {
  }

  /** The outcome of Release for the pool's books. */
  predicate Returned(p: Pool, id: string, lease: Lease, a: Addr, q: Pool) {
    && q.prefix == p.prefix && q.server == p.server && q.sticky == p.sticky && q.nextLease == p.nextLease
    && q.inUse == (if MayRelease(p, id, lease) then p.inUse - {a} else p.inUse)
    && q.lease == (if id != "" && MayRelease(p, id, lease) then p.lease - {id} else p.lease)
  }

  // ---- every sequence of calls ----

  datatype Call =
    | Allocate(id: string)
    | Free(id: string, lease: Lease, prefix: Prefix)

  function After(p: Pool, call: Call): Pool
    requires p.Shaped()
  {
    match call
    case Allocate(id) => AllocateFor(p, id).0
    case Free(id, lease, prefix) => Release(p, id, lease, prefix)
  }

  /** Any calls in any order with any arguments leave the pool in order, and never change an
      address the pool remembers for a client. */
  ghost function AfterAll(p: Pool, calls: seq<Call>): (q: Pool)
    requires Inv(p)
    ensures Inv(q) && q.prefix == p.prefix && q.server == p.server
    ensures forall id <- p.sticky :: id in q.sticky && q.sticky[id] == p.sticky[id]
    decreases |calls|
  {
    if calls == [] then p
    else
      CallLaw(p, calls[0]);
      AfterAll(After(p, calls[0]), calls[1..])
  }

  lemma CallLaw(p: Pool, call: Call)
    requires Inv(p)
    ensures var q := After(p, call);
            && Inv(q) && q.prefix == p.prefix && q.server == p.server
            && forall id <- p.sticky :: id in q.sticky && q.sticky[id] == p.sticky[id]
  {
    match call
    case Allocate(id) => AllocateKeepsInv(p, id); AllocateLaw(p, id);
    case Free(id, lease, prefix) => ReleaseKeepsInv(p, id, lease, prefix);
  }

  /** Once a named client has been given an address, AllocateFor always gives it that address
      again and never refuses it, whatever was called in between. */
  lemma SameAddressForever(p: Pool, id: string, calls: seq<Call>)
    requires Inv(p) && id != ""
    ensures var (q, g) := AllocateFor(p, id);
            Inv(q) &&
            var h := AllocateFor(AfterAll(q, calls), id).1;
            g.Granted? ==> h.Granted? && h.prefix == g.prefix
  {
    AllocateKeepsInv(p, id);
    AllocateLaw(p, id);
    var (q, g) := AllocateFor(p, id);
    if g.Granted? {
      AllocateLaw(AfterAll(q, calls), id);
    }
  }

  // ---- nothing is lost ----

  lemma {:induction false} CountOnce(s: seq<Addr>, a: Addr)
    requires NoDups(s)
    ensures multiset(s)[a] == if a in s then 1 else 0
  {
    if |s| > 0 {
      CountOnce(s[1..], a);
      assert s == [s[0]] + s[1..];
    }
  }

  /** An IPv4 pool with nothing in use has a rearrangement of its original free list. */
  lemma IdleIsPermutation(p: Pool)
    requires Inv(p) && p.Is4() && p.inUse == {}
    ensures multiset(p.free) == multiset(HostsOf(p.prefix, p.server))
  {
    var hosts: seq<Addr> := HostsOf(p.prefix, p.server);
    HostElements(p);
    forall a: Addr
      ensures multiset(p.free)[a] == multiset(hosts)[a]
    {
      CountOnce(p.free, a);
      CountOnce(hosts, a);
      assert a in Elements(p.free) <==> a in Elements(hosts);
    }
  }

  /** Free and in-use addresses together are the hosts the constructor listed. */
  lemma HostElements(p: Pool)
    requires Inv(p) && p.Is4()
    ensures NoDups(HostsOf(p.prefix, p.server))
    ensures Elements(HostsOf(p.prefix, p.server)) == Elements(p.free) + p.inUse
  {
    HostsAreAssignable(p.prefix, p.server);
    forall a: Addr
      ensures a in HostsOf(p.prefix, p.server) <==> a in Elements(p.free) + p.inUse
    {
      assert a in Candidates(p.prefix, p.server) <==> a in Finite(Elements(p.free) + p.inUse + {});
    }
  }

  lemma {:induction false} SizeOfDistinct(s: seq<Addr>)
    requires NoDups(s)
    ensures |Elements(s)| == |s|
  {
    if |s| > 0 {
      SizeOfDistinct(s[1..]);
      assert s == [s[0]] + s[1..];
      assert Elements(s) == {s[0]} + Elements(s[1..]);
    }
  }

  /** Available counts exactly the IPv4 addresses not in use. */
  lemma AvailableIsTheRest(p: Pool)
    requires Inv(p) && p.Is4()
    ensures Available(p) + |p.inUse| == |HostsOf(p.prefix, p.server)|
  {
    HostElements(p);
    SizeOfDistinct(p.free);
    SizeOfDistinct(HostsOf(p.prefix, p.server));
  }

  // ---- when two clients can share an address ----

  predicate Distinct(m: map<string, Addr>) {
    forall x, y :: x in m && y in m && x != y ==> m[x] != m[y]
  }

  /** The address AllocateFor has for this client, if any: the remembered one; for others the last of the
      IPv4 free list, or the first IPv6 place from the cursor that is not blocked. */
  ghost predicate Offered(p: Pool, id: string, a: Addr)
    requires p.Shaped()
  {
    if Remembered(p, id) then a == p.sticky[id]
    else if p.Is4() then |p.free| > 0 && a == p.free[|p.free| - 1]
    else exists k: nat :: FirstOpen(p, k) && a == FromValue(V6, PlaceOf(p, k))
  }

  lemma OfferedIff(p: Pool, id: string, a: Addr)
    requires Inv(p)
    ensures Offered(p, id, a) <==> var g := AllocateFor(p, id).1; g.Granted? && g.prefix.addr == a
  {
    if !Remembered(p, id) && !p.Is4() {
      var q := Stamp(p, id);
      assert SearchFrom(q) == SearchFrom(p);
      FoundIff(p, 0);
      if k: nat :| FirstOpen(p, k) {
        FoundIff(p, k);
        assert forall j: nat :: FirstOpen(p, j) ==> j == k;
      }
    }
  }

  /** A newcomer would be given an address some client is remembered under. */
  ghost predicate Reissues(p: Pool, id: string)
    requires p.Shaped()
  {
    !Remembered(p, id) && exists a :: a in p.sticky.Values && Offered(p, id, a)
  }

  /** That is exactly when a fresh grant is for a remembered address. */
  lemma ReissuesIff(p: Pool, id: string)
    requires Inv(p)
    ensures Reissues(p, id) <==>
            var g := AllocateFor(p, id).1;
            g.Granted? && !Remembered(p, id) && g.prefix.addr in p.sticky.Values
  {
    forall a
      ensures Offered(p, id, a) <==> var g := AllocateFor(p, id).1; g.Granted? && g.prefix.addr == a
    {
      OfferedIff(p, id, a);
    }
  }

  lemma FreshIsUnremembered(p: Pool, id: string)
    requires Inv(p) && !Reissues(p, id)
    ensures var g := AllocateFor(p, id).1; g.Granted? && id !in p.sticky ==> g.prefix.addr !in p.sticky.Values
  {
    ReissuesIff(p, id);
  }

  /** Remembered addresses stay different for different clients exactly as long as no
      named newcomer is given one of them. */
  lemma DistinctUntilReissued(p: Pool, id: string)
    requires Inv(p) && Distinct(p.sticky)
    ensures Distinct(AllocateFor(p, id).0.sticky) <==> id == "" || !Reissues(p, id)
  {
    AllocateLaw(p, id);
    ReissuesIff(p, id);
    var (q, g) := AllocateFor(p, id);
    if id != "" && Reissues(p, id) {
      var other :| other in p.sticky && p.sticky[other] == g.prefix.addr;
      assert q.sticky[other] == q.sticky[id];
    }
  }

  /** A grant is for an address already in use exactly when the client is remembered under it:
      the remembered address is handed out without asking whether it is in use. */
  lemma SharedGrantIff(p: Pool, id: string)
    requires Inv(p) && AllocateFor(p, id).1.Granted?
    ensures AllocateFor(p, id).1.prefix.addr in p.inUse <==> Remembered(p, id) && p.sticky[id] in p.inUse
  {
    AllocateLaw(p, id);
  }

  /** A first-time client of an IPv4 pool takes the last address of the free list. */
  lemma TakesTheLast(p: Pool, id: string)
    requires Inv(p) && p.Is4() && |p.free| > 0 && id != "" && id !in p.sticky
    ensures var (q, g) := AllocateFor(p, id);
            var addr := p.free[|p.free| - 1];
            && g == Granted(HostPrefix(addr, true), (p.nextLease + 1) % LEASE_SPAN) && q.LeaseOf(id) == g.lease
            && q.free == p.free[..|p.free| - 1] && addr in q.inUse && q.sticky == p.sticky[id := addr]
            && q.prefix == p.prefix && q.nextLease == g.lease
  {
  }

  /** An address released right after a first-time client took it is the next one handed out. */
  lemma ReleasedIsNext(p: Pool, one: string, two: string)
    requires Inv(p) && p.Is4() && |p.free| > 0
    requires one != "" && two != "" && one != two && one !in p.sticky && two !in p.sticky
    ensures var (p1, g1) := AllocateFor(p, one);
            g1.Granted? &&
            var p2 := Release(p1, one, g1.lease, g1.prefix);
            Inv(p2) && p2.Is4() && one in p2.sticky && p2.sticky[one] == g1.prefix.addr && two !in p2.sticky &&
            AllocateFor(p2, two).1 == Granted(g1.prefix, (p2.nextLease + 1) % LEASE_SPAN)
  {
    AllocateKeepsInv(p, one);
    TakesTheLast(p, one);
    var (p1, g1) := AllocateFor(p, one);
    ReleaseKeepsInv(p1, one, g1.lease, g1.prefix);
    var p2 := Release(p1, one, g1.lease, g1.prefix);
    TakesTheLast(p2, two);
  }

  /** A run that puts two clients on one IPv4 address, possible in every pool that still has a free
      address: the first leaves, the second is given the freed address, the first comes back. */
  lemma TwoClientsOneAddress(p: Pool, one: string, two: string)
    requires Inv(p) && p.Is4() && |p.free| > 0
    requires one != "" && two != "" && one != two && one !in p.sticky && two !in p.sticky
    ensures var (p1, g1) := AllocateFor(p, one);
            g1.Granted? &&
            var p2 := Release(p1, one, g1.lease, g1.prefix);
            p2.Shaped() &&
            var (p3, g2) := AllocateFor(p2, two);
            p3.Shaped() &&
            var (p4, g3) := AllocateFor(p3, one);
            && g2.Granted? && g3.Granted? && g2.prefix == g3.prefix
            && p4.LeaseOf(two) == g2.lease && p4.LeaseOf(one) == g3.lease
  {
    ReleasedIsNext(p, one, two);
    var (p1, g1) := AllocateFor(p, one);
    var p2 := Release(p1, one, g1.lease, g1.prefix);
    AllocateKeepsInv(p2, two);
    AllocateLaw(p2, two);
    var (p3, g2) := AllocateFor(p2, two);
    AllocateLaw(p3, one);
  }

  lemma {:induction false} WithoutAbsent(free: seq<Addr>, addr: Addr)
    requires addr !in free
    ensures Without(free, addr) == free
  {
    if |free| > 0 {
      WithoutAbsent(free[1..], addr);
    }
  }

  /** An address can be given to a newcomer while it is held and not even marked in use: a client is served
      twice, gives the address back under its second lease, and its first session still holds it. */
  lemma FreedWhileHeld(p: Pool, one: string, two: string)
    requires Inv(p) && p.Is4() && |p.free| > 0
    requires one != "" && two != "" && one != two && one !in p.sticky && two !in p.sticky
    ensures var (p1, g1) := AllocateFor(p, one);
            g1.Granted? && p1.Shaped() &&
            var (p2, g2) := AllocateFor(p1, one);
            g2.Granted? && g2.prefix == g1.prefix &&
            var p3 := Release(p2, one, g2.lease, g2.prefix);
            p3.Shaped() && two !in p3.sticky && g1.prefix.addr !in p3.inUse && Offered(p3, two, g1.prefix.addr)
  {
    TakesTheLast(p, one);
    AllocateKeepsInv(p, one);
    var (p1, g1) := AllocateFor(p, one);
    PartitionLaw(p1);
    WithoutAbsent(p1.free, g1.prefix.addr);
    AllocateLaw(p1, one);
  }

  /** Every address an IPv6 pool has given out or remembers lies behind its cursor. */
  ghost predicate Behind(p: Pool)
    requires Inv(p)
  {
    && (forall a <- p.inUse :: a.value < CursorValue(p.next))
    && (forall id <- p.sticky :: p.sticky[id].value < CursorValue(p.next))
  }

  /** This AllocateFor takes the cursor past the end of an IPv6 prefix: it is for a newcomer, and every place
      from the cursor to the end is blocked, fewer than one search may look at. */
  ghost predicate Wraps(p: Pool, id: string)
    requires p.Shaped() && !p.Is4()
  {
    !Remembered(p, id) && EndIsReached(p)
  }

  /** Until the IPv6 cursor first passes the end of the prefix, every fresh address is larger than
      all given out or remembered before, so none is ever given to a second client. */
  lemma IPv6FreshIsLargest(p: Pool, id: string)
    requires Inv(p) && !p.Is4() && Behind(p) && !Wraps(p, id)
    ensures var (q, g) := AllocateFor(p, id);
            && Inv(q) && Behind(q) && !Reissues(p, id)
            && (g.Granted? && !Remembered(p, id) ==>
                  && (forall a <- p.inUse :: a.value < g.prefix.addr.value)
                  && (forall i <- p.sticky :: p.sticky[i].value < g.prefix.addr.value))
  {
    AllocateKeepsInv(p, id);
    AllocateLaw(p, id);
    ReissuesIff(p, id);
    if !Remembered(p, id) {
      WrapsIff(p);
      ForwardOnly(p);
      var found := SearchFrom(p);
      assert SearchFrom(Stamp(p, id)) == found;
    }
  }

  /** And the cursor only moves forward. */
  lemma CursorAdvances(p: Pool, id: string)
    requires Inv(p) && !p.Is4() && !Wraps(p, id)
    ensures CursorValue(p.next) <= CursorValue(AllocateFor(p, id).0.next)
  {
    if !Remembered(p, id) {
      WrapsIff(p);
      ForwardOnly(p);
      assert SearchFrom(Stamp(p, id)) == SearchFrom(p);
    }
  }

  lemma ReleaseKeepsBehind(p: Pool, id: string, lease: Lease, prefix: Prefix)
    requires Inv(p) && !p.Is4() && Behind(p)
    ensures Inv(Release(p, id, lease, prefix)) && Behind(Release(p, id, lease, prefix))
  {
    ReleaseKeepsInv(p, id, lease, prefix);
  }
}
