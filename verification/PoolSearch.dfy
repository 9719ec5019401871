/** The IPv6 walk is a circular first-fit search from the cursor. */
module PoolSearch {
  import opened Prelude
  import opened Addresses
  import opened PoolSpec

  /** An address a client may be given: inside the prefix, above its base, not the server's,
      and for IPv4 below the broadcast address. */
  predicate AssignableIn(prefix: Prefix, server: Addr, a: Addr)
    requires prefix.Valid()
  {
    && prefix.Contains(a)
    && a.value != prefix.Base()
    && a != server
    && (Is4(prefix.addr) ==> a.value != prefix.Last())
  }

  predicate Assignable(p: Pool, a: Addr)
    requires p.Shaped()
  {
    AssignableIn(p.prefix, p.server, a)
  }

  lemma AssignableIsInterval(p: Pool, a: Addr)
    requires p.Shaped()
    ensures Assignable(p, a) <==>
            && a.IP? && a.family == p.prefix.addr.family && a != p.server
            && p.prefix.Base() < a.value <= p.prefix.Last() - (if p.Is4() then 1 else 0)
  {
    ContainsIsInterval(p.prefix, a);
  }

  /** The numbers the cursor walks over: from the first candidate to the last address. */
  function Lo(p: Pool): nat
    requires p.Shaped()
  {
    var second := p.prefix.Base() + 1;
    if p.server == FromValue(p.prefix.addr.family, second) then second + 1 else second
  }

  function Hi(p: Pool): nat
    requires p.Shaped()
  {
    p.prefix.Last()
  }

  /** The number of places in the circle. */
  function Circle(p: Pool): int
    requires p.Shaped()
  {
    Hi(p) - Lo(p) + 1
  }

  function CursorValue(next: Addr): nat {
    if next.IP? then next.value else Span(V6)
  }

  /** The cursor is in the circle or one past its end. */
  predicate CursorOk(p: Pool, next: Addr)
    requires p.Shaped()
  {
    (next.IP? ==> next.Valid() && next.family == V6) && Lo(p) <= CursorValue(next) <= Hi(p) + 1
  }

  predicate Walkable(p: Pool) {
    && p.Shaped() && !p.Is4()
    && FirstIPv6Candidate(p.prefix, p.server) != NoAddr
    && CursorOk(p, p.next)
  }

  /** Addresses the walk passes over. */
  ghost function Blocked(p: Pool): iset<nat> {
    iset n: nat | FromValue(V6, n) == p.server || FromValue(V6, n) in p.inUse
  }

  lemma FirstIsLo(p: Pool)
    requires p.Shaped() && !p.Is4()
    ensures FirstIPv6Candidate(p.prefix, p.server) == if Lo(p) <= Hi(p) then FromValue(V6, Lo(p)) else NoAddr
    ensures Hi(p) < Span(V6)
  {
    MaskedBlock(p.prefix);
    var second := Next(p.prefix.addr);
    var addr := if second == p.server then Next(second) else second;
    ContainsIsInterval(p.prefix, addr);
    ContainsIsInterval(p.prefix, p.server);
  }

  lemma InCircle(p: Pool, next: Addr)
    requires Walkable(p) && CursorOk(p, next)
    ensures p.prefix.Contains(next) <==> CursorValue(next) <= Hi(p)
    ensures next == FromValue(V6, CursorValue(next))
  {
    FirstIsLo(p);
    ContainsIsInterval(p.prefix, next);
  }

  // The walk in numbers: places lo..hi, of which those in b are passed over. The cursor n may
  // be hi + 1, one past the end, which stands for lo.

  datatype Trip = Trip(at: Option<nat>, n: nat, wrapped: bool)

  function Norm(lo: nat, hi: nat, n: nat): nat {
    if n == hi + 1 then lo else n
  }

  ghost function Walk(lo: nat, hi: nat, b: iset<nat>, start: nat, n: nat, i: nat): Trip
    decreases MAX_IPV6_SEARCH - i
  {
    if i >= MAX_IPV6_SEARCH then Trip(None, n, false)
    else
      var at := Norm(lo, hi, n);
      if at !in b then Trip(Some(at), at + 1, n == hi + 1)
      else if at + 1 == start || (i > 0 && at == start) then Trip(None, at + 1, n == hi + 1)
      else
        var rest := Walk(lo, hi, b, start, at + 1, i + 1);
        rest.(wrapped := rest.wrapped || n == hi + 1)
  }

  /** The k-th place of the circle counted from the cursor. */
  function Place(lo: nat, hi: nat, start: nat, k: int): int {
    var n := Norm(lo, hi, start) + k;
    if n <= hi then n else n - (hi - lo + 1)
  }

  /** The walk passed `skipped` blocked places and then took the next one, or gave up because
      it had been round the circle or had made all its steps. */
  ghost predicate Stopped(lo: nat, hi: nat, b: iset<nat>, start: nat, trip: Trip, skipped: nat) {
    var tries := Min(hi - lo + 1, MAX_IPV6_SEARCH);
    && lo <= trip.n <= hi + 1
    && skipped <= tries
    && (forall k :: 0 <= k < skipped ==> Place(lo, hi, start, k) in b)
    && match trip.at
       case None => skipped == tries
       case Some(at) =>
         && skipped < tries
         && at == Place(lo, hi, start, skipped)
         && at !in b
         && trip.n == at + 1
  }

  /** The walk from its i-th step, standing at the i-th place with all earlier ones blocked. */
  lemma {:induction false} Scan(lo: nat, hi: nat, b: iset<nat>, start: nat, n: nat, i: nat) returns (skipped: nat)
    requires lo <= start <= hi + 1 && lo <= n <= hi + 1 && lo <= hi && i <= MAX_IPV6_SEARCH
    requires i <= hi - lo ==> Norm(lo, hi, n) == Place(lo, hi, start, i)
    requires i > hi - lo ==> i == hi - lo + 1 && n == hi + 1 && start == lo
    requires forall k :: 0 <= k < Min(i, hi - lo + 1) ==> Place(lo, hi, start, k) in b
    ensures Stopped(lo, hi, b, start, Walk(lo, hi, b, start, n, i), skipped)
    decreases MAX_IPV6_SEARCH - i
  {
    if i >= MAX_IPV6_SEARCH {
      return MAX_IPV6_SEARCH;
    }
    var at := Norm(lo, hi, n);
    if i > hi - lo {
      assert at == start == Place(lo, hi, start, 0);
      return hi - lo + 1;
    }
    if at !in b {
      return i;
    }
    if at + 1 == start || (i > 0 && at == start) {
      return hi - lo + 1;
    }
    skipped := Scan(lo, hi, b, start, at + 1, i + 1);
  }

  /** The tests of one step of the pool's walk, in numbers. */
  lemma StepInNumbers(p: Pool, next: Addr)
    requires Walkable(p) && CursorOk(p, next)
    ensures var at := Norm(Lo(p), Hi(p), CursorValue(next));
            var addr := FromValue(V6, at);
            && addr == (if p.prefix.Contains(next) then next else FirstIPv6Candidate(p.prefix, p.server))
            && (p.prefix.Contains(next) <==> CursorValue(next) != Hi(p) + 1)
            && addr.IP? && CursorOk(p, Next(addr)) && CursorValue(Next(addr)) == at + 1
            && (addr == p.server || addr in p.inUse <==> at in Blocked(p))
            && (Next(addr) == p.next <==> at + 1 == CursorValue(p.next))
            && (addr == p.next <==> at == CursorValue(p.next))
  {
    FirstIsLo(p);
    InCircle(p, next);
    InCircle(p, p.next);
  }

  function WalkOf(p: Pool, next: Addr, i: nat): Found
    requires p.Shaped()
  {
    Search(p.prefix, p.server, p.inUse, p.next, next, i)
  }

  ghost function NumbersOf(p: Pool, next: Addr, i: nat): Trip
    requires p.Shaped()
  {
    Walk(Lo(p), Hi(p), Blocked(p), CursorValue(p.next), CursorValue(next), i)
  }

  /** The pool's walk is the walk in numbers. */
  lemma {:induction false} WalkInNumbers(p: Pool, next: Addr, i: nat)
    requires Walkable(p) && CursorOk(p, next)
    ensures SameTrip(p, WalkOf(p, next, i), NumbersOf(p, next, i))
    decreases MAX_IPV6_SEARCH - i
  {
    if i < MAX_IPV6_SEARCH {
      StepInNumbers(p, next);
      var addr := FromValue(V6, Norm(Lo(p), Hi(p), CursorValue(next)));
      WalkInNumbers(p, Next(addr), i + 1);
    }
  }

  predicate SameTrip(p: Pool, found: Found, trip: Trip)
    requires p.Shaped()
  {
    && CursorOk(p, found.next) && CursorValue(found.next) == trip.n
    && found.wrapped == trip.wrapped
    && found.addr == (if trip.at == None then None else Some(FromValue(V6, trip.at.value)))
  }

  /** The walk from the cursor, in full: it hands out the first place, counted round the circle,
      that is neither the server's nor in use, looking at no more than 65536 places. */
  lemma {:induction false} FirstFit(p: Pool) returns (skipped: nat)
    requires Walkable(p)
    ensures var found := SearchFrom(p);
            var tries := Min(Circle(p), 65536);
            && CursorOk(p, found.next)
            && skipped <= tries
            && (forall k :: 0 <= k < skipped ==> Place(Lo(p), Hi(p), CursorValue(p.next), k) in Blocked(p))
            && match found.addr
               case None => skipped == tries
               case Some(a) =>
                 && skipped < tries
                 && a == FromValue(V6, Place(Lo(p), Hi(p), CursorValue(p.next), skipped))
                 && Assignable(p, a) && a !in p.inUse
                 && found.next == Next(a)
  {
    FirstIsLo(p);
    InCircle(p, p.next);
    WalkInNumbers(p, p.next, 0);
    var lo, hi, start := Lo(p), Hi(p), CursorValue(p.next);
    skipped := Scan(lo, hi, Blocked(p), start, start, 0);
    InCircle(p, SearchFrom(p).next);
    if SearchFrom(p).addr.Some? {
      AssignableIsInterval(p, SearchFrom(p).addr.value);
    }
  }

  /** In a prefix small enough for one search to go all the way round, which every /112 or longer
      is, the pool is exhausted exactly when every address it may give is in use. */
  lemma ExhaustedIffAllInUse(p: Pool)
    requires Walkable(p) && Circle(p) <= MAX_IPV6_SEARCH
    ensures SearchFrom(p).addr == None <==> forall a: Addr :: Assignable(p, a) ==> a in p.inUse
  {
    var skipped := FirstFit(p);
    var lo, hi, start := Lo(p), Hi(p), CursorValue(p.next);
    if SearchFrom(p).addr == None {
      forall a: Addr | Assignable(p, a)
        ensures a in p.inUse
      {
        AssignableIsInterval(p, a);
        FirstIsLo(p);
        var s := Norm(lo, hi, start);
        var k := if s <= a.value then a.value - s else a.value - s + Circle(p);
        assert Place(lo, hi, start, k) == a.value;
        assert a == FromValue(V6, a.value);
      }
    }
  }

  lemma LongPrefixIsSmall(p: Pool)
    requires p.Shaped() && !p.Is4() && p.prefix.bits >= 112
    ensures Circle(p) < MAX_IPV6_SEARCH
  {
    Pow2Of16();
    Pow2Add(128 - p.prefix.bits, p.prefix.bits - 112);
    MulMono(1, Pow2(p.prefix.bits - 112), Pow2(128 - p.prefix.bits));
    assert 128 - p.prefix.bits + (p.prefix.bits - 112) == 16;
  }

  /** A walk that does not pass the end of the prefix only moves forward. */
  lemma ForwardOnly(p: Pool)
    requires Walkable(p) && !SearchFrom(p).wrapped
    ensures var found := SearchFrom(p);
            && CursorValue(p.next) <= CursorValue(found.next)
            && (found.addr.Some? ==>
                  found.addr.value.IP? && CursorValue(p.next) <= found.addr.value.value < CursorValue(found.next))
  {
    InCircle(p, p.next);
    WalkInNumbers(p, p.next, 0);
    FirstIsLo(p);
    WalkForward(Lo(p), Hi(p), Blocked(p), CursorValue(p.next), CursorValue(p.next), 0);
    var skipped := FirstFit(p);
  }

  /** The walk passes the end of the prefix exactly when every place from the cursor to the end is blocked
      and they are fewer than the places one search may look at. */
  lemma WrapsIff(p: Pool)
    requires Walkable(p)
    ensures SearchFrom(p).wrapped <==> EndIsReached(p)
  {
    FirstIsLo(p);
    WalkInNumbers(p, p.next, 0);
    WalkWraps(Lo(p), Hi(p), Blocked(p), CursorValue(p.next), CursorValue(p.next), 0);
  }

  ghost predicate EndIsReached(p: Pool)
    requires p.Shaped()
  {
    && Hi(p) + 1 - CursorValue(p.next) < 65536
    && forall n: nat :: CursorValue(p.next) <= n <= Hi(p) ==> n in Blocked(p)
  }

  lemma {:induction false} WalkWraps(lo: nat, hi: nat, b: iset<nat>, start: nat, n: nat, i: nat)
    requires lo <= hi && lo <= start <= n <= hi + 1 && i == n - start
    ensures Walk(lo, hi, b, start, n, i).wrapped <==>
              hi + 1 - n < MAX_IPV6_SEARCH - i && forall m: nat :: n <= m <= hi ==> m in b
    decreases hi + 1 - n
  {
    if n <= hi && i < MAX_IPV6_SEARCH && n in b {
      WalkWraps(lo, hi, b, start, n + 1, i + 1);
    }
  }

  /** The k-th place counted round the circle from the cursor is the first one that is not blocked, and
      one search gets that far. */
  ghost predicate FirstOpen(p: Pool, k: nat)
    requires p.Shaped()
  {
    && k < Min(Circle(p), 65536)
    && PlaceOf(p, k) !in Blocked(p)
    && forall j :: 0 <= j < k ==> PlaceOf(p, j) in Blocked(p)
  }

  function PlaceOf(p: Pool, k: nat): int
    requires p.Shaped()
  {
    Place(Lo(p), Hi(p), CursorValue(p.next), k)
  }

  /** The walk hands out the k-th place exactly when that is the first open one. */
  lemma FoundIff(p: Pool, k: nat)
    requires Walkable(p)
    ensures FirstOpen(p, k) ==> SearchFrom(p).addr == Some(FromValue(V6, PlaceOf(p, k)))
    ensures SearchFrom(p).addr == None <==> !exists j: nat :: FirstOpen(p, j)
  {
    var skipped := FirstFit(p);
    assert forall j :: 0 <= j < skipped ==> PlaceOf(p, j) in Blocked(p);
    FirstIsLo(p);
    InCircle(p, p.next);
    if SearchFrom(p).addr.Some? {
      var a := SearchFrom(p).addr.value;
      assert a == FromValue(V6, PlaceOf(p, skipped)) && a !in p.inUse && a != p.server;
      assert FirstOpen(p, skipped);
    }
  }

  lemma {:induction false} WalkForward(lo: nat, hi: nat, b: iset<nat>, start: nat, n: nat, i: nat)
    requires !Walk(lo, hi, b, start, n, i).wrapped
    ensures var trip := Walk(lo, hi, b, start, n, i);
            n <= trip.n && (trip.at.Some? ==> n <= trip.at.value < trip.n)
    decreases MAX_IPV6_SEARCH - i
  {
    if i < MAX_IPV6_SEARCH && n in b && n + 1 != start && !(i > 0 && n == start) {
      WalkForward(lo, hi, b, start, n + 1, i + 1);
    }
  }
}
