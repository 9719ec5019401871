/** IP addresses and prefixes with the operations of Go's net/netip that the server and the
    client use: Next, Masked, Contains and the family tests. */
module Addresses {
  import opened Prelude

  datatype Family = V4 | V6

  /** NoAddr is the zero netip.Addr, which is not a valid address. */
  datatype Addr = NoAddr | IP(family: Family, value: nat) {

    /** An address that netip can represent. */
    predicate Valid() {
      IP? && value < Span(family)
    }
  }

  /** A prefix as netip keeps it: the address need not have its host bits cleared. */
  datatype Prefix = Prefix(addr: Addr, bits: nat) {

    predicate Valid() {
      addr.Valid() && bits <= Width(addr.family)
    }

    /** How many addresses the prefix covers. */
    function Size(): (n: nat)
      requires Valid()
      ensures n >= 1
    {
      Pow2(Width(addr.family) - bits)
    }

    function Base(): (b: nat)
      requires Valid()
      ensures b <= addr.value
    {
      DivFloor(addr.value, Size());
      addr.value - addr.value % Size()
    }

    function Last(): nat
      requires Valid()
    {
      Base() + Size() - 1
    }

    /** The address with its host bits cleared. */
    function Masked(): (p: Prefix)
      requires Valid()
      ensures p.Valid() && p.addr.family == addr.family && p.bits == bits
    {
      Prefix(IP(addr.family, Base()), bits)
    }

    /** Same family and the same leading bits. */
    predicate Contains(a: Addr)
      requires Valid()
    {
      a.IP? && a.family == addr.family && a.value / Size() == addr.value / Size()
    }
  }

  function Width(f: Family): nat {
    if f == V4 then 32 else 128
  }

  /** The number of addresses of a family. */
  function Span(f: Family): nat {
    if f == V4 then 0x1_0000_0000 else 0x1_00000000_00000000_00000000_00000000
  }

  lemma SpanIsPow2(f: Family)
    ensures Span(f) == Pow2(Width(f))
  {
    Pow2Of16();
    Pow2Square(16, 0x1_0000);
    Pow2Square(32, 0x1_0000_0000);
    Pow2Square(64, 0x1_00000000_00000000);
  }

  lemma Pow2Of16()
    ensures Pow2(16) == 0x1_0000
  {
    assert Pow2(8) == 0x100;
    Pow2Square(8, 0x100);
  }

  lemma Pow2Square(n: nat, v: nat)
    requires Pow2(n) == v
    ensures Pow2(2 * n) == v * v
  {
    Pow2Add(n, n);
  }

  /** The address with this number, or NoAddr past the end of the family. */
  function FromValue(f: Family, v: nat): Addr {
    if v < Span(f) then IP(f, v) else NoAddr
  }

  function Next(a: Addr): Addr
    requires a.IP?
  {
    FromValue(a.family, a.value + 1)
  }

  function Is4(a: Addr): bool {
    a.IP? && a.family == V4
  }

  /** An IPv6 address of the form ::ffff:a.b.c.d. */
  predicate Is4In6(a: Addr) {
    a.IP? && a.family == V6 && 0xffff_0000_0000 <= a.value < 0x1_0000_0000_0000
  }

  predicate Less(a: Addr, b: Addr)
    requires a.IP? && b.IP? && a.family == b.family
  {
    a.value < b.value
  }

  /** A prefix contains exactly the addresses of its family from its base to its last one,
      and that block lies inside the family. */
  lemma ContainsIsInterval(p: Prefix, a: Addr)
    requires p.Valid()
    ensures p.Contains(a) <==> a.IP? && a.family == p.addr.family && p.Base() <= a.value <= p.Last()
    ensures p.Last() < Span(p.addr.family)
  {
    if a.IP? {
      SameBlock(p.addr.value, a.value, p.Size());
    }
    BlockFits(p);
  }

  /** The block of a prefix ends inside the family: sizes are powers of two that divide the span. */
  lemma BlockFits(p: Prefix)
    requires p.Valid()
    ensures p.Base() + p.Size() <= Span(p.addr.family)
  {
    SpanIsPow2(p.addr.family);
    Pow2Add(p.bits, Width(p.addr.family) - p.bits);
    BlockBelow(p.addr.value, p.Size(), Pow2(p.bits));
  }

  /** A masked prefix starts at its own address and ends inside the family. */
  lemma MaskedEnds(p: Prefix)
    requires p.Valid() && p.Masked() == p
    ensures p.addr.value == p.Base() <= p.Last() < Span(p.addr.family)
  {
    BlockFits(p);
  }

  /** Masking keeps the block, and a masked address is a multiple of the block size. */
  lemma MaskedBlock(p: Prefix)
    requires p.Valid()
    ensures p.Masked().Base() == p.Base() == p.Masked().addr.value
    ensures p.Masked().Size() == p.Size() && p.Masked().Last() == p.Last()
    ensures p.Base() % p.Size() == 0
    ensures p.Masked().Masked() == p.Masked()
  {
    var s := p.Size();
    var q := p.addr.value / s;
    assert p.Base() == q * s;
    DivModUnique(p.Base(), s, q, 0);
  }
}
