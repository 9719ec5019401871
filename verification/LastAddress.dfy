/** lastIPOfPrefix: setting the host bits one at a time reaches the last address of a prefix. */
module LastAddress {
  import opened Prelude
  import opened Addresses
  import opened Bytes

  function ByteCount(f: Family): nat {
    if f == V4 then 4 else 16
  }

  /** As4 or As16. */
  function AsBytes(a: Addr): (bs: seq<Byte>)
    requires a.IP?
    ensures |bs| == ByteCount(a.family)
  {
    BytesOf(a.value, ByteCount(a.family))
  }

  /** AddrFrom4 or AddrFrom16. */
  function FromBytes(f: Family, bs: seq<Byte>): (a: Addr)
    requires |bs| == ByteCount(f)
    ensures a.Valid() && a.family == f
  {
    ValueBound(bs);
    SpanIsPow2(f);
    IP(f, ValueOf(bs))
  }

  /** An address and its bytes determine each other. */
  lemma BytesRoundTrip(a: Addr, bs: seq<Byte>)
    requires a.Valid() && |bs| == ByteCount(a.family)
    ensures FromBytes(a.family, AsBytes(a)) == a
    ensures AsBytes(FromBytes(a.family, bs)) == bs
  {
    SpanIsPow2(a.family);
    ReadBack(a.value, ByteCount(a.family));
    SpellBack(bs);
  }

  /** An IPv6 address is IPv4-mapped exactly if ten zeros, 255 and 255 come before its last four bytes. */
  lemma MappedByBytes(a: Addr)
    requires a.Valid() && a.family == V6
    ensures Is4In6(a) <==> AsBytes(a)[..12] == Zeros(10) + [255, 255]
  {
    var bs := AsBytes(a);
    SpanIsPow2(V6);
    ReadBack(a.value, 16);
    WithoutLastFour(bs);
    SpellBack(bs[..12]);
    MappedHead();
  }

  function Zeros(n: nat): (bs: seq<Byte>)
    ensures |bs| == n && forall i :: 0 <= i < n ==> bs[i] == 0
  {
    if n == 0 then [] else Zeros(n - 1) + [0]
  }

  lemma {:induction false} ZerosSpell(n: nat)
    ensures ValueOf(Zeros(n)) == 0 && BytesOf(0, n) == Zeros(n)
  {
    if n > 0 {
      ZerosSpell(n - 1);
      assert Zeros(n)[..n - 1] == Zeros(n - 1);
    }
  }

  lemma MappedHead()
    ensures BytesOf(0xffff, 12) == Zeros(10) + [255, 255] && ValueOf(Zeros(10) + [255, 255]) == 0xffff
  {
    var head := Zeros(10) + [255, 255];
    ZerosSpell(10);
    assert BytesOf(0xff, 11) == Zeros(10) + [255];
    assert head[..11] == Zeros(10) + [255] && head[..11][..10] == Zeros(10);
    assert ValueOf(head[..11]) == 255;
  }

  lemma WithoutLastFour(bs: seq<Byte>)
    requires |bs| == 16
    ensures ValueOf(bs[..12]) * 0x1_0000_0000 <= ValueOf(bs) < (ValueOf(bs[..12]) + 1) * 0x1_0000_0000
  {
    assert bs[..15][..14] == bs[..14] && bs[..14][..13] == bs[..13] && bs[..13][..12] == bs[..12];
    assert ValueOf(bs[..13]) == ValueOf(bs[..12]) * 256 + bs[12];
    assert ValueOf(bs[..14]) == ValueOf(bs[..13]) * 256 + bs[13];
    assert ValueOf(bs[..15]) == ValueOf(bs[..14]) * 256 + bs[14];
  }

  /** The source writes this loop out twice, once for four bytes and once for sixteen. */
  method LastIPOfPrefix(p: Prefix) returns (last: Addr)
    requires p.Valid()
    ensures last == IP(p.addr.family, p.Base() + Pow2(Width(p.addr.family) - p.bits) - 1)
    ensures last == IP(p.addr.family, p.Last())
    ensures p.Contains(last) && forall a: Addr :: p.Contains(a) ==> a.value <= last.value
  {
    var m := p.Masked();
    var n := ByteCount(m.addr.family);
    var init := AsBytes(m.addr);
    var bytes := new Byte[n](i requires 0 <= i < n => init[i]);
    assert bytes[..] == init;
    SpanIsPow2(m.addr.family);
    ReadBack(m.addr.value, n);
    MaskedBlock(p);
    var h := Width(m.addr.family) - m.bits;
    for i := 0 to h
      invariant ValueOf(bytes[..]) == p.Base() + Pow2(i) - 1
    {
      var byteIdx := n - 1 - i / 8;
      var bitIdx := i % 8;
      ghost var before := bytes[..];
      HostBitStep(before, p.Base(), h, i);
      bytes[byteIdx] := SetBit(bytes[byteIdx], bitIdx);
      assert bytes[..] == before[byteIdx := SetBit(before[byteIdx], bitIdx)];
    }
    last := FromBytes(m.addr.family, bytes[..]);
    LastIsMaximum(p, last);
  }

  lemma LastIsMaximum(p: Prefix, last: Addr)
    requires p.Valid() && last == IP(p.addr.family, p.Last())
    ensures p.Contains(last) && forall a: Addr :: p.Contains(a) ==> a.value <= last.value
  {
    forall a: Addr
      ensures p.Contains(a) ==> a.value <= last.value
    {
      ContainsIsInterval(p, a);
    }
    ContainsIsInterval(p, last);
  }

  /** Setting bit i adds 2^i to the number. */
  lemma HostBitStep(bs: seq<Byte>, base: nat, h: nat, i: nat)
    requires i < h <= 8 * |bs| && base % Pow2(h) == 0
    requires ValueOf(bs) == base + Pow2(i) - 1
    ensures var k := |bs| - 1 - i / 8;
            ValueOf(bs[k := SetBit(bs[k], i % 8)]) == base + Pow2(i + 1) - 1
  {
    var k := |bs| - 1 - i / 8;
    NextBitClear(base, h, i);
    BitOfByte(bs, i);
    Pow2Add(i % 8, 8 * (i / 8));
    UpdateValue(bs, k, SetBit(bs[k], i % 8));
  }

  /** After i host bits have been set, bit i is still clear. */
  lemma NextBitClear(base: nat, h: nat, i: nat)
    requires base % Pow2(h) == 0 && i < h
    ensures !Bit(base + Pow2(i) - 1, i)
  {
    var d, e := Pow2(i), Pow2(h - i - 1);
    Pow2Add(i, h - i);
    var q := base / Pow2(h);
    DivFloor(base, Pow2(h));
    assert Pow2(h - i) == 2 * e;
    EvenQuotient(q, d, e);
  }

  lemma EvenQuotient(q: nat, d: nat, e: nat)
    requires d > 0
    ensures q * (d * (2 * e)) + d - 1 >= 0 && (q * (d * (2 * e)) + d - 1) / d % 2 == 0
  {
    Regroup(q, d, e);
    var m := q * e;
    DivModUnique((2 * m) * d + d - 1, d, 2 * m, d - 1);
  }
}
