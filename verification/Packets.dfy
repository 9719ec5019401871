/** Outgoing IP headers: normalizeTTL and prepareOutgoing edit a packet in place before it is proxied. */
module Packets {
  import opened Prelude
  import opened Addresses
  import opened LastAddress
  import opened Checksum

  const MIN_TTL := 2
  const FIX_TTL := 64

  function Version(pkt: seq<Byte>): nat
    requires |pkt| >= 1
  {
    pkt[0] / 16
  }

  /** A packet long enough for the fixed header of its version. */
  predicate IsIPv4(pkt: seq<Byte>) {
    |pkt| >= 20 && Version(pkt) == 4
  }

  predicate IsIPv6(pkt: seq<Byte>) {
    |pkt| >= 40 && Version(pkt) == 6
  }

  /** How many bytes the checksum is taken over: what IHL says, or 20 where that makes no sense. */
  function ChecksumLen(pkt: seq<Byte>): (n: nat)
    requires IsIPv4(pkt)
    ensures 20 <= n <= |pkt| && n <= 60 && n % 4 == 0
  {
    var ihl := (pkt[0] % 16) * 4;
    if ihl < 20 || ihl > |pkt| then 20 else ihl
  }

  /** The header checksum of an IPv4 packet verifies. */
  predicate HeaderVerifies(pkt: seq<Byte>)
    requires IsIPv4(pkt)
  {
    Sum16(pkt[..ChecksumLen(pkt)]) == 0
  }

  /** The packet with its header checksum recomputed. */
  function Resummed(pkt: seq<Byte>): (out: seq<Byte>)
    requires IsIPv4(pkt)
    ensures |out| == |pkt|
  {
    var zeroed := pkt[10 := 0][11 := 0];
    var c := Sum16(zeroed[..ChecksumLen(pkt)]);
    zeroed[10 := c / 256][11 := c % 256]
  }

  // ---- normalizeTTL ----

  function TTLAt(pkt: seq<Byte>): nat {
    if IsIPv4(pkt) then 8 else 7
  }

  /** The TTL or Hop Limit, -1 where there is no such header. */
  function TTL(pkt: seq<Byte>): int {
    if IsIPv4(pkt) || IsIPv6(pkt) then pkt[TTLAt(pkt)] else -1
  }

  predicate NeedsTTL(pkt: seq<Byte>) {
    0 <= TTL(pkt) < MIN_TTL
  }

  function Normalized(pkt: seq<Byte>): (out: seq<Byte>)
    ensures |out| == |pkt|
  {
    if !NeedsTTL(pkt) then pkt
    else
      var raised := pkt[TTLAt(pkt) := FIX_TTL];
      if IsIPv4(pkt) then Resummed(raised) else raised
  }

  method NormalizeTTL(pkt: array<Byte>) returns (origTTL: int, fixed: bool)
    modifies pkt
    ensures pkt[..] == Normalized(old(pkt[..]))
    ensures origTTL == TTL(old(pkt[..])) && fixed == NeedsTTL(old(pkt[..]))
  {
    if pkt.Length < 1 {
      return -1, false;
    }
    var version := pkt[0] / 16;
    if version == 4 {
      if pkt.Length < 20 {
        return -1, false;
      }
      origTTL := pkt[8];
      if origTTL >= MIN_TTL {
        return origTTL, false;
      }
      pkt[8] := FIX_TTL;
      RecomputeChecksum(pkt);
      return origTTL, true;
    } else if version == 6 {
      if pkt.Length < 40 {
        return -1, false;
      }
      origTTL := pkt[7];
      if origTTL >= MIN_TTL {
        return origTTL, false;
      }
      pkt[7] := FIX_TTL;
      return origTTL, true;
    }
    return -1, false;
  }

  /** The six lines that normalizeTTL and prepareOutgoing share. */
  method RecomputeChecksum(pkt: array<Byte>)
    requires IsIPv4(pkt[..])
    modifies pkt
    ensures pkt[..] == Resummed(old(pkt[..]))
  {
    var ihl := (pkt[0] % 16) as nat * 4;
    if ihl < 20 || ihl > pkt.Length {
      ihl := 20;
    }
    pkt[10] := 0;
    pkt[11] := 0;
    assert pkt[..] == old(pkt[..])[10 := 0][11 := 0];
    assert pkt[..ihl] == pkt[..][..ihl];
    var csum := Ipv4Checksum(pkt[..ihl]);
    pkt[10] := csum / 256;
    pkt[11] := csum % 256;
  }

  // ---- prepareOutgoing ----

  function SplitV4(prefixes: seq<Prefix>): (a: Addr)
    ensures a.IP? ==> Is4(a)
  {
    if |prefixes| == 0 then NoAddr
    else if Is4(prefixes[0].addr) then prefixes[0].addr
    else SplitV4(prefixes[1..])
  }

  function SplitV6(prefixes: seq<Prefix>): (a: Addr)
    ensures a.IP? ==> IsPlain6(a)
  {
    if |prefixes| == 0 then NoAddr
    else if IsPlain6(prefixes[0].addr) then prefixes[0].addr
    else SplitV6(prefixes[1..])
  }

  predicate IsPlain6(a: Addr) {
    a.IP? && a.family == V6 && !Is4In6(a)
  }

  /** The first assigned IPv4 address and the first assigned IPv6 address that is not IPv4-mapped. */
  method SplitAssigned(prefixes: seq<Prefix>) returns (v4: Addr, v6: Addr)
    ensures v4 == SplitV4(prefixes) && v6 == SplitV6(prefixes)
  {
    v4, v6 := NoAddr, NoAddr;
    for i := 0 to |prefixes|
      invariant v4 == NoAddr ==> SplitV4(prefixes) == SplitV4(prefixes[i..])
      invariant v4 != NoAddr ==> v4 == SplitV4(prefixes)
      invariant v6 == NoAddr ==> SplitV6(prefixes) == SplitV6(prefixes[i..])
      invariant v6 != NoAddr ==> v6 == SplitV6(prefixes)
    {
      assert prefixes[i..][1..] == prefixes[i + 1..];
      var a := prefixes[i].addr;
      if Is4(a) && v4 == NoAddr {
        v4 := a;
      }
      if a.IP? && a.family == V6 && !Is4In6(a) && v6 == NoAddr {
        v6 := a;
      }
    }
  }

  /** Where the source address stands, and the address the session was assigned for this version. */
  function SrcAt(f: Family): nat {
    if f == V4 then 12 else 8
  }

  function Source(pkt: seq<Byte>, f: Family): Addr
    requires |pkt| >= SrcAt(f) + ByteCount(f)
  {
    FromBytes(f, pkt[SrcAt(f)..SrcAt(f) + ByteCount(f)])
  }

  function WithSource(pkt: seq<Byte>, a: Addr): (out: seq<Byte>)
    requires a.IP? && |pkt| >= SrcAt(a.family) + ByteCount(a.family)
    ensures |out| == |pkt|
  {
    pkt[..SrcAt(a.family)] + AsBytes(a) + pkt[SrcAt(a.family) + ByteCount(a.family)..]
  }

  datatype Prepared = Prepared(drop: bool, rewritten: bool, pkt: seq<Byte>)

  function Prepare(pkt: seq<Byte>, prefixes: seq<Prefix>): (r: Prepared)
    ensures |r.pkt| == |pkt|
  {
    var v4, v6 := SplitV4(prefixes), SplitV6(prefixes);
    if IsIPv6(pkt) && v6.IP? then
      if Source(pkt, V6) == v6 then Prepared(false, false, pkt)
      else Prepared(false, true, WithSource(pkt, v6))
    else if IsIPv4(pkt) && v4.IP? then
      if Source(pkt, V4) == v4 then Prepared(false, false, pkt)
      else Prepared(false, true, Resummed(WithSource(pkt, v4)))
    else Prepared(true, false, pkt)
  }

  method PrepareOutgoing(pkt: array<Byte>, prefixes: seq<Prefix>) returns (drop: bool, rewritten: bool)
    modifies pkt
    ensures Prepared(drop, rewritten, pkt[..]) == Prepare(old(pkt[..]), prefixes)
  {
    if pkt.Length < 1 {
      return true, false;
    }
    var v4, v6 := SplitAssigned(prefixes);
    var version := pkt[0] / 16;
    if version == 6 {
      if pkt.Length < 40 || v6 == NoAddr {
        return true, false;
      }
      assert pkt[8..24] == pkt[..][8..24];
      var src := FromBytes(V6, pkt[8..24]);
      if src == v6 {
        return false, false;
      }
      WriteSource(pkt, v6);
      return false, true;
    } else if version == 4 {
      if pkt.Length < 20 || v4 == NoAddr {
        return true, false;
      }
      assert pkt[12..16] == pkt[..][12..16];
      var src := FromBytes(V4, pkt[12..16]);
      if src == v4 {
        return false, false;
      }
      WriteSource(pkt, v4);
      RecomputeChecksum(pkt);
      return false, true;
    }
    return true, false;
  }

  /** copy(pkt[8:24], b[:]), or the four assignments to pkt[12] to pkt[15]. */
  method WriteSource(pkt: array<Byte>, a: Addr)
    requires a.IP? && pkt.Length >= SrcAt(a.family) + ByteCount(a.family)
    modifies pkt
    ensures pkt[..] == WithSource(old(pkt[..]), a)
  {
    var b := AsBytes(a);
    var at := SrcAt(a.family);
    for i := 0 to |b|
      invariant forall k :: 0 <= k < i ==> pkt[at + k] == b[k]
      invariant forall k :: 0 <= k < pkt.Length && !(at <= k < at + i) ==> pkt[k] == old(pkt[k])
    {
      pkt[at + i] := b[i];
    }
  }
}
