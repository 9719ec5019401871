/** What leaves the client: every packet read from the TUN device goes through normalizeTTL and
    prepareOutgoing before it is written to the connection. */
module OutgoingPipeline {
  import opened Prelude
  import opened Addresses
  import opened LastAddress
  import opened Checksum
  import opened Packets

  function Pipeline(pkt: seq<Byte>, prefixes: seq<Prefix>): Prepared {
    Prepare(Normalized(pkt), prefixes)
  }

  predicate ValidPrefixes(prefixes: seq<Prefix>) {
    forall p <- prefixes :: p.addr.IP? ==> p.addr.Valid()
  }

  function AssignedFor(f: Family, prefixes: seq<Prefix>): Addr {
    if f == V4 then SplitV4(prefixes) else SplitV6(prefixes)
  }

  /** The assigned address of a family is the address of one of the prefixes, and there is none exactly
      when no prefix is of that kind. */
  lemma {:induction false} AssignedIsListed(prefixes: seq<Prefix>)
    ensures SplitV4(prefixes).IP? ==> exists p <- prefixes :: p.addr == SplitV4(prefixes)
    ensures SplitV6(prefixes).IP? ==> exists p <- prefixes :: p.addr == SplitV6(prefixes)
    ensures SplitV4(prefixes) == NoAddr <==> forall p <- prefixes :: !Is4(p.addr)
    ensures SplitV6(prefixes) == NoAddr <==> forall p <- prefixes :: !IsPlain6(p.addr)
  {
    if |prefixes| > 0 {
      assert prefixes[0] in prefixes;
      AssignedIsListed(prefixes[1..]);
      assert prefixes == [prefixes[0]] + prefixes[1..];
    }
  }

  /** It is the first of its kind. */
  lemma {:induction false} AssignedIsFirst(prefixes: seq<Prefix>, i: nat)
    requires i < |prefixes|
    ensures Is4(prefixes[i].addr) && (forall j :: 0 <= j < i ==> !Is4(prefixes[j].addr)) ==>
              SplitV4(prefixes) == prefixes[i].addr
    ensures IsPlain6(prefixes[i].addr) && (forall j :: 0 <= j < i ==> !IsPlain6(prefixes[j].addr)) ==>
              SplitV6(prefixes) == prefixes[i].addr
  {
    if i > 0 {
      AssignedIsFirst(prefixes[1..], i - 1);
    }
  }

  // ---- the recomputed checksum ----

  lemma ResummedLaw(pkt: seq<Byte>)
    requires IsIPv4(pkt)
    ensures var out := Resummed(pkt);
            && IsIPv4(out) && ChecksumLen(out) == ChecksumLen(pkt) && HeaderVerifies(out)
            && forall i :: 0 <= i < |pkt| && i != 10 && i != 11 ==> out[i] == pkt[i]
  {
    var n := ChecksumLen(pkt);
    var h := pkt[10 := 0][11 := 0][..n];
    StoredVerifies(h, 10);
    assert Resummed(pkt)[..n] == Stored(h, 10);
  }

  lemma SourceWritten(pkt: seq<Byte>, a: Addr)
    requires a.Valid() && |pkt| >= SrcAt(a.family) + ByteCount(a.family)
    ensures var out := WithSource(pkt, a);
            var at := SrcAt(a.family);
            && Source(out, a.family) == a
            && forall i :: 0 <= i < |pkt| && !(at <= i < at + ByteCount(a.family)) ==> out[i] == pkt[i]
  {
    var at, n := SrcAt(a.family), ByteCount(a.family);
    var out := WithSource(pkt, a);
    assert out[at..at + n] == AsBytes(a);
    BytesRoundTrip(a, AsBytes(a));
  }

  // ---- the two passes ----

  /** The bytes the client may change: TTL, checksum and source of IPv4, hop limit and source of IPv6. */
  predicate Editable(f: Family, i: nat) {
    if f == V4 then i == 8 || 10 <= i < 16 else 7 <= i < 24
  }

  /** pkt and out are packets of family f that differ in editable bytes only. */
  predicate Edited(f: Family, pkt: seq<Byte>, out: seq<Byte>) {
    && (if f == V4 then IsIPv4(pkt) && IsIPv4(out) else IsIPv6(pkt) && IsIPv6(out))
    && |out| == |pkt|
    && forall i :: 0 <= i < |pkt| && !Editable(f, i) ==> out[i] == pkt[i]
  }

  lemma NormalizedLaw(pkt: seq<Byte>, f: Family)
    requires if f == V4 then IsIPv4(pkt) else IsIPv6(pkt)
    ensures var out := Normalized(pkt);
            && Edited(f, pkt, out) && TTL(out) >= MIN_TTL
            && (f == V4 ==> (HeaderVerifies(out) <==> NeedsTTL(pkt) || HeaderVerifies(pkt)))
  {
    if NeedsTTL(pkt) && f == V4 {
      ResummedLaw(pkt[8 := FIX_TTL]);
    }
  }

  lemma PreparedLaw(pkt: seq<Byte>, prefixes: seq<Prefix>, f: Family)
    requires ValidPrefixes(prefixes) && AssignedFor(f, prefixes).IP?
    requires if f == V4 then IsIPv4(pkt) else IsIPv6(pkt)
    ensures var r := Prepare(pkt, prefixes);
            && !r.drop && Edited(f, pkt, r.pkt) && TTL(r.pkt) == TTL(pkt)
            && Source(r.pkt, f) == AssignedFor(f, prefixes)
            && (f == V4 ==> (HeaderVerifies(r.pkt) <==> r.rewritten || HeaderVerifies(pkt)))
  {
    AssignedIsListed(prefixes);
    var a := AssignedFor(f, prefixes);
    if Source(pkt, f) != a {
      SourceWritten(pkt, a);
      if f == V4 {
        var w := WithSource(pkt, a);
        ResummedLaw(w);
        assert Resummed(w)[12..16] == w[12..16];
      }
    }
  }

  /** A packet is kept exactly when it is a whole IPv4 or IPv6 header and the session was assigned an
      address of that family. A kept packet differs only in editable bytes, carries the assigned
      source and a TTL of at least two; its IPv4 checksum verifies exactly if it verified before
      or the header was rewritten on the way; and a second pass would change nothing. */
  lemma KeptPackets(pkt: seq<Byte>, prefixes: seq<Prefix>, f: Family)
    requires ValidPrefixes(prefixes)
    ensures Pipeline(pkt, prefixes).drop <==>
              !(IsIPv4(pkt) && SplitV4(prefixes).IP?) && !(IsIPv6(pkt) && SplitV6(prefixes).IP?)
    ensures (if f == V4 then IsIPv4(pkt) else IsIPv6(pkt)) && !Pipeline(pkt, prefixes).drop ==>
              var r := Pipeline(pkt, prefixes);
              && Edited(f, pkt, r.pkt)
              && Source(r.pkt, f) == AssignedFor(f, prefixes) && AssignedFor(f, prefixes).IP?
              && TTL(r.pkt) >= MIN_TTL
              && (f == V4 ==> (HeaderVerifies(r.pkt) <==> NeedsTTL(pkt) || r.rewritten || HeaderVerifies(pkt)))
              && Pipeline(r.pkt, prefixes) == Prepared(false, false, r.pkt)
  {
    if IsIPv4(pkt) {
      NormalizedLaw(pkt, V4);
      if SplitV4(prefixes).IP? {
        PreparedLaw(Normalized(pkt), prefixes, V4);
      }
    }
    if IsIPv6(pkt) {
      NormalizedLaw(pkt, V6);
      if SplitV6(prefixes).IP? {
        PreparedLaw(Normalized(pkt), prefixes, V6);
      }
    }
  }

  // ---- the same on the wire, byte by byte ----

  /** normalizeTTL changes nothing but a TTL or hop limit below 2, which becomes 64, and then the two checksum
      bytes of IPv4, over a header as long as IHL says where that makes sense. */
  lemma NormalizedBytes(pkt: seq<Byte>)
    ensures var out := Normalized(pkt);
            if |pkt| >= 20 && pkt[0] / 16 == 4 && pkt[8] < 2 then
              && out[8] == 64 && Sum16(out[..HeaderLength(pkt)]) == 0
              && forall i :: 0 <= i < |pkt| && i != 8 && i != 10 && i != 11 ==> out[i] == pkt[i]
            else if |pkt| >= 40 && pkt[0] / 16 == 6 && pkt[7] < 2 then out == pkt[7 := 64]
            else out == pkt
  {
    if |pkt| >= 20 && pkt[0] / 16 == 4 && pkt[8] < 2 {
      ResummedLaw(pkt[8 := 64]);
    }
  }

  /** Four times the low half of the first byte, unless that is less than 20 or more than there is. */
  function HeaderLength(pkt: seq<Byte>): (n: nat)
    requires |pkt| >= 20
    ensures 20 <= n <= |pkt|
  {
    var ihl := 4 * (pkt[0] % 16) as nat;
    if 20 <= ihl <= |pkt| then ihl else 20
  }

  /** The IPv4 half: bytes 12 to 15, with a new checksum. */
  lemma PreparedV4Bytes(pkt: seq<Byte>, prefixes: seq<Prefix>)
    requires ValidPrefixes(prefixes)
    requires |pkt| >= 20 && pkt[0] / 16 == 4 && SplitV4(prefixes) != NoAddr
    ensures var r, src := Prepare(pkt, prefixes), AsBytes(SplitV4(prefixes));
            && !r.drop && |r.pkt| == |pkt| && r.pkt[12..16] == src && (r.rewritten <==> pkt[12..16] != src)
            && (!r.rewritten ==> r.pkt == pkt)
            && (r.rewritten ==> Sum16(r.pkt[..HeaderLength(pkt)]) == 0)
            && forall i :: 0 <= i < |pkt| && !(10 <= i < 16) ==> r.pkt[i] == pkt[i]
  {
    AssignedIsListed(prefixes);
    var v4 := SplitV4(prefixes);
    BytesRoundTrip(v4, pkt[12..16]);
    if pkt[12..16] != AsBytes(v4) {
      ResourcedBytes(pkt, v4);
    }
  }

  lemma ResourcedBytes(pkt: seq<Byte>, a: Addr)
    requires IsIPv4(pkt) && Is4(a)
    ensures var w := WithSource(pkt, a);
            && IsIPv4(w) && HeaderLength(w) == HeaderLength(pkt) && Sum16(Resummed(w)[..HeaderLength(pkt)]) == 0
            && Resummed(w)[12..16] == AsBytes(a)
            && forall i :: 0 <= i < |pkt| && !(10 <= i < 16) ==> Resummed(w)[i] == pkt[i]
  {
    var w := WithSource(pkt, a);
    assert w[12..16] == AsBytes(a);
    assert forall i :: 0 <= i < |pkt| && !(12 <= i < 16) ==> w[i] == pkt[i];
    ResummedLaw(w);
    assert Resummed(w)[12..16] == w[12..16];
  }

  /** The IPv6 half: bytes 8 to 23. */
  lemma PreparedV6Bytes(pkt: seq<Byte>, prefixes: seq<Prefix>)
    requires ValidPrefixes(prefixes)
    requires |pkt| >= 40 && pkt[0] / 16 == 6 && SplitV6(prefixes) != NoAddr
    ensures var r, src := Prepare(pkt, prefixes), AsBytes(SplitV6(prefixes));
            && !r.drop && r.pkt == pkt[..8] + src + pkt[24..] && (r.rewritten <==> pkt[8..24] != src)
  {
    AssignedIsListed(prefixes);
    BytesRoundTrip(SplitV6(prefixes), pkt[8..24]);
    assert pkt == pkt[..8] + pkt[8..24] + pkt[24..];
  }

  /** prepareOutgoing writes the assigned source into bytes 12 to 15 of IPv4, with a new checksum, or 8 to 23 of
      IPv6, says whether it had to, and otherwise changes nothing; every other packet is to be dropped. */
  lemma PreparedBytes(pkt: seq<Byte>, prefixes: seq<Prefix>)
    requires ValidPrefixes(prefixes)
    ensures var r, v4, v6 := Prepare(pkt, prefixes), SplitV4(prefixes), SplitV6(prefixes);
            if |pkt| >= 20 && pkt[0] / 16 == 4 && v4 != NoAddr then
              && !r.drop && |r.pkt| == |pkt|
              && r.pkt[12..16] == AsBytes(v4) && (r.rewritten <==> pkt[12..16] != AsBytes(v4))
              && (!r.rewritten ==> r.pkt == pkt)
              && (r.rewritten ==> Sum16(r.pkt[..HeaderLength(pkt)]) == 0)
              && forall i :: 0 <= i < |pkt| && !(10 <= i < 16) ==> r.pkt[i] == pkt[i]
            else if |pkt| >= 40 && pkt[0] / 16 == 6 && v6 != NoAddr then
              && !r.drop && r.pkt == pkt[..8] + AsBytes(v6) + pkt[24..]
              && (r.rewritten <==> pkt[8..24] != AsBytes(v6))
            else r == Prepared(true, false, pkt)
  {
    if |pkt| >= 20 && pkt[0] / 16 == 4 && SplitV4(prefixes) != NoAddr {
      PreparedV4Bytes(pkt, prefixes);
    } else if |pkt| >= 40 && pkt[0] / 16 == 6 && SplitV6(prefixes) != NoAddr {
      PreparedV6Bytes(pkt, prefixes);
    }
  }

  // ---- a batch ----

  /** What both passes make of every packet of a batch. */
  function PipelineAll(pkts: seq<seq<Byte>>, prefixes: seq<Prefix>): (r: seq<Prepared>)
    ensures |r| == |pkts|
  {
    if |pkts| == 0 then [] else PipelineAll(pkts[..|pkts| - 1], prefixes) + [Pipeline(pkts[|pkts| - 1], prefixes)]
  }

  lemma {:induction false} PipelineAt(pkts: seq<seq<Byte>>, prefixes: seq<Prefix>, i: nat)
    requires i < |pkts|
    ensures PipelineAll(pkts, prefixes)[i] == Pipeline(pkts[i], prefixes)
  {
    if i < |pkts| - 1 {
      PipelineAt(pkts[..|pkts| - 1], prefixes, i);
    }
  }

  /** The packets that are kept of the first n, in order. */
  function Kept(outs: seq<Prepared>, n: nat): seq<seq<Byte>>
    requires n <= |outs|
  {
    if n == 0 then []
    else Kept(outs, n - 1) + if outs[n - 1].drop then [] else [outs[n - 1].pkt]
  }

  /** The places of the packets that are kept. */
  ghost function KeptPlaces(outs: seq<Prepared>, n: nat): set<int>
    requires n <= |outs|
  {
    set i | 0 <= i < n && !outs[i].drop
  }

  /** What is kept is exactly the packets that are not dropped, in order and each once: at lists their places. */
  lemma {:induction false} KeptInOrder(outs: seq<Prepared>, n: nat) returns (at: seq<int>)
    requires n <= |outs|
    ensures Lists(at, KeptPlaces(outs, n)) && |Kept(outs, n)| == |at|
    ensures forall k :: 0 <= k < |at| ==> at[k] in KeptPlaces(outs, n)
    ensures forall k :: 0 <= k < |at| ==> Kept(outs, n)[k] == outs[at[k]].pkt
  {
    if n == 0 {
      at := [];
    } else {
      at := KeptInOrder(outs, n - 1);
      if !outs[n - 1].drop {
        ListsOneMore(at, KeptPlaces(outs, n - 1), n - 1);
        assert KeptPlaces(outs, n) == KeptPlaces(outs, n - 1) + {n - 1};
        at := at + [n - 1];
      } else {
        assert KeptPlaces(outs, n) == KeptPlaces(outs, n - 1);
      }
    }
  }

  /** Both passes over one packet. */
  method EditInPlace(pkt: array<Byte>, prefixes: seq<Prefix>) returns (drop: bool)
    modifies pkt
    ensures pkt[..] == Pipeline(old(pkt[..]), prefixes).pkt
    ensures drop == Pipeline(old(pkt[..]), prefixes).drop
  {
    var orig, fixed := NormalizeTTL(pkt);
    var rewritten: bool;
    drop, rewritten := PrepareOutgoing(pkt, prefixes);
  }

  /** Both passes over the i-th packet of a batch, whose other packets are left alone. */
  method EditNext(bufs: seq<array<Byte>>, i: nat, prefixes: seq<Prefix>, ghost pkts: seq<seq<Byte>>)
    returns (drop: bool)
    requires i < |bufs| == |pkts| && forall j, k :: 0 <= j < k < |bufs| ==> bufs[j] != bufs[k]
    requires bufs[i][..] == pkts[i]
    modifies bufs[i]
    ensures drop == PipelineAll(pkts, prefixes)[i].drop && bufs[i][..] == PipelineAll(pkts, prefixes)[i].pkt
    ensures forall j :: 0 <= j < |bufs| && j != i ==> bufs[j][..] == old(bufs[j][..])
  {
    PipelineAt(pkts, prefixes, i);
    drop := EditInPlace(bufs[i], prefixes);
  }

  /** The packets of a batch are edited in place, each in its own buffer, and the kept ones written in order
      until the connection refuses one, as fails says; then the rest of the batch is left as it was. pkts is
      what the buffers hold at first. */
  method ForwardBatch(bufs: seq<array<Byte>>, prefixes: seq<Prefix>, fails: seq<bool>, ghost pkts: seq<seq<Byte>>)
    returns (sent: seq<seq<Byte>>, failed: bool, ghost done: nat)
    requires |fails| == |bufs| == |pkts|
    requires forall i, j :: 0 <= i < j < |bufs| ==> bufs[i] != bufs[j]
    requires forall i :: 0 <= i < |bufs| ==> bufs[i][..] == pkts[i]
    modifies bufs
    ensures done <= |bufs|
    ensures var outs := PipelineAll(pkts, prefixes);
            && (forall j :: 0 <= j < done ==> bufs[j][..] == outs[j].pkt)
            && (forall j :: 0 <= j < (if failed then done - 1 else done) ==> outs[j].drop || !fails[j])
            && if failed then
                 done > 0 && !outs[done - 1].drop && fails[done - 1] && sent == Kept(outs, done - 1)
               else done == |bufs| && sent == Kept(outs, done)
    ensures forall j :: done <= j < |bufs| ==> bufs[j][..] == pkts[j]
  {
    sent, failed, done := [], false, 0;
    ghost var outs := PipelineAll(pkts, prefixes);
    for i := 0 to |bufs|
      invariant done == i && !failed
      invariant forall j :: 0 <= j < i ==> bufs[j][..] == outs[j].pkt && (outs[j].drop || !fails[j])
      invariant forall j :: i <= j < |bufs| ==> bufs[j][..] == pkts[j]
      invariant sent == Kept(outs, i)
    {
      var drop := EditNext(bufs, i, prefixes, pkts);
      done := i + 1;
      if drop {
        continue;
      }
      if fails[i] {
        failed := true;
        return;
      }
      sent := sent + [bufs[i][..]];
    }
  }

  /** The packet carries the source assigned for its family and survives one more hop. */
  predicate ReadyToSend(p: seq<Byte>, prefixes: seq<Prefix>) {
    && TTL(p) >= MIN_TTL
    && (|| (IsIPv4(p) && Source(p, V4) == SplitV4(prefixes))
        || (IsIPv6(p) && Source(p, V6) == SplitV6(prefixes)))
  }

  lemma KeptIsReady(pkt: seq<Byte>, prefixes: seq<Prefix>)
    requires ValidPrefixes(prefixes) && !Pipeline(pkt, prefixes).drop
    ensures ReadyToSend(Pipeline(pkt, prefixes).pkt, prefixes)
  {
    KeptPackets(pkt, prefixes, V4);
    KeptPackets(pkt, prefixes, V6);
  }

  /** Everything that is sent of a batch is ready to be. */
  lemma {:induction false} SentPackets(pkts: seq<seq<Byte>>, prefixes: seq<Prefix>, n: nat)
    requires n <= |pkts| && ValidPrefixes(prefixes)
    ensures forall p <- Kept(PipelineAll(pkts, prefixes), n) :: ReadyToSend(p, prefixes)
  {
    if n > 0 {
      SentPackets(pkts, prefixes, n - 1);
      PipelineAt(pkts, prefixes, n - 1);
      if !Pipeline(pkts[n - 1], prefixes).drop {
        KeptIsReady(pkts[n - 1], prefixes);
      }
    }
  }
}
