/** The IPv4 header checksum of RFC 791 section 3.1, computed as in RFC 1071 section 1. */
module Checksum {
  import opened Prelude

  const WORD32: nat := 0x1_0000_0000

  /** The plain sum of the big-endian 16-bit words, a last odd byte being the high half of a word. */
  function WordSum(h: seq<Byte>): nat {
    if |h| == 0 then 0
    else if |h| == 1 then h[0] * 256
    else h[0] * 256 + h[1] + WordSum(h[2..])
  }

  /** Adding the carries back until none is left: the representative of s modulo 65535 that is
      zero only for zero. */
  function Fold(s: nat): (r: nat)
    ensures r < 65536 && r % 65535 == s % 65535 && (r == 0 <==> s == 0)
  {
    if s == 0 then 0 else (s - 1) % 65535 + 1
  }

  /** What ipv4Checksum returns: its running sum is a uint32. */
  function Sum16(h: seq<Byte>): (c: nat)
    ensures c < 65536
  {
    65535 - Fold(WordSum(h) % WORD32)
  }

  method Ipv4Checksum(hdr: seq<Byte>) returns (c: nat)
    ensures c == Sum16(hdr)
  {
    var sum: nat := 0;
    ghost var total: nat := 0;
    var i := 0;
    while i + 1 < |hdr|
      invariant i <= |hdr| && i % 2 == 0
      invariant total + WordSum(hdr[i..]) == WordSum(hdr)
      invariant sum == total % WORD32
    {
      var word: nat := hdr[i] as nat * 256 + hdr[i + 1];
      NextWord(hdr, i);
      sum := Add32(sum, word, total);
      total := total + word;
      i := i + 2;
    }
    if |hdr| % 2 == 1 {
      LastByte(hdr, i);
      sum := Add32(sum, hdr[i] as nat * 256, total);
    }
    sum := FoldCarries(sum);
    return 65535 - sum;
  }

  /** Addition of uint32s; total is the sum without wrapping. */
  method Add32(sum: nat, word: nat, ghost total: nat) returns (r: nat)
    requires sum == total % WORD32
    ensures r == (total + word) % WORD32
  {
    WrapAdd(total, word);
    r := (sum + word) % WORD32;
  }

  lemma NextWord(hdr: seq<Byte>, i: nat)
    requires i + 1 < |hdr|
    ensures WordSum(hdr[i..]) == hdr[i] as nat * 256 + hdr[i + 1] + WordSum(hdr[i + 2..])
  {
    assert hdr[i..][2..] == hdr[i + 2..];
  }

  lemma LastByte(hdr: seq<Byte>, i: nat)
    requires i + 1 == |hdr|
    ensures WordSum(hdr[i..]) == hdr[i] as nat * 256
  {
    assert hdr[i..] == [hdr[i]];
  }

  /** The loop that adds the carries back into the low sixteen bits. */
  method FoldCarries(s: nat) returns (sum: nat)
    ensures sum == Fold(s)
  {
    sum := s;
    while sum / 65536 != 0
      invariant Fold(sum) == Fold(s)
      decreases sum
    {
      CarryBack(sum);
      sum := sum % 65536 + sum / 65536;
    }
  }

  lemma WrapAdd(a: nat, b: nat)
    ensures (a % WORD32 + b) % WORD32 == (a + b) % WORD32
  {
  }

  /** One turn of the carry loop makes the sum smaller and keeps what it folds to. */
  lemma CarryBack(s: nat)
    requires s >= 65536
    ensures s % 65536 + s / 65536 < s
    ensures Fold(s % 65536 + s / 65536) == Fold(s)
  {
    var q, r := s / 65536, s % 65536;
    assert s - 1 == (q + r - 1) + q * 65535;
  }

  lemma {:induction false} WordSumBound(h: seq<Byte>)
    ensures WordSum(h) <= ((|h| + 1) / 2) * 65535
  {
    if |h| >= 2 {
      WordSumBound(h[2..]);
    }
  }

  /** Up to 65537 words the uint32 cannot overflow. */
  lemma NoOverflow(h: seq<Byte>)
    requires |h| <= 2 * 65537
    ensures WordSum(h) < WORD32
  {
    WordSumBound(h);
  }

  /** 65538 words can overflow it, so the bound is the best possible. */
  lemma BoundIsSharp()
    ensures WordSum(Ones(65538)) >= WORD32
  {
    OnesSum(65538);
  }

  function Ones(words: nat): seq<Byte> {
    if words == 0 then [] else [255, 255] + Ones(words - 1)
  }

  lemma {:induction false} OnesSum(words: nat)
    ensures WordSum(Ones(words)) == words * 65535
  {
    if words > 0 {
      OnesSum(words - 1);
      assert Ones(words)[2..] == Ones(words - 1);
    }
  }

  /** Every byte counts, at an even place 256 times: changing one changes the sum by that much. */
  lemma {:induction false} ByteCounts(h: seq<Byte>, i: nat, b: Byte)
    requires i < |h|
    ensures WordSum(h[i := b]) == WordSum(h) + (b as int - h[i]) * (if i % 2 == 0 then 256 else 1)
  {
    if i >= 2 {
      ByteCounts(h[2..], i - 2, b);
      assert h[i := b][2..] == h[2..][i - 2 := b];
    } else if |h| >= 2 {
      assert h[i := b][2..] == h[2..];
    }
  }

  /** With ByteCounts this fixes the sum of every buffer. */
  lemma {:induction false} ZerosSumToZero(n: nat)
    ensures WordSum(seq(n, _ => 0)) == 0
  {
    var h: seq<Byte> := seq(n, _ => 0);
    if n >= 2 {
      ZerosSumToZero(n - 2);
      assert h[2..] == seq(n - 2, _ => 0);
    }
  }

  /** Writing a word over two zero bytes at an even place adds it to the sum. */
  lemma {:induction false} StoreWord(h: seq<Byte>, k: nat, c: nat)
    requires k % 2 == 0 && k + 2 <= |h| && h[k] == 0 && h[k + 1] == 0 && c < 65536
    ensures WordSum(h[k := c / 256][k + 1 := c % 256]) == WordSum(h) + c
    decreases k
  {
    var h' := h[k := c / 256][k + 1 := c % 256];
    if k == 0 {
      assert h'[2..] == h[2..];
    } else {
      StoreWord(h[2..], k - 2, c);
      assert h'[2..] == h[2..][k - 2 := c / 256][k - 1 := c % 256];
    }
  }

  function Stored(h: seq<Byte>, k: nat): seq<Byte>
    requires k + 2 <= |h|
  {
    h[k := Sum16(h) / 256][k + 1 := Sum16(h) % 256]
  }

  /** A buffer of any content and any length, odd ones included, whose own checksum is stored in a zeroed
      even place verifies: its checksum is zero. This holds past the length at which the uint32 wraps. */
  lemma StoredVerifies(h: seq<Byte>, k: nat)
    requires k % 2 == 0 && k + 2 <= |h| && h[k] == 0 && h[k + 1] == 0
    ensures Sum16(Stored(h, k)) == 0
  {
    var c, s := Sum16(h), WordSum(h) % WORD32;
    StoreWord(h, k, c);
    WrapAdd(WordSum(h), c);
    ComplementFits(s);
  }

  /** Adding the complement of what a uint32 folds to does not wrap it, and folds to all ones. */
  lemma ComplementFits(s: nat)
    requires s < WORD32
    ensures s + (65535 - Fold(s)) < WORD32 && (s + (65535 - Fold(s))) % WORD32 == s + (65535 - Fold(s))
    ensures Fold(s + (65535 - Fold(s))) == 65535
  {
    if s > 0 {
      assert WORD32 - 1 == 65535 * 65537;
      assert s + (65535 - Fold(s)) == 65535 * ((s - 1) / 65535 + 1);
    }
  }
}
