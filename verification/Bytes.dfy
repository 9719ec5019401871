/** Big-endian byte strings and the numbers they spell, as addresses appear in packets
    and in netip's As4 and As16. */
module Bytes {
  import opened Prelude

  function ValueOf(bs: seq<Byte>): nat {
    if |bs| == 0 then 0 else ValueOf(bs[..|bs| - 1]) * 256 + bs[|bs| - 1]
  }

  function BytesOf(v: nat, n: nat): (bs: seq<Byte>)
    ensures |bs| == n
  {
    if n == 0 then [] else BytesOf(v / 256, n - 1) + [v % 256]
  }

  lemma Pow2Byte(n: nat)
    ensures Pow2(8 * (n + 1)) == 256 * Pow2(8 * n)
  {
    Pow2Add(8, 8 * n);
    assert Pow2(8) == 256;
  }

  lemma {:induction false} ValueBound(bs: seq<Byte>)
    ensures ValueOf(bs) < Pow2(8 * |bs|)
  {
    if |bs| > 0 {
      ValueBound(bs[..|bs| - 1]);
      Pow2Byte(|bs| - 1);
    }
  }

  /** Spelling a number that fits and reading it back. */
  lemma {:induction false} ReadBack(v: nat, n: nat)
    requires v < Pow2(8 * n)
    ensures ValueOf(BytesOf(v, n)) == v
  {
    if n > 0 {
      Pow2Byte(n - 1);
      ReadBack(v / 256, n - 1);
      var bs := BytesOf(v, n);
      assert bs[..n - 1] == BytesOf(v / 256, n - 1);
    }
  }

  /** Reading bytes and spelling the number again. */
  lemma {:induction false} SpellBack(bs: seq<Byte>)
    ensures BytesOf(ValueOf(bs), |bs|) == bs
  {
    if |bs| > 0 {
      var front := bs[..|bs| - 1];
      SpellBack(front);
      assert bs == front + [bs[|bs| - 1]];
    }
  }

  /** Changing one byte changes the number by the difference times the byte's weight. */
  lemma {:induction false} UpdateValue(bs: seq<Byte>, k: nat, b: Byte)
    requires k < |bs|
    ensures ValueOf(bs[k := b]) == ValueOf(bs) + (b - bs[k]) * Pow2(8 * (|bs| - 1 - k))
  {
    var n := |bs| - 1;
    var front := bs[..n];
    if k == n {
      assert bs[k := b][..n] == front;
    } else {
      UpdateValue(front, k, b);
      assert bs[k := b][..n] == front[k := b];
      Pow2Byte(n - 1 - k);
      Shifted(ValueOf(front), bs[n], b - bs[k], Pow2(8 * (n - 1 - k)));
    }
  }

  lemma Shifted(v: int, x: int, d: int, w: int)
    ensures (v + d * w) * 256 + x == (v * 256 + x) + d * (256 * w)
  {
    assert 256 * (d * w) == d * (256 * w);
  }

  predicate Bit(x: nat, i: nat) {
    (x / Pow2(i)) % 2 == 1
  }

  /** Bit i of the number is bit i % 8 of the byte that stands i / 8 places from the end. */
  lemma {:induction false} BitOfByte(bs: seq<Byte>, i: nat)
    requires i < 8 * |bs|
    ensures Bit(ValueOf(bs), i) <==> Bit(bs[|bs| - 1 - i / 8], i % 8)
    decreases |bs|
  {
    var n := |bs| - 1;
    var v', b := ValueOf(bs[..n]), bs[n];
    if i < 8 {
      LowBit(v', b, i);
    } else {
      BitOfByte(bs[..n], i - 8);
      Pow2Add(8, i - 8);
      assert Pow2(8) == 256;
      DivTwice(v' * 256 + b, 256, Pow2(i - 8));
      assert (v' * 256 + b) / 256 == v';
    }
  }

  lemma LowBit(v: nat, b: Byte, i: nat)
    requires i < 8
    ensures Bit(v * 256 + b, i) <==> Bit(b, i)
  {
    var d, e := Pow2(i), Pow2(7 - i);
    Pow2Add(i, 8 - i);
    assert Pow2(8) == 256;
    Regroup(v, d, e);
    AddMultiple(b, 2 * (v * e), d);
    assert Pow2(8 - i) == 2 * e;
  }

  lemma Regroup(v: nat, d: nat, e: nat)
    ensures v * (d * (2 * e)) == (2 * (v * e)) * d
  {
    assert v * (d * (2 * e)) == v * (2 * (d * e)) == 2 * (v * (d * e));
    assert v * (d * e) == (v * e) * d;
  }

  lemma SmallPowers()
    ensures Pow2(0) == 1 && Pow2(1) == 2 && Pow2(2) == 4 && Pow2(3) == 8
    ensures Pow2(4) == 16 && Pow2(5) == 32 && Pow2(6) == 64 && Pow2(7) == 128
  {
    assert Pow2(3) == 8;
    assert Pow2(5) == 32;
  }

  lemma DivTwice(x: nat, a: nat, b: nat)
    requires a > 0 && b > 0
    ensures a * b > 0 && (x / a) / b == x / (a * b)
  {
    var q := x / a;
    var t, u := q / b, q % b;
    DivFloor(x, a);
    DivFloor(q, b);
    var r := u * a + x % a;
    assert x == (t * b + u) * a + x % a;
    assert (t * b + u) * a == t * (a * b) + u * a;
    MulMono(u, b - 1, a);
    assert (b - 1) * a == a * b - a;
    MulAtLeast(a, b);
    DivModUnique(x, a * b, t, r);
  }

  /** b |= 1 << k on one byte, as arithmetic. */
  function SetBit(b: Byte, k: nat): Byte
    requires k < 8
  {
    SetBitFits(b, k);
    if Bit(b, k) then b else b + Pow2(k)
  }

  lemma SetBitFits(b: Byte, k: nat)
    requires k < 8
    ensures !Bit(b, k) ==> b + Pow2(k) < 256
  {
    SmallPowers();
    if k == 0 {
    } else if k == 1 {
    } else if k == 2 {
    } else if k == 3 {
    } else if k == 4 {
    } else if k == 5 {
    } else if k == 6 {
    } else {
    }
  }

  /** The arithmetic form is the machine's bitwise or. */
  lemma SetBitIsOr(b: bv8, k: nat)
    requires k < 8
    ensures SetBit(b as nat, k) == (b | (1 << k)) as nat
  {
    if k == 0 {
      Or1(b);
    } else if k == 1 {
      Or2(b);
    } else if k == 2 {
      Or4(b);
    } else if k == 3 {
      Or8(b);
    } else if k == 4 {
      Or16(b);
    } else if k == 5 {
      Or32(b);
    } else if k == 6 {
      Or64(b);
    } else {
      Or128(b);
    }
  }

  lemma Or1(b: bv8)
    ensures SetBit(b as nat, 0) == (b | (1 << 0)) as nat
  {
    SmallPowers();
    assert (b | 1) as nat == if ((b as nat) / 1) % 2 == 1 then b as nat else b as nat + 1;
  }

  lemma Or2(b: bv8)
    ensures SetBit(b as nat, 1) == (b | (1 << 1)) as nat
  {
    SmallPowers();
    assert (b | 2) as nat == if ((b as nat) / 2) % 2 == 1 then b as nat else b as nat + 2;
  }

  lemma Or4(b: bv8)
    ensures SetBit(b as nat, 2) == (b | (1 << 2)) as nat
  {
    SmallPowers();
    assert (b | 4) as nat == if ((b as nat) / 4) % 2 == 1 then b as nat else b as nat + 4;
  }

  lemma Or8(b: bv8)
    ensures SetBit(b as nat, 3) == (b | (1 << 3)) as nat
  {
    SmallPowers();
    assert (b | 8) as nat == if ((b as nat) / 8) % 2 == 1 then b as nat else b as nat + 8;
  }

  lemma Or16(b: bv8)
    ensures SetBit(b as nat, 4) == (b | (1 << 4)) as nat
  {
    SmallPowers();
    assert (b | 16) as nat == if ((b as nat) / 16) % 2 == 1 then b as nat else b as nat + 16;
  }

  lemma Or32(b: bv8)
    ensures SetBit(b as nat, 5) == (b | (1 << 5)) as nat
  {
    SmallPowers();
    assert (b | 32) as nat == if ((b as nat) / 32) % 2 == 1 then b as nat else b as nat + 32;
  }

  lemma Or64(b: bv8)
    ensures SetBit(b as nat, 6) == (b | (1 << 6)) as nat
  {
    SmallPowers();
    assert (b | 64) as nat == if ((b as nat) / 64) % 2 == 1 then b as nat else b as nat + 64;
  }

  lemma Or128(b: bv8)
    ensures SetBit(b as nat, 7) == (b | (1 << 7)) as nat
  {
    SmallPowers();
    assert (b | 128) as nat == if ((b as nat) / 128) % 2 == 1 then b as nat else b as nat + 128;
  }
}
