/**
 The models write the source's bit expressions as arithmetic on 0..255.  Here each of them is shown to be the bit
 expression, over 8- and 16-bit words.
 */
module BitOps {
  import opened Bits
  import opened SpsFix

  // pkg/h265: headers of NAL units and of fragmentation units.

  /** (data[0] >> 1) & 0x3F */
  lemma NalType265(b: bv8)
    ensures ((b >> 1) & 0x3F) as int == b as int / 2 % 0x40
  {
    Halved(b);
    LowSix(b >> 1);
  }

  lemma Halved(b: bv8)
    ensures (b >> 1) as int == b as int / 2
  {
  }

  lemma LowSix(b: bv8)
    ensures (b & 0x3F) as int == b as int % 0x40
  {
  }

  /** data[2] >> 6 and data[2] & 0x3F */
  lemma FuHeader(b: bv8)
    ensures (b >> 6) as int == b as int / 0x40
    ensures (b & 0x3F) as int == b as int % 0x40
  {
  }

  lemma HighAndLow(b: bv8)
    ensures (b & 0x81) as int == b as int / 0x80 * 0x80 + b as int % 2
  {
  }

  lemma DisjointOr(a: bv8, b: bv8)
    requires a & b == 0
    ensures a as int + b as int < 0x100
    ensures (a | b) as int == a as int + b as int
  {
  }

  /** (data[0] & 0x81) | (nuType << 1) */
  lemma RestoredFirstByte(b: bv8, t: bv8)
    requires t < 0x40
    ensures ((b & 0x81) | (t << 1)) as int == b as int / 0x80 * 0x80 + b as int % 2 + t as int * 2
  {
    HighAndLow(b);
    DisjointOr(b & 0x81, t << 1);
    Doubled(t);
  }

  lemma Doubled(t: bv8)
    requires t < 0x40
    ensures (t << 1) as int == t as int * 2
  {
  }

  // pkg/h264

  lemma NalType264(b: bv8)
    ensures (b & 0x1F) as int == b as int % 0x20
  {
  }

  lemma RefIdc264(b: bv8)
    ensures (b & 0x60) as int == b as int / 0x20 % 4 * 0x20
  {
  }

  lemma FuIndicator(b: bv8)
    ensures (28 | (b & 0x60)) as int == 28 + b as int / 0x20 % 4 * 0x20
  {
    RefIdc264(b);
    DisjointOr(28, b & 0x60);
  }

  lemma FuFlags(t: bv8)
    requires t < 0x40
    ensures (t | (1 << 7)) as int == t as int + 0x80 && (t | (1 << 6)) as int == t as int + 0x40
  {
    DisjointOr(t, 0x80);
    DisjointOr(t, 0x40);
  }

  // pkg/bits

  lemma LowBit(b: bv8)
    ensures (b & 1) as int == b as int % 2
  {
  }

  lemma Shifted(b: bv8, k: bv8)
    requires k < 8
    ensures (b >> k) as int == b as int / Pow2(k as int)
  {
    assert Pow2(1) == 2 && Pow2(2) == 4 && Pow2(3) == 8 && Pow2(4) == 16;
    assert Pow2(5) == 32 && Pow2(6) == 64 && Pow2(7) == 128;
    if k == 0 {
    } else if k == 1 {
      assert (b >> 1) as int == b as int / 2;
    } else if k == 2 {
      assert (b >> 2) as int == b as int / 4;
    } else if k == 3 {
      assert (b >> 3) as int == b as int / 8;
    } else if k == 4 {
      assert (b >> 4) as int == b as int / 16;
    } else if k == 5 {
      assert (b >> 5) as int == b as int / 32;
    } else if k == 6 {
      assert (b >> 6) as int == b as int / 64;
    } else {
      assert (b >> 7) as int == b as int / 128;
    }
  }

  /** (r.byte >> r.bits) & 1 */
  lemma ReadBit(b: bv8, k: bv8)
    requires k < 8
    ensures ((b >> k) & 1) as int == BitOf(b as int, k as int)
  {
    Shifted(b, k);
    LowBit(b >> k);
  }

  lemma Powers()
    ensures Pow2(0) == 1 && Pow2(1) == 2 && Pow2(2) == 4 && Pow2(3) == 8
    ensures Pow2(4) == 16 && Pow2(5) == 32 && Pow2(6) == 64 && Pow2(7) == 128
  {
    assert Pow2(1) == 2 && Pow2(2) == 4 && Pow2(3) == 8;
    assert Pow2(4) == 16 && Pow2(5) == 32 && Pow2(6) == 64;
  }

  lemma ShiftedUp(b: bv8, k: bv8)
    requires k < 8 && b <= 1
    ensures (b << k) as int == b as int * Pow2(k as int)
  {
    hide Pow2;
    Powers();
    if k == 0 {
      assert (b << 0) as int == b as int * 1;
    } else if k == 1 {
      assert (b << 1) as int == b as int * 2;
    } else if k == 2 {
      assert (b << 2) as int == b as int * 4;
    } else if k == 3 {
      assert (b << 3) as int == b as int * 8;
    } else if k == 4 {
      assert (b << 4) as int == b as int * 16;
    } else if k == 5 {
      assert (b << 5) as int == b as int * 32;
    } else if k == 6 {
      assert (b << 6) as int == b as int * 64;
    } else {
      assert (b << 7) as int == b as int * 128;
    }
  }

  /** *w.byte |= (b & 1) << w.bits, while that bit is clear. */
  lemma WriteBit(w: bv8, b: bv8, k: bv8)
    requires k < 8 && w & (1 << k) == 0
    ensures (w | ((b & 1) << k)) as int == w as int + b as int % 2 * Pow2(k as int)
  {
    hide Pow2;
    LowBit(b);
    ShiftedUp(b & 1, k);
    DisjointOr(w, (b & 1) << k);
  }

  // pkg/h264/sps.go

  lemma BitAndRest(b: bv8, k: bv8)
    requires k < 8
    ensures (b & !(1 << k)) & (((b >> k) & 1) << k) == 0
    ensures (b & !(1 << k)) | (((b >> k) & 1) << k) == b
  {
  }

  lemma Parts(b: bv8, rest: bv8, part: bv8)
    requires rest & part == 0 && rest | part == b
    ensures rest as int == b as int - part as int
  {
    DisjointOr(rest, part);
  }

  lemma BitInPlace(b: bv8, k: bv8)
    requires k < 8
    ensures ((b >> k) & 1) <= 1
    ensures (((b >> k) & 1) << k) as int == BitOf(b as int, k as int) * Pow2(k as int)
  {
    hide Pow2, BitOf;
    ReadBit(b, k);
    var bit := (b >> k) & 1;
    assert bit <= 1;
    ShiftedUp(bit, k);
  }

  /** sps[pos] &= ^byte(1 << k) */
  lemma BitIsCleared(b: bv8, k: bv8, rest: bv8)
    requires k < 8 && rest == b & !(1 << k)
    ensures rest as int == ClearBit(b as int, k as int)
  {
    hide Pow2, BitOf, ClearBit;
    BitInPlace(b, k);
    RestOfBit(b, k, rest);
    ClearBitIs(b as int, k as int);
  }

  lemma RestOfBit(b: bv8, k: bv8, rest: bv8)
    requires k < 8 && rest == b & !(1 << k)
    ensures rest as int == b as int - (((b >> k) & 1) << k) as int
  {
    BitAndRest(b, k);
    Parts(b, rest, ((b >> k) & 1) << k);
  }

  lemma ClearBitIs(v: nat, k: nat)
    ensures ClearBit(v, k) == v - BitOf(v, k) * Pow2(k)
  {
  }
}
