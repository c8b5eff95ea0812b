/** Bit sequences and the reading of them: what the byte-and-offset reader of pkg/bits means. */
module Bits {
  import opened Bytes

  type bit = b: int | 0 <= b <= 1

  function Pow2(n: nat): (r: nat)
    ensures r > 0
  {
    if n == 0 then 1 else 2 * Pow2(n - 1)
  }

  lemma {:induction false} Pow2Add(m: nat, n: nat)
    ensures Pow2(m + n) == Pow2(m) * Pow2(n)
  {
    if m > 0 {
      Pow2Add(m - 1, n);
      assert Pow2(m + n) == 2 * Pow2(m - 1 + n);
      assert 2 * (Pow2(m - 1) * Pow2(n)) == (2 * Pow2(m - 1)) * Pow2(n);
    }
  }

  /** Bit k of a number, counted from the least significant. */
  function BitOf(b: nat, k: nat): (r: bit)
  {
    b / Pow2(k) % 2
  }

  /** All bits of a buffer, most significant bit of each byte first. */
  function BitsOf(buf: Data): (s: seq<bit>)
    ensures |s| == 8 * |buf|
  {
    seq(8 * |buf|, i requires 0 <= i < 8 * |buf| => BitOf(buf[i / 8], 7 - i % 8))
  }

  /** Where a reader stands, and whether it has ever run past the end. */
  datatype Cursor = Cursor(p: nat, eof: bool)

  function GetBit(s: seq<bit>, c: Cursor): (r: (bit, Cursor))
    ensures r.1.p >= c.p && (c.eof ==> r.1.eof)
  {
    if c.eof || c.p >= |s| then (0, Cursor(c.p, true)) else (s[c.p], Cursor(c.p + 1, false))
  }

  /** An n-bit unsigned number, most significant bit first. */
  function GetBits(s: seq<bit>, c: Cursor, n: nat): (r: (nat, Cursor))
    ensures r.1.p >= c.p && (c.eof ==> r.1.eof)
    ensures r.0 < Pow2(n)
    decreases n
  {
    if n == 0 then (0, c)
    else
      var (b, c1) := GetBit(s, c);
      var (v, c2) := GetBits(s, c1, n - 1);
      (b * Pow2(n - 1) + v, c2)
  }

  /** The zero bits in front of an Exp-Golomb code: at most 32 are counted, and the end of the data stops the count. */
  function GetZeros(s: seq<bit>, c: Cursor, size: nat): (r: (nat, Cursor))
    requires size <= 32
    ensures r.1.p >= c.p && (c.eof ==> r.1.eof) && size <= r.0 <= 32
    decreases 32 - size
  {
    if size == 32 then (32, c)
    else
      var (b, c1) := GetBit(s, c);
      if b != 0 || c1.eof then (size, c1) else GetZeros(s, c1, size + 1)
  }

  /** `ReadBits(size) + (1 << size) - 1` in uint32 arithmetic, where `1 << 32` is 0. */
  function UEValue(size: nat, v: nat): (r: nat)
    ensures r < 0x1_0000_0000
  {
    (if size >= 32 then v - 1 else v + Pow2(size) - 1) % 0x1_0000_0000
  }

  /** ReadUEGolomb. */
  function GetUE(s: seq<bit>, c: Cursor): (r: (nat, Cursor))
    ensures r.1.p >= c.p && (c.eof ==> r.1.eof)
    ensures r.0 < 0x1_0000_0000
  {
    var (size, c1) := GetZeros(s, c, 0);
    var (v, c2) := GetBits(s, c1, size);
    (UEValue(size, v), c2)
  }

  function Signed(u: nat): (v: int)
  {
    if u % 2 == 0 then -(u / 2) else (u + 1) % 0x1_0000_0000 / 2
  }

  /** ReadSEGolomb. */
  function GetSE(s: seq<bit>, c: Cursor): (r: (int, Cursor))
    ensures r.1.p >= c.p && (c.eof ==> r.1.eof)
  {
    var (u, c1) := GetUE(s, c);
    (Signed(u), c1)
  }

  // Reads next to each other.

  lemma Distribute(b: nat, x: nat, v: nat, y: nat)
    ensures (b * x + v) * y == b * (x * y) + v * y
  {
  }

  lemma {:induction false} GetBitsSplit(s: seq<bit>, c: Cursor, m: nat, n: nat)
    ensures var (v, c1) := GetBits(s, c, m);
            var (w, c2) := GetBits(s, c1, n);
            GetBits(s, c, m + n) == (v * Pow2(n) + w, c2)
    decreases m
  {
    hide GetBit;
    if m > 0 {
      var (b, c0) := GetBit(s, c);
      GetBitsSplit(s, c0, m - 1, n);
      Pow2Add(m - 1, n);
      var (v, c1) := GetBits(s, c0, m - 1);
      Distribute(b, Pow2(m - 1), v, Pow2(n));
    }
  }

  // A read looks only at the bits it passes over.

  /** The read that ended at c stayed in front of bit q. */
  predicate Short(c: Cursor, q: nat) {
    !c.eof && c.p <= q
  }

  /** The cursor has passed bit q. */
  predicate Past(c: Cursor, q: nat) {
    c.p > q
  }

  lemma GetBitLocal(s: seq<bit>, q: nat, b: bit, c: Cursor)
    requires q < |s|
    ensures Short(GetBit(s, c).1, q) ==> Short(c, q) && GetBit(s[q := b], c) == GetBit(s, c)
    ensures Past(c, q) ==> GetBit(s[q := b], c) == GetBit(s, c)
  {
  }

  lemma {:induction false} GetBitsLocal(s: seq<bit>, q: nat, b: bit, c: Cursor, n: nat)
    requires q < |s|
    ensures Short(GetBits(s, c, n).1, q) ==> Short(c, q) && GetBits(s[q := b], c, n) == GetBits(s, c, n)
    ensures Past(c, q) ==> GetBits(s[q := b], c, n) == GetBits(s, c, n)
    decreases n
  {
    if n > 0 {
      GetBitLocal(s, q, b, c);
      GetBitsLocal(s, q, b, GetBit(s, c).1, n - 1);
    }
  }

  lemma {:induction false} GetZerosLocal(s: seq<bit>, q: nat, b: bit, c: Cursor, size: nat)
    requires q < |s| && size <= 32
    ensures Short(GetZeros(s, c, size).1, q) ==> Short(c, q) && GetZeros(s[q := b], c, size) == GetZeros(s, c, size)
    ensures Past(c, q) ==> GetZeros(s[q := b], c, size) == GetZeros(s, c, size)
    decreases 32 - size
  {
    if size < 32 {
      GetBitLocal(s, q, b, c);
      GetZerosLocal(s, q, b, GetBit(s, c).1, size + 1);
    }
  }

  lemma GetUELocal(s: seq<bit>, q: nat, b: bit, c: Cursor)
    requires q < |s|
    ensures Short(GetUE(s, c).1, q) ==> Short(c, q) && GetUE(s[q := b], c) == GetUE(s, c)
    ensures Past(c, q) ==> GetUE(s[q := b], c) == GetUE(s, c)
  {
    hide UEValue, GetBits, GetZeros;
    var (size, c1) := GetZeros(s, c, 0);
    GetZerosLocal(s, q, b, c, 0);
    GetBitsLocal(s, q, b, c1, size);
  }

  lemma GetSELocal(s: seq<bit>, q: nat, b: bit, c: Cursor)
    requires q < |s|
    ensures Short(GetSE(s, c).1, q) ==> Short(c, q) && GetSE(s[q := b], c) == GetSE(s, c)
    ensures Past(c, q) ==> GetSE(s[q := b], c) == GetSE(s, c)
  {
    hide GetUE;
    GetUELocal(s, q, b, c);
  }

  /** The lemmas above, for every read at once. */
  lemma ReadsAreLocal(s: seq<bit>, q: nat, b: bit)
    requires q < |s|
    ensures forall c {:trigger GetBit(s, c)} ::
              && (Short(GetBit(s, c).1, q) ==> Short(c, q) && GetBit(s[q := b], c) == GetBit(s, c))
              && (Past(c, q) ==> GetBit(s[q := b], c) == GetBit(s, c))
    ensures forall c, n: nat {:trigger GetBits(s, c, n)} ::
              && (Short(GetBits(s, c, n).1, q) ==> Short(c, q) && GetBits(s[q := b], c, n) == GetBits(s, c, n))
              && (Past(c, q) ==> GetBits(s[q := b], c, n) == GetBits(s, c, n))
    ensures forall c {:trigger GetUE(s, c)} ::
              && (Short(GetUE(s, c).1, q) ==> Short(c, q) && GetUE(s[q := b], c) == GetUE(s, c))
              && (Past(c, q) ==> GetUE(s[q := b], c) == GetUE(s, c))
    ensures forall c {:trigger GetSE(s, c)} ::
              && (Short(GetSE(s, c).1, q) ==> Short(c, q) && GetSE(s[q := b], c) == GetSE(s, c))
              && (Past(c, q) ==> GetSE(s[q := b], c) == GetSE(s, c))
  {
    hide GetBits, GetUE, GetBit;
    forall c ensures
      && (Short(GetBit(s, c).1, q) ==> Short(c, q) && GetBit(s[q := b], c) == GetBit(s, c))
      && (Past(c, q) ==> GetBit(s[q := b], c) == GetBit(s, c))
      && (Short(GetUE(s, c).1, q) ==> Short(c, q) && GetUE(s[q := b], c) == GetUE(s, c))
      && (Past(c, q) ==> GetUE(s[q := b], c) == GetUE(s, c))
    {
      GetBitLocal(s, q, b, c);
      GetUELocal(s, q, b, c);
    }
    forall c, n: nat ensures
      && (Short(GetBits(s, c, n).1, q) ==> Short(c, q) && GetBits(s[q := b], c, n) == GetBits(s, c, n))
      && (Past(c, q) ==> GetBits(s[q := b], c, n) == GetBits(s, c, n))
    {
      GetBitsLocal(s, q, b, c, n);
    }
  }

  // The codes these reads undo.

  /** The n-bit code of v, most significant bit first; higher bits of v are cut off. */
  function CodeOf(v: nat, n: nat): (s: seq<bit>)
    ensures |s| == n
    decreases n
  {
    if n == 0 then [] else CodeOf(v / 2, n - 1) + [v % 2]
  }

  /** The bits of s at position p are those of t. */
  ghost predicate At(s: seq<bit>, p: nat, t: seq<bit>) {
    p + |t| <= |s| && s[p..p + |t|] == t
  }

  lemma AtSplit(s: seq<bit>, p: nat, a: seq<bit>, b: seq<bit>)
    requires At(s, p, a + b)
    ensures At(s, p, a) && At(s, p + |a|, b)
  {
    var t := s[p..p + |a + b|];
    assert s[p..p + |a|] == t[..|a|] == a;
    assert s[p + |a|..p + |a| + |b|] == t[|a|..] == b;
  }

  lemma {:induction false} GetBitsOfCode(s: seq<bit>, p: nat, v: nat, n: nat)
    requires At(s, p, CodeOf(v, n))
    ensures GetBits(s, Cursor(p, false), n) == (v % Pow2(n), Cursor(p + n, false))
    decreases n
  {
    if n > 0 {
      assert CodeOf(v, n) == CodeOf(v / 2, n - 1) + [v % 2];
      AtSplit(s, p, CodeOf(v / 2, n - 1), [v % 2]);
      OneAt(s, p + n - 1, v % 2);
      hide At, CodeOf, GetBits, Pow2;
      GetBitsOfCode(s, p, v / 2, n - 1);
      GetBitsSplit(s, Cursor(p, false), n - 1, 1);
      HalfModulo(v, n);
    }
  }

  lemma AtOne(s: seq<bit>, p: nat, b: bit)
    requires At(s, p, [b])
    ensures p < |s| && s[p] == b
  {
    assert s[p..p + |[b]|][0] == s[p];
  }

  lemma OneAt(s: seq<bit>, p: nat, b: bit)
    requires At(s, p, [b])
    ensures GetBits(s, Cursor(p, false), 1) == (b, Cursor(p + 1, false))
    ensures Pow2(1) == 2
  {
    AtOne(s, p, b);
    OneBit(s, Cursor(p, false));
  }

  lemma OneBit(s: seq<bit>, c: Cursor)
    ensures GetBits(s, c, 1) == GetBit(s, c)
    ensures Pow2(1) == 2
  {
    assert GetBits(s, GetBit(s, c).1, 0).0 == 0;
    assert Pow2(0) == 1;
  }

  lemma HalfModulo(v: nat, n: nat)
    requires n > 0
    ensures v / 2 % Pow2(n - 1) * 2 + v % 2 == v % Pow2(n)
  {
    var m := Pow2(n - 1);
    var q, r := v / 2 / m, v / 2 % m;
    assert v / 2 == q * m + r;
    assert v == 2 * (q * m + r) + v % 2;
    assert 2 * (q * m) == q * (2 * m);
    var w := r * 2 + v % 2;
    assert v == q * (2 * m) + w && 0 <= w < 2 * m;
    ModuloOf(v, 2 * m, q, w);
  }

  lemma ModuloOf(v: nat, d: nat, q: nat, w: nat)
    requires d > 0 && v == q * d + w && w < d
    ensures v % d == w && v / d == q
  {
    var e := q - v / d;
    assert v == v / d * d + v % d;
    assert e * d == q * d - v / d * d;
    NoMultiple(e, d);
  }

  lemma {:induction false} AtLeastOnce(e: int, d: int)
    requires e >= 1 && d >= 0
    ensures e * d >= d
  {
    if e > 1 {
      AtLeastOnce(e - 1, d);
      assert e * d == (e - 1) * d + d;
    }
  }

  lemma NoMultiple(e: int, d: int)
    requires 0 - d < e * d < d
    ensures e == 0
  {
    if e > 0 {
      AtLeastOnce(e, d);
    } else if e < 0 {
      AtLeastOnce(-e, d);
    }
  }

  lemma DivideTwice(v: nat, d: nat)
    requires d > 0
    ensures v / 2 / d == v / (2 * d)
  {
    var q, r := v / 2 / d, v / 2 % d;
    assert v / 2 == q * d + r;
    assert v == 2 * (q * d + r) + v % 2;
    assert 2 * (q * d) == q * (2 * d);
    ModuloOf(v, 2 * d, q, 2 * r + v % 2);
  }
}
