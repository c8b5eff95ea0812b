/** Exp-Golomb codes, section 9.1 of ITU-T H.264, against ReadUEGolomb of pkg/bits/reader.go. */
module Golomb {
  import opened Bits

  /** The number of bits after the leading one. */
  function Log2(n: nat): (k: nat)
    requires n > 0
    ensures Pow2(k) <= n < 2 * Pow2(k)
  {
    if n == 1 then 0 else 1 + Log2(n / 2)
  }

  function Zeros(n: nat): (s: seq<bit>)
    ensures |s| == n && forall i :: 0 <= i < n ==> s[i] == 0
  {
    seq(n, i => 0)
  }

  /** ue(v): as many zeros as v + 1 has bits after its leading one, then v + 1. */
  function UECode(v: nat): (s: seq<bit>)
  {
    Zeros(Log2(v + 1)) + CodeOf(v + 1, 1 + Log2(v + 1))
  }

  /** v without its n lowest bits. */
  function Drop(v: nat, n: nat): (r: nat)
  {
    if n == 0 then v else Drop(v / 2, n - 1)
  }

  lemma {:induction false} CodeSplit(v: nat, m: nat, n: nat)
    ensures CodeOf(v, m + n) == CodeOf(Drop(v, n), m) + CodeOf(v, n)
    decreases n
  {
    if n > 0 {
      CodeSplit(v / 2, m, n - 1);
    }
  }

  lemma {:induction false} OneIsLeft(n: nat)
    requires n > 0
    ensures Drop(n, Log2(n)) == 1
  {
    if n > 1 {
      OneIsLeft(n / 2);
    }
  }

  lemma LeadingOne(n: nat)
    requires n > 0
    ensures CodeOf(n, 1 + Log2(n)) == [1] + CodeOf(n, Log2(n))
    ensures n % Pow2(Log2(n)) == n - Pow2(Log2(n))
  {
    var k := Log2(n);
    CodeSplit(n, 1, k);
    OneIsLeft(n);
    ModuloOf(n, Pow2(k), 1, n - Pow2(k));
    assert CodeOf(1, 1) == CodeOf(0, 0) + [1];
  }

  lemma GetZerosStep(s: seq<bit>, p: nat, size: nat)
    requires size <= 32
    ensures GetZeros(s, Cursor(p, false), size) ==
            if size == 32 then (32, Cursor(p, false))
            else if p >= |s| then (size, Cursor(p, true))
            else if s[p] == 1 then (size, Cursor(p + 1, false))
            else GetZeros(s, Cursor(p + 1, false), size + 1)
  {
  }

  lemma {:induction false} ZerosCounted(s: seq<bit>, p: nat, size: nat, k: nat)
    requires size + k <= 32 && At(s, p, Zeros(k)) && (size + k == 32 || (p + k < |s| && s[p + k] == 1))
    ensures GetZeros(s, Cursor(p, false), size)
         == (size + k, Cursor(if size + k == 32 then p + k else p + k + 1, false))
    decreases k
  {
    hide GetZeros;
    GetZerosStep(s, p, size);
    if k > 0 {
      assert s[p] == s[p..p + k][0] == Zeros(k)[0];
      assert s[p + 1..p + 1 + (k - 1)] == s[p..p + k][1..] == Zeros(k - 1);
      ZerosCounted(s, p + 1, size + 1, k - 1);
    }
  }

  lemma {:induction false} Log2Below(n: nat, k: nat)
    requires 0 < n < Pow2(k)
    ensures Log2(n) < k
  {
    if n > 1 {
      Log2Below(n / 2, k - 1);
    }
  }

  lemma Pow2At32()
    ensures Pow2(31) == 0x8000_0000 && Pow2(32) == 0x1_0000_0000
  {
    assert Pow2(8) == 0x100;
    Pow2Add(8, 8);
    Pow2Add(16, 8);
    Pow2Add(24, 7);
    assert Pow2(7) == 0x80;
    assert Pow2(32) == 2 * Pow2(31);
  }

  /** The three parts of a code where they stand. */
  lemma PartsOfCode(s: seq<bit>, p: nat, v: nat)
    requires At(s, p, UECode(v))
    ensures var k := Log2(v + 1);
            At(s, p, Zeros(k)) && p + k < |s| && s[p + k] == 1 && At(s, p + k + 1, CodeOf(v + 1, k))
            && |UECode(v)| == 2 * k + 1
  {
    hide CodeOf, Log2;
    var k := Log2(v + 1);
    LeadingOne(v + 1);
    AtSplit(s, p, Zeros(k), [1] + CodeOf(v + 1, k));
    AtSplit(s, p + k, [1], CodeOf(v + 1, k));
    AtOne(s, p + k, 1);
  }

  /** Reading undoes coding for every value below 2^32 - 1. */
  lemma UEInverse(s: seq<bit>, p: nat, v: nat)
    requires v < 0xFFFF_FFFF && At(s, p, UECode(v))
    ensures GetUE(s, Cursor(p, false)) == (v, Cursor(p + |UECode(v)|, false))
  {
    hide GetZeros, GetBits, GetUE, UEValue, CodeOf, Log2, At, UECode, Pow2;
    var k := Log2(v + 1);
    Pow2At32();
    Log2Below(v + 1, 32);
    PartsOfCode(s, p, v);
    ZerosCounted(s, p, 0, k);
    GetBitsOfCode(s, p + k + 1, v + 1, k);
    LeadingOne(v + 1);
    UEOfParts(s, p, k, v);
  }

  lemma UEOfParts(s: seq<bit>, p: nat, k: nat, v: nat)
    requires k < 32 && v < 0xFFFF_FFFF && v + 1 >= Pow2(k)
    requires GetZeros(s, Cursor(p, false), 0) == (k, Cursor(p + k + 1, false))
    requires GetBits(s, Cursor(p + k + 1, false), k).0 == v + 1 - Pow2(k)
    ensures GetUE(s, Cursor(p, false)) == (v, GetBits(s, Cursor(p + k + 1, false), k).1)
  {
    hide GetZeros, GetBits, Pow2;
  }

  /** se(v), section 9.1.1 of ITU-T H.264: 1, -1, 2, -2, ... are numbered 1, 2, 3, 4, ... */
  function SECode(v: int): (s: seq<bit>)
  {
    UECode(if v > 0 then 2 * v - 1 else -2 * v)
  }

  /** Reading undoes it for every value whose size fits 31 bits. */
  lemma SEInverse(s: seq<bit>, p: nat, v: int)
    requires -0x8000_0000 < v < 0x8000_0000 && At(s, p, SECode(v))
    ensures GetSE(s, Cursor(p, false)) == (v, Cursor(p + |SECode(v)|, false))
  {
    hide GetUE, UECode, At;
    var u := if v > 0 then 2 * v - 1 else -2 * v;
    UEInverse(s, p, u);
    assert v > 0 ==> (u + 1) % 0x1_0000_0000 / 2 == v;
  }

  /** The one code it does not undo: of 32 zeros and a one the reader takes the one for the first data bit. */
  lemma UELargestIsMisread(s: seq<bit>, p: nat)
    requires At(s, p, UECode(0xFFFF_FFFF))
    ensures GetUE(s, Cursor(p, false)) == (0x7FFF_FFFF, Cursor(p + 64, false))
  {
    hide GetZeros, GetBits, Log2, Zeros, CodeOf;
    Pow2At32();
    LargestCode();
    var zeros, code := Zeros(32), CodeOf(0x8000_0000, 32);
    assert UECode(0xFFFF_FFFF) == zeros + code + [0];
    assert s[p..p + 65] == zeros + code + [0];
    assert s[p..p + 32] == s[p..p + 65][..32] == zeros;
    assert s[p + 32..p + 64] == s[p..p + 65][32..64] == code;
    ZerosCounted(s, p, 0, 32);
    GetBitsOfCode(s, p + 32, 0x8000_0000, 32);
  }

  lemma LargestCode()
    ensures UECode(0xFFFF_FFFF) == Zeros(32) + CodeOf(0x8000_0000, 32) + [0]
    ensures |Zeros(32)| == 32 && |CodeOf(0x8000_0000, 32)| == 32
  {
    hide Log2, Zeros;
    Pow2At32();
    Log2Unique(0x1_0000_0000, 32);
    assert CodeOf(0x1_0000_0000, 33) == CodeOf(0x8000_0000, 32) + [0];
    assert Zeros(32) + (CodeOf(0x8000_0000, 32) + [0]) == Zeros(32) + CodeOf(0x8000_0000, 32) + [0];
  }

  lemma {:induction false} Log2Unique(n: nat, k: nat)
    requires Pow2(k) <= n < 2 * Pow2(k)
    ensures Log2(n) == k
  {
    if k > 0 {
      Log2Unique(n / 2, k - 1);
    } else {
      assert n == 1;
    }
  }

  // Every value read without trouble was there as its code.

  lemma {:induction false} CodeOfGetBits(s: seq<bit>, p: nat, n: nat)
    requires p + n <= |s|
    ensures var (v, c) := GetBits(s, Cursor(p, false), n);
            c == Cursor(p + n, false) && s[p..p + n] == CodeOf(v, n)
    decreases n
  {
    if n > 0 {
      CodeOfGetBits(s, p, n - 1);
      GetBitsSplit(s, Cursor(p, false), n - 1, 1);
      OneBit(s, Cursor(p + n - 1, false));
      var v := GetBits(s, Cursor(p, false), n - 1).0;
      var b := s[p + n - 1];
      assert CodeOf(v * 2 + b, n) == CodeOf(v, n - 1) + [b] by {
        assert (v * 2 + b) / 2 == v && (v * 2 + b) % 2 == b;
      }
      hide GetBits, CodeOf;
      assert s[p..p + n] == s[p..p + n - 1] + [b];
    }
  }

  lemma {:induction false} CountedZeros(s: seq<bit>, p: nat, size: nat)
    requires size <= 32
    ensures var (k, c) := GetZeros(s, Cursor(p, false), size);
            !c.eof && k < 32 ==>
              c.p == p + (k - size) + 1 <= |s| && At(s, p, Zeros(k - size)) && s[p + (k - size)] == 1
    decreases 32 - size
  {
    hide GetZeros;
    GetZerosStep(s, p, size);
    if size < 32 && p < |s| && s[p] == 0 {
      CountedZeros(s, p + 1, size + 1);
      var (k, c) := GetZeros(s, Cursor(p + 1, false), size + 1);
      if !c.eof && k < 32 {
        assert s[p..p + (k - size)] == [s[p]] + s[p + 1..p + 1 + (k - size - 1)];
      }
    }
  }

  lemma GetBitsInside(s: seq<bit>, p: nat, n: nat)
    requires !GetBits(s, Cursor(p, false), n).1.eof
    ensures n > 0 ==> p + n <= |s|
    decreases n
  {
    if n > 0 {
      if p >= |s| {
        EofStays(s, Cursor(p, true), n - 1);
      } else if n > 1 {
        GetBitsInside(s, p + 1, n - 1);
      }
    }
  }

  lemma EofStays(s: seq<bit>, c: Cursor, n: nat)
    requires c.eof
    ensures GetBits(s, c, n) == (0, c)
    decreases n
  {
    if n > 0 {
      EofStays(s, c, n - 1);
    }
  }

  lemma CodeOfSum(w: nat, k: nat)
    requires w < Pow2(k)
    ensures UECode(w + Pow2(k) - 1) == Zeros(k) + ([1] + CodeOf(w, k))
  {
    hide CodeOf, Log2, Zeros;
    var v := w + Pow2(k) - 1;
    Log2Unique(v + 1, k);
    LeadingOne(v + 1);
    ModuloOf(v + 1, Pow2(k), 1, w);
    ModuloOf(w, Pow2(k), 0, w);
    CodeOfModulo(v + 1, k);
    CodeOfModulo(w, k);
  }

  lemma CodeFromParts(s: seq<bit>, p: nat, k: nat, w: nat)
    requires At(s, p, Zeros(k)) && p + 2 * k + 1 <= |s| && s[p + k] == 1
    requires s[p + k + 1..p + 2 * k + 1] == CodeOf(w, k) && w < Pow2(k)
    ensures At(s, p, UECode(w + Pow2(k) - 1)) && |UECode(w + Pow2(k) - 1)| == 2 * k + 1
  {
    hide CodeOf, Log2, Pow2;
    CodeOfSum(w, k);
    assert s[p..p + 2 * k + 1] == s[p..p + k] + [s[p + k]] + s[p + k + 1..p + 2 * k + 1];
    assert Zeros(k) + ([1] + CodeOf(w, k)) == Zeros(k) + [1] + CodeOf(w, k);
  }

  /** Unless the data ended or 32 zeros were seen, the bits passed over are the code of the value returned. */
  lemma UESound(s: seq<bit>, p: nat)
    requires GetZeros(s, Cursor(p, false), 0).0 < 32 && !GetUE(s, Cursor(p, false)).1.eof
    ensures var (v, c) := GetUE(s, Cursor(p, false));
            At(s, p, UECode(v)) && c == Cursor(p + |UECode(v)|, false)
  {
    hide GetZeros, GetBits, CodeOf, Log2, UECode;
    var (k, c1) := GetZeros(s, Cursor(p, false), 0);
    CountedZeros(s, p, 0);
    assert c1 == Cursor(p + k + 1, false);
    GetBitsInside(s, p + k + 1, k);
    CodeOfGetBits(s, p + k + 1, k);
    var w := GetBits(s, c1, k).0;
    Pow2At32();
    Pow2Monotone(k, 31);
    CodeFromParts(s, p, k, w);
  }

  lemma {:induction false} Pow2Monotone(m: nat, n: nat)
    requires m <= n
    ensures Pow2(m) <= Pow2(n)
  {
    if m < n {
      Pow2Monotone(m, n - 1);
    }
  }

  lemma {:induction false} CodeOfModulo(v: nat, n: nat)
    ensures CodeOf(v, n) == CodeOf(v % Pow2(n), n)
    decreases n
  {
    if n > 0 {
      HalfModulo(v, n);
      var w := v % Pow2(n);
      assert w / 2 == v / 2 % Pow2(n - 1) && w % 2 == v % 2;
      CodeOfModulo(v / 2, n - 1);
    }
  }
}
