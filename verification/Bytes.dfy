/** Bytes, fixed-width integers in both byte orders, and concatenation: the layer every codec below shares. */
module Bytes {

  type byte = i: int | 0 <= i < 0x100

  type Data = seq<byte>

  function Min(a: int, b: int): (m: int)
    ensures m <= a && m <= b && (m == a || m == b)
  {
    if a < b then a else b
  }

  lemma Regroup<T>(a: seq<T>, b: seq<T>, c: seq<T>)
    ensures a + b + c == a + (b + c)
  {
  }

  /** binary.BigEndian.PutUint32: stores `uint32(n)`, so anything above 32 bits is cut off. */
  function PutU32(n: nat): (r: Data)
    ensures |r| == 4
  {
    [n / 0x100_0000 % 0x100, n / 0x1_0000 % 0x100, n / 0x100 % 0x100, n % 0x100]
  }

  /** binary.BigEndian.Uint32. */
  function U32(b: Data): (n: nat)
    requires |b| >= 4
    ensures n < 0x1_0000_0000
  {
    b[0] as nat * 0x100_0000 + b[1] as nat * 0x1_0000 + b[2] as nat * 0x100 + b[3]
  }

  lemma TwoBytes(n: nat)
    ensures n % 0x1_0000 == n / 0x100 % 0x100 * 0x100 + n % 0x100
  {
    var h := n / 0x100;
    Below16(n, h / 0x100, h % 0x100 * 0x100 + n % 0x100);
  }

  lemma Below16(n: nat, q: nat, r: nat)
    requires n == q * 0x1_0000 + r && r < 0x1_0000
    ensures n % 0x1_0000 == r
  {
  }

  lemma TwoHalves(n: nat)
    ensures n % 0x1_0000_0000 == n / 0x1_0000 % 0x1_0000 * 0x1_0000 + n % 0x1_0000
  {
    var h := n / 0x1_0000;
    Below32(n, h / 0x1_0000, h % 0x1_0000 * 0x1_0000 + n % 0x1_0000);
  }

  lemma Below32(n: nat, q: nat, r: nat)
    requires n == q * 0x1_0000_0000 + r && r < 0x1_0000_0000
    ensures n % 0x1_0000_0000 == r
  {
  }

  lemma FourBytes(n: nat)
    ensures n % 0x1_0000_0000 ==
            n / 0x100_0000 % 0x100 * 0x100_0000 + n / 0x1_0000 % 0x100 * 0x1_0000 + n / 0x100 % 0x100 * 0x100 + n % 0x100
  {
    TwoHalves(n);
    TwoBytes(n);
    TwoBytes(n / 0x1_0000);
    TopByte(n);
  }

  lemma TopByte(n: nat)
    ensures n / 0x1_0000 / 0x100 == n / 0x100_0000
  {
  }

  lemma U32OfPut(n: nat, rest: Data)
    ensures U32(PutU32(n) + rest) == n % 0x1_0000_0000
  {
    FourBytes(n);
    var b := PutU32(n) + rest;
    assert b[0] == n / 0x100_0000 % 0x100 && b[1] == n / 0x1_0000 % 0x100
        && b[2] == n / 0x100 % 0x100 && b[3] == n % 0x100;
  }

  lemma PutOfU32(b: Data)
    requires |b| == 4
    ensures PutU32(U32(b)) == b
  {
    var n := U32(b);
    assert n / 0x100 == b[0] as nat * 0x1_0000 + b[1] as nat * 0x100 + b[2];
    assert n / 0x1_0000 == b[0] as nat * 0x100 + b[1];
    assert n / 0x100_0000 == b[0];
  }

  /** Two uint16 halves, most significant byte first. */
  function PutU16(n: nat): (r: Data)
    ensures |r| == 2
  {
    [n / 0x100 % 0x100, n % 0x100]
  }

  function U16(b: Data): (n: nat)
    requires |b| >= 2
    ensures n < 0x1_0000
  {
    b[0] as nat * 0x100 + b[1]
  }

  function PutU24(n: nat): (r: Data)
    ensures |r| == 3
  {
    [n / 0x1_0000 % 0x100, n / 0x100 % 0x100, n % 0x100]
  }

  function PutU64(n: nat): (r: Data)
    ensures |r| == 8
  {
    PutU32(n / 0x1_0000_0000) + PutU32(n)
  }

  function U64(b: Data): (n: nat)
    requires |b| >= 8
    ensures n < 0x1_0000_0000_0000_0000
  {
    U32(b) * 0x1_0000_0000 + U32(b[4..])
  }

  lemma HighAndLow(n: nat)
    ensures n / 0x1_0000_0000 % 0x1_0000_0000 * 0x1_0000_0000 + n % 0x1_0000_0000 == n % 0x1_0000_0000_0000_0000
  {
  }

  lemma U64OfPut(n: nat, rest: Data)
    ensures U64(PutU64(n) + rest) == n % 0x1_0000_0000_0000_0000
  {
    var hi, lo := PutU32(n / 0x1_0000_0000), PutU32(n);
    assert PutU64(n) + rest == hi + (lo + rest);
    assert (hi + (lo + rest))[4..] == lo + rest;
    U32OfPut(n / 0x1_0000_0000, lo + rest);
    U32OfPut(n, rest);
    HighAndLow(n);
  }

  /** binary.LittleEndian.Uint16 and PutUint16. */
  function LeU16(b: Data): (n: nat)
    requires |b| >= 2
    ensures n < 0x1_0000
  {
    b[0] as nat + b[1] as nat * 0x100
  }

  function PutLeU16(n: nat): (r: Data)
    ensures |r| == 2
  {
    [n % 0x100, n / 0x100 % 0x100]
  }

  /** binary.LittleEndian.Uint32 and PutUint32. */
  function LeU32(b: Data): (n: nat)
    requires |b| >= 4
    ensures n < 0x1_0000_0000
  {
    b[0] as nat + b[1] as nat * 0x100 + b[2] as nat * 0x1_0000 + b[3] as nat * 0x100_0000
  }

  function PutLeU32(n: nat): (r: Data)
    ensures |r| == 4
  {
    [n % 0x100, n / 0x100 % 0x100, n / 0x1_0000 % 0x100, n / 0x100_0000 % 0x100]
  }

  lemma LeU16OfPut(n: nat, rest: Data)
    ensures LeU16(PutLeU16(n) + rest) == n % 0x1_0000
  {
    var b := PutLeU16(n) + rest;
    assert b[0] == n % 0x100 && b[1] == n / 0x100 % 0x100;
  }

  lemma LeU32OfPut(n: nat, rest: Data)
    ensures LeU32(PutLeU32(n) + rest) == n % 0x1_0000_0000
  {
    FourBytes(n);
    var b := PutLeU32(n) + rest;
    assert b[0] == n % 0x100 && b[1] == n / 0x100 % 0x100
        && b[2] == n / 0x1_0000 % 0x100 && b[3] == n / 0x100_0000 % 0x100;
  }

  lemma U16OfPut(n: nat, rest: Data)
    ensures U16(PutU16(n) + rest) == n % 0x1_0000
  {
    TwoBytes(n);
    var b := PutU16(n) + rest;
    assert b[0] == n / 0x100 % 0x100 && b[1] == n % 0x100;
  }

  /** The byte orders, on numbers that show them. */
  lemma BigEndian()
    ensures PutU16(0x0102) == [1, 2] && PutU24(0x01_0203) == [1, 2, 3] && PutU32(0x0102_0304) == [1, 2, 3, 4]
    ensures PutU64(0x0102_0304_0506_0708) == [1, 2, 3, 4, 5, 6, 7, 8]
    ensures U16([1, 2]) == 0x0102 && U32([1, 2, 3, 4]) == 0x0102_0304
    ensures U64([1, 2, 3, 4, 5, 6, 7, 8]) == 0x0102_0304_0506_0708
  {
    assert [1, 2, 3, 4, 5, 6, 7, 8][4..] == [5, 6, 7, 8];
  }

  lemma LittleEndian()
    ensures PutLeU16(0x0102) == [2, 1] && PutLeU32(0x0102_0304) == [4, 3, 2, 1]
    ensures LeU16([2, 1]) == 0x0102 && LeU32([4, 3, 2, 1]) == 0x0102_0304
  {
  }

  /** The concatenation of a list of byte strings. */
  function Flat(parts: seq<Data>): (r: Data)
  {
    if parts == [] then [] else parts[0] + Flat(parts[1..])
  }

  lemma {:induction false} FlatConcat(a: seq<Data>, b: seq<Data>)
    ensures Flat(a + b) == Flat(a) + Flat(b)
  {
    if a == [] {
      assert a + b == b;
    } else {
      assert (a + b)[1..] == a[1..] + b;
      FlatConcat(a[1..], b);
    }
  }

  lemma FlatOne(a: Data)
    ensures Flat([a]) == a
  {
  }
}
