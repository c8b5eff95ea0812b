/** The byte-and-offset reader and writer (pkg/bits/reader.go, pkg/bits/writer.go), proved against bit sequences. */
module BitIO {
  import opened Bytes
  import opened Bits
  import opened Golomb

  // A byte is its eight-bit code.

  lemma {:induction false} CodeIndex(v: nat, n: nat, i: nat)
    requires i < n
    ensures CodeOf(v, n)[i] == v / Pow2(n - 1 - i) % 2
    decreases n
  {
    if i < n - 1 {
      CodeIndex(v / 2, n - 1, i);
      DivideTwice(v, Pow2(n - 2 - i));
    } else {
      assert Pow2(0) == 1;
    }
  }

  lemma BitAt(buf: Data, k: nat, i: nat)
    requires k < |buf| && i < 8
    ensures BitsOf(buf)[8 * k + i] == BitOf(buf[k], 7 - i)
  {
    assert (8 * k + i) / 8 == k && (8 * k + i) % 8 == i;
  }

  lemma PeekBit(buf: Data, k: nat, bits: nat)
    requires k < |buf| && bits < 8
    ensures GetBit(BitsOf(buf), Cursor(8 * k + (7 - bits), false))
         == (BitOf(buf[k], bits), Cursor(8 * (k + 1) - bits, false))
  {
    hide BitOf, BitsOf;
    BitAt(buf, k, 7 - bits);
  }

  lemma PeekEnd(buf: Data)
    ensures GetBit(BitsOf(buf), Cursor(8 * |buf|, false)) == (0, Cursor(8 * |buf|, true))
    ensures GetBit(BitsOf(buf), Cursor(8 * |buf|, true)) == (0, Cursor(8 * |buf|, true))
  {
  }

  lemma ByteIsCode(buf: Data, k: nat)
    requires k < |buf|
    ensures BitsOf(buf)[8 * k..8 * k + 8] == CodeOf(buf[k], 8)
  {
    hide CodeOf;
    var s, code := BitsOf(buf)[8 * k..8 * k + 8], CodeOf(buf[k], 8);
    forall i | 0 <= i < 8 ensures s[i] == code[i] {
      CodeIndex(buf[k], 8, i);
      BitAt(buf, k, i);
    }
  }

  lemma BitsOfAppend(buf: Data, b: byte)
    ensures BitsOf(buf + [b]) == BitsOf(buf) + CodeOf(b, 8)
  {
    hide CodeOf;
    var s, t := BitsOf(buf + [b]), BitsOf(buf) + CodeOf(b, 8);
    ByteIsCode(buf + [b], |buf|);
    forall i | 0 <= i < |s| ensures s[i] == t[i] {
      if i < 8 * |buf| {
        assert (buf + [b])[i / 8] == buf[i / 8];
      } else {
        assert s[i] == s[8 * |buf|..8 * |buf| + 8][i - 8 * |buf|];
      }
    }
  }

  lemma NoBitOfZero(k: nat)
    ensures BitOf(0, k) == 0
  {
    ModuloOf(0, Pow2(k), 0, 0);
  }

  lemma GetBitsStep(s: seq<bit>, c: Cursor, i: nat)
    ensures var (b, c1) := GetBit(s, c);
            GetBits(s, c, i + 1) == (b * Pow2(i) + GetBits(s, c1, i).0, GetBits(s, c1, i).1)
  {
    hide GetBit;
  }

  lemma FitsByte(v: nat, n: nat)
    requires v < Pow2(n)
    ensures n <= 8 ==> v % 0x100 == v
  {
    if n <= 8 {
      Pow2Monotone(n, 8);
      assert Pow2(8) == 0x100;
    }
  }

  lemma FitsWord(v: nat, n: nat)
    requires v < Pow2(n)
    ensures n <= 32 ==> v % 0x1_0000_0000 == v
  {
    if n <= 32 {
      Pow2Monotone(n, 32);
      Pow2At32();
    }
  }

  lemma AddModulo(a: nat, b: nat, m: nat)
    requires m > 0
    ensures (a % m + b) % m == (a + b) % m
  {
    var q := a / m;
    assert a == q * m + a % m;
    AddMultiple(a % m + b, q, m);
  }

  lemma {:induction false} AddMultiple(x: nat, q: nat, m: nat)
    requires m > 0
    ensures (x + q * m) % m == x % m
  {
    if q > 0 {
      assert x + q * m == (x + (q - 1) * m) + m;
      AddOnce(x + (q - 1) * m, m);
      AddMultiple(x, q - 1, m);
    }
  }

  lemma AddOnce(x: nat, m: nat)
    requires m > 0
    ensures (x + m) % m == x % m
  {
    var q := x / m;
    assert x + m == (q + 1) * m + x % m;
    ModuloOf(x + m, m, q + 1, x % m);
  }

  lemma NoBits(s: seq<bit>, c: Cursor)
    ensures GetBits(s, c, 0) == (0, c)
  {
  }

  lemma AlignedByte(buf: Data, pos: nat)
    requires pos <= |buf|
    ensures GetBits(BitsOf(buf), Cursor(8 * pos, false), 8)
         == if pos < |buf| then (buf[pos] as nat, Cursor(8 * pos + 8, false)) else (0, Cursor(8 * pos, true))
  {
    assert Pow2(8) == 0x100;
    hide BitsOf, CodeOf, GetBits, Pow2;
    var s := BitsOf(buf);
    if pos < |buf| {
      ByteIsCode(buf, pos);
      ModuloOf(buf[pos], Pow2(8), 0, buf[pos]);
      GetBitsOfCode(s, 8 * pos, buf[pos], 8);
    } else {
      EofStays(s, Cursor(8 * pos, true), 7);
      GetBitsStep(s, Cursor(8 * pos, false), 7);
      assert GetBit(s, Cursor(8 * pos, false)) == (0, Cursor(8 * pos, true));
    }
  }

  /** A bit that has just been read stands in the byte before pos. */
  lemma LastBit(buf: Data, pos: nat, bits: nat)
    requires bits < 8 && pos <= |buf| && (bits > 0 ==> pos > 0)
    ensures forall c: Cursor :: c.p < 8 * |buf| && Cursor(8 * pos - bits, false) == GetBit(BitsOf(buf), c).1 ==>
              0 < pos && 8 * (pos - 1) + (7 - bits) == c.p && GetBit(BitsOf(buf), c).0 == BitOf(buf[pos - 1], bits)
  {
  }

  class Reader {
    const buf: Data
    var EOF: bool
    var cur: byte
    var bits: nat
    var pos: nat

    ghost predicate Valid()
      reads this
    {
      && bits < 8 && pos <= |buf|
      && (EOF ==> pos == |buf| && (bits > 0 ==> cur == 0))
      && (!EOF && bits > 0 ==> pos > 0 && cur == buf[pos - 1])
    }

    /** The reader's place in the bit sequence. */
    ghost function Now(): (c: Cursor)
      requires Valid()
      reads this
    {
      if EOF then Cursor(8 * |buf|, true) else Cursor(8 * pos - bits, false)
    }

    constructor (b: Data)
      ensures Valid() && buf == b && Now() == Cursor(0, false)
    {
      buf := b;
      EOF, cur, bits, pos := false, 0, 0, 0;
    }

    method ReadByte() returns (r: byte)
      requires Valid()
      modifies this
      ensures Valid()
      ensures r == GetBits(BitsOf(buf), old(Now()), 8).0
      ensures Now() == GetBits(BitsOf(buf), old(Now()), 8).1
      ensures old(bits) == 0 ==> bits == 0 && pos == (if old(pos) < |buf| then old(pos) + 1 else old(pos))
      ensures old(bits) == 0 ==> (if old(pos) < |buf| then r == buf[old(pos)] && EOF == old(EOF) else r == 0 && EOF)
      decreases if bits == 0 then 0 else 3
    {
      hide BitsOf, GetBits;
      if bits != 0 {
        r := ReadBits8(8);
        return;
      }
      AlignedByte(buf, pos);
      EofStays(BitsOf(buf), Cursor(8 * |buf|, true), 8);
      if pos >= |buf| {
        EOF := true;
        return 0;
      }
      r := buf[pos];
      pos := pos + 1;
    }

    method ReadBit() returns (r: bit)
      requires Valid()
      modifies this
      ensures Valid()
      ensures r == GetBit(BitsOf(buf), old(Now())).0
      ensures Now() == GetBit(BitsOf(buf), old(Now())).1
      ensures bits == (old(bits) + 7) % 8
      ensures !EOF ==> r == BitOf(buf[pos - 1], bits)
      decreases 1
    {
      hide GetBit, GetBits, BitOf, BitsOf;
      PeekEnd(buf);
      ghost var c := Now();
      if bits == 0 {
        cur := ReadByte();
        bits := 7;
      } else {
        bits := bits - 1;
      }
      r := BitOf(cur, bits);
      if EOF {
        NoBitOfZero(bits);
      } else {
        PeekBit(buf, pos - 1, bits);
        assert c == Cursor(8 * (pos - 1) + (7 - bits), false);
      }
    }

    /**
     ReadBits for any width a byte can say; bits that do not fit into uint32 are shifted out.  ReadBits16 and
     ReadBits64 differ only in the result type.
     */
    method ReadBits(n: nat) returns (res: nat)
      requires Valid() && n < 0x100
      modifies this
      ensures Valid()
      ensures res == GetBits(BitsOf(buf), old(Now()), n).0 % 0x1_0000_0000
      ensures n <= 32 ==> res == GetBits(BitsOf(buf), old(Now()), n).0
      ensures Now() == GetBits(BitsOf(buf), old(Now()), n).1
      decreases 2
    {
      hide BitsOf, BitOf, GetBit, GetBits, Pow2;
      ghost var s, c := BitsOf(buf), Now();
      res := 0;
      ghost var sum: nat := 0;
      var i := n;
      while i > 0
        invariant Valid() && 0 <= i <= n && res == sum % 0x1_0000_0000
        invariant GetBits(s, c, n) == (sum + GetBits(s, Now(), i).0, GetBits(s, Now(), i).1)
      {
        i := i - 1;
        GetBitsStep(s, Now(), i);
        var b := ReadBit();
        AddModulo(sum, b * Pow2(i), 0x1_0000_0000);
        res := (res + b * Pow2(i)) % 0x1_0000_0000;
        sum := sum + b * Pow2(i);
      }
      NoBits(s, Now());
      FitsWord(sum, n);
    }

    method ReadBits8(n: nat) returns (res: byte)
      requires Valid() && n < 0x100
      modifies this
      ensures Valid()
      ensures res == GetBits(BitsOf(buf), old(Now()), n).0 % 0x100
      ensures n <= 8 ==> res == GetBits(BitsOf(buf), old(Now()), n).0
      ensures Now() == GetBits(BitsOf(buf), old(Now()), n).1
      decreases 2
    {
      hide BitsOf, BitOf, GetBit, GetBits, Pow2;
      ghost var s, c := BitsOf(buf), Now();
      res := 0;
      ghost var sum: nat := 0;
      var i := n;
      while i > 0
        invariant Valid() && 0 <= i <= n && res == sum % 0x100
        invariant GetBits(s, c, n) == (sum + GetBits(s, Now(), i).0, GetBits(s, Now(), i).1)
      {
        i := i - 1;
        GetBitsStep(s, Now(), i);
        var b := ReadBit();
        AddModulo(sum, b * Pow2(i), 0x100);
        res := (res as nat + b * Pow2(i)) % 0x100;
        sum := sum + b * Pow2(i);
      }
      NoBits(s, Now());
      FitsByte(sum, n);
    }

    method ReadUint16() returns (r: nat)
      requires Valid()
      modifies this
      ensures Valid()
      ensures r == GetBits(BitsOf(buf), old(Now()), 16).0
      ensures Now() == GetBits(BitsOf(buf), old(Now()), 16).1
    {
      hide BitsOf, GetBits;
      if bits != 0 {
        r := ReadBits(16);
        return;
      }
      GetBitsSplit(BitsOf(buf), Now(), 8, 8);
      assert Pow2(8) == 0x100;
      var hi := ReadByte();
      var lo := ReadByte();
      r := hi as nat * 0x100 + lo;
    }

    method ReadUint24() returns (r: nat)
      requires Valid()
      modifies this
      ensures Valid()
      ensures r == GetBits(BitsOf(buf), old(Now()), 24).0
      ensures Now() == GetBits(BitsOf(buf), old(Now()), 24).1
    {
      hide BitsOf, GetBits;
      if bits != 0 {
        r := ReadBits(24);
        return;
      }
      GetBitsSplit(BitsOf(buf), Now(), 16, 8);
      assert Pow2(8) == 0x100;
      var hi := ReadUint16();
      var lo := ReadByte();
      r := hi * 0x100 + lo;
    }

    method ReadUint32() returns (r: nat)
      requires Valid()
      modifies this
      ensures Valid()
      ensures r == GetBits(BitsOf(buf), old(Now()), 32).0
      ensures Now() == GetBits(BitsOf(buf), old(Now()), 32).1
    {
      hide BitsOf, GetBits;
      if bits != 0 {
        r := ReadBits(32);
        return;
      }
      GetBitsSplit(BitsOf(buf), Now(), 24, 8);
      assert Pow2(8) == 0x100;
      var hi := ReadUint24();
      var lo := ReadByte();
      r := hi * 0x100 + lo;
    }

    method ReadUEGolomb() returns (r: nat)
      requires Valid()
      modifies this
      ensures Valid()
      ensures r == GetUE(BitsOf(buf), old(Now())).0
      ensures Now() == GetUE(BitsOf(buf), old(Now())).1
    {
      hide BitsOf, BitOf, GetBit;
      ghost var s, c := BitsOf(buf), Now();
      var size := 0;
      while size < 32
        invariant Valid() && size <= 32
        invariant GetZeros(s, c, 0) == GetZeros(s, Now(), size)
      {
        ghost var before := Now();
        var b := ReadBit();
        if b != 0 || EOF {
          assert GetZeros(s, c, 0) == (size, Now());
          break;
        }
        size := size + 1;
      }
      assert GetZeros(s, c, 0) == (size, Now());
      var v := ReadBits(size);
      r := UEValue(size, v);
    }

    method ReadSEGolomb() returns (r: int)
      requires Valid()
      modifies this
      ensures Valid()
      ensures r == GetSE(BitsOf(buf), old(Now())).0
      ensures Now() == GetSE(BitsOf(buf), old(Now())).1
    {
      hide BitsOf, GetUE;
      var b := ReadUEGolomb();
      if b % 2 == 0 {
        var half: int := b / 2;
        r := -half;
      } else {
        r := (b + 1) % 0x1_0000_0000 / 2;
      }
    }

    /** Pos: the byte and the bit in it that were read last, bits counted from the least significant. */
    method Pos() returns (p: int, k: nat)
      requires Valid()
      ensures k < 8 && (!EOF ==> 8 * p + (7 - k) == Now().p - 1)
      ensures forall c: Cursor :: !EOF && c.p < 8 * |buf| && Now() == GetBit(BitsOf(buf), c).1 ==>
                0 <= p < |buf| && k < 8 && 8 * p + (7 - k) == c.p && GetBit(BitsOf(buf), c).0 == BitOf(buf[p], k)
    {
      hide Pow2;
      if !EOF {
        LastBit(buf, pos, bits);
      }
      return pos - 1, bits;
    }
  }

  // Writing.

  /** The k low bits of v are zero. */
  predicate LowZero(v: nat, k: nat)
  {
    k == 0 || (v % 2 == 0 && LowZero(v / 2, k - 1))
  }

  /** Setting bit k of a byte whose bits up to k are zero. */
  lemma {:induction false} SetBit(v: nat, k: nat, b: bit, n: nat)
    requires LowZero(v, k + 1) && v < Pow2(n) && k < n
    ensures Drop(v + b * Pow2(k), k) == 2 * Drop(v, k + 1) + b
    ensures LowZero(v + b * Pow2(k), k) && v + b * Pow2(k) < Pow2(n)
  {
    if k == 0 {
      assert Pow2(0) == 1;
      assert Pow2(n) == 2 * Pow2(n - 1);
    } else {
      SetBit(v / 2, k - 1, b, n - 1);
      assert b * Pow2(k) == 2 * (b * Pow2(k - 1));
      assert (v + b * Pow2(k)) / 2 == v / 2 + b * Pow2(k - 1);
    }
  }

  lemma {:induction false} AllZero(k: nat)
    ensures LowZero(0, k) && Drop(0, k) == 0
  {
    if k > 0 {
      AllZero(k - 1);
    }
  }

  lemma CodeGrows(v: nat, n: nat, b: bit)
    ensures CodeOf(2 * v + b, n + 1) == CodeOf(v, n) + [b]
  {
  }

  /** The bits of a buffer without the last `unused` ones. */
  function Tail(buf: Data, unused: nat): (s: seq<bit>)
    requires unused <= 8 && (unused > 0 ==> buf != [])
  {
    BitsOf(buf)[..8 * |buf| - unused]
  }

  lemma FreshByte(buf: Data)
    ensures Tail(buf + [0], 8) == Tail(buf, 0)
  {
    hide CodeOf;
    BitsOfAppend(buf, 0);
  }

  /** The written part of a buffer that ends in a partly used byte. */
  lemma WrittenParts(front: Data, last: byte, bits: nat)
    requires bits <= 8
    ensures Tail(front + [last], bits) == BitsOf(front) + CodeOf(Drop(last, bits), 8 - bits)
  {
    BitsOfAppend(front, last);
    CodeSplit(last, 8 - bits, bits);
  }

  /** One more bit in a partly used byte. */
  lemma AppendBit(front: Data, last: byte, k: nat, b: bit)
    requires k < 8 && LowZero(last, k + 1)
    ensures last + b * Pow2(k) < 0x100
    ensures Tail(front + [last + b * Pow2(k)], k) == Tail(front + [last], k + 1) + [b]
    ensures LowZero(last + b * Pow2(k), k)
  {
    hide BitsOf, CodeOf, LowZero, Drop;
    assert Pow2(8) == 0x100;
    SetBit(last, k, b, 8);
    hide Pow2;
    CodeGrows(Drop(last, k + 1), 7 - k, b);
    WrittenParts(front, last, k + 1);
    WrittenParts(front, last + b * Pow2(k), k);
  }

  class Writer {
    var buf: Data
    var bits: nat

    ghost predicate Valid()
      reads this
    {
      bits < 8 && (bits > 0 ==> buf != [] && LowZero(buf[|buf| - 1], bits))
    }

    /** Everything written: the bits of the buffer without the unused ones of its last byte. */
    ghost function Written(): (s: seq<bit>)
      requires Valid()
      reads this
    {
      Tail(buf, bits)
    }

    constructor (b: Data)
      ensures Valid() && buf == b && bits == 0 && Written() == BitsOf(b)
    {
      buf, bits := b, 0;
    }

    method WriteBit(b: byte)
      requires Valid()
      modifies this
      ensures Valid() && Written() == old(Written()) + [b % 2]
      ensures bits == (old(bits) + 7) % 8
    {
      hide BitsOf, CodeOf, Drop, LowZero, Pow2, Tail;
      ghost var was := Written();
      if bits == 0 {
        AllZero(8);
        FreshByte(buf);
        buf := buf + [0];
        bits := 7;
      } else {
        bits := bits - 1;
      }
      ghost var front := buf[..|buf| - 1];
      var last := |buf| - 1;
      assert buf == front + [buf[last]];
      AppendBit(front, buf[last], bits, b % 2);
      buf := buf[last := buf[last] + b % 2 * Pow2(bits)];
      assert buf == front + [buf[last]];
    }

    method WriteBits(v: nat, n: nat)
      requires Valid()
      modifies this
      ensures Valid() && Written() == old(Written()) + CodeOf(v, n)
    {
      hide BitsOf, CodeOf, LowZero, Tail;
      assert CodeOf(v, 0) == [] by {
        NoCode(v);
      }
      var i := n;
      while i > 0
        invariant Valid() && 0 <= i <= n
        invariant Written() + CodeOf(v, i) == old(Written()) + CodeOf(v, n)
      {
        i := i - 1;
        ghost var before := Written();
        WriteBit(v / Pow2(i) % 2);
        CodeFront(v, i);
        assert before + ([v / Pow2(i) % 2] + CodeOf(v, i)) == (before + [v / Pow2(i) % 2]) + CodeOf(v, i);
      }
      assert Written() + [] == Written();
    }

    method WriteAllBits(b: byte, n: nat)
      requires Valid()
      modifies this
      ensures Valid() && Written() == old(Written()) + seq(n, i => b % 2)
    {
      for i := 0 to n
        invariant Valid() && Written() == old(Written()) + seq(i, j => b % 2)
      {
        WriteBit(b);
      }
    }

    method WriteBool(b: bool)
      requires Valid()
      modifies this
      ensures Valid() && Written() == old(Written()) + [if b then 1 else 0]
    {
      if b {
        WriteBit(1);
      } else {
        WriteBit(0);
      }
    }
  }

  lemma NoCode(v: nat)
    ensures CodeOf(v, 0) == []
  {
  }

  lemma {:induction false} CodeFront(v: nat, i: nat)
    ensures CodeOf(v, i + 1) == [v / Pow2(i) % 2] + CodeOf(v, i)
  {
    CodeSplit(v, 1, i);
    CodeIndex(v, i + 1, 0);
  }
}
