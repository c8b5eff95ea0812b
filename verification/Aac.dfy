/** Bit fields back to back, and the AAC AudioSpecificConfig built from them (pkg/aac/aac.go). */
module Aac {
  import opened Bytes
  import opened Bits
  import opened BitIO
  import opened Golomb

  // Any sequence of fields.

  datatype Field = Field(value: nat, width: nat)

  function CodeOfFields(fs: seq<Field>): (s: seq<bit>)
  {
    if fs == [] then [] else CodeOf(fs[0].value, fs[0].width) + CodeOfFields(fs[1..])
  }

  function GetFields(s: seq<bit>, c: Cursor, fs: seq<Field>): (r: (seq<nat>, Cursor))
    decreases |fs|
  {
    if fs == [] then ([], c)
    else
      var (v, c1) := GetBits(s, c, fs[0].width);
      var (vs, c2) := GetFields(s, c1, fs[1..]);
      ([v] + vs, c2)
  }

  function Truncated(fs: seq<Field>): (vs: seq<nat>)
    ensures |vs| == |fs|
    ensures forall i :: 0 <= i < |fs| ==> vs[i] == fs[i].value % Pow2(fs[i].width)
  {
    seq(|fs|, i requires 0 <= i < |fs| => fs[i].value % Pow2(fs[i].width))
  }

  /** Reading with the same widths gives every field back, as far as its width holds it. */
  lemma {:induction false} FieldsRoundTrip(s: seq<bit>, p: nat, fs: seq<Field>)
    requires At(s, p, CodeOfFields(fs))
    ensures GetFields(s, Cursor(p, false), fs) == (Truncated(fs), Cursor(p + |CodeOfFields(fs)|, false))
    decreases |fs|
  {
    hide GetBits, CodeOf, At;
    if fs != [] {
      var f, rest := fs[0], fs[1..];
      AtSplit(s, p, CodeOf(f.value, f.width), CodeOfFields(rest));
      GetBitsOfCode(s, p, f.value, f.width);
      FieldsRoundTrip(s, p + f.width, rest);
      assert [f.value % Pow2(f.width)] + Truncated(rest) == Truncated(fs);
    }
  }

  /** The bytes that hold a bit string: what is left of the last byte is zero. */
  ghost predicate Packs(b: Data, code: seq<bit>) {
    |code| <= 8 * |b| < |code| + 8 && BitsOf(b) == code + Zeros(8 * |b| - |code|)
  }

  lemma {:induction false} LowZeroCode(v: nat, k: nat)
    requires LowZero(v, k)
    ensures CodeOf(v, k) == Zeros(k)
  {
    if k > 0 {
      LowZeroCode(v / 2, k - 1);
    }
  }

  /** What a writer holds stands at the front of its bytes, and nothing but zeros behind it. */
  lemma WrittenIsInFront(buf: Data, unused: nat)
    requires unused < 8 && (unused > 0 ==> buf != [] && LowZero(buf[|buf| - 1], unused))
    ensures At(BitsOf(buf), 0, Tail(buf, unused)) && Packs(buf, Tail(buf, unused))
  {
    hide LowZero, CodeOf;
    var s := BitsOf(buf);
    assert s == s[..8 * |buf| - unused] + s[8 * |buf| - unused..];
    if unused > 0 {
      var k := |buf| - 1;
      ByteIsCode(buf, k);
      CodeSplit(buf[k], 8 - unused, unused);
      LowZeroCode(buf[k], unused);
      assert s[8 * |buf| - unused..] == s[8 * k..8 * k + 8][8 - unused..];
    }
  }

  /** Only one byte string packs a bit string. */
  lemma PacksOnce(a: Data, b: Data, code: seq<bit>)
    requires Packs(a, code) && Packs(b, code)
    ensures a == b
  {
    hide CodeOf;
    forall k | 0 <= k < |a| ensures a[k] == b[k] {
      ByteIsCode(a, k);
      ByteIsCode(b, k);
      ByteOfCode(a[k]);
      ByteOfCode(b[k]);
    }
  }

  lemma ByteOfCode(v: byte)
    ensures GetBits(CodeOf(v, 8), Cursor(0, false), 8).0 == v
  {
    hide CodeOf;
    assert Pow2(8) == 0x100;
    hide Pow2;
    assert CodeOf(v, 8)[0..0 + |CodeOf(v, 8)|] == CodeOf(v, 8);
    GetBitsOfCode(CodeOf(v, 8), 0, v, 8);
  }

  // AudioSpecificConfig, section 1.6.2.1 of ISO/IEC 14496-3.

  const ESCAPE := 31

  const SAMPLE_RATES: seq<nat> :=
    [96000, 88200, 64000, 48000, 44100, 32000, 24000, 22050, 16000, 12000, 11025, 8000, 7350, 0, 0, 0]

  /** indexUint32: the first index of v, or -1. */
  function IndexOf(s: seq<nat>, v: nat): (i: int)
    ensures -1 <= i < |s|
    ensures i == -1 <==> v !in s
    ensures i >= 0 ==> s[i] == v && v !in s[..i]
  {
    if s == [] then -1
    else if s[0] == v then 0
    else
      var i := IndexOf(s[1..], v);
      if i < 0 then -1 else i + 1
  }

  method IndexUint32(s: seq<nat>, v: nat) returns (r: int)
    ensures r == IndexOf(s, v)
  {
    for i := 0 to |s|
      invariant v !in s[..i]
    {
      if v == s[i] {
        return i;
      }
    }
    return -1;
  }

  function ObjectTypeFields(objType: byte): (fs: seq<Field>)
  {
    if objType < ESCAPE then [Field(objType, 5)]
    else [Field(ESCAPE, 5), Field((objType as int - 32) % 0x100, 6)]
  }

  function RateFields(rate: nat): (fs: seq<Field>)
  {
    var i := IndexOf(SAMPLE_RATES, rate);
    if i >= 0 then [Field(i, 4)] else [Field(0xF, 4), Field(rate, 24)]
  }

  function ExtraFields(objType: byte, shortFrame: bool): (fs: seq<Field>)
  {
    var short := Field(if shortFrame then 1 else 0, 1);
    if objType == 23 then [short, Field(0, 1), Field(0, 1), Field(0, 2)]
    else if objType == 39 then [short, Field(0, 3), Field(0, 1), Field(0, 4), Field(0, 2)]
    else []
  }

  /** The fields EncodeConfig writes, in order. */
  function ConfigFields(objType: byte, rate: nat, channels: byte, shortFrame: bool): (fs: seq<Field>)
  {
    ObjectTypeFields(objType) + RateFields(rate) + [Field(channels, 4)] + ExtraFields(objType, shortFrame)
  }

  datatype Config = Config(objType: nat, rateIndex: nat, channels: nat, rate: nat)

  function DecodeObjectType(s: seq<bit>, c: Cursor): (r: (nat, Cursor))
  {
    var (t, c1) := GetBits(s, c, 5);
    if t == ESCAPE then
      var (x, c2) := GetBits(s, c1, 6);
      (32 + x, c2)
    else (t, c1)
  }

  function DecodeRate(s: seq<bit>, c: Cursor): (r: (nat, nat, Cursor))
  {
    var (i, c1) := GetBits(s, c, 4);
    SmallFour(s, c);
    if i < 15 then (i, SAMPLE_RATES[i], c1)
    else
      var (v, c2) := GetBits(s, c1, 24);
      (i, v, c2)
  }

  lemma SmallFour(s: seq<bit>, c: Cursor)
    ensures GetBits(s, c, 4).0 < 16
  {
    Powers();
  }

  function Decoded(s: seq<bit>): (r: Config)
  {
    var (t, c1) := DecodeObjectType(s, Cursor(0, false));
    var (i, rate, c2) := DecodeRate(s, c1);
    Config(t, i, GetBits(s, c2, 4).0, rate)
  }

  method WriteField(w: Writer, f: Field, ghost done: seq<Field>)
    requires w.Valid() && w.Written() == CodeOfFields(done)
    modifies w
    ensures w.Valid() && w.Written() == CodeOfFields(done + [f])
  {
    w.WriteBits(f.value, f.width);
    AppendField(done, f);
  }

  lemma AppendField(fs: seq<Field>, f: Field)
    ensures CodeOfFields(fs + [f]) == CodeOfFields(fs) + CodeOf(f.value, f.width)
  {
    hide CodeOf;
    CodeOfFieldsConcat(fs, [f]);
    assert CodeOfFields([f]) == CodeOf(f.value, f.width) + CodeOfFields([]);
  }

  method EncodeConfig(objType: byte, sampleRate: nat, channels: byte, shortFrame: bool) returns (b: Data)
    ensures var code := CodeOfFields(ConfigFields(objType, sampleRate, channels, shortFrame));
            At(BitsOf(b), 0, code) && Packs(b, code)
  {
    var w := new Writer([]);
    assert w.Written() == CodeOfFields([]);
    hide CodeOfFields, BitsOf, Tail, LowZero, ObjectTypeFields, RateFields, ExtraFields;
    ghost var kind, rate := ObjectTypeFields(objType), RateFields(sampleRate);
    WriteObjectType(w, objType);
    WriteRate(w, sampleRate, kind);
    WriteField(w, Field(channels, 4), kind + rate);
    WriteExtra(w, objType, shortFrame, kind + rate + [Field(channels, 4)]);
    b := w.buf;
    WrittenIsInFront(b, w.bits);
  }

  method WriteObjectType(w: Writer, objType: byte)
    requires w.Valid() && w.Written() == CodeOfFields([])
    modifies w
    ensures w.Valid() && w.Written() == CodeOfFields(ObjectTypeFields(objType))
  {
    hide CodeOfFields, BitsOf, Tail, LowZero;
    assert [] + [Field(objType, 5)] == [Field(objType, 5)] && [] + [Field(ESCAPE, 5)] == [Field(ESCAPE, 5)];
    if objType < ESCAPE {
      WriteField(w, Field(objType, 5), []);
    } else {
      WriteField(w, Field(ESCAPE, 5), []);
      WriteField(w, Field((objType as int - 32) % 0x100, 6), [Field(ESCAPE, 5)]);
      assert [Field(ESCAPE, 5)] + [Field((objType as int - 32) % 0x100, 6)] == ObjectTypeFields(objType);
    }
  }

  method WriteRate(w: Writer, sampleRate: nat, ghost done: seq<Field>)
    requires w.Valid() && w.Written() == CodeOfFields(done)
    modifies w
    ensures w.Valid() && w.Written() == CodeOfFields(done + RateFields(sampleRate))
  {
    hide CodeOfFields, BitsOf, Tail, LowZero;
    var i := IndexUint32(SAMPLE_RATES, sampleRate);
    if i >= 0 {
      WriteField(w, Field(i, 4), done);
    } else {
      WriteField(w, Field(0xF, 4), done);
      WriteField(w, Field(sampleRate, 24), done + [Field(0xF, 4)]);
      assert done + [Field(0xF, 4)] + [Field(sampleRate, 24)] == done + RateFields(sampleRate);
    }
  }

  method WriteExtra(w: Writer, objType: byte, shortFrame: bool, ghost done: seq<Field>)
    requires w.Valid() && w.Written() == CodeOfFields(done)
    modifies w
    ensures w.Valid() && w.Written() == CodeOfFields(done + ExtraFields(objType, shortFrame))
  {
    hide CodeOfFields, BitsOf, Tail, LowZero;
    var short := Field(if shortFrame then 1 else 0, 1);
    if objType == 23 {
      WriteField(w, short, done);
      WriteField(w, Field(0, 1), done + [short]);
      WriteField(w, Field(0, 1), done + [short] + [Field(0, 1)]);
      WriteField(w, Field(0, 2), done + [short] + [Field(0, 1)] + [Field(0, 1)]);
      assert done + [short] + [Field(0, 1)] + [Field(0, 1)] + [Field(0, 2)] == done + ExtraFields(objType, shortFrame);
    } else if objType == 39 {
      WriteField(w, short, done);
      WriteField(w, Field(0, 3), done + [short]);
      WriteField(w, Field(0, 1), done + [short] + [Field(0, 3)]);
      WriteField(w, Field(0, 4), done + [short] + [Field(0, 3)] + [Field(0, 1)]);
      WriteField(w, Field(0, 2), done + [short] + [Field(0, 3)] + [Field(0, 1)] + [Field(0, 4)]);
      assert done + [short] + [Field(0, 3)] + [Field(0, 1)] + [Field(0, 4)] + [Field(0, 2)]
          == done + ExtraFields(objType, shortFrame);
    } else {
      assert done + [] == done;
    }
  }

  method DecodeConfig(b: Data) returns (objType: nat, sampleFreqIdx: nat, channels: nat, sampleRate: nat)
    ensures Config(objType, sampleFreqIdx, channels, sampleRate) == Decoded(BitsOf(b))
  {
    hide BitsOf, GetBits;
    var rd := new Reader(b);
    objType := rd.ReadBits8(5);
    if objType == 31 {
      var x := rd.ReadBits8(6);
      objType := 32 + x;
    }
    sampleFreqIdx := rd.ReadBits8(4);
    if sampleFreqIdx == 15 {
      sampleRate := rd.ReadBits(24);
    } else {
      SmallFour(BitsOf(b), rd.Now());
      sampleRate := SAMPLE_RATES[sampleFreqIdx];
    }
    channels := rd.ReadBits8(4);
  }

  // What the tables stand for.

  /** Every rate is twice the one three places after it; the three on top are 96, 88.2 and 64 kHz, the last 7.35 kHz. */
  lemma RatesByThirds()
    ensures forall i :: 0 <= i < 9 ==> SAMPLE_RATES[i] == 2 * SAMPLE_RATES[i + 3]
    ensures SAMPLE_RATES[..3] == [96000, 88200, 64000]
    ensures SAMPLE_RATES[7] == 3 * SAMPLE_RATES[12] && SAMPLE_RATES[13..] == [0, 0, 0]
    ensures forall i, j :: 0 <= i < j < 13 ==> SAMPLE_RATES[i] > SAMPLE_RATES[j]
  {
  }

  /** GASpecificConfig of AAC-LD and ELDSpecificConfig of AAC-ELD: the frame length flag and nothing but zeros. */
  lemma ExtraBits(objType: byte, shortFrame: bool)
    ensures CodeOfFields(ExtraFields(objType, shortFrame)) ==
            if objType != 23 && objType != 39 then []
            else [if shortFrame then 1 else 0] + Zeros(if objType == 23 then 4 else 10)
  {
    var short := Field(if shortFrame then 1 else 0, 1);
    ZeroCode(1);
    ZeroCode(2);
    ZeroCode(3);
    ZeroCode(4);
    assert CodeOf(short.value, 1) == CodeOf(short.value / 2, 0) + [short.value % 2];
    var fs := ExtraFields(objType, shortFrame);
    if objType == 23 || objType == 39 {
      ZeroFields(fs[1..]);
      if objType == 23 {
        WidthOfThree(fs[1], fs[2], fs[3]);
        assert fs[1..] == [fs[1], fs[2], fs[3]];
      } else {
        WidthOfFour(fs[1], fs[2], fs[3], fs[4]);
        assert fs[1..] == [fs[1], fs[2], fs[3], fs[4]];
      }
    }
  }

  lemma {:induction false} ZeroCode(n: nat)
    ensures CodeOf(0, n) == Zeros(n)
  {
    AllZero(n);
    LowZeroCode(0, n);
  }

  function Width(fs: seq<Field>): (n: nat)
  {
    if fs == [] then 0 else fs[0].width + Width(fs[1..])
  }

  lemma WidthOfThree(a: Field, b: Field, c: Field)
    ensures Width([a, b, c]) == a.width + b.width + c.width
  {
    assert [a, b, c][1..] == [b, c] && [b, c][1..] == [c];
    assert Width([c]) == c.width;
    assert Width([b, c]) == b.width + c.width;
  }

  lemma WidthOfFour(a: Field, b: Field, c: Field, d: Field)
    ensures Width([a, b, c, d]) == a.width + b.width + c.width + d.width
  {
    assert [a, b, c, d][1..] == [b, c, d];
    WidthOfThree(b, c, d);
  }

  lemma {:induction false} ZeroFields(fs: seq<Field>)
    requires forall i :: 0 <= i < |fs| ==> fs[i].value == 0
    ensures CodeOfFields(fs) == Zeros(Width(fs))
  {
    if fs != [] {
      ZeroCode(fs[0].width);
      ZeroFields(fs[1..]);
    }
  }

  lemma RateIndices()
    ensures IndexOf(SAMPLE_RATES, 48000) == 3 && IndexOf(SAMPLE_RATES, 24000) == 6
    ensures IndexOf(SAMPLE_RATES, 16000) == 8 && IndexOf(SAMPLE_RATES, 8000) == 11
  {
    RatesByThirds();
    IndexIs(3);
    IndexIs(6);
    IndexIs(8);
    IndexIs(11);
  }

  lemma IndexIs(i: nat)
    requires i < 13
    ensures IndexOf(SAMPLE_RATES, SAMPLE_RATES[i]) == i
  {
    RatesByThirds();
    var k := IndexOf(SAMPLE_RATES, SAMPLE_RATES[i]);
    hide IndexOf;
    assert SAMPLE_RATES[i] in SAMPLE_RATES;
    assert k < 13 ==> k == i;
    assert k < 13 by {
      FirstRate(SAMPLE_RATES[i]);
    }
  }

  lemma ByteCodes()
    ensures CodeOf(0x11, 8) == [0, 0, 0, 1, 0, 0, 0, 1] && CodeOf(0x14, 8) == [0, 0, 0, 1, 0, 1, 0, 0]
    ensures CodeOf(0x15, 8) == [0, 0, 0, 1, 0, 1, 0, 1] && CodeOf(0x88, 8) == [1, 0, 0, 0, 1, 0, 0, 0]
    ensures CodeOf(0x08, 8) == [0, 0, 0, 0, 1, 0, 0, 0]
  {
    hide CodeOf;
    Nibbles(1, 1);
    Nibbles(1, 4);
    Nibbles(1, 5);
    Nibbles(8, 8);
    Nibbles(0, 8);
    FieldCodes();
    ZeroCode(4);
  }

  /** A byte is the codes of its halves. */
  lemma Nibbles(h: nat, l: nat)
    requires l < 16
    ensures CodeOf(16 * h + l, 8) == CodeOf(h, 4) + CodeOf(l, 4)
  {
    Powers();
    hide CodeOf, Drop, Pow2;
    CodeSplit(16 * h + l, 4, 4);
    DropDivides(16 * h + l, 4);
    CodeOfModulo(16 * h + l, 4);
  }

  lemma {:induction false} DropDivides(v: nat, n: nat)
    ensures Drop(v, n) == v / Pow2(n)
    decreases n
  {
    if n > 0 {
      DropDivides(v / 2, n - 1);
      DivideTwice(v, Pow2(n - 1));
    }
  }

  lemma FieldCodes()
    ensures CodeOf(2, 5) == [0, 0, 0, 1, 0] && CodeOf(1, 4) == [0, 0, 0, 1]
    ensures CodeOf(3, 4) == [0, 0, 1, 1] && CodeOf(8, 4) == [1, 0, 0, 0] && CodeOf(11, 4) == [1, 0, 1, 1]
    ensures CodeOf(4, 4) == [0, 1, 0, 0] && CodeOf(5, 4) == [0, 1, 0, 1]
    ensures CodeOf(12, 4) == [1, 1, 0, 0] && CodeOf(14, 4) == [1, 1, 1, 0] && CodeOf(15, 4) == [1, 1, 1, 1]
  {
    Powers();
    hide CodeOf, Pow2;
    CodeFront(2, 4);
    FourBits(2);
    FourBits(1);
    FourBits(3);
    FourBits(8);
    FourBits(11);
    FourBits(4);
    FourBits(5);
    FourBits(12);
    FourBits(14);
    FourBits(15);
  }

  lemma FourBits(v: nat)
    ensures CodeOf(v, 4) == [v / 8 % 2, v / 4 % 2, v / 2 % 2, v % 2]
  {
    assert Pow2(0) == 1 && Pow2(1) == 2 && Pow2(2) == 4 && Pow2(3) == 8;
    hide CodeOf, Pow2;
    NoCode(v);
    CodeFront(v, 0);
    CodeFront(v, 1);
    CodeFront(v, 2);
    CodeFront(v, 3);
  }

  lemma Codes48()
    ensures CodeOf(0x11, 8) + CodeOf(0x88, 8) == CodeOf(2, 5) + CodeOf(3, 4) + CodeOf(1, 4) + Zeros(3)
  {
    ByteCodes();
    FieldCodes();
    hide CodeOf;
  }

  lemma Codes16()
    ensures CodeOf(0x14, 8) + CodeOf(0x08, 8) == CodeOf(2, 5) + CodeOf(8, 4) + CodeOf(1, 4) + Zeros(3)
  {
    ByteCodes();
    FieldCodes();
    hide CodeOf;
  }

  lemma Codes8()
    ensures CodeOf(0x15, 8) + CodeOf(0x88, 8) == CodeOf(2, 5) + CodeOf(11, 4) + CodeOf(1, 4) + Zeros(3)
  {
    ByteCodes();
    FieldCodes();
    hide CodeOf;
  }

  lemma LcConfig(rate: nat, i: nat, a: byte, b: byte)
    requires IndexOf(SAMPLE_RATES, rate) == i
    requires CodeOf(a, 8) + CodeOf(b, 8) == CodeOf(2, 5) + CodeOf(i, 4) + CodeOf(1, 4) + Zeros(3)
    ensures Packs([a, b], CodeOfFields(ConfigFields(2, rate, 1, false)))
  {
    hide CodeOf, IndexOf, BitsOf, CodeOfFields;
    assert ConfigFields(2, rate, 1, false) == [Field(2, 5), Field(i, 4), Field(1, 4)];
    ThreeFields(Field(2, 5), Field(i, 4), Field(1, 4));
    BitsOfTwo(a, b);
  }

  lemma EldConfig()
    ensures Packs([0xF8, 0xEC, 0x30, 0x00], CodeOfFields(ConfigFields(39, 24000, 1, true)))
  {
    hide BitsOf, CodeOfFields, IndexOf, CodeOf, Zeros, Packs;
    EldFields();
    ExtraBits(39, true);
    EldFront();
    EldBack();
    EldBytes();
    var front, back := CodeOf(31, 5) + CodeOf(7, 6) + CodeOf(6, 4), CodeOf(1, 4) + ([1] + Zeros(10));
    Regroup(front, [0], CodeOf(0x30, 8) + CodeOf(0, 8));
    Regroup(front, back, Zeros(2));
    Packed([0xF8, 0xEC, 0x30, 0x00], CodeOfFields(ConfigFields(39, 24000, 1, true)), 2);
  }

  lemma Packed(b: Data, code: seq<bit>, n: nat)
    requires BitsOf(b) == code + Zeros(n) && n < 8
    ensures Packs(b, code)
  {
  }

  lemma EldFields()
    ensures CodeOfFields(ConfigFields(39, 24000, 1, true))
         == CodeOf(31, 5) + CodeOf(7, 6) + CodeOf(6, 4) + (CodeOf(1, 4) + CodeOfFields(ExtraFields(39, true)))
  {
    hide BitsOf, CodeOfFields, IndexOf, CodeOf, ExtraFields;
    RateIndices();
    var front, back := [Field(31, 5), Field(7, 6), Field(6, 4)], [Field(1, 4)] + ExtraFields(39, true);
    assert ConfigFields(39, 24000, 1, true) == front + back;
    CodeOfFieldsConcat(front, back);
    FieldsStep(back);
    assert back[1..] == ExtraFields(39, true);
    ThreeFields(Field(31, 5), Field(7, 6), Field(6, 4));
  }

  lemma EldBytes()
    ensures BitsOf([0xF8, 0xEC, 0x30, 0x00]) == CodeOf(0xF8, 8) + CodeOf(0xEC, 8) + (CodeOf(0x30, 8) + CodeOf(0, 8))
  {
    hide BitsOf, CodeOf;
    assert [0xF8, 0xEC, 0x30, 0x00] == [0xF8, 0xEC, 0x30] + [0x00] && [0xF8, 0xEC, 0x30] == [0xF8, 0xEC] + [0x30];
    BitsOfTwo(0xF8, 0xEC);
    BitsOfAppend([0xF8, 0xEC], 0x30);
    BitsOfAppend([0xF8, 0xEC, 0x30], 0x00);
    Regroup(CodeOf(0xF8, 8) + CodeOf(0xEC, 8), CodeOf(0x30, 8), CodeOf(0, 8));
  }

  lemma EldFront()
    ensures CodeOf(0xF8, 8) + CodeOf(0xEC, 8) == CodeOf(31, 5) + CodeOf(7, 6) + CodeOf(6, 4) + [0]
  {
    EldByteCodes();
    EldFieldCodes();
    hide CodeOf;
  }

  lemma EldByteCodes()
    ensures CodeOf(0xF8, 8) == [1, 1, 1, 1, 1, 0, 0, 0] && CodeOf(0xEC, 8) == [1, 1, 1, 0, 1, 1, 0, 0]
    ensures CodeOf(0x30, 8) == [0, 0, 1, 1, 0, 0, 0, 0]
  {
    hide CodeOf;
    Nibbles(15, 8);
    Nibbles(14, 12);
    Nibbles(3, 0);
    FieldCodes();
    ZeroCode(4);
  }

  lemma EldFieldCodes()
    ensures CodeOf(31, 5) == [1, 1, 1, 1, 1] && CodeOf(7, 6) == [0, 0, 0, 1, 1, 1] && CodeOf(6, 4) == [0, 1, 1, 0]
  {
    Powers();
    hide CodeOf, Pow2;
    CodeFront(31, 4);
    CodeFront(7, 5);
    CodeFront(7, 4);
    FourBits(31);
    FourBits(7);
    FourBits(6);
  }

  lemma EldBack()
    ensures [0] + (CodeOf(0x30, 8) + CodeOf(0, 8)) == CodeOf(1, 4) + ([1] + Zeros(10)) + Zeros(2)
  {
    EldByteCodes();
    FieldCodes();
    ZeroCode(8);
    hide CodeOf;
  }

  lemma BitsOfOne(a: byte)
    ensures BitsOf([a]) == CodeOf(a, 8)
  {
    hide CodeOf;
    assert [] + [a] == [a];
    BitsOfAppend([], a);
    assert BitsOf([]) == [];
  }

  lemma BitsOfTwo(a: byte, b: byte)
    ensures BitsOf([a, b]) == CodeOf(a, 8) + CodeOf(b, 8)
  {
    hide CodeOf, BitsOf;
    BitsOfOne(a);
    assert [a] + [b] == [a, b];
    BitsOfAppend([a], b);
  }

  lemma ThreeFields(a: Field, b: Field, c: Field)
    ensures CodeOfFields([a, b, c]) == CodeOf(a.value, a.width) + CodeOf(b.value, b.width) + CodeOf(c.value, c.width)
  {
    hide CodeOf;
    assert CodeOfFields([a, b, c]) == CodeOf(a.value, a.width) + CodeOfFields([b, c]);
    assert CodeOfFields([b, c]) == CodeOf(b.value, b.width) + CodeOfFields([c]);
    assert CodeOfFields([c]) == CodeOf(c.value, c.width) + CodeOfFields([]);
  }

  /** The config that the HomeKit cameras are sent (pkg/homekit/helpers.go) and those of AAC-LC at 48, 16 and 8 kHz. */
  lemma KnownConfigs()
    ensures Packs([0xF8, 0xEC, 0x30, 0x00], CodeOfFields(ConfigFields(39, 24000, 1, true)))
    ensures Packs([0x11, 0x88], CodeOfFields(ConfigFields(2, 48000, 1, false)))
    ensures Packs([0x14, 0x08], CodeOfFields(ConfigFields(2, 16000, 1, false)))
    ensures Packs([0x15, 0x88], CodeOfFields(ConfigFields(2, 8000, 1, false)))
  {
    hide Packs, CodeOfFields, ConfigFields, IndexOf;
    RateIndices();
    EldConfig();
    Codes48();
    LcConfig(48000, 3, 0x11, 0x88);
    Codes16();
    LcConfig(16000, 8, 0x14, 0x08);
    Codes8();
    LcConfig(8000, 11, 0x15, 0x88);
  }

  // Decoding undoes encoding.

  lemma FieldsStep(fs: seq<Field>)
    requires fs != []
    ensures CodeOfFields(fs) == CodeOf(fs[0].value, fs[0].width) + CodeOfFields(fs[1..])
  {
  }

  lemma {:induction false} CodeOfFieldsConcat(a: seq<Field>, b: seq<Field>)
    ensures CodeOfFields(a + b) == CodeOfFields(a) + CodeOfFields(b)
  {
    hide CodeOf;
    if a == [] {
      assert a + b == b;
    } else {
      CodeOfFieldsConcat(a[1..], b);
      FieldsStep(a);
      FieldsStep(a + b);
      hide CodeOfFields;
      assert (a + b)[1..] == a[1..] + b;
      Regroup(CodeOf(a[0].value, a[0].width), CodeOfFields(a[1..]), CodeOfFields(b));
    }
  }

  lemma FieldsSplit(s: seq<bit>, p: nat, a: seq<Field>, b: seq<Field>)
    requires At(s, p, CodeOfFields(a + b))
    ensures At(s, p, CodeOfFields(a)) && At(s, p + |CodeOfFields(a)|, CodeOfFields(b))
  {
    CodeOfFieldsConcat(a, b);
    AtSplit(s, p, CodeOfFields(a), CodeOfFields(b));
  }

  lemma Powers()
    ensures Pow2(4) == 16 && Pow2(5) == 32 && Pow2(6) == 64 && Pow2(24) == 0x100_0000
  {
    assert Pow2(12) == 0x1000;
    Pow2Add(12, 12);
  }

  /** One or two fields at a place; m is two to the width. */
  lemma OneField(s: seq<bit>, p: nat, f: Field, m: nat)
    requires At(s, p, CodeOfFields([f])) && m > 0 && m == Pow2(f.width)
    ensures GetBits(s, Cursor(p, false), f.width) == (f.value % m, Cursor(p + f.width, false))
    ensures |CodeOfFields([f])| == f.width
  {
    var code := CodeOf(f.value, f.width);
    assert CodeOfFields([f]) == code + CodeOfFields([]) == code;
    GetBitsOfCode(s, p, f.value, f.width);
  }

  lemma TwoFields(s: seq<bit>, p: nat, f: Field, g: Field, m: nat, n: nat)
    requires At(s, p, CodeOfFields([f, g])) && m > 0 && n > 0 && m == Pow2(f.width) && n == Pow2(g.width)
    ensures GetBits(s, Cursor(p, false), f.width) == (f.value % m, Cursor(p + f.width, false))
    ensures GetBits(s, Cursor(p + f.width, false), g.width) == (g.value % n, Cursor(p + f.width + g.width, false))
    ensures |CodeOfFields([f, g])| == f.width + g.width
  {
    hide GetBits, At;
    assert [f, g] == [f] + [g];
    FieldsSplit(s, p, [f], [g]);
    OneField(s, p, f, m);
    OneField(s, p + f.width, g, n);
    CodeOfFieldsConcat([f], [g]);
  }

  lemma ObjectTypeDecoded(s: seq<bit>, objType: byte)
    requires At(s, 0, CodeOfFields(ObjectTypeFields(objType)))
    ensures var (t, c) := DecodeObjectType(s, Cursor(0, false));
            && c == Cursor(|CodeOfFields(ObjectTypeFields(objType))|, false)
            && (t == objType as nat <==> objType < 96 && objType != 31)
  {
    Powers();
    hide GetBits, At, Pow2, CodeOfFields;
    if objType < ESCAPE {
      OneField(s, 0, Field(objType, 5), 32);
    } else {
      TwoFields(s, 0, Field(ESCAPE, 5), Field((objType as int - 32) % 0x100, 6), 32, 64);
    }
  }

  lemma RateDecoded(s: seq<bit>, p: nat, rate: nat)
    requires At(s, p, CodeOfFields(RateFields(rate))) && rate < 0x1_0000_0000
    ensures var (i, r, c) := DecodeRate(s, Cursor(p, false));
            && c == Cursor(p + |CodeOfFields(RateFields(rate))|, false)
            && i == (if rate in SAMPLE_RATES then IndexOf(SAMPLE_RATES, rate) else 15)
            && (r == rate <==> rate < 0x100_0000)
  {
    hide GetBits, At, CodeOfFields, IndexOf, DecodeRate, RateFields;
    if rate in SAMPLE_RATES {
      KnownRateDecoded(s, p, rate);
    } else {
      OtherRateDecoded(s, p, rate);
    }
  }

  lemma KnownRateDecoded(s: seq<bit>, p: nat, rate: nat)
    requires At(s, p, CodeOfFields(RateFields(rate))) && rate in SAMPLE_RATES
    ensures DecodeRate(s, Cursor(p, false)) ==
            (IndexOf(SAMPLE_RATES, rate), rate, Cursor(p + |CodeOfFields(RateFields(rate))|, false))
    ensures rate < 0x100_0000
  {
    Powers();
    hide GetBits, At, Pow2, CodeOfFields, IndexOf, DecodeRate;
    FirstRate(rate);
    IndexOfIs(rate);
    var i := IndexOf(SAMPLE_RATES, rate);
    OneField(s, p, Field(i, 4), 16);
    SmallRateDecoded(s, Cursor(p, false), i);
  }

  lemma IndexOfIs(rate: nat)
    requires rate in SAMPLE_RATES
    ensures var i := IndexOf(SAMPLE_RATES, rate);
            0 <= i < |SAMPLE_RATES| && SAMPLE_RATES[i] == rate && RateFields(rate) == [Field(i, 4)]
  {
  }

  lemma SmallRateDecoded(s: seq<bit>, c: Cursor, i: nat)
    requires i <= 13 && i < |SAMPLE_RATES| && GetBits(s, c, 4).0 == i
    ensures DecodeRate(s, c) == (i, SAMPLE_RATES[i], GetBits(s, c, 4).1)
  {
    hide GetBits;
  }

  lemma OtherRateDecoded(s: seq<bit>, p: nat, rate: nat)
    requires At(s, p, CodeOfFields(RateFields(rate))) && rate !in SAMPLE_RATES
    ensures DecodeRate(s, Cursor(p, false)) ==
            (15, rate % 0x100_0000, Cursor(p + |CodeOfFields(RateFields(rate))|, false))
  {
    Powers();
    hide GetBits, At, Pow2, CodeOfFields, IndexOf;
    TwoFields(s, p, Field(0xF, 4), Field(rate, 24), 16, 0x100_0000);
  }

  lemma FirstRate(rate: nat)
    requires rate in SAMPLE_RATES
    ensures IndexOf(SAMPLE_RATES, rate) <= 13 && rate <= 96000
  {
    hide IndexOf;
    assert SAMPLE_RATES[13] == 0;
  }

  /**
   DecodeConfig gives back what EncodeConfig was given exactly for the object types below 96 except 31, the rates
   below 2^24 and the channel counts below 16.
   */
  lemma ConfigRoundTrip(s: seq<bit>, objType: byte, rate: nat, channels: byte, shortFrame: bool)
    requires rate < 0x1_0000_0000
    requires At(s, 0, CodeOfFields(ConfigFields(objType, rate, channels, shortFrame)))
    ensures Decoded(s) == Config(objType, if rate in SAMPLE_RATES then IndexOf(SAMPLE_RATES, rate) else 15, channels, rate)
       <==> objType < 96 && objType != 31 && rate < 0x100_0000 && channels < 16
  {
    Powers();
    hide GetBits, At, Pow2, CodeOfFields, DecodeObjectType, DecodeRate, ObjectTypeFields, RateFields, ExtraFields;
    var a, b, c, d := ObjectTypeFields(objType), RateFields(rate), [Field(channels, 4)], ExtraFields(objType, shortFrame);
    FieldsSplit(s, 0, a + b + c, d);
    FieldsSplit(s, 0, a + b, c);
    FieldsSplit(s, 0, a, b);
    CodeOfFieldsConcat(a, b);
    ObjectTypeDecoded(s, objType);
    RateDecoded(s, |CodeOfFields(a)|, rate);
    OneField(s, |CodeOfFields(a + b)|, Field(channels, 4), 16);
  }
}
