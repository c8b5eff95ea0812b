/**
 The tracks of an initialisation segment and the track runs of a fragment, read back: the cases of the reader that have
 a layout of their own (pkg/iso/reader.go), against the writer and against ISO/IEC 14496-12.
 */
module IsoTracks {
  import opened Bytes
  import opened IsoWriter
  import opened IsoReader
  import opened IsoRoundTrip

  // Names and words.

  /** Atom types are their letters. */
  lemma NamesAreLetters()
    ensures U32(Letters("moov")) == MOOV && U32(Letters("trak")) == TRAK && U32(Letters("tkhd")) == TKHD
    ensures U32(Letters("mdia")) == MDIA && U32(Letters("mdhd")) == MDHD && U32(Letters("minf")) == MINF
    ensures U32(Letters("stbl")) == STBL && U32(Letters("stsd")) == STSD && U32(Letters("avc1")) == AVC1
    ensures U32(Letters("hev1")) == HEV1 && U32(Letters("mp4a")) == MP4A && U32(Letters("moof")) == MOOF
    ensures U32(Letters("mfhd")) == MFHD && U32(Letters("traf")) == TRAF && U32(Letters("tfhd")) == TFHD
    ensures U32(Letters("tfdt")) == TFDT && U32(Letters("trun")) == TRUN && U32(Letters("mdat")) == MDAT
    ensures U32(Letters("avcC")) == AVCC && U32(Letters("hvcC")) == HVCC && U32(Letters("pasp")) == PASP
    ensures U32(Letters("esds")) == ESDS
  {
  }

  /** A list of 32-bit words. */
  function Words(ws: seq<nat>): (r: Data)
    ensures |r| == 4 * |ws|
  {
    if ws == [] then [] else PutU32(ws[0]) + Words(ws[1..])
  }

  lemma {:induction false} WordsConcat(a: seq<nat>, b: seq<nat>)
    ensures Words(a + b) == Words(a) + Words(b)
  {
    hide PutU32;
    if a == [] {
      assert a + b == b;
    } else {
      assert (a + b)[1..] == a[1..] + b;
      WordsConcat(a[1..], b);
    }
  }

  lemma OneWord(n: nat)
    ensures Words([n]) == PutU32(n)
  {
    hide PutU32;
    assert Words([]) == [];
  }

  lemma AtomIsWords(name: Name, data: Data, ws: seq<nat>)
    requires data == Words(ws)
    ensures AtomBytes(name, data) == Words([8 + 4 * |ws|, name] + ws)
  {
    hide PutU32, Words;
    OneWord(8 + 4 * |ws|);
    OneWord(name);
    assert [8 + 4 * |ws|] + [name] == [8 + 4 * |ws|, name];
    WordsConcat([8 + 4 * |ws|], [name]);
    WordsConcat([8 + 4 * |ws|, name], ws);
  }

  lemma TwoWords(a: nat, b: nat)
    ensures Words([a, b]) == PutU32(a) + PutU32(b)
  {
    hide PutU32;
    OneWord(a);
    OneWord(b);
    WordsConcat([a], [b]);
    assert [a] + [b] == [a, b];
  }

  lemma ThreeWords(a: nat, b: nat, c: nat)
    ensures Words([a, b, c]) == PutU32(a) + PutU32(b) + PutU32(c)
  {
    hide PutU32, Words;
    TwoWords(a, b);
    OneWord(c);
    WordsConcat([a, b], [c]);
    assert [a, b] + [c] == [a, b, c];
  }

  lemma MfhdWords(sequence: nat)
    ensures MfhdData(sequence) == Words([0, sequence])
  {
    assert PutU32(0) == [0, 0, 0, 0];
    hide PutU32;
    TwoWords(0, sequence);
  }

  lemma TfhdWords(tid: nat, duration: nat, size: nat, flags: nat)
    ensures TfhdData(tid, duration, size, flags) == Words([0x0002_0038, tid, duration, size, flags])
  {
    assert PutU32(0x0002_0038) == [0] + PutU24(0x2_0038);
    hide PutU32, PutU24;
    ThreeWords(0x0002_0038, tid, duration);
    TwoWords(size, flags);
    WordsConcat([0x0002_0038, tid, duration], [size, flags]);
    assert [0x0002_0038, tid, duration] + [size, flags] == [0x0002_0038, tid, duration, size, flags];
  }

  lemma TfdtWords(dts: nat)
    ensures TfdtData(dts) == Words([0x0100_0000, dts / 0x1_0000_0000, dts])
  {
    assert PutU32(0x0100_0000) == [1, 0, 0, 0];
    hide PutU32;
    ThreeWords(0x0100_0000, dts / 0x1_0000_0000, dts);
  }

  /** The words of a track run that starts at `at`. */
  function RunWords(at: nat, cts: nat): (ws: seq<nat>)
  {
    if cts == 0 then [0x0000_0001, 1, at + 28] else [0x0000_0801, 1, at + 32, cts]
  }

  lemma TrunWords(at: nat, cts: nat)
    ensures TrunData(at, cts) == Words(RunWords(at, cts))
  {
    assert PutU32(0x0000_0001) == [0] + PutU24(0x1) && PutU32(0x0000_0801) == [0] + PutU24(0x801);
    hide PutU32, PutU24;
    if cts == 0 {
      ThreeWords(0x0000_0001, 1, at + 28);
    } else {
      ThreeWords(0x0000_0801, 1, at + 32);
      OneWord(cts);
      WordsConcat([0x0000_0801, 1, at + 32], [cts]);
      assert [0x0000_0801, 1, at + 32] + [cts] == RunWords(at, cts);
    }
  }

  /**
   The words of a movie fragment behind `at` bytes, sections 8.8.4 to 8.8.12 of ISO/IEC 14496-12: every version and
   flag with its value, the sizes from the inside out.
   */
  function TrafWords(at: nat, tid: nat, duration: nat, size: nat, flags: nat, dts: nat, cts: nat): (ws: seq<nat>)
  {
    [28, TFHD, 0x0002_0038, tid, duration, size, flags]
      + [20, TFDT, 0x0100_0000, dts / 0x1_0000_0000, dts]
      + if cts == 0 then [20, TRUN, 0x0000_0001, 1, at + 108] else [24, TRUN, 0x0000_0801, 1, at + 112, cts]
  }

  lemma TrafIsWords(at: nat, tid: nat, duration: nat, size: nat, flags: nat, dts: nat, cts: nat)
    ensures TrafBytes(at + 32, tid, duration, size, flags, dts, cts)
         == Words(TrafWords(at, tid, duration, size, flags, dts, cts))
  {
    hide AtomBytes, Words, PutU32, TfhdData, TfdtData, TrunData;
    TfhdWords(tid, duration, size, flags);
    TfdtWords(dts);
    TrunWords(at + 80, cts);
    var a, b, c := [0x0002_0038, tid, duration, size, flags], [0x0100_0000, dts / 0x1_0000_0000, dts], RunWords(at + 80, cts);
    AtomIsWords(TFHD, TfhdData(tid, duration, size, flags), a);
    AtomIsWords(TFDT, TfdtData(dts), b);
    AtomIsWords(TRUN, TrunData(at + 80, cts), c);
    WordsConcat([28, TFHD] + a, [20, TFDT] + b);
    WordsConcat([28, TFHD] + a + ([20, TFDT] + b), [8 + 4 * |c|, TRUN] + c);
    TrafWordsJoined(at, tid, duration, size, flags, dts, cts);
  }

  lemma TrafWordsJoined(at: nat, tid: nat, duration: nat, size: nat, flags: nat, dts: nat, cts: nat)
    ensures var a, b, c :=
              [0x0002_0038, tid, duration, size, flags], [0x0100_0000, dts / 0x1_0000_0000, dts], RunWords(at + 80, cts);
            [28, TFHD] + a + ([20, TFDT] + b) + ([8 + 4 * |c|, TRUN] + c)
            == TrafWords(at, tid, duration, size, flags, dts, cts)
  {
    assert [28, TFHD] + [0x0002_0038, tid, duration, size, flags] == [28, TFHD, 0x0002_0038, tid, duration, size, flags];
    assert [20, TFDT] + [0x0100_0000, dts / 0x1_0000_0000, dts] == [20, TFDT, 0x0100_0000, dts / 0x1_0000_0000, dts];
    var c := RunWords(at + 80, cts);
    assert [8 + 4 * |c|, TRUN] + c
        == if cts == 0 then [20, TRUN, 0x0000_0001, 1, at + 108] else [24, TRUN, 0x0000_0801, 1, at + 112, cts];
  }

  lemma FragmentIsWords(at: nat, sequence: nat, tid: nat, duration: nat, size: nat, flags: nat, dts: nat, cts: nat)
    ensures var more := if cts == 0 then 0 else 4;
            FragmentBytes(at, sequence, tid, duration, size, flags, dts, cts)
            == Words([100 + more, MOOF, 16, MFHD, 0, sequence, 76 + more, TRAF]
                     + TrafWords(at, tid, duration, size, flags, dts, cts))
  {
    hide AtomBytes, Words, PutU32, MfhdData, TrafBytes;
    var more := if cts == 0 then 0 else 4;
    var traf := TrafWords(at, tid, duration, size, flags, dts, cts);
    MfhdWords(sequence);
    AtomIsWords(MFHD, MfhdData(sequence), [0, sequence]);
    assert [16, MFHD] + [0, sequence] == [16, MFHD, 0, sequence];
    TrafIsWords(at, tid, duration, size, flags, dts, cts);
    AtomIsWords(TRAF, TrafBytes(at + 32, tid, duration, size, flags, dts, cts), traf);
    WordsConcat([16, MFHD, 0, sequence], [76 + more, TRAF] + traf);
    var moof := [16, MFHD, 0, sequence] + ([76 + more, TRAF] + traf);
    AtomIsWords(MOOF, MoofBytes(at, sequence, tid, duration, size, flags, dts, cts), moof);
    assert [100 + more, MOOF] + moof == [100 + more, MOOF, 16, MFHD, 0, sequence, 76 + more, TRAF] + traf;
  }

  // Track runs of any shape.

  datatype Sample = Sample(duration: nat, size: nat, flags: nat, cts: nat)

  /** Which fields a run carries. */
  datatype Shape = Shape(offset: bool, first: bool, duration: bool, size: bool, flags: bool, cts: bool)

  function Bit(b: bool, v: nat): (n: nat)
  {
    if b then v else 0
  }

  function FlagsOf(k: Shape): (n: nat)
  {
    Bit(k.offset, 0x1) + Bit(k.first, 0x4) + Bit(k.duration, 0x100) + Bit(k.size, 0x200) + Bit(k.flags, 0x400)
      + Bit(k.cts, 0x800)
  }

  function PutIf(b: bool, v: nat): (r: Data)
  {
    if b then PutU32(v) else []
  }

  predicate Fits(x: Sample) {
    x.duration < 0x1_0000_0000 && x.size < 0x1_0000_0000 && x.flags < 0x1_0000_0000 && x.cts < 0x1_0000_0000
  }

  function SampleBytes(k: Shape, x: Sample): (r: Data)
  {
    PutIf(k.duration, x.duration) + PutIf(k.size, x.size) + PutIf(k.flags, x.flags) + PutIf(k.cts, x.cts)
  }

  function SamplesBytes(k: Shape, xs: seq<Sample>): (r: Data)
  {
    if xs == [] then [] else SampleBytes(k, xs[0]) + SamplesBytes(k, xs[1..])
  }

  /** A track run, section 8.8.8 of ISO/IEC 14496-12. */
  function RunBytes(version: byte, k: Shape, offset: nat, first: nat, xs: seq<Sample>): (r: Data)
  {
    [version] + PutU24(FlagsOf(k)) + PutU32(|xs|) + PutIf(k.offset, offset) + PutIf(k.first, first) + SamplesBytes(k, xs)
  }

  lemma FlagsAreBits(k: Shape)
    ensures var n := FlagsOf(k);
            && n < 0x1000
            && Flag(n, 0x1) == k.offset && Flag(n, 0x4) == k.first
            && Flag(n, 0x100) == k.duration && Flag(n, 0x200) == k.size
            && Flag(n, 0x400) == k.flags && Flag(n, 0x800) == k.cts
  {
  }

  lemma PutIfRead(front: Data, wanted: bool, v: nat, rest: Data)
    requires v < 0x1_0000_0000
    ensures ReadIf(front + PutIf(wanted, v) + rest, |front|, wanted) == (Bit(wanted, v), |front + PutIf(wanted, v)|)
  {
    hide PutU32, ReadU32;
    if wanted {
      ReadBack(front, v, rest);
    }
  }

  datatype Field = Duration | Size | Flags | Cts

  function Value(field: Field, x: Sample): (v: nat)
  {
    match field
    case Duration => x.duration
    case Size => x.size
    case Flags => x.flags
    case Cts => x.cts
  }

  /** One field of every sample, or none. */
  function Values(wanted: bool, field: Field, xs: seq<Sample>): (vs: seq<nat>)
    ensures |vs| == if wanted then |xs| else 0
    ensures forall i :: 0 <= i < |vs| ==> vs[i] == Value(field, xs[i])
  {
    if wanted then seq(|xs|, i requires 0 <= i < |xs| => Value(field, xs[i])) else []
  }

  function Filled(k: Shape, t: Trun, xs: seq<Sample>): (r: Trun)
  {
    t.(durations := t.durations + Values(k.duration, Duration, xs), sizes := t.sizes + Values(k.size, Size, xs),
       flags := t.flags + Values(k.flags, Flags, xs), cts := t.cts + Values(k.cts, Cts, xs))
  }

  lemma OneMore(had: seq<nat>, wanted: bool, field: Field, xs: seq<Sample>)
    requires xs != []
    ensures Append(had, wanted, Bit(wanted, Value(field, xs[0]))) + Values(wanted, field, xs[1..])
         == had + Values(wanted, field, xs)
  {
  }

  /** The four reads of one sample. */
  lemma SampleRead(front: Data, k: Shape, x: Sample, rest: Data)
    requires Fits(x)
    ensures var data := front + SampleBytes(k, x) + rest;
            var (d, p1) := ReadIf(data, |front|, k.duration);
            var (s, p2) := ReadIf(data, p1, k.size);
            var (f, p3) := ReadIf(data, p2, k.flags);
            var (c, p4) := ReadIf(data, p3, k.cts);
            && d == Bit(k.duration, x.duration) && s == Bit(k.size, x.size) && f == Bit(k.flags, x.flags)
            && c == Bit(k.cts, x.cts) && p4 == |front + SampleBytes(k, x)|
  {
    hide PutIf, ReadIf;
    var d, s, f, c := PutIf(k.duration, x.duration), PutIf(k.size, x.size), PutIf(k.flags, x.flags), PutIf(k.cts, x.cts);
    var data := front + SampleBytes(k, x) + rest;
    assert data == front + d + (s + f + c + rest);
    PutIfRead(front, k.duration, x.duration, s + f + c + rest);
    assert data == (front + d) + s + (f + c + rest);
    PutIfRead(front + d, k.size, x.size, f + c + rest);
    assert data == (front + d + s) + f + (c + rest);
    PutIfRead(front + d + s, k.flags, x.flags, c + rest);
    assert data == (front + d + s + f) + c + rest;
    PutIfRead(front + d + s + f, k.cts, x.cts, rest);
  }

  lemma SamplesStep(data: Data, p: nat, k: Shape, left: nat, t: Trun)
    requires left > 0
    ensures var (d, p1) := ReadIf(data, p, k.duration);
            var (s, p2) := ReadIf(data, p1, k.size);
            var (f, p3) := ReadIf(data, p2, k.flags);
            var (c, p4) := ReadIf(data, p3, k.cts);
            Samples(data, p, FlagsOf(k), left, t)
            == Samples(data, p4, FlagsOf(k), left - 1,
                       t.(durations := Append(t.durations, k.duration, d), sizes := Append(t.sizes, k.size, s),
                          flags := Append(t.flags, k.flags, f), cts := Append(t.cts, k.cts, c)))
  {
    FlagsAreBits(k);
    hide ReadIf, FlagsOf, Append, Flag;
  }

  lemma {:induction false} SamplesRead(front: Data, k: Shape, xs: seq<Sample>, t: Trun)
    requires forall i :: 0 <= i < |xs| ==> Fits(xs[i])
    ensures Samples(front + SamplesBytes(k, xs), |front|, FlagsOf(k), |xs|, t) == Filled(k, t, xs)
    decreases |xs|
  {
    hide SampleBytes, FlagsOf, ReadIf, Append, Bit, Fits, Value;
    var data := front + SamplesBytes(k, xs);
    if xs != [] {
      var x, rest := xs[0], xs[1..];
      assert data == front + SampleBytes(k, x) + SamplesBytes(k, rest);
      SampleRead(front, k, x, SamplesBytes(k, rest));
      hide SamplesBytes;
      SamplesStep(data, |front|, k, |xs|, t);
      var next := t.(durations := Append(t.durations, k.duration, Bit(k.duration, x.duration)),
                     sizes := Append(t.sizes, k.size, Bit(k.size, x.size)),
                     flags := Append(t.flags, k.flags, Bit(k.flags, x.flags)),
                     cts := Append(t.cts, k.cts, Bit(k.cts, x.cts)));
      SamplesRead(front + SampleBytes(k, x), k, rest, next);
      FilledStep(k, t, xs);
    }
  }

  lemma FilledStep(k: Shape, t: Trun, xs: seq<Sample>)
    requires xs != []
    ensures var x := xs[0];
            Filled(k, t.(durations := Append(t.durations, k.duration, Bit(k.duration, x.duration)),
                         sizes := Append(t.sizes, k.size, Bit(k.size, x.size)),
                         flags := Append(t.flags, k.flags, Bit(k.flags, x.flags)),
                         cts := Append(t.cts, k.cts, Bit(k.cts, x.cts))), xs[1..])
            == Filled(k, t, xs)
  {
    hide Append, Bit, Values;
    OneMore(t.durations, k.duration, Duration, xs);
    OneMore(t.sizes, k.size, Size, xs);
    OneMore(t.flags, k.flags, Flags, xs);
    OneMore(t.cts, k.cts, Cts, xs);
  }

  /** A run of any shape gives every field of every sample back, in order, and nothing for the fields it lacks. */
  lemma RunRoundTrip(version: byte, k: Shape, offset: nat, first: nat, xs: seq<Sample>)
    requires offset < 0x1_0000_0000 && first < 0x1_0000_0000 && |xs| < 0x1_0000_0000
    requires forall i :: 0 <= i < |xs| ==> Fits(xs[i])
    ensures DecodeTrun(RunBytes(version, k, offset, first, xs))
         == AtomTrun(Trun(if k.offset then offset else 0, if k.first then first else 0,
                          Values(k.duration, Duration, xs), Values(k.size, Size, xs),
                          Values(k.flags, Flags, xs), Values(k.cts, Cts, xs)))
  {
    FlagsAreBits(k);
    hide PutU32, PutU24, ReadU8, ReadU24, ReadU32, PutIf, ReadIf, Samples, SamplesBytes, FlagsOf, Flag, Fits;
    var data := RunBytes(version, k, offset, first, xs);
    var head := [version] + PutU24(FlagsOf(k));
    var n, o, f, body := PutU32(|xs|), PutIf(k.offset, offset), PutIf(k.first, first), SamplesBytes(k, xs);
    assert data == head + (n + o + f + body);
    FlagsOfHeader(version, n + o + f + body, FlagsOf(k));
    assert data == head + n + (o + f + body);
    ReadBack(head, |xs|, o + f + body);
    assert data == (head + n) + o + (f + body);
    PutIfRead(head + n, k.offset, offset, f + body);
    assert data == (head + n + o) + f + body;
    PutIfRead(head + n + o, k.first, first, body);
    var t := Trun(Bit(k.offset, offset), Bit(k.first, first), [], [], [], []);
    SamplesRead(head + n + o + f, k, xs, t);
    hide Values;
    assert forall vs: seq<nat> :: [] + vs == vs;
  }

  // The track atoms.

  lemma TkhdDecoded(id: nat, width: nat, height: nat)
    requires id < 0x1_0000_0000
    ensures DecodeBody(TKHD, TkhdData(id, width, height)) == Ok(AtomTkhd(id))
  {
    hide PutU32, PutU24, U32, TkhdPlace, TkhdShape;
    var data := TkhdData(id, width, height);
    var front, rest := [0] + PutU24(0x3) + Zero(8), TkhdPlace(width > 0) + TkhdShape(width, height);
    assert data == front + PutU32(id) + rest;
    ReadBack(front, id, rest);
  }

  lemma MdhdDecoded(timescale: nat)
    requires timescale < 0x1_0000_0000
    ensures DecodeBody(MDHD, MdhdData(timescale)) == Ok(AtomMdhd(timescale))
  {
    hide PutU32, PutU16, U32;
    var data := MdhdData(timescale);
    var rest := Zero(4) + PutU16(0x55C4) + Zero(2);
    assert data == Zero(12) + PutU32(timescale) + rest;
    ReadBack(Zero(12), timescale, rest);
  }

  /** An atom the reader has no case for, in front of anything. */
  lemma PlainAtom(name: Name, data: Data, rest: Data)
    requires Unrecognised(name) && 8 + |data| < 0x1_0000_0000
    ensures DecodeAtom(AtomBytes(name, data) + rest) == Ok(Atom(name, data))
  {
    AtomFront(name, data, rest);
    hide AtomBytes, U32;
  }

  lemma VideoDecoded(hevc: bool, width: nat, height: nat, conf: Data)
    requires 8 + |conf| < 0x1_0000_0000
    ensures var name := if hevc then HEV1 else AVC1;
            DecodeBody(name, VideoData(hevc, width, height, conf)) == Ok(AtomVideo(name, conf))
  {
    hide AtomBytes, VideoFront, VideoShape, DecodeAtom, PutU32;
    var data := VideoData(hevc, width, height, conf);
    var rest := AtomBytes(PASP, PutU32(1) + PutU32(1));
    PlainAtom(if hevc then HVCC else AVCC, conf, rest);
    assert data[78..] == AtomBytes(if hevc then HVCC else AVCC, conf) + rest;
  }

  predicate Occurs(b: Data, k: nat, sep: Data) {
    k + |sep| <= |b| && b[k..k + |sep|] == sep
  }

  lemma {:induction false} CutAtFirst(front: Data, sep: Data, rest: Data)
    requires sep != []
    requires forall k: nat :: k < |front| ==> !Occurs(front + sep + rest, k, sep)
    ensures CutAfter(front + sep + rest, sep) == rest
    decreases |front|
  {
    var b := front + sep + rest;
    if front == [] {
      assert b == sep + rest;
    } else {
      var next := front[1..] + sep + rest;
      assert next == b[1..];
      forall k: nat | k < |front| - 1 ensures !Occurs(next, k, sep) {
        assert !Occurs(b, k + 1, sep);
        assert next[k..k + |sep|] == b[k + 1..k + 1 + |sep|];
      }
      CutAtFirst(front[1..], sep, rest);
      assert !Occurs(b, 0, sep);
    }
  }

  /** No tag of the descriptor looks like the one of the decoder's configuration. */
  lemma EsdsCut(conf: Data)
    ensures CutAfter(EsdsData(conf), [5, 0x80, 0x80, 0x80])
         == [|conf| % 0x100] + conf + [6, 0x80, 0x80, 0x80, 1, 2]
  {
    var n: byte := |conf| % 0x100;
    var front, sep, rest: Data := EsdsFront(n), [5, 0x80, 0x80, 0x80], [n] + conf + [6, 0x80, 0x80, 0x80, 1, 2];
    var b := front + sep + rest;
    forall k: nat | k < 30 ensures !Occurs(b, k, sep) {
      EsdsFrontBytes(n, k);
      assert b[k..k + 4][0] == b[k] == front[k];
      assert b[k..k + 4][1] == b[k + 1];
    }
    hide EsdsFront, CutAfter;
    CutAtFirst(front, sep, rest);
  }

  /** No byte 5 stands in front of a byte 0x80. */
  lemma EsdsFrontBytes(n: byte, k: nat)
    requires k < 30
    ensures EsdsFront(n)[k] != 5 || (k < 29 && EsdsFront(n)[k + 1] != 0x80)
  {
    assert EsdsFront(n) == EsdsHead(n) + DecoderConfig(n);
    if k < 12 {
      assert EsdsFront(n)[k] == EsdsHead(n)[k];
    } else {
      assert EsdsFront(n)[k] == DecoderConfig(n)[k - 12];
    }
  }

  /** The decoder's configuration comes back whole if and only if it has fewer than 255 bytes; 255 are a panic. */
  lemma ConfigOfEsds(conf: Data)
    ensures AudioConfig(EsdsData(conf)) == if |conf| % 0x100 == 0xFF then Panicked else Ok(conf[..|conf| % 0x100])
  {
    hide CutAfter, EsdsData;
    EsdsCut(conf);
    var n: byte := |conf| % 0x100;
    var b := [n] + conf + [6, 0x80, 0x80, 0x80, 1, 2];
    assert b[1..1 + n as nat] == conf[..n as nat];
  }

  /** What becomes of the arguments of WriteAudio: no channel is one, and rates and sizes are cut to their fields. */
  lemma AudioDecoded(channels: nat, sampleRate: nat, conf: Data)
    requires channels < 0x1_0000 && 8 + |EsdsData(conf)| < 0x1_0000_0000
    ensures DecodeBody(MP4A, AudioData(channels, sampleRate, conf))
         == if |conf| % 0x100 == 0xFF then Panicked
            else Ok(AtomAudio(MP4A, if channels == 0 then 1 else channels, sampleRate % 0x1_0000, conf[..|conf| % 0x100]))
  {
    hide AtomBytes, EsdsData, AudioConfig, DecodeAtom, PutU16, ReadU16;
    var data := AudioData(channels, sampleRate, conf);
    var count := if channels == 0 then 1 else channels;
    var esds := AtomBytes(ESDS, EsdsData(conf));
    PlainAtom(ESDS, EsdsData(conf), []);
    assert esds + [] == esds;
    ConfigOfEsds(conf);
    var a, b := Zero(6) + PutU16(1) + Zero(8), PutU16(16) + Zero(4);
    assert data == a + PutU16(count) + (b + Fixed(sampleRate) + esds);
    ReadBack16(a, count, b + Fixed(sampleRate) + esds);
    assert data == (a + PutU16(count) + b) + PutU16(sampleRate) + ([0, 0] + esds);
    ReadBack16(a + PutU16(count) + b, sampleRate, [0, 0] + esds);
    ReadU16Skips(data, 26);
    assert data[28..] == esds;
    assert DecodeBody(MP4A, data) == DecodeAudio(data);
  }

  lemma ReadU16Skips(b: Data, p: nat)
    requires p + 2 <= |b|
    ensures ReadU16(b, p).1 == p + 2
  {
  }

  lemma ReadBack16(front: Data, v: nat, rest: Data)
    ensures ReadU16(front + PutU16(v) + rest, |front|) == (v % 0x1_0000, |front| + 2)
  {
    TwoBytes(v);
    var b := front + PutU16(v) + rest;
    assert b[|front|] == v / 0x100 % 0x100 && b[|front| + 1] == v % 0x100;
  }

  // The sample description with its one entry.

  function StsdData(entry: Data): (r: Data)
  {
    Zero(4) + PutU32(1) + entry
  }

  lemma StsdDecoded(name: Name, data: Data)
    requires 8 + |data| < 0x1_0000_0000
    ensures DecodeBody(STSD, StsdData(AtomBytes(name, data))) == DecodeBody(name, data)
  {
    hide PutU32, U32, AtomBytes;
    var entry := AtomBytes(name, data);
    ReadBack(Zero(4), 1, entry);
    AtomFront(name, data, []);
    assert entry + [] == entry;
    assert StsdData(entry)[8..] == entry;
    hide DecodeBody;
    DecodeAtomIs(entry);
    StsdBody(StsdData(entry));
  }

  /** A description with no entry, or with several, is handed on as it is. */
  lemma StsdOfMany(n: nat, entries: Data)
    requires n < 0x1_0000_0000 && n != 1
    ensures var data := Zero(4) + PutU32(n) + entries;
            DecodeBody(STSD, data) == Ok(Atom(STSD, data))
  {
    hide PutU32, U32, DecodeAtom;
    ReadBack(Zero(4), n, entries);
  }

  lemma DecodeAtomIs(b: Data)
    requires |b| >= 8 && U32(b) == |b|
    ensures DecodeAtom(b) == DecodeBody(U32(b[4..]), b[8..])
  {
    hide DecodeBody, U32;
    assert b[8..|b|] == b[8..];
  }

  lemma StsdBody(data: Data)
    requires |data| >= 8 && U32(data[4..]) == 1
    ensures DecodeBody(STSD, data) == DecodeAtom(data[8..])
  {
    hide DecodeAtom, U32;
  }

  // A whole track: the atoms the reader knows, between any that it does not.

  /** `handler`, `info` and `tables` stand for hdlr, the media information with dinf, and the four empty tables. */
  function TrackOf(tkhd: Data, mdhd: Data, stsd: Data, handler: Forest, info: Forest, tables: Forest): (f: Forest)
  {
    Box(TRAK, Leaf(TKHD, [tkhd], Box(MDIA, Leaf(MDHD, [mdhd], Join(handler, MediaInfo(stsd, info, tables))), Empty)), Empty)
  }

  function MediaInfo(stsd: Data, info: Forest, tables: Forest): (f: Forest)
  {
    Box(MINF, Join(info, Box(STBL, Leaf(STSD, [stsd], tables), Empty)), Empty)
  }

  function Join(a: Forest, b: Forest): (f: Forest)
  {
    match a
    case Empty => b
    case Leaf(name, pieces, rest) => Leaf(name, pieces, Join(rest, b))
    case Box(name, kids, rest) => Box(name, kids, Join(rest, b))
  }

  lemma {:induction false} JoinReads(a: Forest, b: Forest)
    requires Plain(a) && Readable(b)
    ensures Readable(Join(a, b)) && ItemsOf(Join(a, b)) == LeavesOf(a) + ItemsOf(b)
  {
    hide DecodeBody, Flat, Unrecognised, IsContainer;
    match a
    case Empty =>
      assert LeavesOf(a) + ItemsOf(b) == ItemsOf(b);
    case Leaf(name, pieces, rest) =>
      JoinReads(rest, b);
      LeafReads(name, pieces, rest, b);
    case Box(name, kids, rest) =>
      JoinReads(rest, b);
      PlainItems(kids);
  }

  lemma LeafReads(name: Name, pieces: seq<Data>, rest: Forest, b: Forest)
    requires Unrecognised(name) && Readable(Join(rest, b)) && ItemsOf(Join(rest, b)) == LeavesOf(rest) + ItemsOf(b)
    ensures var a := Leaf(name, pieces, rest);
            Readable(Join(a, b)) && ItemsOf(Join(a, b)) == LeavesOf(a) + ItemsOf(b)
  {
    hide DecodeBody, Flat, Unrecognised;
    LeafBody(name, Flat(pieces));
    assert [Atom(name, Flat(pieces))] + LeavesOf(rest) + ItemsOf(b)
        == [Atom(name, Flat(pieces))] + (LeavesOf(rest) + ItemsOf(b));
  }

  lemma LeafBody(name: Name, data: Data)
    requires Unrecognised(name)
    ensures DecodeBody(name, data) == Ok(Atom(name, data))
  {
  }

  lemma OneLeaf(name: Name, data: Data, rest: Forest)
    requires DecodeBody(name, data).Ok? && !DecodeBody(name, data).value.Items? && Readable(rest)
    ensures Readable(Leaf(name, [data], rest))
    ensures ItemsOf(Leaf(name, [data], rest)) == [DecodeBody(name, data).value] + ItemsOf(rest)
  {
    hide DecodeBody;
    FlatOne(data);
  }

  /**
   A track of any number, time scale and sample entry is read as its number, its time scale and its entry, in this order
   and with nothing else the reader knows in between.
   */
  lemma TrackReads(id: nat, width: nat, height: nat, timescale: nat, entry: Name, data: Data,
                   handler: Forest, info: Forest, tables: Forest)
    requires id < 0x1_0000_0000 && timescale < 0x1_0000_0000 && 8 + |data| < 0x1_0000_0000
    requires Plain(handler) && Plain(info) && Plain(tables)
    requires DecodeBody(entry, data).Ok? && !DecodeBody(entry, data).value.Items?
    requires |Encode(TrackOf(TkhdData(id, width, height), MdhdData(timescale), StsdData(AtomBytes(entry, data)),
                             handler, info, tables))| < 0x1_0000_0000
    ensures DecodeAtoms(Encode(TrackOf(TkhdData(id, width, height), MdhdData(timescale),
                                       StsdData(AtomBytes(entry, data)), handler, info, tables)))
         == Ok([AtomTkhd(id), AtomMdhd(timescale)] + LeavesOf(handler) + LeavesOf(info)
               + [DecodeBody(entry, data).value] + LeavesOf(tables))
  {
    hide DecodeBody, TkhdData, MdhdData, StsdData, AtomBytes, DecodeAtoms, Encode, Plain;
    var tkhd, mdhd, stsd := TkhdData(id, width, height), MdhdData(timescale), StsdData(AtomBytes(entry, data));
    TkhdDecoded(id, width, height);
    MdhdDecoded(timescale);
    StsdDecoded(entry, data);
    PlainItems(tables);
    TrackItems(tkhd, mdhd, stsd, handler, info, tables);
    DecodeEncoded(TrackOf(tkhd, mdhd, stsd, handler, info, tables));
  }

  lemma TrackItems(tkhd: Data, mdhd: Data, stsd: Data, handler: Forest, info: Forest, tables: Forest)
    requires Plain(handler) && Plain(info) && Plain(tables)
    requires DecodeBody(TKHD, tkhd).Ok? && !DecodeBody(TKHD, tkhd).value.Items?
    requires DecodeBody(MDHD, mdhd).Ok? && !DecodeBody(MDHD, mdhd).value.Items?
    requires DecodeBody(STSD, stsd).Ok? && !DecodeBody(STSD, stsd).value.Items?
    ensures var f := TrackOf(tkhd, mdhd, stsd, handler, info, tables);
            && Readable(f)
            && ItemsOf(f) == [DecodeBody(TKHD, tkhd).value, DecodeBody(MDHD, mdhd).value] + LeavesOf(handler)
                             + LeavesOf(info) + [DecodeBody(STSD, stsd).value] + LeavesOf(tables)
  {
    hide DecodeBody, Plain, Join, LeavesOf, ItemsOf, Readable, MediaInfo;
    MediaInfoItems(stsd, info, tables);
    var minf := MediaInfo(stsd, info, tables);
    JoinReads(handler, minf);
    OneLeaf(MDHD, mdhd, Join(handler, minf));
    var mdia := Box(MDIA, Leaf(MDHD, [mdhd], Join(handler, minf)), Empty);
    BoxOf(MDIA, Leaf(MDHD, [mdhd], Join(handler, minf)));
    OneLeaf(TKHD, tkhd, mdia);
    BoxOf(TRAK, Leaf(TKHD, [tkhd], mdia));
    hide *;
    SixParts([DecodeBody(TKHD, tkhd).value], [DecodeBody(MDHD, mdhd).value], LeavesOf(handler), LeavesOf(info),
             [DecodeBody(STSD, stsd).value], LeavesOf(tables));
    assert [DecodeBody(TKHD, tkhd).value] + [DecodeBody(MDHD, mdhd).value]
        == [DecodeBody(TKHD, tkhd).value, DecodeBody(MDHD, mdhd).value];
  }

  lemma SixParts(a: seq<Item>, b: seq<Item>, c: seq<Item>, d: seq<Item>, e: seq<Item>, f: seq<Item>)
    ensures a + (b + (c + (d + (e + f)))) == a + b + c + d + e + f
  {
  }

  lemma MediaInfoItems(stsd: Data, info: Forest, tables: Forest)
    requires Plain(info) && Plain(tables)
    requires DecodeBody(STSD, stsd).Ok? && !DecodeBody(STSD, stsd).value.Items?
    ensures var f := MediaInfo(stsd, info, tables);
            Readable(f) && ItemsOf(f) == LeavesOf(info) + ([DecodeBody(STSD, stsd).value] + LeavesOf(tables))
  {
    hide DecodeBody, Plain, Join, LeavesOf, ItemsOf, Readable;
    PlainItems(tables);
    OneLeaf(STSD, stsd, tables);
    var stbl := Box(STBL, Leaf(STSD, [stsd], tables), Empty);
    BoxOf(STBL, Leaf(STSD, [stsd], tables));
    JoinReads(info, stbl);
    BoxOf(MINF, Join(info, stbl));
  }

  lemma BoxOf(name: Name, kids: Forest)
    requires IsContainer(name) && Readable(kids)
    ensures Readable(Box(name, kids, Empty)) && ItemsOf(Box(name, kids, Empty)) == ItemsOf(kids)
  {
  }
}
