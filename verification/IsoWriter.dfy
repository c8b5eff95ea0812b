/**
 The ISO base media file writer (pkg/iso/iso.go): WriteMovieFragment, WriteData and the track atoms of
 pkg/iso/atoms.go, and the sample entries of pkg/iso/codecs.go that the reader knows.
 */
module IsoWriter {
  import opened Bytes

  // Atom types: four letters, read as a big-endian number.
  const MOOV := 0x6D6F_6F76
  const TRAK := 0x7472_616B
  const TKHD := 0x746B_6864
  const MDIA := 0x6D64_6961
  const MDHD := 0x6D64_6864
  const MINF := 0x6D69_6E66
  const STBL := 0x7374_626C
  const STSD := 0x7374_7364
  const AVC1 := 0x6176_6331
  const HEV1 := 0x6865_7631
  const MP4A := 0x6D70_3461
  const MOOF := 0x6D6F_6F66
  const MFHD := 0x6D66_6864
  const TRAF := 0x7472_6166
  const TFHD := 0x7466_6864
  const TFDT := 0x7466_6474
  const TRUN := 0x7472_756E
  const MDAT := 0x6D64_6174

  const AVCC := 0x6176_6343
  const HVCC := 0x6876_6343
  const PASP := 0x7061_7370
  const ESDS := 0x6573_6473

  type Name = n: nat | n < 0x1_0000_0000

  /** The bytes of an ASCII string. */
  function Letters(s: string): (r: Data)
    requires forall i :: 0 <= i < |s| ==> s[i] as int < 0x80
    ensures |r| == |s| && forall i :: 0 <= i < |s| ==> r[i] == s[i] as int
  {
    seq(|s|, i requires 0 <= i < |s| => s[i] as int)
  }

  function Zero(n: nat): (r: Data)
    ensures |r| == n && forall i :: 0 <= i < n ==> r[i] == 0
  {
    seq(n, i => 0)
  }

  /** The movie under construction: its bytes, and where the open atoms start. */
  datatype State = State(b: Data, start: seq<nat>)

  /** Every open atom has room for its size. */
  predicate Sound(st: State) {
    forall i :: 0 <= i < |st.start| ==> st.start[i] + 4 <= |st.b|
  }

  function StartOf(st: State, name: Name): (r: State)
    ensures Sound(st) ==> Sound(r)
  {
    State(st.b + [0, 0, 0, 0] + PutU32(name), st.start + [|st.b|])
  }

  function EndOf(st: State): (r: State)
    requires st.start != [] && Sound(st)
    ensures Sound(r)
  {
    var n := |st.start| - 1;
    var i := st.start[n];
    State(st.b[..i] + PutU32(|st.b| - i) + st.b[i + 4..], st.start[..n])
  }

  /** An atom with all its bytes, size in front. */
  function AtomBytes(name: Name, data: Data): (r: Data)
  {
    PutU32(8 + |data|) + PutU32(name) + data
  }

  /** What StartAtom, some writes and EndAtom leave: one atom appended. */
  lemma EndAfterStart(st: State, name: Name, data: Data)
    requires Sound(st)
    ensures var open := StartOf(st, name);
            var filled := open.(b := open.b + data);
            filled.start != [] && Sound(filled) && EndOf(filled) == st.(b := st.b + AtomBytes(name, data))
  {
    hide PutU32;
    var open := StartOf(st, name);
    var filled := open.(b := open.b + data);
    var i := |st.b|;
    assert filled.b == st.b + [0, 0, 0, 0] + (PutU32(name) + data);
    assert filled.b[..i] == st.b && filled.b[i + 4..] == PutU32(name) + data;
    assert filled.start[..|filled.start| - 1] == st.start;
    assert st.b + PutU32(8 + |data|) + (PutU32(name) + data) == st.b + AtomBytes(name, data);
  }

  class Movie {
    var b: Data
    var start: seq<nat>

    ghost function Now(): State
      reads this
    {
      State(b, start)
    }

    constructor ()
      ensures Now() == State([], [])
    {
      b, start := [], [];
    }

    method StartAtom(name: Name)
      modifies this
      ensures Now() == StartOf(old(Now()), name)
    {
      start := start + [|b|];
      b := b + [0, 0, 0, 0];
      b := b + PutU32(name);
    }

    method EndAtom()
      requires start != [] && Sound(Now())
      modifies this
      ensures Now() == EndOf(old(Now()))
    {
      var n := |start| - 1;
      var i := start[n];
      var size := |b| - i;
      b := b[..i] + PutU32(size) + b[i + 4..];
      start := start[..n];
    }

    method Write(data: Data)
      modifies `b
      ensures b == old(b) + data
    {
      b := b + data;
    }

    method Skip(n: nat)
      modifies `b
      ensures b == old(b) + Zero(n)
    {
      b := b + Zero(n);
    }

    method WriteUint16(v: nat)
      modifies `b
      ensures b == old(b) + PutU16(v)
    {
      b := b + [v / 0x100 % 0x100, v % 0x100];
    }

    /** WriteFloat32 of a whole number: 16 bits in front of the point, 16 behind it. */
    method WriteFloat32(v: nat)
      modifies `b
      ensures b == old(b) + Fixed(v)
    {
      b := b + [v / 0x100 % 0x100, v % 0x100, 0, 0];
    }

    method WriteMatrix()
      modifies `b
      ensures b == old(b) + Matrix()
    {
      hide PutU32;
      ghost var before := b;
      WriteUint32(0x1_0000);
      Skip(4);
      Skip(4);
      Skip(4);
      WriteUint32(0x1_0000);
      Skip(4);
      Skip(4);
      Skip(4);
      WriteUint32(0x4000_0000);
      assert b == before + Matrix();
    }

    method WriteUint24(v: nat)
      modifies `b
      ensures b == old(b) + PutU24(v)
    {
      b := b + [v / 0x1_0000 % 0x100, v / 0x100 % 0x100, v % 0x100];
    }

    method WriteUint32(v: nat)
      modifies `b
      ensures b == old(b) + PutU32(v)
    {
      b := b + [v / 0x100_0000 % 0x100, v / 0x1_0000 % 0x100, v / 0x100 % 0x100, v % 0x100];
    }

    method WriteUint64(v: nat)
      modifies `b
      ensures b == old(b) + PutU64(v)
    {
      b := b + PutU32(v / 0x1_0000_0000) + PutU32(v);
    }

    method WriteMovieFragment(sequence: nat, tid: nat, duration: nat, size: nat, flags: nat, dts: nat, cts: nat)
      requires Sound(Now())
      modifies this
      ensures Now() == old(Now()).(b := old(b) + FragmentBytes(|old(b)|, sequence, tid, duration, size, flags, dts, cts))
    {
      hide PutU32, PutU64, PutU24;
      ghost var st := Now();
      StartAtom(MOOF);
      ghost var moof := Now();
      WriteMfhd(sequence);
      StartAtom(TRAF);
      ghost var traf := Now();
      WriteTfhd(tid, duration, size, flags);
      WriteTfdt(dts);
      WriteTrun(cts);
      TrafData(traf.b, tid, duration, size, flags, dts, cts);
      EndAfterStart(moof.(b := moof.b + MfhdBytes(sequence)), TRAF, TrafBytes(|traf.b|, tid, duration, size, flags, dts, cts));
      EndAtom();
      MoofData(st.b, sequence, tid, duration, size, flags, dts, cts);
      EndAfterStart(st, MOOF, MoofBytes(|st.b|, sequence, tid, duration, size, flags, dts, cts));
      EndAtom();
    }

    method WriteMfhd(sequence: nat)
      requires Sound(Now())
      modifies this
      ensures Now() == old(Now()).(b := old(b) + MfhdBytes(sequence))
    {
      hide PutU32;
      ghost var st := Now();
      EndAfterStart(st, MFHD, MfhdData(sequence));
      StartAtom(MFHD);
      ghost var open := Now();
      Skip(1);
      Skip(3);
      WriteUint32(sequence);
      assert b == open.b + MfhdData(sequence);
      EndAtom();
    }

    method WriteTfhd(tid: nat, duration: nat, size: nat, flags: nat)
      requires Sound(Now())
      modifies this
      ensures Now() == old(Now()).(b := old(b) + AtomBytes(TFHD, TfhdData(tid, duration, size, flags)))
    {
      hide PutU32, PutU24, AtomBytes, EndOf;
      ghost var st := Now();
      EndAfterStart(st, TFHD, TfhdData(tid, duration, size, flags));
      StartAtom(TFHD);
      ghost var open := Now();
      Skip(1);
      WriteUint24(0x08 + 0x10 + 0x20 + 0x2_0000);
      WriteUint32(tid);
      WriteUint32(duration);
      WriteUint32(size);
      WriteUint32(flags);
      assert b == open.b + TfhdData(tid, duration, size, flags);
      EndAtom();
    }

    method WriteTfdt(dts: nat)
      requires Sound(Now())
      modifies this
      ensures Now() == old(Now()).(b := old(b) + AtomBytes(TFDT, TfdtData(dts)))
    {
      hide PutU32, PutU64;
      ghost var st := Now();
      EndAfterStart(st, TFDT, TfdtData(dts));
      StartAtom(TFDT);
      ghost var open := Now();
      Write([1]);
      Skip(3);
      WriteUint64(dts);
      assert b == open.b + TfdtData(dts);
      EndAtom();
    }

    method WriteTrun(cts: nat)
      requires Sound(Now())
      modifies this
      ensures Now() == old(Now()).(b := old(b) + AtomBytes(TRUN, TrunData(|old(b)|, cts)))
    {
      hide PutU32, PutU24, AtomBytes, EndOf;
      ghost var st := Now();
      EndAfterStart(st, TRUN, TrunData(|st.b|, cts));
      StartAtom(TRUN);
      ghost var open := Now();
      Skip(1);
      if cts == 0 {
        WriteUint24(0x1);
        WriteUint32(1);
        WriteUint32(|b| + 4 + 8);
      } else {
        WriteUint24(0x1 + 0x800);
        WriteUint32(1);
        WriteUint32(|b| + 4 + 4 + 8);
        WriteUint32(cts);
      }
      assert b == open.b + TrunData(|st.b|, cts);
      EndAtom();
    }

    method WriteTrackHeader(id: nat, width: nat, height: nat)
      requires Sound(Now())
      modifies this
      ensures Now() == old(Now()).(b := old(b) + AtomBytes(TKHD, TkhdData(id, width, height)))
    {
      hide AtomBytes, EndOf, PutU32, TkhdData, TkhdIds, TkhdPlace, TkhdShape;
      EndAfterStart(Now(), TKHD, TkhdData(id, width, height));
      StartAtom(TKHD);
      ghost var open := b;
      WriteTrackIds(id);
      WriteTrackPlace(width > 0);
      WriteTrackShape(width, height);
      TkhdJoined(open, id, width, height);
      EndAtom();
    }

    method WriteTrackIds(id: nat)
      modifies `b
      ensures b == old(b) + TkhdIds(id)
    {
      hide PutU32, PutU24;
      ghost var open := b;
      Skip(1);
      WriteUint24(0x1 + 0x2);
      Skip(4);
      Skip(4);
      WriteUint32(id);
      assert b == open + TkhdIds(id);
    }

    method WriteTrackPlace(video: bool)
      modifies `b
      ensures b == old(b) + TkhdPlace(video)
    {
      hide PutU16;
      ghost var open := b;
      Skip(4);
      Skip(4);
      Skip(8);
      Skip(2);
      if video {
        Skip(2);
        Skip(2);
      } else {
        WriteUint16(1);
        Write([1, 0]);
      }
      Skip(2);
      assert b == open + TkhdPlace(video);
    }

    method WriteTrackShape(width: nat, height: nat)
      modifies `b
      ensures b == old(b) + TkhdShape(width, height)
    {
      hide Matrix, Fixed;
      ghost var open := b;
      WriteMatrix();
      if width > 0 {
        WriteFloat32(width);
        WriteFloat32(height);
      } else {
        Skip(4);
        Skip(4);
      }
      assert b == open + TkhdShape(width, height);
    }

    method WriteMediaHeader(timescale: nat)
      requires Sound(Now())
      modifies this
      ensures Now() == old(Now()).(b := old(b) + AtomBytes(MDHD, MdhdData(timescale)))
    {
      hide PutU32, PutU16, AtomBytes, EndOf;
      EndAfterStart(Now(), MDHD, MdhdData(timescale));
      StartAtom(MDHD);
      ghost var open := b;
      Skip(1);
      Skip(3);
      Skip(4);
      Skip(4);
      WriteUint32(timescale);
      Skip(4);
      WriteUint16(0x55C4);
      Skip(2);
      assert b == open + MdhdData(timescale);
      EndAtom();
    }

    method WriteVideo(hevc: bool, width: nat, height: nat, conf: Data)
      requires Sound(Now())
      modifies this
      ensures Now() == old(Now()).(b := old(b) + AtomBytes(if hevc then HEV1 else AVC1, VideoData(hevc, width, height, conf)))
    {
      hide AtomBytes, EndOf, PutU32, VideoData, VideoFront, VideoShape;
      EndAfterStart(Now(), if hevc then HEV1 else AVC1, VideoData(hevc, width, height, conf));
      StartAtom(if hevc then HEV1 else AVC1);
      ghost var open := b;
      WriteVideoFront();
      WriteVideoShape(width, height);
      EndAfterStart(Now(), if hevc then HVCC else AVCC, conf);
      StartAtom(if hevc then HVCC else AVCC);
      Write(conf);
      EndAtom();
      WritePixelAspect();
      VideoJoined(open, hevc, width, height, conf);
      EndAtom();
    }

    method WriteVideoFront()
      modifies `b
      ensures b == old(b) + VideoFront()
    {
      hide PutU16;
      ghost var open := b;
      Skip(6);
      WriteUint16(1);
      Skip(2);
      Skip(2);
      Skip(4);
      Skip(4);
      Skip(4);
      assert b == open + VideoFront();
    }

    method WriteVideoShape(width: nat, height: nat)
      modifies `b
      ensures b == old(b) + VideoShape(width, height)
    {
      hide PutU16, Fixed, Zero;
      ghost var open := b;
      WriteUint16(width);
      WriteUint16(height);
      WriteFloat32(72);
      WriteFloat32(72);
      Skip(4);
      WriteUint16(1);
      Skip(32);
      WriteUint16(24);
      WriteUint16(0xFFFF);
      assert b == open + VideoShape(width, height);
    }

    method WritePixelAspect()
      requires Sound(Now())
      modifies this
      ensures Now() == old(Now()).(b := old(b) + AtomBytes(PASP, PutU32(1) + PutU32(1)))
    {
      hide PutU32;
      EndAfterStart(Now(), PASP, PutU32(1) + PutU32(1));
      StartAtom(PASP);
      ghost var open := b;
      WriteUint32(1);
      WriteUint32(1);
      assert b == open + (PutU32(1) + PutU32(1));
      EndAtom();
    }

    /** WriteAudio for AAC. */
    method WriteAudio(channels: nat, sampleRate: nat, conf: Data)
      requires Sound(Now())
      modifies this
      ensures Now() == old(Now()).(b := old(b) + AtomBytes(MP4A, AudioData(channels, sampleRate, conf)))
    {
      hide AtomBytes, EndOf, PutU32, AudioData, AudioFields;
      EndAfterStart(Now(), MP4A, AudioData(channels, sampleRate, conf));
      StartAtom(MP4A);
      ghost var open := b;
      var count := if channels == 0 then 1 else channels;
      WriteAudioFields(count, sampleRate);
      WriteEsdsAAC(conf);
      AudioJoined(open, channels, sampleRate, conf);
      EndAtom();
    }

    method WriteAudioFields(count: nat, sampleRate: nat)
      modifies `b
      ensures b == old(b) + AudioFields(count, sampleRate)
    {
      hide PutU16, Fixed;
      ghost var open := b;
      Skip(6);
      WriteUint16(1);
      Skip(2);
      Skip(2);
      Skip(4);
      assert b == open + (Zero(6) + PutU16(1) + Zero(8));
      ghost var rest := b;
      WriteUint16(count);
      WriteUint16(16);
      Skip(2);
      Skip(2);
      WriteFloat32(sampleRate);
      assert b == rest + (PutU16(count) + PutU16(16) + Zero(4) + Fixed(sampleRate));
    }

    method WriteEsdsAAC(conf: Data)
      requires Sound(Now())
      modifies this
      ensures Now() == old(Now()).(b := old(b) + AtomBytes(ESDS, EsdsData(conf)))
    {
      hide AtomBytes, EndOf, PutU32, EsdsData, EsdsFront;
      EndAfterStart(Now(), ESDS, EsdsData(conf));
      StartAtom(ESDS);
      ghost var open := b;
      var size5 := |conf| % 0x100;
      WriteEsdsFront(size5);
      Write([5, 0x80, 0x80, 0x80, size5]);
      Write(conf);
      Write([6, 0x80, 0x80, 0x80, 1]);
      Write([2]);
      EsdsJoined(open, conf);
      EndAtom();
    }

    method WriteEsdsFront(size5: byte)
      modifies `b
      ensures b == old(b) + EsdsFront(size5)
    {
      ghost var open := b;
      Skip(1);
      Skip(3);
      Write([3, 0x80, 0x80, 0x80, (3 + 5 + 13 + 5 + size5 as int + 5 + 1) % 0x100]);
      Skip(2);
      Skip(1);
      assert b == open + EsdsHead(size5);
      WriteDecoderConfig(size5);
    }

    method WriteDecoderConfig(size5: byte)
      modifies `b
      ensures b == old(b) + DecoderConfig(size5)
    {
      ghost var open := b;
      Write([4, 0x80, 0x80, 0x80, (13 + 5 + size5 as int) % 0x100]);
      Write([0x40]);
      Write([0x15]);
      Skip(3);
      Skip(4);
      Skip(4);
      assert b == open + DecoderConfig(size5);
    }

    method WriteData(data: Data)
      requires Sound(Now())
      modifies this
      ensures Now() == old(Now()).(b := old(b) + AtomBytes(MDAT, data))
    {
      EndAfterStart(Now(), MDAT, data);
      StartAtom(MDAT);
      Write(data);
      EndAtom();
    }
  }

  // The atoms of a track, byte by byte (chapters 2 and 3 of the QuickTime file format).

  function Fixed(v: nat): (r: Data)
    ensures |r| == 4
  {
    PutU16(v) + [0, 0]
  }

  function Matrix(): (r: Data)
    ensures |r| == 36
  {
    PutU32(0x1_0000) + Zero(12) + PutU32(0x1_0000) + Zero(12) + PutU32(0x4000_0000)
  }

  /** Version, the flags of an enabled track of the movie, two times, the track's number. */
  function TkhdIds(id: nat): (r: Data)
    ensures |r| == 16
  {
    [0] + PutU24(0x3) + Zero(8) + PutU32(id)
  }

  function TkhdPlace(video: bool): (r: Data)
    ensures |r| == 24
  {
    Zero(18) + (if video then Zero(4) else PutU16(1) + [1, 0]) + Zero(2)
  }

  function TkhdShape(width: nat, height: nat): (r: Data)
    ensures |r| == 44
  {
    Matrix() + if width > 0 then Fixed(width) + Fixed(height) else Zero(8)
  }

  function TkhdData(id: nat, width: nat, height: nat): (r: Data)
    ensures |r| == 84
  {
    TkhdIds(id) + TkhdPlace(width > 0) + TkhdShape(width, height)
  }

  function MdhdData(timescale: nat): (r: Data)
    ensures |r| == 24
  {
    Zero(12) + PutU32(timescale) + Zero(4) + PutU16(0x55C4) + Zero(2)
  }

  lemma TkhdJoined(open: Data, id: nat, width: nat, height: nat)
    ensures open + TkhdIds(id) + TkhdPlace(width > 0) + TkhdShape(width, height) == open + TkhdData(id, width, height)
  {
    hide TkhdIds, TkhdPlace, TkhdShape;
  }

  function VideoFront(): (r: Data)
    ensures |r| == 24
  {
    Zero(6) + PutU16(1) + Zero(16)
  }

  function VideoShape(width: nat, height: nat): (r: Data)
    ensures |r| == 54
  {
    PutU16(width) + PutU16(height) + Fixed(72) + Fixed(72) + Zero(4) + PutU16(1) + Zero(32) + PutU16(24) + PutU16(0xFFFF)
  }

  function VideoData(hevc: bool, width: nat, height: nat, conf: Data): (r: Data)
  {
    VideoFront() + VideoShape(width, height)
      + (AtomBytes(if hevc then HVCC else AVCC, conf) + AtomBytes(PASP, PutU32(1) + PutU32(1)))
  }

  lemma VideoJoined(open: Data, hevc: bool, width: nat, height: nat, conf: Data)
    ensures open + VideoFront() + VideoShape(width, height)
              + AtomBytes(if hevc then HVCC else AVCC, conf) + AtomBytes(PASP, PutU32(1) + PutU32(1))
         == open + VideoData(hevc, width, height, conf)
  {
    hide VideoFront, VideoShape, AtomBytes, PutU32;
  }

  function AudioFields(count: nat, sampleRate: nat): (r: Data)
    ensures |r| == 28
  {
    Zero(6) + PutU16(1) + Zero(8) + (PutU16(count) + PutU16(16) + Zero(4) + Fixed(sampleRate))
  }

  function AudioData(channels: nat, sampleRate: nat, conf: Data): (r: Data)
  {
    AudioFields(if channels == 0 then 1 else channels, sampleRate) + AtomBytes(ESDS, EsdsData(conf))
  }

  lemma AudioJoined(open: Data, channels: nat, sampleRate: nat, conf: Data)
    ensures open + AudioFields(if channels == 0 then 1 else channels, sampleRate) + AtomBytes(ESDS, EsdsData(conf))
         == open + AudioData(channels, sampleRate, conf)
  {
    hide AudioFields, AtomBytes;
  }

  function EsdsHead(n: byte): (r: Data)
    ensures |r| == 12
  {
    Zero(4) + [3, 0x80, 0x80, 0x80, (32 + n as int) % 0x100] + Zero(3)
  }

  /** AAC, an audio stream. */
  function DecoderConfig(n: byte): (r: Data)
    ensures |r| == 18
  {
    [4, 0x80, 0x80, 0x80, (18 + n as int) % 0x100, 0x40, 0x15] + Zero(11)
  }

  /** The elementary stream descriptor up to the tag of the decoder's own configuration. */
  function EsdsFront(n: byte): (r: Data)
    ensures |r| == 30
  {
    EsdsHead(n) + DecoderConfig(n)
  }

  function EsdsData(conf: Data): (r: Data)
  {
    EsdsFront(|conf| % 0x100) + [5, 0x80, 0x80, 0x80] + ([|conf| % 0x100] + conf + [6, 0x80, 0x80, 0x80, 1, 2])
  }

  lemma EsdsJoined(open: Data, conf: Data)
    ensures open + EsdsFront(|conf| % 0x100) + [5, 0x80, 0x80, 0x80, |conf| % 0x100] + conf + [6, 0x80, 0x80, 0x80, 1] + [2]
         == open + EsdsData(conf)
  {
    hide EsdsFront;
    var n: byte := |conf| % 0x100;
    assert [5, 0x80, 0x80, 0x80] + [n] == [5, 0x80, 0x80, 0x80, n];
    assert [6, 0x80, 0x80, 0x80, 1] + [2] == [6, 0x80, 0x80, 0x80, 1, 2];
  }

  // A movie fragment, byte by byte (sections 8.8.4 to 8.8.12 of ISO/IEC 14496-12).

  function MfhdData(sequence: nat): (r: Data)
    ensures |r| == 8
  {
    [0, 0, 0, 0] + PutU32(sequence)
  }

  function MfhdBytes(sequence: nat): (r: Data)
  {
    AtomBytes(MFHD, MfhdData(sequence))
  }

  function TfhdData(tid: nat, duration: nat, size: nat, flags: nat): (r: Data)
    ensures |r| == 20
  {
    [0] + PutU24(0x2_0038) + PutU32(tid) + PutU32(duration) + PutU32(size) + PutU32(flags)
  }

  function TfdtData(dts: nat): (r: Data)
    ensures |r| == 12
  {
    [1, 0, 0, 0] + PutU64(dts)
  }

  /** The data offset counts from the first byte of the movie to behind the header of the atom that follows. */
  function TrunData(at: nat, cts: nat): (r: Data)
    ensures |r| == if cts == 0 then 12 else 16
  {
    if cts == 0 then [0] + PutU24(0x1) + PutU32(1) + PutU32(at + 8 + 12 + 8)
    else [0] + PutU24(0x801) + PutU32(1) + PutU32(at + 8 + 16 + 8) + PutU32(cts)
  }

  function TrafBytes(at: nat, tid: nat, duration: nat, size: nat, flags: nat, dts: nat, cts: nat): (r: Data)
  {
    AtomBytes(TFHD, TfhdData(tid, duration, size, flags)) + AtomBytes(TFDT, TfdtData(dts))
      + AtomBytes(TRUN, TrunData(at + 28 + 20, cts))
  }

  function MoofBytes(at: nat, sequence: nat, tid: nat, duration: nat, size: nat, flags: nat, dts: nat, cts: nat): (r: Data)
  {
    MfhdBytes(sequence) + AtomBytes(TRAF, TrafBytes(at + 8 + 16 + 8, tid, duration, size, flags, dts, cts))
  }

  function FragmentBytes(at: nat, sequence: nat, tid: nat, duration: nat, size: nat, flags: nat, dts: nat, cts: nat): (r: Data)
  {
    AtomBytes(MOOF, MoofBytes(at, sequence, tid, duration, size, flags, dts, cts))
  }

  lemma TrafData(b: Data, tid: nat, duration: nat, size: nat, flags: nat, dts: nat, cts: nat)
    ensures var b1 := b + AtomBytes(TFHD, TfhdData(tid, duration, size, flags));
            var b2 := b1 + AtomBytes(TFDT, TfdtData(dts));
            b2 + AtomBytes(TRUN, TrunData(|b2|, cts)) == b + TrafBytes(|b|, tid, duration, size, flags, dts, cts)
  {
    hide PutU32, PutU24, PutU64;
  }

  lemma MoofData(b: Data, sequence: nat, tid: nat, duration: nat, size: nat, flags: nat, dts: nat, cts: nat)
    ensures var open := StartOf(State(b, []), MOOF).b;
            var traf := StartOf(State(open + MfhdBytes(sequence), []), TRAF).b;
            && |traf| == |b| + 8 + 16 + 8
            && open + MfhdBytes(sequence) + AtomBytes(TRAF, TrafBytes(|traf|, tid, duration, size, flags, dts, cts))
            == open + MoofBytes(|b|, sequence, tid, duration, size, flags, dts, cts)
  {
    MfhdSize(sequence);
    hide PutU32, PutU24, PutU64, MfhdBytes, TrafBytes, AtomBytes;
    var open := StartOf(State(b, []), MOOF).b;
    assert |StartOf(State(open + MfhdBytes(sequence), []), TRAF).b| == |b| + 8 + 16 + 8;
  }

  lemma MfhdSize(sequence: nat)
    ensures |MfhdBytes(sequence)| == 16
  {
    hide PutU32;
  }
}
