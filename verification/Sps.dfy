/** Decoding an H.264 sequence parameter set (DecodeSPS in pkg/h264/sps.go; section 7.3.2.1.1 of ITU-T H.264). */
module Sps {
  import opened Bytes
  import opened Wrappers
  import opened Bits
  import opened BitIO

  // The fields of the source's SPS structure, grouped by the part of the syntax they come from.

  datatype Profile = Profile(profileIdc: nat, profileIop: nat, levelIdc: nat, setId: nat)

  datatype High = High(chromaFormatIdc: nat, separateColourPlane: bit, bitDepthLuma: nat, bitDepthChroma: nat,
                       qpprimeBypass: bit, scalingMatrixPresent: bit)

  datatype Order = Order(log2MaxFrameNum: nat, pocType: nat, log2MaxPocLsb: nat, deltaAlwaysZero: bit,
                         offsetNonRef: int, offsetTopBottom: int, refFramesInCycle: nat)

  datatype Frame = Frame(refFrames: nat, gapsAllowed: bit, widthInMbs: nat, heightInMapUnits: nat,
                         mbsOnly: bit, mbAdaptive: bit, direct8x8: bit)

  datatype Crop = Crop(present: bit, left: nat, right: nat, top: nat, bottom: nat)

  datatype Vui = Vui(present: bit, aspectPresent: bit, aspectIdc: nat, sarWidth: nat, sarHeight: nat,
                     overscanPresent: bit, overscanAppropriate: bit, signalPresent: bit, videoFormat: nat)

  datatype Range = Range(fullRange: bit, colourPresent: bit, colour: nat)

  datatype Timing = Timing(chromaLocPresent: bit, chromaTop: nat, chromaBottom: nat,
                           present: bit, unitsInTick: nat, timeScale: nat, fixedRate: bit)

  datatype Sps = Sps(profile: Profile, high: High, order: Order, frame: Frame, crop: Crop, vui: Vui,
                     range: Range, timing: Timing)

  const NAL_TYPE_SPS := 7

  // One function for each part: what it reads at a cursor, and the cursor after it.

  function GetProfile(s: seq<bit>, c: Cursor): (r: (Profile, Cursor))
  {
    var (idc, c1) := GetBits(s, c, 8);
    var (iop, c2) := GetBits(s, c1, 8);
    var (level, c3) := GetBits(s, c2, 8);
    var (id, c4) := GetUE(s, c3);
    (Profile(idc, iop, level, id), c4)
  }

  predicate IsHighProfile(idc: nat) {
    idc in {100, 110, 122, 244, 44, 83, 86, 118, 128, 138, 139, 134, 135}
  }

  /** int32 arithmetic: wrap-around, and a remainder with the sign of its dividend. */
  function Wrap32(x: int): (r: int)
  {
    (x + 0x8000_0000) % 0x1_0000_0000 - 0x8000_0000
  }

  function Remainder256(x: int): (r: int)
  {
    if x >= 0 then x % 256 else -((-x) % 256)
  }

  /** scaling_list: only the reads matter, since its values are not kept. */
  function SkipScalingList(s: seq<bit>, c: Cursor, left: nat, last: int, next: int): (r: Cursor)
    decreases left
  {
    if left == 0 then c
    else if next == 0 then SkipScalingList(s, c, left - 1, last, next)
    else
      var (delta, c1) := GetSE(s, c);
      var scale := Remainder256(Wrap32(last + delta + 256));
      SkipScalingList(s, c1, left - 1, if scale != 0 then scale else last, scale)
  }

  /** The scaling lists from number i on: whether any is present, and the cursor after them. */
  function SkipScalingLists(s: seq<bit>, c: Cursor, i: nat, n: nat): (r: (bool, Cursor))
    requires i <= n
    decreases n - i
  {
    if i == n then (false, c)
    else
      var (present, c1) := GetBit(s, c);
      if present == 0 then SkipScalingLists(s, c1, i + 1, n)
      else (true, SkipScalingLists(s, SkipScalingList(s, c1, if i < 6 then 16 else 64, 8, 8), i + 1, n).1)
  }

  /** The part only the high profiles have; the flag says whether a scaling list is present. */
  function GetHigh(s: seq<bit>, c: Cursor, idc: nat): (r: (High, bool, Cursor))
  {
    if !IsHighProfile(idc) then (High(0, 0, 0, 0, 0, 0), false, c)
    else
      var (chroma, c1) := GetUE(s, c);
      var (plane, c2) := if chroma == 3 then GetBit(s, c1) else (0, c1);
      var (luma, c3) := GetUE(s, c2);
      var (chromaDepth, c4) := GetUE(s, c3);
      var (bypass, c5) := GetBit(s, c4);
      var (matrix, c6) := GetBit(s, c5);
      var (lists, c7) := if matrix != 0 then SkipScalingLists(s, c6, 0, if chroma == 3 then 12 else 8) else (false, c6);
      (High(chroma, plane, luma, chromaDepth, bypass, matrix), lists, c7)
  }

  function SkipSE(s: seq<bit>, c: Cursor, n: nat): (r: Cursor)
    decreases n
  {
    if n == 0 then c else SkipSE(s, GetSE(s, c).1, n - 1)
  }

  function GetOrder(s: seq<bit>, c: Cursor): (r: (Order, Cursor))
  {
    var (frameNum, c1) := GetUE(s, c);
    var (kind, c2) := GetUE(s, c1);
    if kind == 0 then
      var (lsb, c3) := GetUE(s, c2);
      (Order(frameNum, kind, lsb, 0, 0, 0, 0), c3)
    else if kind == 1 then
      var (zero, c3) := GetBit(s, c2);
      var (nonRef, c4) := GetSE(s, c3);
      var (topBottom, c5) := GetSE(s, c4);
      var (n, c6) := GetUE(s, c5);
      (Order(frameNum, kind, 0, zero, nonRef, topBottom, n), SkipSE(s, c6, n))
    else
      (Order(frameNum, kind, 0, 0, 0, 0, 0), c2)
  }

  function GetFrame(s: seq<bit>, c: Cursor): (r: (Frame, Cursor))
  {
    var (refs, c1) := GetUE(s, c);
    var (gaps, c2) := GetBit(s, c1);
    var (width, c3) := GetUE(s, c2);
    var (height, c4) := GetUE(s, c3);
    var (mbsOnly, c5) := GetBit(s, c4);
    var (adaptive, c6) := if mbsOnly == 0 then GetBit(s, c5) else (0, c5);
    var (direct, c7) := GetBit(s, c6);
    (Frame(refs, gaps, width, height, mbsOnly, adaptive, direct), c7)
  }

  function GetCrop(s: seq<bit>, c: Cursor): (r: (Crop, Cursor))
  {
    var (present, c1) := GetBit(s, c);
    if present == 0 then (Crop(0, 0, 0, 0, 0), c1)
    else
      var (left, c2) := GetUE(s, c1);
      var (right, c3) := GetUE(s, c2);
      var (top, c4) := GetUE(s, c3);
      var (bottom, c5) := GetUE(s, c4);
      (Crop(present, left, right, top, bottom), c5)
  }

  /** The aspect ratio: present, idc, width, height. */
  function GetAspect(s: seq<bit>, c: Cursor): (r: ((bit, nat, nat, nat), Cursor))
  {
    var (present, c1) := GetBit(s, c);
    if present == 0 then ((0, 0, 0, 0), c1)
    else
      var (idc, c2) := GetBits(s, c1, 8);
      if idc != 255 then ((present, idc, 0, 0), c2)
      else
        var (width, c3) := GetBits(s, c2, 16);
        var (height, c4) := GetBits(s, c3, 16);
        ((present, idc, width, height), c4)
  }

  /** The VUI up to the video format, which stands right before video_full_range_flag. */
  function GetVui(s: seq<bit>, c: Cursor): (r: (Vui, Cursor))
  {
    var (present, c1) := GetBit(s, c);
    if present == 0 then (Vui(0, 0, 0, 0, 0, 0, 0, 0, 0), c1)
    else
      var (aspect, c2) := GetAspect(s, c1);
      var (overscan, c3) := GetBit(s, c2);
      var (appropriate, c4) := if overscan != 0 then GetBit(s, c3) else (0, c3);
      var (signal, c5) := GetBit(s, c4);
      var (format, c6) := if signal != 0 then GetBits(s, c5, 3) else (0, c5);
      (Vui(present, aspect.0, aspect.1, aspect.2, aspect.3, overscan, appropriate, signal, format), c6)
  }

  /** video_full_range_flag and the colour description. */
  function GetRange(s: seq<bit>, c: Cursor): (r: (Range, Cursor))
  {
    var (full, c1) := GetBit(s, c);
    var (present, c2) := GetBit(s, c1);
    var (colour, c3) := if present != 0 then GetBits(s, c2, 24) else (0, c2);
    (Range(full, present, colour), c3)
  }

  function GetTiming(s: seq<bit>, c: Cursor): (r: (Timing, Cursor))
  {
    var (loc, c1) := GetBit(s, c);
    var (top, c2) := if loc != 0 then GetUE(s, c1) else (0, c1);
    var (bottom, c3) := if loc != 0 then GetUE(s, c2) else (0, c2);
    var (present, c4) := GetBit(s, c3);
    if present == 0 then (Timing(loc, top, bottom, 0, 0, 0, 0), c4)
    else
      var (units, c5) := GetBits(s, c4, 32);
      var (scale, c6) := GetBits(s, c5, 32);
      var (rate, c7) := GetBit(s, c6);
      (Timing(loc, top, bottom, present, units, scale, rate), c7)
  }

  /** Everything before video_full_range_flag. */
  datatype Front = Front(profile: Profile, high: High, order: Order, frame: Frame, crop: Crop, vui: Vui)

  function GetFront(s: seq<bit>, c: Cursor): (r: (Front, bool, Cursor))
  {
    var (profile, c1) := GetProfile(s, c);
    var (high, lists, c2) := GetHigh(s, c1, profile.profileIdc);
    var (order, c3) := GetOrder(s, c2);
    var (frame, c4) := GetFrame(s, c3);
    var (crop, c5) := GetCrop(s, c4);
    var (vui, c6) := GetVui(s, c5);
    (Front(profile, high, order, frame, crop, vui), lists, c6)
  }

  function GetRest(s: seq<bit>, c: Cursor, vui: Vui): (r: (Range, Timing, Cursor))
  {
    if vui.present == 0 then (Range(0, 0, 0), Timing(0, 0, 0, 0, 0, 0, 0), c)
    else
      var (range, c1) := if vui.signalPresent != 0 then GetRange(s, c) else (Range(0, 0, 0), c);
      var (timing, c2) := GetTiming(s, c1);
      (range, timing, c2)
  }

  function Assemble(f: Front, range: Range, timing: Timing): (s: Sps)
  {
    Sps(f.profile, f.high, f.order, f.frame, f.crop, f.vui, range, timing)
  }

  function DecodedBits(s: seq<bit>): (r: Option<Sps>)
  {
    var (header, c) := GetBits(s, Cursor(0, false), 8);
    if header % 0x20 != NAL_TYPE_SPS then None
    else
      var (front, _, c1) := GetFront(s, c);
      var (range, timing, c2) := GetRest(s, c1, front.vui);
      if c2.eof then None else Some(Assemble(front, range, timing))
  }

  /** DecodeSPS; None is the nil it returns for another type of NAL unit or when the data ends too early. */
  function Decoded(sps: Data): (r: Option<Sps>)
  {
    DecodedBits(BitsOf(sps))
  }

  /** Whether a scaling list is coded in the set. */
  predicate HasScalingList(sps: Data)
  {
    var s := BitsOf(sps);
    GetFront(s, GetBits(s, Cursor(0, false), 8).1).1
  }

  // The source's code, part by part.

  method ReadProfile(r: Reader) returns (p: Profile)
    requires r.Valid()
    modifies r
    ensures r.Valid() && (p, r.Now()) == GetProfile(BitsOf(r.buf), old(r.Now()))
  {
    hide BitsOf, GetBits, GetUE;
    var idc := r.ReadByte();
    var iop := r.ReadByte();
    var level := r.ReadByte();
    var id := r.ReadUEGolomb();
    p := Profile(idc, iop, level, id);
  }

  method ReadScalingList(r: Reader, size: nat)
    requires r.Valid()
    modifies r
    ensures r.Valid() && r.Now() == SkipScalingList(BitsOf(r.buf), old(r.Now()), size, 8, 8)
  {
    hide BitsOf, GetSE;
    var lastScale: int, nextScale: int := 8, 8;
    for j := 0 to size
      invariant r.Valid()
      invariant SkipScalingList(BitsOf(r.buf), old(r.Now()), size, 8, 8)
             == SkipScalingList(BitsOf(r.buf), r.Now(), size - j, lastScale, nextScale)
    {
      if nextScale != 0 {
        var delta := r.ReadSEGolomb();
        nextScale := Remainder256(Wrap32(lastScale + delta + 256));
      }
      if nextScale != 0 {
        lastScale := nextScale;
      }
    }
  }

  method ReadScalingLists(r: Reader, n: nat)
    requires r.Valid()
    modifies r
    ensures r.Valid() && r.Now() == SkipScalingLists(BitsOf(r.buf), old(r.Now()), 0, n).1
  {
    hide BitsOf, GetBit, SkipScalingList;
    for i := 0 to n
      invariant r.Valid()
      invariant SkipScalingLists(BitsOf(r.buf), old(r.Now()), 0, n).1 == SkipScalingLists(BitsOf(r.buf), r.Now(), i, n).1
    {
      var present := r.ReadBit();
      if present != 0 {
        if i < 6 {
          ReadScalingList(r, 16);
        } else {
          ReadScalingList(r, 64);
        }
      }
    }
  }

  method ReadHigh(r: Reader, idc: nat) returns (h: High)
    requires r.Valid()
    modifies r
    ensures r.Valid() && h == GetHigh(BitsOf(r.buf), old(r.Now()), idc).0
    ensures r.Now() == GetHigh(BitsOf(r.buf), old(r.Now()), idc).2
  {
    hide BitsOf, GetBit, GetUE, SkipScalingLists;
    h := High(0, 0, 0, 0, 0, 0);
    if IsHighProfile(idc) {
      var n := 8;
      var chroma := r.ReadUEGolomb();
      var plane: bit := 0;
      if chroma == 3 {
        plane := r.ReadBit();
        n := 12;
      }
      var luma := r.ReadUEGolomb();
      var chromaDepth := r.ReadUEGolomb();
      var bypass := r.ReadBit();
      var matrix := r.ReadBit();
      if matrix != 0 {
        ReadScalingLists(r, n);
      }
      h := High(chroma, plane, luma, chromaDepth, bypass, matrix);
    }
  }

  method ReadSkipSE(r: Reader, n: nat)
    requires r.Valid()
    modifies r
    ensures r.Valid() && r.Now() == SkipSE(BitsOf(r.buf), old(r.Now()), n)
  {
    hide BitsOf, GetSE;
    for i := 0 to n
      invariant r.Valid() && SkipSE(BitsOf(r.buf), old(r.Now()), n) == SkipSE(BitsOf(r.buf), r.Now(), n - i)
    {
      var offset := r.ReadSEGolomb();
    }
  }

  method ReadOrder(r: Reader) returns (o: Order)
    requires r.Valid()
    modifies r
    ensures r.Valid() && (o, r.Now()) == GetOrder(BitsOf(r.buf), old(r.Now()))
  {
    hide BitsOf, GetBit, GetUE, GetSE, SkipSE;
    var frameNum := r.ReadUEGolomb();
    var kind := r.ReadUEGolomb();
    o := Order(frameNum, kind, 0, 0, 0, 0, 0);
    if kind == 0 {
      var lsb := r.ReadUEGolomb();
      o := o.(log2MaxPocLsb := lsb);
    } else if kind == 1 {
      var zero := r.ReadBit();
      var nonRef := r.ReadSEGolomb();
      var topBottom := r.ReadSEGolomb();
      var n := r.ReadUEGolomb();
      o := Order(frameNum, kind, 0, zero, nonRef, topBottom, n);
      ReadSkipSE(r, n);
    }
  }

  method ReadFrame(r: Reader) returns (f: Frame)
    requires r.Valid()
    modifies r
    ensures r.Valid() && (f, r.Now()) == GetFrame(BitsOf(r.buf), old(r.Now()))
  {
    hide BitsOf, GetBit, GetUE;
    var refs := r.ReadUEGolomb();
    var gaps := r.ReadBit();
    var width := r.ReadUEGolomb();
    var height := r.ReadUEGolomb();
    var mbsOnly := r.ReadBit();
    var adaptive: bit := 0;
    if mbsOnly == 0 {
      adaptive := r.ReadBit();
    }
    var direct := r.ReadBit();
    f := Frame(refs, gaps, width, height, mbsOnly, adaptive, direct);
  }

  method ReadCrop(r: Reader) returns (crop: Crop)
    requires r.Valid()
    modifies r
    ensures r.Valid() && (crop, r.Now()) == GetCrop(BitsOf(r.buf), old(r.Now()))
  {
    hide BitsOf, GetBit, GetUE;
    crop := Crop(0, 0, 0, 0, 0);
    var present := r.ReadBit();
    if present != 0 {
      var left := r.ReadUEGolomb();
      var right := r.ReadUEGolomb();
      var top := r.ReadUEGolomb();
      var bottom := r.ReadUEGolomb();
      crop := Crop(present, left, right, top, bottom);
    }
  }

  method ReadAspect(r: Reader) returns (a: (bit, nat, nat, nat))
    requires r.Valid()
    modifies r
    ensures r.Valid() && (a, r.Now()) == GetAspect(BitsOf(r.buf), old(r.Now()))
  {
    hide BitsOf, GetBit, GetBits;
    a := (0, 0, 0, 0);
    var present := r.ReadBit();
    if present != 0 {
      var idc := r.ReadByte();
      a := (present, idc, 0, 0);
      if idc == 255 {
        var width := r.ReadUint16();
        var height := r.ReadUint16();
        a := (present, idc, width, height);
      }
    }
  }

  method ReadVui(r: Reader) returns (v: Vui)
    requires r.Valid()
    modifies r
    ensures r.Valid() && (v, r.Now()) == GetVui(BitsOf(r.buf), old(r.Now()))
  {
    hide BitsOf, GetBit, GetBits, GetAspect;
    v := Vui(0, 0, 0, 0, 0, 0, 0, 0, 0);
    var present := r.ReadBit();
    if present != 0 {
      var aspect := ReadAspect(r);
      var overscan := r.ReadBit();
      var appropriate: bit := 0;
      if overscan != 0 {
        appropriate := r.ReadBit();
      }
      var signal := r.ReadBit();
      var format: byte := 0;
      if signal != 0 {
        format := r.ReadBits8(3);
      }
      v := Vui(present, aspect.0, aspect.1, aspect.2, aspect.3, overscan, appropriate, signal, format);
    }
  }

  method ReadRange(r: Reader) returns (range: Range)
    requires r.Valid()
    modifies r
    ensures r.Valid() && (range, r.Now()) == GetRange(BitsOf(r.buf), old(r.Now()))
  {
    hide BitsOf, GetBit, GetBits;
    var full := r.ReadBit();
    var present := r.ReadBit();
    var colour := 0;
    if present != 0 {
      colour := r.ReadUint24();
    }
    range := Range(full, present, colour);
  }

  method ReadTiming(r: Reader) returns (t: Timing)
    requires r.Valid()
    modifies r
    ensures r.Valid() && (t, r.Now()) == GetTiming(BitsOf(r.buf), old(r.Now()))
  {
    hide BitsOf, GetBit, GetBits, GetUE;
    var loc := r.ReadBit();
    var top, bottom := 0, 0;
    if loc != 0 {
      top := r.ReadUEGolomb();
      bottom := r.ReadUEGolomb();
    }
    t := Timing(loc, top, bottom, 0, 0, 0, 0);
    var present := r.ReadBit();
    if present != 0 {
      var units := r.ReadUint32();
      var scale := r.ReadUint32();
      var rate := r.ReadBit();
      t := Timing(loc, top, bottom, present, units, scale, rate);
    }
  }

  method DecodeSPS(sps: Data) returns (result: Option<Sps>)
    ensures result == Decoded(sps)
  {
    hide BitsOf, GetBits, GetProfile, GetHigh, GetOrder, GetFrame, GetCrop, GetVui, GetRange, GetTiming;
    var r := new Reader(sps);
    var header := r.ReadByte();
    if header % 0x20 != NAL_TYPE_SPS {
      return None;
    }
    var profile := ReadProfile(r);
    var high := ReadHigh(r, profile.profileIdc);
    var order := ReadOrder(r);
    var frame := ReadFrame(r);
    var crop := ReadCrop(r);
    var vui := ReadVui(r);
    var range := Range(0, 0, 0);
    var timing := Timing(0, 0, 0, 0, 0, 0, 0);
    if vui.present != 0 {
      if vui.signalPresent != 0 {
        range := ReadRange(r);
      }
      timing := ReadTiming(r);
    }
    if r.EOF {
      return None;
    }
    result := Some(Sps(profile, high, order, frame, crop, vui, range, timing));
  }
}
