/**
 The sequence parameter set as section 7.3.2.1.1 and section E.1.1 of ITU-T H.264 write it, up to the timing information:
 an encoder that has nothing in common with the parser, and the proof that the parser undoes it, field by field.
 */
module SpsSyntax {
  import opened Bytes
  import opened Wrappers
  import opened Bits
  import opened BitIO
  import opened Golomb
  import opened Sps

  /** What the set holds besides the fields that are kept: its NAL unit header, its scaling lists, and the offsets. */
  datatype Dropped = Dropped(header: byte, lists: seq<Option<seq<int>>>, offsets: seq<int>)

  function Optional(present: bool, code: seq<bit>): (r: seq<bit>)
  {
    if present then code else []
  }

  function ProfileCode(p: Profile): (r: seq<bit>)
  {
    CodeOf(p.profileIdc, 8) + (CodeOf(p.profileIop, 8) + (CodeOf(p.levelIdc, 8) + UECode(p.setId)))
  }

  function SECodes(vs: seq<int>): (r: seq<bit>)
  {
    if vs == [] then [] else SECode(vs[0]) + SECodes(vs[1..])
  }

  function ListsCode(lists: seq<Option<seq<int>>>): (r: seq<bit>)
  {
    if lists == [] then []
    else
      match lists[0]
      case None => [0] + ListsCode(lists[1..])
      case Some(deltas) => [1] + (SECodes(deltas) + ListsCode(lists[1..]))
  }

  function HighCode(h: High, lists: seq<Option<seq<int>>>): (r: seq<bit>)
  {
    UECode(h.chromaFormatIdc)
      + (Optional(h.chromaFormatIdc == 3, [h.separateColourPlane])
         + (UECode(h.bitDepthLuma)
            + (UECode(h.bitDepthChroma)
               + ([h.qpprimeBypass]
                  + ([h.scalingMatrixPresent]
                     + Optional(h.scalingMatrixPresent == 1, ListsCode(lists)))))))
  }

  function OrderCode(o: Order, offsets: seq<int>): (r: seq<bit>)
  {
    UECode(o.log2MaxFrameNum)
      + (UECode(o.pocType)
         + (if o.pocType == 0 then UECode(o.log2MaxPocLsb)
            else if o.pocType == 1 then
              [o.deltaAlwaysZero]
                + (SECode(o.offsetNonRef)
                   + (SECode(o.offsetTopBottom)
                      + (UECode(o.refFramesInCycle)
                         + SECodes(offsets))))
            else []))
  }

  function FrameCode(f: Frame): (r: seq<bit>)
  {
    UECode(f.refFrames)
      + ([f.gapsAllowed]
         + (UECode(f.widthInMbs)
            + (UECode(f.heightInMapUnits)
               + ([f.mbsOnly]
                  + (Optional(f.mbsOnly == 0, [f.mbAdaptive])
                     + [f.direct8x8])))))
  }

  function CropCode(c: Crop): (r: seq<bit>)
  {
    [c.present]
      + Optional(c.present == 1, UECode(c.left) + (UECode(c.right) + (UECode(c.top) + UECode(c.bottom))))
  }

  function AspectCode(v: Vui): (r: seq<bit>)
  {
    [v.aspectPresent]
      + Optional(v.aspectPresent == 1,
                 CodeOf(v.aspectIdc, 8)
                   + Optional(v.aspectIdc == 255, CodeOf(v.sarWidth, 16) + CodeOf(v.sarHeight, 16)))
  }

  function VuiCode(v: Vui): (r: seq<bit>)
  {
    [v.present]
      + Optional(v.present == 1,
                 AspectCode(v)
                   + ([v.overscanPresent]
                      + (Optional(v.overscanPresent == 1, [v.overscanAppropriate])
                         + ([v.signalPresent]
                            + Optional(v.signalPresent == 1, CodeOf(v.videoFormat, 3))))))
  }

  function RangeCode(r: Range): (code: seq<bit>)
  {
    [r.fullRange] + ([r.colourPresent] + Optional(r.colourPresent == 1, CodeOf(r.colour, 24)))
  }

  function TimingCode(t: Timing): (r: seq<bit>)
  {
    [t.chromaLocPresent]
      + (Optional(t.chromaLocPresent == 1, UECode(t.chromaTop) + UECode(t.chromaBottom))
         + ([t.present]
            + Optional(t.present == 1, CodeOf(t.unitsInTick, 32) + (CodeOf(t.timeScale, 32) + [t.fixedRate]))))
  }

  function RestCode(sps: Sps): (r: seq<bit>)
  {
    Optional(sps.vui.present == 1, Optional(sps.vui.signalPresent == 1, RangeCode(sps.range)) + TimingCode(sps.timing))
  }

  function FrontCode(sps: Sps, d: Dropped): (r: seq<bit>)
  {
    ProfileCode(sps.profile)
      + (Optional(IsHighProfile(sps.profile.profileIdc), HighCode(sps.high, d.lists))
         + (OrderCode(sps.order, d.offsets)
            + (FrameCode(sps.frame)
               + (CropCode(sps.crop)
                  + VuiCode(sps.vui)))))
  }

  function Coded(sps: Sps, d: Dropped): (r: seq<bit>)
  {
    CodeOf(d.header, 8) + (FrontCode(sps, d) + RestCode(sps))
  }

  // The sets that can be coded; a field that is not coded is 0.

  const MAX_UE := 0xFFFF_FFFF

  predicate ShortSE(v: int) {
    -0x8000_0000 < v < 0x8000_0000
  }

  predicate AllShort(vs: seq<int>) {
    forall i :: 0 <= i < |vs| ==> ShortSE(vs[i])
  }

  /** scaling_list of section 7.3.2.1.1.1: deltas as long as the next scale is not 0, each from -128 to 127. */
  predicate ListFits(deltas: seq<int>, left: nat, last: nat, next: nat)
    decreases left
  {
    if left == 0 || next == 0 then deltas == []
    else
      && deltas != [] && -128 <= deltas[0] <= 127
      && var scale := (last + deltas[0] + 256) % 256;
         ListFits(deltas[1..], left - 1, if scale != 0 then scale else last, scale)
  }

  predicate ListsFit(lists: seq<Option<seq<int>>>, i: nat) {
    forall k :: 0 <= k < |lists| && lists[k].Some? ==> ListFits(lists[k].value, if i + k < 6 then 16 else 64, 8, 8)
  }

  predicate HighFits(h: High, lists: seq<Option<seq<int>>>) {
    && h.chromaFormatIdc < MAX_UE && h.bitDepthLuma < MAX_UE && h.bitDepthChroma < MAX_UE
    && (h.chromaFormatIdc != 3 ==> h.separateColourPlane == 0)
    && |lists| == (if h.chromaFormatIdc == 3 then 12 else 8) && ListsFit(lists, 0)
  }

  predicate OrderFits(o: Order, offsets: seq<int>) {
    && o.log2MaxFrameNum < MAX_UE && o.pocType < MAX_UE && o.log2MaxPocLsb < MAX_UE && o.refFramesInCycle < MAX_UE
    && ShortSE(o.offsetNonRef) && ShortSE(o.offsetTopBottom) && AllShort(offsets)
    && (o.pocType != 0 ==> o.log2MaxPocLsb == 0)
    && (o.pocType == 1 ==> |offsets| == o.refFramesInCycle)
    && (o.pocType != 1 ==> o == o.(deltaAlwaysZero := 0, offsetNonRef := 0, offsetTopBottom := 0, refFramesInCycle := 0))
  }

  predicate FrameFits(f: Frame) {
    && f.refFrames < MAX_UE && f.widthInMbs < MAX_UE && f.heightInMapUnits < MAX_UE
    && (f.mbsOnly == 1 ==> f.mbAdaptive == 0)
  }

  predicate CropFits(c: Crop) {
    && c.left < MAX_UE && c.right < MAX_UE && c.top < MAX_UE && c.bottom < MAX_UE
    && (c.present == 0 ==> c == Crop(0, 0, 0, 0, 0))
  }

  predicate VuiFits(v: Vui) {
    && v.aspectIdc < 0x100 && v.sarWidth < 0x1_0000 && v.sarHeight < 0x1_0000 && v.videoFormat < 8
    && (v.present == 0 ==> v == Vui(0, 0, 0, 0, 0, 0, 0, 0, 0))
    && (v.aspectPresent == 0 ==> v.aspectIdc == 0)
    && (v.aspectIdc != 255 ==> v.sarWidth == 0 && v.sarHeight == 0)
    && (v.overscanPresent == 0 ==> v.overscanAppropriate == 0)
    && (v.signalPresent == 0 ==> v.videoFormat == 0)
  }

  predicate RangeFits(r: Range) {
    r.colour < 0x100_0000 && (r.colourPresent == 0 ==> r.colour == 0)
  }

  predicate TimingFits(t: Timing) {
    && t.chromaTop < MAX_UE && t.chromaBottom < MAX_UE && t.unitsInTick < 0x1_0000_0000 && t.timeScale < 0x1_0000_0000
    && (t.chromaLocPresent == 0 ==> t.chromaTop == 0 && t.chromaBottom == 0)
    && (t.present == 0 ==> t.unitsInTick == 0 && t.timeScale == 0 && t.fixedRate == 0)
  }

  predicate ProfileFits(p: Profile) {
    p.profileIdc < 0x100 && p.profileIop < 0x100 && p.levelIdc < 0x100 && p.setId < MAX_UE
  }

  predicate Codable(sps: Sps, d: Dropped) {
    && d.header % 0x20 == NAL_TYPE_SPS
    && ProfileFits(sps.profile)
    && (if IsHighProfile(sps.profile.profileIdc) then HighFits(sps.high, d.lists) else sps.high == High(0, 0, 0, 0, 0, 0))
    && OrderFits(sps.order, d.offsets) && FrameFits(sps.frame) && CropFits(sps.crop) && VuiFits(sps.vui)
    && RangeFits(sps.range) && TimingFits(sps.timing)
    && (sps.vui.signalPresent == 0 ==> sps.range == Range(0, 0, 0))
    && (sps.vui.present == 0 ==> sps.timing == Timing(0, 0, 0, 0, 0, 0, 0))
  }

  // Reading what stands at a place, and going on behind it.

  lemma ReadsBit(s: seq<bit>, p: nat, b: bit, rest: seq<bit>)
    requires At(s, p, [b] + rest)
    ensures GetBit(s, Cursor(p, false)) == (b, Cursor(p + 1, false)) && At(s, p + 1, rest)
  {
    AtSplit(s, p, [b], rest);
    AtOne(s, p, b);
  }

  lemma ReadsBits(s: seq<bit>, p: nat, v: nat, n: nat, rest: seq<bit>)
    requires At(s, p, CodeOf(v, n) + rest) && v < Pow2(n)
    ensures GetBits(s, Cursor(p, false), n) == (v, Cursor(p + n, false)) && At(s, p + n, rest)
  {
    hide CodeOf, GetBits, Pow2;
    AtSplit(s, p, CodeOf(v, n), rest);
    GetBitsOfCode(s, p, v, n);
    ModuloOf(v, Pow2(n), 0, v);
  }

  lemma ReadsUE(s: seq<bit>, p: nat, v: nat, rest: seq<bit>)
    requires At(s, p, UECode(v) + rest) && v < MAX_UE
    ensures GetUE(s, Cursor(p, false)) == (v, Cursor(p + |UECode(v)|, false)) && At(s, p + |UECode(v)|, rest)
  {
    hide UECode, GetUE;
    AtSplit(s, p, UECode(v), rest);
    UEInverse(s, p, v);
  }

  lemma ReadsSE(s: seq<bit>, p: nat, v: int, rest: seq<bit>)
    requires At(s, p, SECode(v) + rest) && ShortSE(v)
    ensures GetSE(s, Cursor(p, false)) == (v, Cursor(p + |SECode(v)|, false)) && At(s, p + |SECode(v)|, rest)
  {
    hide SECode, GetSE;
    AtSplit(s, p, SECode(v), rest);
    SEInverse(s, p, v);
  }

  lemma Nothing(s: seq<bit>, p: nat, code: seq<bit>)
    requires At(s, p, code)
    ensures At(s, p, code + []) && At(s, p, [] + code) && |code + []| == |code|
  {
    assert code + [] == code && [] + code == code;
  }

  lemma Powers()
    ensures Pow2(3) == 8 && Pow2(8) == 0x100 && Pow2(16) == 0x1_0000 && Pow2(24) == 0x100_0000
    ensures Pow2(32) == 0x1_0000_0000
  {
    assert Pow2(8) == 0x100;
    Pow2Add(8, 8);
    Pow2Add(16, 8);
    Pow2At32();
  }

  lemma ReadsProfile(s: seq<bit>, q: nat, p: Profile)
    requires At(s, q, ProfileCode(p)) && ProfileFits(p)
    ensures GetProfile(s, Cursor(q, false)) == (p, Cursor(q + |ProfileCode(p)|, false))
  {
    Powers();
    hide At, CodeOf, UECode, GetBits, GetUE, Pow2;
    ReadsBits(s, q, p.profileIdc, 8, CodeOf(p.profileIop, 8) + (CodeOf(p.levelIdc, 8) + UECode(p.setId)));
    ReadsBits(s, q + 8, p.profileIop, 8, CodeOf(p.levelIdc, 8) + UECode(p.setId));
    ReadsBits(s, q + 16, p.levelIdc, 8, UECode(p.setId));
    Nothing(s, q + 24, UECode(p.setId));
    ReadsUE(s, q + 24, p.setId, []);
  }

  lemma ReadsOptionalBit(s: seq<bit>, p: nat, present: bool, b: bit, rest: seq<bit>)
    requires At(s, p, Optional(present, [b]) + rest) && (!present ==> b == 0)
    ensures var c := Cursor(p, false);
            (if present then GetBit(s, c) else (0, c)) == (b, Cursor(p + |Optional(present, [b])|, false))
    ensures At(s, p + |Optional(present, [b])|, rest)
  {
    if present {
      ReadsBit(s, p, b, rest);
    } else {
      assert [] + rest == rest;
    }
  }

  lemma ReadsFrame(s: seq<bit>, p: nat, f: Frame)
    requires At(s, p, FrameCode(f)) && FrameFits(f)
    ensures GetFrame(s, Cursor(p, false)) == (f, Cursor(p + |FrameCode(f)|, false))
  {
    hide At, UECode, GetUE, GetBit, Optional;
    var r6 := Optional(f.mbsOnly == 0, [f.mbAdaptive]) + [f.direct8x8];
    var r5 := [f.mbsOnly] + r6;
    var r4 := UECode(f.heightInMapUnits) + r5;
    var r3 := UECode(f.widthInMbs) + r4;
    var r2 := [f.gapsAllowed] + r3;
    ReadsUE(s, p, f.refFrames, r2);
    var p2 := p + |UECode(f.refFrames)|;
    ReadsBit(s, p2, f.gapsAllowed, r3);
    ReadsUE(s, p2 + 1, f.widthInMbs, r4);
    var p4 := p2 + 1 + |UECode(f.widthInMbs)|;
    ReadsUE(s, p4, f.heightInMapUnits, r5);
    var p5 := p4 + |UECode(f.heightInMapUnits)|;
    ReadsBit(s, p5, f.mbsOnly, r6);
    ReadsOptionalBit(s, p5 + 1, f.mbsOnly == 0, f.mbAdaptive, [f.direct8x8]);
    var p7 := p5 + 1 + |Optional(f.mbsOnly == 0, [f.mbAdaptive])|;
    Nothing(s, p7, [f.direct8x8]);
    ReadsBit(s, p7, f.direct8x8, []);
  }

  lemma ReadsCrop(s: seq<bit>, p: nat, c: Crop)
    requires At(s, p, CropCode(c)) && CropFits(c)
    ensures GetCrop(s, Cursor(p, false)) == (c, Cursor(p + |CropCode(c)|, false))
  {
    hide At, UECode, GetUE, GetBit;
    var r3 := UECode(c.top) + UECode(c.bottom);
    var r2 := UECode(c.right) + r3;
    var r1 := UECode(c.left) + r2;
    ReadsBit(s, p, c.present, Optional(c.present == 1, r1));
    if c.present == 1 {
      ReadsUE(s, p + 1, c.left, r2);
      var p2 := p + 1 + |UECode(c.left)|;
      ReadsUE(s, p2, c.right, r3);
      var p3 := p2 + |UECode(c.right)|;
      ReadsUE(s, p3, c.top, UECode(c.bottom));
      var p4 := p3 + |UECode(c.top)|;
      Nothing(s, p4, UECode(c.bottom));
      ReadsUE(s, p4, c.bottom, []);
    }
  }

  lemma {:induction false} ReadsSEs(s: seq<bit>, p: nat, vs: seq<int>, rest: seq<bit>)
    requires At(s, p, SECodes(vs) + rest) && AllShort(vs)
    ensures SkipSE(s, Cursor(p, false), |vs|) == Cursor(p + |SECodes(vs)|, false)
    ensures At(s, p + |SECodes(vs)|, rest)
    decreases |vs|
  {
    hide At, SECode, GetSE;
    if vs == [] {
      assert [] + rest == rest;
    } else {
      Regroup(SECode(vs[0]), SECodes(vs[1..]), rest);
      ReadsSE(s, p, vs[0], SECodes(vs[1..]) + rest);
      ReadsSEs(s, p + |SECode(vs[0])|, vs[1..], rest);
    }
  }

  lemma ReadsCycle(s: seq<bit>, p: nat, o: Order, offsets: seq<int>)
    requires OrderFits(o, offsets) && o.pocType == 1
    requires At(s, p, [o.deltaAlwaysZero] + (SECode(o.offsetNonRef) + (SECode(o.offsetTopBottom)
                        + (UECode(o.refFramesInCycle) + SECodes(offsets)))))
    ensures var (zero, c3) := GetBit(s, Cursor(p, false));
            var (nonRef, c4) := GetSE(s, c3);
            var (topBottom, c5) := GetSE(s, c4);
            var (n, c6) := GetUE(s, c5);
            && zero == o.deltaAlwaysZero && nonRef == o.offsetNonRef && topBottom == o.offsetTopBottom
            && n == o.refFramesInCycle
            && SkipSE(s, c6, n)
            == Cursor(p + 1 + |SECode(o.offsetNonRef)| + |SECode(o.offsetTopBottom)| + |UECode(o.refFramesInCycle)|
                        + |SECodes(offsets)|, false)
  {
    hide At, SECode, UECode, SECodes, GetSE, GetUE, GetBit, SkipSE;
    var r4 := UECode(o.refFramesInCycle) + SECodes(offsets);
    var r3 := SECode(o.offsetTopBottom) + r4;
    ReadsBit(s, p, o.deltaAlwaysZero, SECode(o.offsetNonRef) + r3);
    ReadsSE(s, p + 1, o.offsetNonRef, r3);
    var p3 := p + 1 + |SECode(o.offsetNonRef)|;
    ReadsSE(s, p3, o.offsetTopBottom, r4);
    var p4 := p3 + |SECode(o.offsetTopBottom)|;
    ReadsUE(s, p4, o.refFramesInCycle, SECodes(offsets));
    var p5 := p4 + |UECode(o.refFramesInCycle)|;
    Nothing(s, p5, SECodes(offsets));
    ReadsSEs(s, p5, offsets, []);
  }

  lemma ReadsOrder(s: seq<bit>, p: nat, o: Order, offsets: seq<int>)
    requires At(s, p, OrderCode(o, offsets)) && OrderFits(o, offsets)
    ensures GetOrder(s, Cursor(p, false)) == (o, Cursor(p + |OrderCode(o, offsets)|, false))
  {
    hide At, SECode, UECode, SECodes, GetSE, GetUE, GetBit, SkipSE;
    var tail := if o.pocType == 0 then UECode(o.log2MaxPocLsb)
                else if o.pocType == 1 then
                  [o.deltaAlwaysZero] + (SECode(o.offsetNonRef) + (SECode(o.offsetTopBottom)
                    + (UECode(o.refFramesInCycle) + SECodes(offsets))))
                else [];
    ReadsUE(s, p, o.log2MaxFrameNum, UECode(o.pocType) + tail);
    var p2 := p + |UECode(o.log2MaxFrameNum)|;
    ReadsUE(s, p2, o.pocType, tail);
    var p3 := p2 + |UECode(o.pocType)|;
    if o.pocType == 0 {
      Nothing(s, p3, UECode(o.log2MaxPocLsb));
      ReadsUE(s, p3, o.log2MaxPocLsb, []);
    } else if o.pocType == 1 {
      ReadsCycle(s, p3, o, offsets);
    }
  }

  lemma ReadsAspect(s: seq<bit>, p: nat, v: Vui, rest: seq<bit>)
    requires At(s, p, AspectCode(v) + rest) && VuiFits(v)
    ensures GetAspect(s, Cursor(p, false))
         == ((v.aspectPresent, v.aspectIdc, v.sarWidth, v.sarHeight), Cursor(p + |AspectCode(v)|, false))
    ensures At(s, p + |AspectCode(v)|, rest)
  {
    Powers();
    hide At, CodeOf, GetBits, GetBit, Pow2;
    AtSplit(s, p, AspectCode(v), rest);
    var size := CodeOf(v.sarWidth, 16) + CodeOf(v.sarHeight, 16);
    var r1 := CodeOf(v.aspectIdc, 8) + Optional(v.aspectIdc == 255, size);
    ReadsBit(s, p, v.aspectPresent, Optional(v.aspectPresent == 1, r1));
    if v.aspectPresent == 1 {
      ReadsBits(s, p + 1, v.aspectIdc, 8, Optional(v.aspectIdc == 255, size));
      if v.aspectIdc == 255 {
        ReadsBits(s, p + 9, v.sarWidth, 16, CodeOf(v.sarHeight, 16));
        Nothing(s, p + 25, CodeOf(v.sarHeight, 16));
        ReadsBits(s, p + 25, v.sarHeight, 16, []);
      }
    }
  }

  lemma ReadsVui(s: seq<bit>, p: nat, v: Vui)
    requires At(s, p, VuiCode(v)) && VuiFits(v)
    ensures GetVui(s, Cursor(p, false)) == (v, Cursor(p + |VuiCode(v)|, false))
  {
    Powers();
    hide At, CodeOf, GetBits, GetBit, Pow2, GetAspect, AspectCode;
    var format := Optional(v.signalPresent == 1, CodeOf(v.videoFormat, 3));
    var r4 := [v.signalPresent] + format;
    var r3 := Optional(v.overscanPresent == 1, [v.overscanAppropriate]) + r4;
    var r2 := [v.overscanPresent] + r3;
    ReadsBit(s, p, v.present, Optional(v.present == 1, AspectCode(v) + r2));
    if v.present == 1 {
      ReadsAspect(s, p + 1, v, r2);
      var p2 := p + 1 + |AspectCode(v)|;
      ReadsBit(s, p2, v.overscanPresent, r3);
      ReadsOptionalBit(s, p2 + 1, v.overscanPresent == 1, v.overscanAppropriate, r4);
      var p4 := p2 + 1 + |Optional(v.overscanPresent == 1, [v.overscanAppropriate])|;
      ReadsBit(s, p4, v.signalPresent, format);
      if v.signalPresent == 1 {
        Nothing(s, p4 + 1, CodeOf(v.videoFormat, 3));
        ReadsBits(s, p4 + 1, v.videoFormat, 3, []);
      }
    }
  }

  lemma ReadsRange(s: seq<bit>, p: nat, r: Range, rest: seq<bit>)
    requires At(s, p, RangeCode(r) + rest) && RangeFits(r)
    ensures GetRange(s, Cursor(p, false)) == (r, Cursor(p + |RangeCode(r)|, false))
    ensures At(s, p + |RangeCode(r)|, rest)
  {
    Powers();
    hide At, CodeOf, GetBits, GetBit, Pow2;
    AtSplit(s, p, RangeCode(r), rest);
    var colour := Optional(r.colourPresent == 1, CodeOf(r.colour, 24));
    ReadsBit(s, p, r.fullRange, [r.colourPresent] + colour);
    ReadsBit(s, p + 1, r.colourPresent, colour);
    if r.colourPresent == 1 {
      Nothing(s, p + 2, CodeOf(r.colour, 24));
      ReadsBits(s, p + 2, r.colour, 24, []);
    }
  }

  lemma ReadsLocation(s: seq<bit>, p: nat, t: Timing, rest: seq<bit>)
    requires TimingFits(t) && At(s, p, Optional(t.chromaLocPresent == 1, UECode(t.chromaTop) + UECode(t.chromaBottom)) + rest)
    ensures var n := |Optional(t.chromaLocPresent == 1, UECode(t.chromaTop) + UECode(t.chromaBottom))|;
            var c1 := Cursor(p, false);
            var (top, c2) := if t.chromaLocPresent != 0 then GetUE(s, c1) else (0, c1);
            var (bottom, c3) := if t.chromaLocPresent != 0 then GetUE(s, c2) else (0, c2);
            && top == t.chromaTop && bottom == t.chromaBottom && c3 == Cursor(p + n, false) && At(s, p + n, rest)
  {
    hide At, UECode, GetUE;
    if t.chromaLocPresent == 1 {
      Regroup(UECode(t.chromaTop), UECode(t.chromaBottom), rest);
      ReadsUE(s, p, t.chromaTop, UECode(t.chromaBottom) + rest);
      ReadsUE(s, p + |UECode(t.chromaTop)|, t.chromaBottom, rest);
    } else {
      assert [] + rest == rest;
    }
  }

  lemma ReadsTiming(s: seq<bit>, p: nat, t: Timing)
    requires At(s, p, TimingCode(t)) && TimingFits(t)
    ensures GetTiming(s, Cursor(p, false)) == (t, Cursor(p + |TimingCode(t)|, false))
  {
    Powers();
    hide At, CodeOf, GetBits, GetBit, Pow2, GetUE, UECode;
    var location := Optional(t.chromaLocPresent == 1, UECode(t.chromaTop) + UECode(t.chromaBottom));
    var ticks := CodeOf(t.unitsInTick, 32) + (CodeOf(t.timeScale, 32) + [t.fixedRate]);
    var r2 := [t.present] + Optional(t.present == 1, ticks);
    ReadsBit(s, p, t.chromaLocPresent, location + r2);
    ReadsLocation(s, p + 1, t, r2);
    var p3 := p + 1 + |location|;
    ReadsBit(s, p3, t.present, Optional(t.present == 1, ticks));
    if t.present == 1 {
      ReadsBits(s, p3 + 1, t.unitsInTick, 32, CodeOf(t.timeScale, 32) + [t.fixedRate]);
      ReadsBits(s, p3 + 33, t.timeScale, 32, [t.fixedRate]);
      Nothing(s, p3 + 65, [t.fixedRate]);
      ReadsBit(s, p3 + 65, t.fixedRate, []);
    }
  }

  lemma {:induction false} ReadsList(s: seq<bit>, p: nat, deltas: seq<int>, left: nat, last: nat, next: nat, rest: seq<bit>)
    requires At(s, p, SECodes(deltas) + rest) && ListFits(deltas, left, last, next) && last < 0x100
    ensures SkipScalingList(s, Cursor(p, false), left, last, next) == Cursor(p + |SECodes(deltas)|, false)
    ensures At(s, p + |SECodes(deltas)|, rest)
    decreases left
  {
    hide At, SECode, GetSE;
    if left == 0 {
      assert [] + rest == rest;
    } else if next == 0 {
      assert [] + rest == rest;
      NoDeltas(s, Cursor(p, false), left, last);
    } else {
      var delta, more := deltas[0], deltas[1..];
      Regroup(SECode(delta), SECodes(more), rest);
      ReadsSE(s, p, delta, SECodes(more) + rest);
      var scale := (last + delta + 256) % 256;
      assert Remainder256(Wrap32(last + delta + 256)) == scale;
      ReadsList(s, p + |SECode(delta)|, more, left - 1, if scale != 0 then scale else last, scale, rest);
    }
  }

  lemma {:induction false} NoDeltas(s: seq<bit>, c: Cursor, left: nat, last: nat)
    ensures SkipScalingList(s, c, left, last, 0) == c
    decreases left
  {
    if left > 0 {
      NoDeltas(s, c, left - 1, last);
    }
  }

  lemma {:induction false} ReadsLists(s: seq<bit>, p: nat, lists: seq<Option<seq<int>>>, i: nat, n: nat, rest: seq<bit>)
    requires At(s, p, ListsCode(lists) + rest) && ListsFit(lists, i) && i + |lists| == n
    ensures SkipScalingLists(s, Cursor(p, false), i, n)
         == (exists k :: 0 <= k < |lists| && lists[k].Some?, Cursor(p + |ListsCode(lists)|, false))
    ensures At(s, p + |ListsCode(lists)|, rest)
    decreases |lists|
  {
    hide At, SECodes, GetBit, SkipScalingList, ListFits;
    if lists == [] {
      assert [] + rest == rest;
    } else {
      var more := lists[1..];
      assert ListsFit(more, i + 1) by {
        forall k | 0 <= k < |more| && more[k].Some? ensures ListFits(more[k].value, if i + 1 + k < 6 then 16 else 64, 8, 8) {
          assert more[k] == lists[k + 1];
        }
      }
      assert forall k :: 0 <= k < |more| ==> more[k] == lists[k + 1];
      match lists[0]
      case None =>
        Regroup([0], ListsCode(more), rest);
        ReadsBit(s, p, 0, ListsCode(more) + rest);
        ReadsLists(s, p + 1, more, i + 1, n, rest);
        assert (exists k :: 0 <= k < |lists| && lists[k].Some?) ==> exists k :: 0 <= k < |more| && more[k].Some? by {
          if k :| 0 <= k < |lists| && lists[k].Some? {
            assert more[k - 1].Some?;
          }
        }
      case Some(deltas) =>
        var code := SECodes(deltas) + ListsCode(more);
        Regroup([1], code, rest);
        Regroup(SECodes(deltas), ListsCode(more), rest);
        ReadsBit(s, p, 1, code + rest);
        ReadsList(s, p + 1, deltas, if i < 6 then 16 else 64, 8, 8, ListsCode(more) + rest);
        ReadsLists(s, p + 1 + |SECodes(deltas)|, more, i + 1, n, rest);
    }
  }

  lemma OptionalSize(present: bool, code: seq<bit>)
    ensures |Optional(present, code)| == if present then |code| else 0
  {
  }

  lemma ReadsMatrix(s: seq<bit>, p: nat, h: High, lists: seq<Option<seq<int>>>)
    requires At(s, p, Optional(h.scalingMatrixPresent == 1, ListsCode(lists))) && HighFits(h, lists)
    ensures h.scalingMatrixPresent == 1 ==>
              SkipScalingLists(s, Cursor(p, false), 0, if h.chromaFormatIdc == 3 then 12 else 8)
              == (exists k :: 0 <= k < |lists| && lists[k].Some?, Cursor(p + |ListsCode(lists)|, false))
  {
    hide At, ListsCode, SkipScalingLists, ListsFit;
    if h.scalingMatrixPresent == 1 {
      Nothing(s, p, ListsCode(lists));
      ReadsLists(s, p, lists, 0, if h.chromaFormatIdc == 3 then 12 else 8, []);
    }
  }

  lemma ReadsHigh(s: seq<bit>, p: nat, idc: nat, h: High, lists: seq<Option<seq<int>>>)
    requires IsHighProfile(idc) && At(s, p, HighCode(h, lists)) && HighFits(h, lists)
    ensures GetHigh(s, Cursor(p, false), idc)
         == (h, h.scalingMatrixPresent == 1 && exists k :: 0 <= k < |lists| && lists[k].Some?,
             Cursor(p + |HighCode(h, lists)|, false))
  {
    hide At, UECode, GetUE, GetBit, Optional, ListsCode, SkipScalingLists, ListsFit;
    var r6 := Optional(h.scalingMatrixPresent == 1, ListsCode(lists));
    var r5 := [h.scalingMatrixPresent] + r6;
    var r4 := [h.qpprimeBypass] + r5;
    var r3 := UECode(h.bitDepthChroma) + r4;
    var r2 := UECode(h.bitDepthLuma) + r3;
    ReadsUE(s, p, h.chromaFormatIdc, Optional(h.chromaFormatIdc == 3, [h.separateColourPlane]) + r2);
    var p1 := p + |UECode(h.chromaFormatIdc)|;
    ReadsOptionalBit(s, p1, h.chromaFormatIdc == 3, h.separateColourPlane, r2);
    var p2 := p1 + |Optional(h.chromaFormatIdc == 3, [h.separateColourPlane])|;
    ReadsUE(s, p2, h.bitDepthLuma, r3);
    var p3 := p2 + |UECode(h.bitDepthLuma)|;
    ReadsUE(s, p3, h.bitDepthChroma, r4);
    var p4 := p3 + |UECode(h.bitDepthChroma)|;
    ReadsBit(s, p4, h.qpprimeBypass, r5);
    ReadsBit(s, p4 + 1, h.scalingMatrixPresent, r6);
    ReadsMatrix(s, p4 + 2, h, lists);
    OptionalSize(h.scalingMatrixPresent == 1, ListsCode(lists));
  }

  /** A scaling list is coded in the set. */
  predicate CodesList(sps: Sps, d: Dropped) {
    && IsHighProfile(sps.profile.profileIdc) && sps.high.scalingMatrixPresent == 1
    && exists k :: 0 <= k < |d.lists| && d.lists[k].Some?
  }

  lemma ReadsOptionalHigh(s: seq<bit>, p: nat, sps: Sps, d: Dropped, rest: seq<bit>)
    requires var idc := sps.profile.profileIdc;
             && At(s, p, Optional(IsHighProfile(idc), HighCode(sps.high, d.lists)) + rest)
             && if IsHighProfile(idc) then HighFits(sps.high, d.lists) else sps.high == High(0, 0, 0, 0, 0, 0)
    ensures var idc := sps.profile.profileIdc;
            var n := |Optional(IsHighProfile(idc), HighCode(sps.high, d.lists))|;
            && GetHigh(s, Cursor(p, false), idc) == (sps.high, CodesList(sps, d), Cursor(p + n, false))
            && At(s, p + n, rest)
  {
    hide At, HighCode, HighFits, IsHighProfile;
    var idc := sps.profile.profileIdc;
    AtSplit(s, p, Optional(IsHighProfile(idc), HighCode(sps.high, d.lists)), rest);
    if IsHighProfile(idc) {
      ReadsHigh(s, p, idc, sps.high, d.lists);
    }
  }

  lemma ReadsFront(s: seq<bit>, p: nat, sps: Sps, d: Dropped, rest: seq<bit>)
    requires At(s, p, FrontCode(sps, d) + rest) && Codable(sps, d)
    ensures GetFront(s, Cursor(p, false))
         == (Front(sps.profile, sps.high, sps.order, sps.frame, sps.crop, sps.vui), CodesList(sps, d),
             Cursor(p + |FrontCode(sps, d)|, false))
    ensures At(s, p + |FrontCode(sps, d)|, rest)
  {
    hide At, ProfileCode, HighCode, OrderCode, FrameCode, CropCode, VuiCode, Optional;
    hide GetProfile, GetHigh, GetOrder, GetFrame, GetCrop, GetVui, CodesList;
    hide ProfileFits, HighFits, OrderFits, FrameFits, CropFits, VuiFits, RangeFits, TimingFits, IsHighProfile;
    AtSplit(s, p, FrontCode(sps, d), rest);
    var high := Optional(IsHighProfile(sps.profile.profileIdc), HighCode(sps.high, d.lists));
    var r5 := CropCode(sps.crop) + VuiCode(sps.vui);
    var r4 := FrameCode(sps.frame) + r5;
    var r3 := OrderCode(sps.order, d.offsets) + r4;
    AtSplit(s, p, ProfileCode(sps.profile), high + r3);
    ReadsProfile(s, p, sps.profile);
    var p2 := p + |ProfileCode(sps.profile)|;
    ReadsOptionalHigh(s, p2, sps, d, r3);
    var p3 := p2 + |high|;
    AtSplit(s, p3, OrderCode(sps.order, d.offsets), r4);
    ReadsOrder(s, p3, sps.order, d.offsets);
    var p4 := p3 + |OrderCode(sps.order, d.offsets)|;
    AtSplit(s, p4, FrameCode(sps.frame), r5);
    ReadsFrame(s, p4, sps.frame);
    var p5 := p4 + |FrameCode(sps.frame)|;
    AtSplit(s, p5, CropCode(sps.crop), VuiCode(sps.vui));
    ReadsCrop(s, p5, sps.crop);
    ReadsVui(s, p5 + |CropCode(sps.crop)|, sps.vui);
  }

  lemma ReadsRest(s: seq<bit>, p: nat, sps: Sps, d: Dropped)
    requires At(s, p, RestCode(sps)) && Codable(sps, d)
    ensures GetRest(s, Cursor(p, false), sps.vui) == (sps.range, sps.timing, Cursor(p + |RestCode(sps)|, false))
  {
    hide At, RangeCode, TimingCode, GetRange, GetTiming, RangeFits, TimingFits;
    hide ProfileFits, HighFits, OrderFits, FrameFits, CropFits, IsHighProfile;
    if sps.vui.present == 1 {
      var range := Optional(sps.vui.signalPresent == 1, RangeCode(sps.range));
      if sps.vui.signalPresent == 1 {
        ReadsRange(s, p, sps.range, TimingCode(sps.timing));
      } else {
        assert [] + TimingCode(sps.timing) == TimingCode(sps.timing);
      }
      ReadsTiming(s, p + |range|, sps.timing);
    }
  }

  /** Whatever follows it, a coded set is decoded to itself, and a coded scaling list is noticed. */
  lemma DecodesCoded(s: seq<bit>, sps: Sps, d: Dropped)
    requires At(s, 0, Coded(sps, d)) && Codable(sps, d)
    ensures DecodedBits(s) == Some(sps)
    ensures GetFront(s, GetBits(s, Cursor(0, false), 8).1).1 == CodesList(sps, d)
  {
    Powers();
    hide At, CodeOf, FrontCode, RestCode, GetBits, GetFront, GetRest, Pow2;
    ReadsBits(s, 0, d.header, 8, FrontCode(sps, d) + RestCode(sps));
    ReadsFront(s, 8, sps, d, RestCode(sps));
    ReadsRest(s, 8 + |FrontCode(sps, d)|, sps, d);
  }

  // A set that is cut off decodes to nothing: reads that stay in front of the cut do not see it, and one does not.

  /** Reads of the data in front: they stay inside it, and do the same in longer data unless they run past the end. */
  lemma ReadsExtend(s: seq<bit>, more: seq<bit>)
    ensures forall c: Cursor {:trigger GetBit(s, c)} ::
              && (c.p <= |s| ==> GetBit(s, c).1.p <= |s|)
              && (!GetBit(s, c).1.eof ==> GetBit(s + more, c) == GetBit(s, c))
    ensures forall c: Cursor, n: nat {:trigger GetBits(s, c, n)} ::
              && (c.p <= |s| ==> GetBits(s, c, n).1.p <= |s|)
              && (!GetBits(s, c, n).1.eof ==> GetBits(s + more, c, n) == GetBits(s, c, n))
    ensures forall c: Cursor {:trigger GetUE(s, c)} ::
              && (c.p <= |s| ==> GetUE(s, c).1.p <= |s|)
              && (!GetUE(s, c).1.eof ==> GetUE(s + more, c) == GetUE(s, c))
    ensures forall c: Cursor {:trigger GetSE(s, c)} ::
              && (c.p <= |s| ==> GetSE(s, c).1.p <= |s|)
              && (!GetSE(s, c).1.eof ==> GetSE(s + more, c) == GetSE(s, c))
  {
    hide GetBits, GetZeros;
    forall c: Cursor, n: nat ensures
      && (c.p <= |s| ==> GetBits(s, c, n).1.p <= |s|)
      && (!GetBits(s, c, n).1.eof ==> GetBits(s + more, c, n) == GetBits(s, c, n))
    {
      GetBitsExtend(s, more, c, n);
    }
    forall c: Cursor ensures
      && (c.p <= |s| ==> GetUE(s, c).1.p <= |s|)
      && (!GetUE(s, c).1.eof ==> GetUE(s + more, c) == GetUE(s, c))
    {
      GetUEExtend(s, more, c);
    }
  }

  lemma {:induction false} GetBitsExtend(s: seq<bit>, more: seq<bit>, c: Cursor, n: nat)
    ensures c.p <= |s| ==> GetBits(s, c, n).1.p <= |s|
    ensures !GetBits(s, c, n).1.eof ==> GetBits(s + more, c, n) == GetBits(s, c, n)
    decreases n
  {
    if n > 0 {
      GetBitsExtend(s, more, GetBit(s, c).1, n - 1);
    }
  }

  lemma {:induction false} GetZerosExtend(s: seq<bit>, more: seq<bit>, c: Cursor, size: nat)
    requires size <= 32
    ensures c.p <= |s| ==> GetZeros(s, c, size).1.p <= |s|
    ensures !GetZeros(s, c, size).1.eof ==> GetZeros(s + more, c, size) == GetZeros(s, c, size)
    decreases 32 - size
  {
    if size < 32 {
      GetZerosExtend(s, more, GetBit(s, c).1, size + 1);
    }
  }

  lemma GetUEExtend(s: seq<bit>, more: seq<bit>, c: Cursor)
    ensures c.p <= |s| ==> GetUE(s, c).1.p <= |s|
    ensures !GetUE(s, c).1.eof ==> GetUE(s + more, c) == GetUE(s, c)
  {
    hide GetZeros, GetBits;
    GetZerosExtend(s, more, c, 0);
    var (size, c1) := GetZeros(s, c, 0);
    GetBitsExtend(s, more, c1, size);
  }

  lemma {:induction false} ListExtends(s: seq<bit>, more: seq<bit>, c: Cursor, left: nat, last: int, next: int)
    ensures var d := SkipScalingList(s, c, left, last, next);
            && (c.p <= |s| ==> d.p <= |s|) && (c.eof ==> d.eof)
            && (!d.eof ==> SkipScalingList(s + more, c, left, last, next) == d)
    decreases left
  {
    ReadsExtend(s, more);
    hide GetSE, Wrap32, Remainder256;
    if left > 0 {
      if next == 0 {
        ListExtends(s, more, c, left - 1, last, next);
      } else {
        var (delta, c1) := GetSE(s, c);
        var scale := Remainder256(Wrap32(last + delta + 256));
        ListExtends(s, more, c1, left - 1, if scale != 0 then scale else last, scale);
      }
    }
  }

  lemma {:induction false} ListsExtend(s: seq<bit>, more: seq<bit>, c: Cursor, i: nat, n: nat)
    requires i <= n
    ensures var (any, d) := SkipScalingLists(s, c, i, n);
            && (c.p <= |s| ==> d.p <= |s|) && (c.eof ==> d.eof)
            && (!d.eof ==> SkipScalingLists(s + more, c, i, n) == (any, d))
    decreases n - i
  {
    ReadsExtend(s, more);
    hide GetBit, SkipScalingList;
    if i < n {
      var (present, c1) := GetBit(s, c);
      if present == 0 {
        ListsExtend(s, more, c1, i + 1, n);
      } else {
        ListExtends(s, more, c1, if i < 6 then 16 else 64, 8, 8);
        ListsExtend(s, more, SkipScalingList(s, c1, if i < 6 then 16 else 64, 8, 8), i + 1, n);
      }
    }
  }

  lemma {:induction false} SEsExtend(s: seq<bit>, more: seq<bit>, c: Cursor, n: nat)
    ensures var d := SkipSE(s, c, n);
            && (c.p <= |s| ==> d.p <= |s|) && (c.eof ==> d.eof) && (!d.eof ==> SkipSE(s + more, c, n) == d)
    decreases n
  {
    ReadsExtend(s, more);
    hide GetSE;
    if n > 0 {
      SEsExtend(s, more, GetSE(s, c).1, n - 1);
    }
  }

  lemma HighExtends(s: seq<bit>, more: seq<bit>, c: Cursor, idc: nat)
    ensures var (h, any, d) := GetHigh(s, c, idc);
            && (c.p <= |s| ==> d.p <= |s|) && (c.eof ==> d.eof) && (!d.eof ==> GetHigh(s + more, c, idc) == (h, any, d))
  {
    ReadsExtend(s, more);
    hide GetUE, GetBit, SkipScalingLists, IsHighProfile;
    if IsHighProfile(idc) {
      var (chroma, c1) := GetUE(s, c);
      var c2 := if chroma == 3 then GetBit(s, c1).1 else c1;
      var c6 := GetBit(s, GetBit(s, GetUE(s, GetUE(s, c2).1).1).1).1;
      ListsExtend(s, more, c6, 0, if chroma == 3 then 12 else 8);
    }
  }

  lemma OrderExtends(s: seq<bit>, more: seq<bit>, c: Cursor)
    ensures var (o, d) := GetOrder(s, c);
            && (c.p <= |s| ==> d.p <= |s|) && (c.eof ==> d.eof) && (!d.eof ==> GetOrder(s + more, c) == (o, d))
  {
    ReadsExtend(s, more);
    hide GetUE, GetSE, GetBit, SkipSE;
    var (kind, c2) := GetUE(s, GetUE(s, c).1);
    if kind == 1 {
      var (n, c6) := GetUE(s, GetSE(s, GetSE(s, GetBit(s, c2).1).1).1);
      SEsExtend(s, more, c6, n);
    }
  }

  lemma ProfileExtends(s: seq<bit>, more: seq<bit>, c: Cursor)
    ensures var (x, d) := GetProfile(s, c);
            && (c.p <= |s| ==> d.p <= |s|) && (c.eof ==> d.eof) && (!d.eof ==> GetProfile(s + more, c) == (x, d))
  {
    ReadsExtend(s, more);
    hide GetUE, GetBits;
  }

  lemma FrameExtends(s: seq<bit>, more: seq<bit>, c: Cursor)
    ensures var (x, d) := GetFrame(s, c);
            && (c.p <= |s| ==> d.p <= |s|) && (c.eof ==> d.eof) && (!d.eof ==> GetFrame(s + more, c) == (x, d))
  {
    ReadsExtend(s, more);
    hide GetUE, GetBit;
  }

  lemma CropExtends(s: seq<bit>, more: seq<bit>, c: Cursor)
    ensures var (x, d) := GetCrop(s, c);
            && (c.p <= |s| ==> d.p <= |s|) && (c.eof ==> d.eof) && (!d.eof ==> GetCrop(s + more, c) == (x, d))
  {
    ReadsExtend(s, more);
    hide GetUE, GetBit;
  }

  lemma VuiExtends(s: seq<bit>, more: seq<bit>, c: Cursor)
    ensures var (x, d) := GetVui(s, c);
            && (c.p <= |s| ==> d.p <= |s|) && (c.eof ==> d.eof) && (!d.eof ==> GetVui(s + more, c) == (x, d))
  {
    ReadsExtend(s, more);
    hide GetBits, GetBit;
  }

  lemma RangeExtends(s: seq<bit>, more: seq<bit>, c: Cursor)
    ensures var (x, d) := GetRange(s, c);
            && (c.p <= |s| ==> d.p <= |s|) && (c.eof ==> d.eof) && (!d.eof ==> GetRange(s + more, c) == (x, d))
  {
    ReadsExtend(s, more);
    hide GetBits, GetBit;
  }

  lemma TimingExtends(s: seq<bit>, more: seq<bit>, c: Cursor)
    ensures var (x, d) := GetTiming(s, c);
            && (c.p <= |s| ==> d.p <= |s|) && (c.eof ==> d.eof) && (!d.eof ==> GetTiming(s + more, c) == (x, d))
  {
    ReadsExtend(s, more);
    hide GetUE, GetBits, GetBit;
  }

  lemma FrontExtends(s: seq<bit>, more: seq<bit>, c: Cursor)
    ensures var (x, any, d) := GetFront(s, c);
            && (c.p <= |s| ==> d.p <= |s|) && (c.eof ==> d.eof) && (!d.eof ==> GetFront(s + more, c) == (x, any, d))
  {
    hide GetProfile, GetHigh, GetOrder, GetFrame, GetCrop, GetVui;
    var (profile, c1) := GetProfile(s, c);
    ProfileExtends(s, more, c);
    HighExtends(s, more, c1, profile.profileIdc);
    var c2 := GetHigh(s, c1, profile.profileIdc).2;
    OrderExtends(s, more, c2);
    var c3 := GetOrder(s, c2).1;
    FrameExtends(s, more, c3);
    var c4 := GetFrame(s, c3).1;
    CropExtends(s, more, c4);
    VuiExtends(s, more, GetCrop(s, c4).1);
  }

  lemma RestExtends(s: seq<bit>, more: seq<bit>, c: Cursor, vui: Vui)
    ensures var (x, y, d) := GetRest(s, c, vui);
            && (c.p <= |s| ==> d.p <= |s|) && (c.eof ==> d.eof) && (!d.eof ==> GetRest(s + more, c, vui) == (x, y, d))
  {
    hide GetRange, GetTiming;
    if vui.present != 0 {
      RangeExtends(s, more, c);
      TimingExtends(s, more, if vui.signalPresent != 0 then GetRange(s, c).1 else c);
    }
  }

  /** A coded set of which the last bit or more is missing decodes to nothing. */
  lemma CutOffIsNothing(sps: Sps, d: Dropped, n: nat)
    requires Codable(sps, d) && n < |Coded(sps, d)|
    ensures DecodedBits(Coded(sps, d)[..n]) == None
  {
    hide Coded, Codable, End, DecodedBits;
    var code := Coded(sps, d);
    var s, more := code[..n], code[n..];
    assert s + more == code;
    assert At(code, 0, code);
    hide At;
    Stops(code, sps, d);
    EndExtends(s, more);
    EofIsNothing(s);
  }

  lemma EofIsNothing(s: seq<bit>)
    requires End(s).eof
    ensures DecodedBits(s) == None
  {
    hide GetFront, GetRest, GetBits;
  }

  /** Where decoding ends. */
  function End(s: seq<bit>): (c: Cursor)
  {
    var (front, _, c1) := GetFront(s, GetBits(s, Cursor(0, false), 8).1);
    GetRest(s, c1, front.vui).2
  }

  lemma EndExtends(s: seq<bit>, more: seq<bit>)
    ensures End(s).p <= |s| && (!End(s).eof ==> End(s + more) == End(s))
  {
    hide GetFront, GetRest, GetBits;
    ReadsExtend(s, more);
    var c := GetBits(s, Cursor(0, false), 8).1;
    var (front, any, c1) := GetFront(s, c);
    FrontExtends(s, more, c);
    RestExtends(s, more, c1, front.vui);
  }

  /** Decoding ends right behind the set. */
  lemma Stops(s: seq<bit>, sps: Sps, d: Dropped)
    requires At(s, 0, Coded(sps, d)) && Codable(sps, d)
    ensures End(s) == Cursor(|Coded(sps, d)|, false)
  {
    Powers();
    hide At, CodeOf, FrontCode, RestCode, GetBits, GetFront, GetRest, Pow2;
    ReadsBits(s, 0, d.header, 8, FrontCode(sps, d) + RestCode(sps));
    ReadsFront(s, 8, sps, d, RestCode(sps));
    ReadsRest(s, 8 + |FrontCode(sps, d)|, sps, d);
  }

  // The picture size, section 7.4.2.1.1 of ITU-T H.264.

  /** SPS.Width: uint32 arithmetic, cut to uint16. */
  function Width(sps: Sps): (w: nat)
  {
    (16 * (sps.frame.widthInMbs + 1) - 2 * (sps.crop.left + sps.crop.right)) % 0x1_0000
  }

  /** SPS.Height. */
  function Height(sps: Sps): (h: nat)
  {
    ((if sps.frame.mbsOnly == 0 then 2 else 1) * 16 * (sps.frame.heightInMapUnits + 1) - 2 * (sps.crop.top + sps.crop.bottom))
      % 0x1_0000
  }

  /** ChromaArrayType: 4:2:0 where the profile has no field for it, 0 for monochrome and separate planes. */
  function ChromaArrayType(sps: Sps): (t: nat)
  {
    if !IsHighProfile(sps.profile.profileIdc) then 1
    else if sps.high.separateColourPlane == 1 then 0
    else sps.high.chromaFormatIdc
  }

  function CropUnitX(sps: Sps): (u: nat)
  {
    if ChromaArrayType(sps) == 1 || ChromaArrayType(sps) == 2 then 2 else 1
  }

  function CropUnitY(sps: Sps): (u: nat)
  {
    (if ChromaArrayType(sps) == 1 then 2 else 1) * (2 - sps.frame.mbsOnly)
  }

  /** The size of the cropped picture. */
  function PictureWidth(sps: Sps): (w: int)
  {
    16 * (sps.frame.widthInMbs + 1) - CropUnitX(sps) * (sps.crop.left + sps.crop.right)
  }

  function PictureHeight(sps: Sps): (h: int)
  {
    16 * (2 - sps.frame.mbsOnly) * (sps.frame.heightInMapUnits + 1) - CropUnitY(sps) * (sps.crop.top + sps.crop.bottom)
  }

  /** The width is right if and only if nothing is cropped at the sides, or the chroma is 4:2:0 or 4:2:2. */
  lemma WidthExactly(sps: Sps)
    requires 16 * (sps.frame.widthInMbs + 1) < 0x1_0000 && PictureWidth(sps) > 0
    ensures Width(sps) == PictureWidth(sps) <==> sps.crop.left + sps.crop.right == 0 || ChromaArrayType(sps) in {1, 2}
  {
    hide ChromaArrayType;
    SmallDifference(16 * (sps.frame.widthInMbs + 1), sps.crop.left + sps.crop.right, CropUnitX(sps));
  }

  /**
   The height is right if and only if nothing is cropped at the top or the bottom, or the chroma is 4:2:0 and
   frame_mbs_only_flag is 1, or neither holds.
   */
  lemma HeightExactly(sps: Sps)
    requires 16 * (2 - sps.frame.mbsOnly) * (sps.frame.heightInMapUnits + 1) < 0x1_0000 && PictureHeight(sps) > 0
    ensures Height(sps) == PictureHeight(sps) <==>
            sps.crop.top + sps.crop.bottom == 0 || (ChromaArrayType(sps) == 1 <==> sps.frame.mbsOnly == 1)
  {
    hide ChromaArrayType;
    var coded := 16 * (2 - sps.frame.mbsOnly) * (sps.frame.heightInMapUnits + 1);
    SmallDifference(coded, sps.crop.top + sps.crop.bottom, CropUnitY(sps));
    assert CropUnitY(sps) in {1, 2, 4};
  }

  lemma SmallDifference(coded: nat, crop: nat, unit: nat)
    requires coded < 0x1_0000 && unit in {1, 2, 4} && coded - unit * crop > 0
    ensures (coded - 2 * crop) % 0x1_0000 == coded - unit * crop <==> crop == 0 || unit == 2
  {
    if unit == 1 && coded - 2 * crop < 0 {
      assert (coded - 2 * crop) % 0x1_0000 == coded - 2 * crop + 0x1_0000;
    }
  }

  /** An interlaced picture of 1080 lines, coded as 1088 and cropped by two units of four, is taken for 1084. */
  lemma InterlacedIsTooTall(sps: Sps)
    requires sps.profile.profileIdc == 100 && sps.high.chromaFormatIdc == 1 && sps.high.separateColourPlane == 0
    requires sps.frame.mbsOnly == 0 && sps.frame.heightInMapUnits == 33 && sps.crop == Crop(1, 0, 0, 0, 2)
    ensures PictureHeight(sps) == 1080 && Height(sps) == 1084
  {
  }
}
