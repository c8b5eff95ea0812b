/**
 FixPixFmt of pkg/h264/sps.go: a second walk over the parameter set, written apart from DecodeSPS, that clears
 video_full_range_flag in place.  The two walks are shown to agree bit by bit, and the patch to change nothing else.
 */
module SpsFix {
  import opened Bytes
  import opened Wrappers
  import opened Bits
  import opened BitIO
  import opened Sps

  // The walk, part by part as FixPixFmt has it: values are dropped unless a branch needs them.

  function WalkFlags(s: seq<bit>, c: Cursor, left: nat): (r: (bool, Cursor))
    decreases left
  {
    if left == 0 then (false, c)
    else
      var (present, c1) := GetBit(s, c);
      if present != 0 then (true, c1) else WalkFlags(s, c1, left - 1)
  }

  /** The flag says that the walk stops: a scaling list is present. */
  function WalkHigh(s: seq<bit>, c: Cursor, profile: nat): (r: (bool, Cursor))
  {
    if !IsHighProfile(profile) then (false, c)
    else
      var (chroma, c1) := GetUE(s, c);
      var c2 := if chroma == 3 then GetBit(s, c1).1 else c1;
      var n := if chroma == 3 then 12 else 8;
      var c3 := GetUE(s, c2).1;
      var c4 := GetUE(s, c3).1;
      var c5 := GetBit(s, c4).1;
      var (matrix, c6) := GetBit(s, c5);
      if matrix != 0 then WalkFlags(s, c6, n) else (false, c6)
  }

  function WalkOrder(s: seq<bit>, c: Cursor): (r: Cursor)
  {
    var c1 := GetUE(s, c).1;
    var (kind, c2) := GetUE(s, c1);
    if kind == 0 then GetUE(s, c2).1
    else if kind == 1 then
      var c3 := GetBit(s, c2).1;
      var c4 := GetSE(s, c3).1;
      var c5 := GetSE(s, c4).1;
      var (n, c6) := GetUE(s, c5);
      SkipSE(s, c6, n)
    else c2
  }

  function WalkFrame(s: seq<bit>, c: Cursor): (r: Cursor)
  {
    var c1 := GetUE(s, c).1;
    var c2 := GetBit(s, c1).1;
    var c3 := GetUE(s, c2).1;
    var c4 := GetUE(s, c3).1;
    var (mbsOnly, c5) := GetBit(s, c4);
    var c6 := if mbsOnly == 0 then GetBit(s, c5).1 else c5;
    GetBit(s, c6).1
  }

  function WalkCrop(s: seq<bit>, c: Cursor): (r: Cursor)
  {
    var (present, c1) := GetBit(s, c);
    if present != 0 then GetUE(s, GetUE(s, GetUE(s, GetUE(s, c1).1).1).1).1 else c1
  }

  /** The cursor at video_full_range_flag, when there is one. */
  function WalkVui(s: seq<bit>, c: Cursor): (r: Option<Cursor>)
  {
    var (present, c1) := GetBit(s, c);
    if present == 0 then None
    else
      var (aspect, c2) := GetBit(s, c1);
      var c3 :=
        if aspect == 0 then c2
        else
          var (idc, c') := GetBits(s, c2, 8);
          if idc == 255 then GetBits(s, GetBits(s, c', 16).1, 16).1 else c';
      var (overscan, c4) := GetBit(s, c3);
      var c5 := if overscan != 0 then GetBit(s, c4).1 else c4;
      var (signal, c6) := GetBit(s, c5);
      if signal != 0 then Some(GetBits(s, c6, 3).1) else None
  }

  /** Where the walk ends up: the cursor at the flag, or None when it never gets there. */
  function Site(s: seq<bit>): (r: Option<Cursor>)
  {
    var c := GetBits(s, Cursor(0, false), 8).1;
    var (profile, c1) := GetBits(s, c, 8);
    var c2 := GetBits(s, c1, 8).1;
    var c3 := GetBits(s, c2, 8).1;
    var c4 := GetUE(s, c3).1;
    var (stop, c5) := WalkHigh(s, c4, profile);
    if stop then None
    else WalkVui(s, WalkCrop(s, WalkFrame(s, WalkOrder(s, c5))))
  }

  /** `b &= ^byte(1 << k)`. */
  function ClearBit(b: nat, k: nat): (r: nat)
    ensures r <= b
  {
    BitIsPart(b, k);
    b - BitOf(b, k) * Pow2(k)
  }

  lemma BitIsPart(b: nat, k: nat)
    ensures BitOf(b, k) * Pow2(k) <= b
  {
    if BitOf(b, k) == 1 && b < Pow2(k) {
      ModuloOf(b, Pow2(k), 0, b);
    }
  }

  function ClearAt(b: Data, q: nat): (r: Data)
    requires q < 8 * |b|
    ensures |r| == |b|
  {
    b[q / 8 := ClearBit(b[q / 8], 7 - q % 8)]
  }

  /** The bytes FixPixFmt leaves. */
  function Fixed(sps: Data): (r: Data)
    ensures |r| == |sps|
  {
    var site := Site(BitsOf(sps));
    if site.Some? && GetBit(BitsOf(sps), site.value).0 == 1 then
      BitReadLast(sps, site.value);
      ClearAt(sps, site.value.p)
    else sps
  }

  // The source's code.

  method WalkHighRead(r: Reader, profile: nat) returns (stop: bool)
    requires r.Valid()
    modifies r
    ensures r.Valid() && stop == WalkHigh(BitsOf(r.buf), old(r.Now()), profile).0
    ensures r.Now() == WalkHigh(BitsOf(r.buf), old(r.Now()), profile).1
  {
    hide BitsOf, GetBit, GetUE;
    if IsHighProfile(profile) {
      var n := 8;
      var chroma := r.ReadUEGolomb();
      if chroma == 3 {
        var plane := r.ReadBit();
        n := 12;
      }
      var luma := r.ReadUEGolomb();
      var depth := r.ReadUEGolomb();
      var bypass := r.ReadBit();
      var matrix := r.ReadBit();
      if matrix != 0 {
        ghost var before := r.Now();
        for i := 0 to n
          invariant r.Valid() && WalkFlags(BitsOf(r.buf), before, n) == WalkFlags(BitsOf(r.buf), r.Now(), n - i)
        {
          var present := r.ReadBit();
          if present != 0 {
            return true;
          }
        }
      }
    }
    stop := false;
  }

  method WalkOrderRead(r: Reader)
    requires r.Valid()
    modifies r
    ensures r.Valid() && r.Now() == WalkOrder(BitsOf(r.buf), old(r.Now()))
  {
    hide BitsOf, GetBit, GetUE, GetSE, SkipSE;
    var frameNum := r.ReadUEGolomb();
    var kind := r.ReadUEGolomb();
    if kind == 0 {
      var lsb := r.ReadUEGolomb();
    } else if kind == 1 {
      var zero := r.ReadBit();
      var nonRef := r.ReadSEGolomb();
      var topBottom := r.ReadSEGolomb();
      var n := r.ReadUEGolomb();
      ReadSkipSE(r, n);
    }
  }

  method WalkFrameRead(r: Reader)
    requires r.Valid()
    modifies r
    ensures r.Valid() && r.Now() == WalkFrame(BitsOf(r.buf), old(r.Now()))
  {
    hide BitsOf, GetBit, GetUE;
    var refs := r.ReadUEGolomb();
    var gaps := r.ReadBit();
    var width := r.ReadUEGolomb();
    var height := r.ReadUEGolomb();
    var mbsOnly := r.ReadBit();
    if mbsOnly == 0 {
      var adaptive := r.ReadBit();
    }
    var direct := r.ReadBit();
  }

  method WalkCropRead(r: Reader)
    requires r.Valid()
    modifies r
    ensures r.Valid() && r.Now() == WalkCrop(BitsOf(r.buf), old(r.Now()))
  {
    hide BitsOf, GetBit, GetUE;
    var present := r.ReadBit();
    if present != 0 {
      var left := r.ReadUEGolomb();
      var right := r.ReadUEGolomb();
      var top := r.ReadUEGolomb();
      var bottom := r.ReadUEGolomb();
    }
  }

  method WalkVuiRead(r: Reader) returns (found: bool)
    requires r.Valid()
    modifies r
    ensures r.Valid() && WalkVui(BitsOf(r.buf), old(r.Now())) == if found then Some(r.Now()) else None
  {
    hide BitsOf, GetBit, GetBits;
    var present := r.ReadBit();
    if present == 0 {
      return false;
    }
    var aspect := r.ReadBit();
    if aspect != 0 {
      var idc := r.ReadByte();
      if idc == 255 {
        var width := r.ReadUint16();
        var height := r.ReadUint16();
      }
    }
    var overscan := r.ReadBit();
    if overscan != 0 {
      var appropriate := r.ReadBit();
    }
    var signal := r.ReadBit();
    if signal == 0 {
      return false;
    }
    var format := r.ReadBits8(3);
    found := true;
  }

  method FixPixFmt(sps: array<byte>)
    modifies sps
    ensures sps[..] == Fixed(old(sps[..]))
  {
    hide BitsOf, GetBit, GetBits, GetUE, WalkHigh, WalkOrder, WalkFrame, WalkCrop, WalkVui, ClearAt;
    ghost var was := sps[..];
    var r := new Reader(sps[..]);
    var header := r.ReadByte();
    var profile := r.ReadByte();
    var iop := r.ReadByte();
    var level := r.ReadByte();
    var id := r.ReadUEGolomb();
    var stop := WalkHighRead(r, profile);
    if stop {
      return;
    }
    WalkOrderRead(r);
    WalkFrameRead(r);
    WalkCropRead(r);
    var found := WalkVuiRead(r);
    if !found {
      return;
    }
    ghost var c := r.Now();
    assert Site(BitsOf(was)) == Some(c);
    if GetBit(BitsOf(was), c).0 == 1 {
      BitReadLast(was, c);
    }
    ClearFlag(sps, r);
  }

  /** The end of FixPixFmt: the flag is read, and cleared where it was read from. */
  method ClearFlag(sps: array<byte>, r: Reader)
    requires r.Valid() && r.buf == sps[..]
    modifies r, sps
    ensures sps[..] == (if GetBit(BitsOf(old(sps[..])), old(r.Now())).0 == 1 && old(r.Now()).p < 8 * |old(sps[..])|
                        then ClearAt(old(sps[..]), old(r.Now()).p) else old(sps[..]))
  {
    hide BitsOf, GetBit, ClearBit;
    ghost var was, c := sps[..], r.Now();
    var full := r.ReadBit();
    if full == 1 {
      var pos, k := r.Pos();
      BitReadLast(r.buf, c);
      assert !r.EOF && c.p == 8 * (r.pos - 1) + (7 - r.bits);
      sps[pos] := ClearBit(sps[pos], k);
      assert sps[..] == was[pos := ClearBit(was[pos], k)];
    }
  }

  /** A bit read as 1 was inside the data, and Pos gives its place. */
  lemma BitReadLast(buf: Data, c: Cursor)
    requires GetBit(BitsOf(buf), c).0 == 1
    ensures !c.eof && c.p < 8 * |buf| && GetBit(BitsOf(buf), c).1 == Cursor(c.p + 1, false)
    ensures c.p / 8 < |buf|
  {
  }

  // The two walks agree.

  lemma {:induction false} FlagsAgree(s: seq<bit>, c: Cursor, i: nat, n: nat)
    requires i <= n
    ensures WalkFlags(s, c, n - i).0 == SkipScalingLists(s, c, i, n).0
    ensures !WalkFlags(s, c, n - i).0 ==> WalkFlags(s, c, n - i).1 == SkipScalingLists(s, c, i, n).1
    decreases n - i
  {
    hide GetBit;
    if i < n {
      FlagsAgree(s, GetBit(s, c).1, i + 1, n);
    }
  }

  lemma HighAgrees(s: seq<bit>, c: Cursor, idc: nat)
    ensures WalkHigh(s, c, idc).0 == GetHigh(s, c, idc).1
    ensures !WalkHigh(s, c, idc).0 ==> WalkHigh(s, c, idc).1 == GetHigh(s, c, idc).2
  {
    hide GetBit, GetUE, WalkFlags, SkipScalingLists;
    if IsHighProfile(idc) {
      var (chroma, c1) := GetUE(s, c);
      var c2 := if chroma == 3 then GetBit(s, c1).1 else c1;
      var n := if chroma == 3 then 12 else 8;
      var c6 := GetBit(s, GetBit(s, GetUE(s, GetUE(s, c2).1).1).1).1;
      FlagsAgree(s, c6, 0, n);
    }
  }

  lemma OrderAgrees(s: seq<bit>, c: Cursor)
    ensures WalkOrder(s, c) == GetOrder(s, c).1
  {
    hide GetBit, GetUE, GetSE, SkipSE;
  }

  lemma FrameAgrees(s: seq<bit>, c: Cursor)
    ensures WalkFrame(s, c) == GetFrame(s, c).1
  {
    hide GetBit, GetUE;
  }

  lemma CropAgrees(s: seq<bit>, c: Cursor)
    ensures WalkCrop(s, c) == GetCrop(s, c).1
  {
    hide GetBit, GetUE;
  }

  lemma VuiAgrees(s: seq<bit>, c: Cursor)
    ensures var (v, c1) := GetVui(s, c);
            WalkVui(s, c) == if v.present != 0 && v.signalPresent != 0 then Some(c1) else None
  {
    hide GetBit, GetBits;
  }

  /** The cursor behind the NAL unit header, where GetFront starts. */
  function AfterHeader(s: seq<bit>): (c: Cursor)
  {
    GetBits(s, Cursor(0, false), 8).1
  }

  /**
   FixPixFmt's walk stops at a scaling list; otherwise it stands at the flag exactly when DecodeSPS finds one there,
   and at the same bit.
   */
  lemma WalksAgree(s: seq<bit>)
    ensures var (front, lists, c) := GetFront(s, AfterHeader(s));
            Site(s) == if lists || front.vui.present == 0 || front.vui.signalPresent == 0 then None else Some(c)
  {
    hide GetBits, GetUE, GetHigh, GetOrder, GetFrame, GetCrop, GetVui, WalkHigh, WalkOrder, WalkFrame, WalkCrop, WalkVui;
    var c := AfterHeader(s);
    var (profile, c1) := GetProfile(s, c);
    HighAgrees(s, c1, profile.profileIdc);
    var c2 := GetHigh(s, c1, profile.profileIdc).2;
    OrderAgrees(s, c2);
    var c3 := GetOrder(s, c2).1;
    FrameAgrees(s, c3);
    var c4 := GetFrame(s, c3).1;
    CropAgrees(s, c4);
    VuiAgrees(s, GetCrop(s, c4).1);
  }

  // Changing one bit: a part that ended in front of it, or began behind it, reads the same.

  lemma ProfileLocal(s: seq<bit>, q: nat, b: bit, c: Cursor)
    requires q < |s| && Short(GetProfile(s, c).1, q)
    ensures Short(c, q) && GetProfile(s[q := b], c) == GetProfile(s, c)
  {
    ReadsAreLocal(s, q, b);
    hide GetBits, GetUE;
  }

  lemma {:induction false} FlagsLocal(s: seq<bit>, q: nat, b: bit, c: Cursor, i: nat, n: nat)
    requires q < |s| && i <= n
    requires Short(SkipScalingLists(s, c, i, n).1, q) && !SkipScalingLists(s, c, i, n).0
    ensures Short(c, q) && SkipScalingLists(s[q := b], c, i, n) == SkipScalingLists(s, c, i, n)
    decreases n - i
  {
    hide GetBit;
    if i < n {
      FlagsLocal(s, q, b, GetBit(s, c).1, i + 1, n);
      GetBitLocal(s, q, b, c);
    }
  }

  lemma HighLocal(s: seq<bit>, q: nat, b: bit, c: Cursor, idc: nat)
    requires q < |s| && Short(GetHigh(s, c, idc).2, q) && !GetHigh(s, c, idc).1
    ensures Short(c, q) && GetHigh(s[q := b], c, idc) == GetHigh(s, c, idc)
  {
    ReadsAreLocal(s, q, b);
    hide GetBit, GetUE, SkipScalingLists;
    if IsHighProfile(idc) {
      var (chroma, c1) := GetUE(s, c);
      var c2 := if chroma == 3 then GetBit(s, c1).1 else c1;
      var c5 := GetBit(s, GetUE(s, GetUE(s, c2).1).1).1;
      var (matrix, c6) := GetBit(s, c5);
      if matrix != 0 {
        FlagsLocal(s, q, b, c6, 0, if chroma == 3 then 12 else 8);
      }
    }
  }

  lemma SkipSEStep(s: seq<bit>, c: Cursor, n: nat)
    requires n > 0
    ensures SkipSE(s, c, n) == SkipSE(s, GetSE(s, c).1, n - 1)
  {
    hide GetSE;
  }

  lemma {:induction false} SkipSELocal(s: seq<bit>, q: nat, b: bit, c: Cursor, n: nat)
    requires q < |s| && Short(SkipSE(s, c, n), q)
    ensures Short(c, q) && SkipSE(s[q := b], c, n) == SkipSE(s, c, n)
    decreases n
  {
    hide GetSE;
    if n > 0 {
      SkipSEStep(s, c, n);
      SkipSEStep(s[q := b], c, n);
      hide SkipSE;
      SkipSELocal(s, q, b, GetSE(s, c).1, n - 1);
      GetSELocal(s, q, b, c);
    }
  }

  lemma OrderLocal(s: seq<bit>, q: nat, b: bit, c: Cursor)
    requires q < |s| && Short(GetOrder(s, c).1, q)
    ensures Short(c, q) && GetOrder(s[q := b], c) == GetOrder(s, c)
  {
    ReadsAreLocal(s, q, b);
    hide GetBit, GetUE, GetSE, SkipSE;
    var (kind, c2) := GetUE(s, GetUE(s, c).1);
    if kind == 1 {
      var (n, c6) := GetUE(s, GetSE(s, GetSE(s, GetBit(s, c2).1).1).1);
      SkipSELocal(s, q, b, c6, n);
    }
  }

  lemma FrameLocal(s: seq<bit>, q: nat, b: bit, c: Cursor)
    requires q < |s| && Short(GetFrame(s, c).1, q)
    ensures Short(c, q) && GetFrame(s[q := b], c) == GetFrame(s, c)
  {
    ReadsAreLocal(s, q, b);
    hide GetBit, GetUE;
  }

  lemma CropLocal(s: seq<bit>, q: nat, b: bit, c: Cursor)
    requires q < |s| && Short(GetCrop(s, c).1, q)
    ensures Short(c, q) && GetCrop(s[q := b], c) == GetCrop(s, c)
  {
    ReadsAreLocal(s, q, b);
    hide GetBit, GetUE;
  }

  lemma AspectLocal(s: seq<bit>, q: nat, b: bit, c: Cursor)
    requires q < |s| && Short(GetAspect(s, c).1, q)
    ensures Short(c, q) && GetAspect(s[q := b], c) == GetAspect(s, c)
  {
    ReadsAreLocal(s, q, b);
    hide GetBit, GetBits;
  }

  lemma VuiLocal(s: seq<bit>, q: nat, b: bit, c: Cursor)
    requires q < |s| && Short(GetVui(s, c).1, q)
    ensures Short(c, q) && GetVui(s[q := b], c) == GetVui(s, c)
  {
    ReadsAreLocal(s, q, b);
    hide GetBit, GetBits, GetAspect;
    var (present, c1) := GetBit(s, c);
    if present != 0 {
      var (aspect, c2) := GetAspect(s, c1);
      var (overscan, c3) := GetBit(s, c2);
      var c4 := if overscan != 0 then GetBit(s, c3).1 else c3;
      assert Short(c2, q);
      AspectLocal(s, q, b, c1);
    }
  }

  lemma FrontLocal(s: seq<bit>, q: nat, b: bit, c: Cursor)
    requires q < |s| && Short(GetFront(s, c).2, q) && !GetFront(s, c).1
    ensures Short(c, q) && GetFront(s[q := b], c) == GetFront(s, c)
  {
    hide GetProfile, GetHigh, GetOrder, GetFrame, GetCrop, GetVui;
    var (profile, c1) := GetProfile(s, c);
    var (high, lists, c2) := GetHigh(s, c1, profile.profileIdc);
    var c3 := GetOrder(s, c2).1;
    var c4 := GetFrame(s, c3).1;
    var c5 := GetCrop(s, c4).1;
    VuiLocal(s, q, b, c5);
    CropLocal(s, q, b, c4);
    FrameLocal(s, q, b, c3);
    OrderLocal(s, q, b, c2);
    HighLocal(s, q, b, c1, profile.profileIdc);
    ProfileLocal(s, q, b, c);
  }

  lemma TimingLocal(s: seq<bit>, q: nat, b: bit, c: Cursor)
    requires q < |s| && Past(c, q)
    ensures GetTiming(s[q := b], c) == GetTiming(s, c)
  {
    hide GetBit, GetBits, GetUE;
    var (loc, c1) := GetBit(s, c);
    GetBitLocal(s, q, b, c);
    GetUELocal(s, q, b, c1);
    GetUELocal(s, q, b, GetUE(s, c1).1);
    var c3 := if loc != 0 then GetUE(s, GetUE(s, c1).1).1 else c1;
    var c4 := GetBit(s, c3).1;
    GetBitLocal(s, q, b, c3);
    GetBitsLocal(s, q, b, c4, 32);
    var c5 := GetBits(s, c4, 32).1;
    GetBitsLocal(s, q, b, c5, 32);
    GetBitLocal(s, q, b, GetBits(s, c5, 32).1);
  }

  /** The range part read across a changed flag: the flag is the new bit, the rest is as before. */
  lemma RangePatched(s: seq<bit>, c: Cursor, b: bit)
    requires !c.eof && c.p < |s|
    ensures GetRange(s[c.p := b], c) == (GetRange(s, c).0.(fullRange := b), GetRange(s, c).1)
    ensures Past(GetRange(s, c).1, c.p)
  {
    ReadsAreLocal(s, c.p, b);
    var (full, c1) := GetBit(s, c);
    assert GetBit(s[c.p := b], c) == (b, c1);
    hide GetBit, GetBits;
  }

  lemma BitCleared(buf: Data, q: nat)
    requires q < 8 * |buf|
    ensures BitsOf(ClearAt(buf, q)) == BitsOf(buf)[q := 0]
  {
    var s, t := BitsOf(ClearAt(buf, q)), BitsOf(buf)[q := 0];
    forall i | 0 <= i < |s| ensures s[i] == t[i] {
      assert i == 8 * (i / 8) + i % 8 && q == 8 * (q / 8) + q % 8;
      BitAt(ClearAt(buf, q), i / 8, i % 8);
      BitAt(buf, i / 8, i % 8);
      if i / 8 == q / 8 {
        ClearBitOf(buf[q / 8], 7 - q % 8, 7 - i % 8);
      }
    }
  }

  lemma BitsOfDouble(u: nat, b: bit, j: nat)
    ensures BitOf(2 * u + b, j) == if j == 0 then b else BitOf(u, j - 1)
  {
    if j == 0 {
      assert Pow2(0) == 1;
    } else {
      DivideTwice(2 * u + b, Pow2(j - 1));
    }
  }

  lemma ClearHalf(v: nat, k: nat)
    requires k > 0
    ensures ClearBit(v, k) == 2 * ClearBit(v / 2, k - 1) + v % 2
  {
    BitsOfDouble(v / 2, v % 2, k);
    assert BitOf(v, k) * Pow2(k) == 2 * (BitOf(v / 2, k - 1) * Pow2(k - 1));
  }

  /** Clearing bit k leaves every other bit. */
  lemma {:induction false} ClearBitOf(v: nat, k: nat, j: nat)
    ensures BitOf(ClearBit(v, k), j) == if j == k then 0 else BitOf(v, j)
  {
    assert v == 2 * (v / 2) + v % 2;
    BitsOfDouble(v / 2, v % 2, j);
    if k == 0 {
      assert Pow2(0) == 1;
      assert ClearBit(v, 0) == 2 * (v / 2) + 0;
      BitsOfDouble(v / 2, 0, j);
    } else {
      hide BitOf, ClearBit;
      ClearHalf(v, k);
      BitsOfDouble(ClearBit(v / 2, k - 1), v % 2, j);
      if j > 0 {
        ClearBitOf(v / 2, k - 1, j - 1);
      }
    }
  }

  // What the patch preserves.

  /** The bits FixPixFmt leaves. */
  lemma FixedBits(sps: Data)
    ensures var s := BitsOf(sps);
            BitsOf(Fixed(sps)) == if Site(s).Some? && GetBit(s, Site(s).value).0 == 1 then s[Site(s).value.p := 0] else s
  {
    hide BitsOf, Site, ClearAt;
    var s := BitsOf(sps);
    if Site(s).Some? && GetBit(s, Site(s).value).0 == 1 {
      BitReadLast(sps, Site(s).value);
      BitCleared(sps, Site(s).value.p);
    }
  }

  /** At most one bit of the parameter set changes, and it becomes 0. */
  lemma AtMostOneBitChanges(sps: Data)
    ensures Fixed(sps) == sps
         || exists q :: 0 <= q < 8 * |sps| && BitsOf(sps)[q] == 1 && BitsOf(Fixed(sps)) == BitsOf(sps)[q := 0]
  {
    hide Site, ClearAt;
    FixedBits(sps);
    var s := BitsOf(sps);
    if Site(s).Some? && GetBit(s, Site(s).value).0 == 1 {
      BitReadLast(sps, Site(s).value);
    }
  }

  /** A patched flag at cursor c: the parts before it, it, and the parts behind it. */
  lemma PatchedParts(s: seq<bit>, front: Front, c: Cursor)
    requires GetFront(s, AfterHeader(s)) == (front, false, c)
    requires front.vui.present != 0 && front.vui.signalPresent != 0 && GetBit(s, c).0 == 1
    requires c.p < |s| && !c.eof
    ensures var s' := s[c.p := 0];
            && GetBits(s', Cursor(0, false), 8) == GetBits(s, Cursor(0, false), 8)
            && GetFront(s', AfterHeader(s')) == (front, false, c)
            && GetRest(s', c, front.vui) == (GetRest(s, c, front.vui).0.(fullRange := 0), GetRest(s, c, front.vui).1,
                                             GetRest(s, c, front.vui).2)
  {
    hide GetFront, GetBits, GetRange, GetTiming;
    var s' := s[c.p := 0];
    FrontLocal(s, c.p, 0, AfterHeader(s));
    GetBitsLocal(s, c.p, 0, Cursor(0, false), 8);
    RangePatched(s, c, 0);
    TimingLocal(s, c.p, 0, GetRange(s, c).1);
  }

  /** DecodeSPS without its test of the header: the parts and whether the data lasted. */
  lemma DecodedIs(s: seq<bit>)
    ensures var (front, lists, c) := GetFront(s, AfterHeader(s));
            var (range, timing, c2) := GetRest(s, c, front.vui);
            DecodedBits(s) == if GetBits(s, Cursor(0, false), 8).0 % 0x20 != NAL_TYPE_SPS || c2.eof then None
                              else Some(Assemble(front, range, timing))
  {
    hide GetFront, GetRest, GetBits;
  }

  lemma UnsetFlag(s: seq<bit>)
    requires DecodedBits(s).Some? && !GetFront(s, AfterHeader(s)).1
    requires Site(s).Some? ==> GetBit(s, Site(s).value).0 == 0
    ensures DecodedBits(s).value.range.fullRange == 0
  {
    hide GetFront, GetBits, Site;
    WalksAgree(s);
    DecodedIs(s);
  }

  /**
   DecodeSPS after FixPixFmt, for every byte string.  With a scaling list in it the set is left alone.  Otherwise it
   decodes to what it did before but for video_full_range_flag, which is 0, and to nothing where it did before.
   */
  lemma FixPreservesMeaning(sps: Data)
    ensures HasScalingList(sps) ==> Fixed(sps) == sps
    ensures Decoded(sps).None? ==> Decoded(Fixed(sps)).None?
    ensures Decoded(sps).Some? && !HasScalingList(sps) ==>
              Decoded(Fixed(sps)) == Some(Decoded(sps).value.(range := Decoded(sps).value.range.(fullRange := 0)))
  {
    hide GetFront, GetBits, GetRest, BitsOf, Site, DecodedBits;
    var s := BitsOf(sps);
    var (front, lists, c) := GetFront(s, AfterHeader(s));
    WalksAgree(s);
    FixedBits(sps);
    DecodedIs(s);
    if Site(s).Some? && GetBit(s, c).0 == 1 {
      BitReadLast(sps, c);
      PatchedParts(s, front, c);
      DecodedIs(s[c.p := 0]);
    } else {
      if Decoded(sps).Some? && !lists {
        UnsetFlag(s);
      }
    }
  }

  /** A second pass finds nothing to do. */
  lemma FixIsIdempotent(sps: Data)
    ensures Fixed(Fixed(sps)) == Fixed(sps)
  {
    hide GetFront, GetBits, GetRest, BitsOf, Site;
    var s := BitsOf(sps);
    var (front, lists, c) := GetFront(s, AfterHeader(s));
    WalksAgree(s);
    FixedBits(sps);
    if Site(s).Some? && GetBit(s, c).0 == 1 {
      BitReadLast(sps, c);
      PatchedParts(s, front, c);
      var s' := s[c.p := 0];
      WalksAgree(s');
      assert GetBit(s', c).0 == 0;
    }
  }

  // The name of the pixel format (PixFmt).

  function PixFmt(s: Sps): (name: string)
  {
    if s.high.bitDepthLuma != 0 then ""
    else if s.high.chromaFormatIdc == 1 then (if s.range.fullRange == 1 then "yuvj420p" else "yuv420p")
    else if s.high.chromaFormatIdc == 2 then "yuv422p"
    else if s.high.chromaFormatIdc == 3 then "yuv444p"
    else ""
  }

  /** What the function is for: yuvj420p becomes yuv420p, and every other format stays what it was. */
  lemma FixedPixFmt(sps: Data)
    requires Decoded(sps).Some? && !HasScalingList(sps)
    ensures Decoded(Fixed(sps)).Some?
    ensures PixFmt(Decoded(Fixed(sps)).value)
         == if PixFmt(Decoded(sps).value) == "yuvj420p" then "yuv420p" else PixFmt(Decoded(sps).value)
  {
    hide Decoded, HasScalingList, Fixed;
    FixPreservesMeaning(sps);
  }
}
