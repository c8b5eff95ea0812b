/** Conversion of Annex B byte streams to length-prefixed form (DecodeAnnexB and IndexFrom in pkg/h264/avc.go). */
module AnnexB {
  import opened Bytes
  import opened Wrappers
  import opened Avcc

  /** The separator 00 00 01 starts at i. */
  predicate SepAt(b: Data, i: int)
  {
    0 <= i <= |b| - 3 && b[i] == 0 && b[i + 1] == 0 && b[i + 2] == 1
  }

  /** The first separator from position i on; -1 when there is none. */
  function Index(b: Data, i: nat): (r: int)
    ensures r == -1 || (i <= r && SepAt(b, r))
    ensures forall j :: i <= j < (if r == -1 then |b| else r) ==> !SepAt(b, j)
    decreases |b| - i
  {
    if i + 3 > |b| then -1
    else if SepAt(b, i) then i
    else Index(b, i + 1)
  }

  lemma IndexIs(b: Data, i: nat, p: nat)
    requires i <= p && SepAt(b, p) && forall j :: i <= j < p ==> !SepAt(b, j)
    ensures Index(b, i) == p
  {
  }

  lemma IndexIsNone(b: Data, i: nat)
    requires forall j :: i <= j < |b| ==> !SepAt(b, j)
    ensures Index(b, i) == -1
  {
  }

  /** A first byte DecodeAnnexB takes for the start of a NAL unit of its own: F clear, type 1, 5, 7 or 8. */
  predicate Starts(octet: byte)
  {
    octet < 0x80 && (octet % 0x20 == 1 || octet % 0x20 == 5 || octet % 0x20 == 7 || octet % 0x20 == 8)
  }

  /** binary.BigEndian.PutUint32(b[at:], uint32(n)). */
  function Patch(b: Data, at: nat, n: int): (r: Data)
    requires at + 4 <= |b|
    ensures |r| == |b| && r[at + 4..] == b[at + 4..]
  {
    b[..at] + PutU32(if n >= 0 then n else n % 0x1_0000_0000) + b[at + 4..]
  }

  /** The variables of the loop: the buffer, the search position, the current length field. */
  datatype Loop = Loop(b: Data, i: nat, startPos: nat)

  predicate Running(l: Loop) {
    l.i > 0 && l.startPos + 3 <= l.i && l.startPos + 4 <= |l.b|
  }

  /** A NAL unit of its own starts at j: the current length is filled in, and the start code becomes the next one. */
  function Opened(l: Loop, j: nat): (r: Loop)
    requires Running(l) && l.i + 3 <= j < |l.b|
    ensures Running(r) && |r.b| - r.i < |l.b| - l.i
  {
    if l.b[j - 4] != 0 then
      Loop(Patch(l.b, l.startPos, j - l.startPos - 7)[..j] + [0] + l.b[j..], j, j - 3)
    else
      Loop(Patch(l.b, l.startPos, j - l.startPos - 8), j, j - 4)
  }

  /** One turn of the loop; None when it breaks. */
  function Turn(l: Loop): (r: Option<Loop>)
    requires Running(l)
    ensures r.Some? ==> Running(r.value) && |r.value.b| - r.value.i < |l.b| - l.i && l.i <= |l.b|
  {
    var k := Index(l.b, l.i);
    var j := k + 3;
    if k < 0 || j >= |l.b| then None
    else if !Starts(l.b[j]) then Some(l.(i := j))
    else Some(Opened(l, j))
  }

  /** The rest of the loop, and the last patch. */
  function Convert(l: Loop): (r: Data)
    requires Running(l)
    decreases |l.b| - l.i
  {
    match Turn(l)
    case None => Patch(l.b, l.startPos, |l.b| - l.startPos - 4)
    case Some(next) => Convert(next)
  }

  /** The inputs on which no index of DecodeAnnexB is out of range. */
  predicate Decodable(b: Data) {
    |b| >= 4 || (|b| == 3 && b[2] == 1)
  }

  function Decoded(b: Data): (r: Data)
    requires Decodable(b)
  {
    Convert(Loop(if b[2] == 1 then [0] + b else b, 4, 0))
  }

  method IndexFrom(b: Data, from: nat) returns (r: int)
    ensures r == Index(b, from)
  {
    var i := from;
    while i + 3 <= |b|
      invariant Index(b, from) == Index(b, i)
      decreases |b| - i
    {
      if b[i] == 0 && b[i + 1] == 0 && b[i + 2] == 1 {
        return i;
      }
      i := i + 1;
    }
    return -1;
  }

  /** The two cases of the start code in front of position i. */
  method Open(l: Loop, i: nat) returns (b: Data, startPos: nat)
    requires Running(l) && l.i + 3 <= i < |l.b|
    ensures Loop(b, i, startPos) == Opened(l, i)
  {
    hide Patch;
    b, startPos := l.b, l.startPos;
    if b[i - 4] != 0 {
      b := Patch(b, startPos, i - startPos - 7);
      assert b[i..] == b[startPos + 4..][i - startPos - 4..] == l.b[i..];
      b := b[..i] + [0] + b[i..];
      startPos := i - 3;
    } else {
      b := Patch(b, startPos, i - startPos - 8);
      startPos := i - 4;
    }
  }

  /** The body of the loop: `done` when it breaks. */
  method Search(l: Loop) returns (done: bool, b: Data, i: nat, startPos: nat)
    requires Running(l)
    ensures done == Turn(l).None?
    ensures if done then b == l.b && startPos == l.startPos else Turn(l) == Some(Loop(b, i, startPos))
  {
    done, b, i, startPos := false, l.b, l.i, l.startPos;
    var k := IndexFrom(b, i);
    hide Opened, Index;
    if k < 0 {
      return true, b, i, startPos;
    }
    i := k + 3;
    if i >= |b| {
      return true, b, i, startPos;
    }
    var octet := b[i];
    if octet >= 0x80 {
      return;
    }
    var kind := octet % 0x20;
    if kind == 1 || kind == 5 || kind == 7 || kind == 8 {
      b, startPos := Open(l, i);
    }
  }

  method DecodeAnnexB(input: Data) returns (b: Data)
    requires Decodable(input)
    ensures b == Decoded(input)
  {
    hide Turn;
    b := input;
    if b[2] == 1 {
      b := [0] + b;
    }
    var i, startPos: nat := 4, 0;
    while true
      invariant Running(Loop(b, i, startPos))
      invariant Decoded(input) == Convert(Loop(b, i, startPos))
      decreases |b| - i
    {
      ghost var l := Loop(b, i, startPos);
      var done;
      done, b, i, startPos := Search(Loop(b, i, startPos));
      if done {
        break;
      }
    }
    b := Patch(b, startPos, |b| - startPos - 4);
  }

  // Streams of NAL units between start codes of three or four bytes.

  /** A NAL unit and the start code in front of it; `long` says that it is the four-byte one. */
  datatype Unit = Unit(long: bool, nal: Data)

  function StartCode(long: bool): (r: Data)
  {
    if long then [0, 0, 0, 1] else [0, 0, 1]
  }

  function Raw(units: seq<Unit>): (r: Data)
  {
    if units == [] then [] else StartCode(units[0].long) + units[0].nal + Raw(units[1..])
  }

  /** No start code inside, no zero byte at the end: section 7.4.1 of ITU-T H.264. */
  ghost predicate Clean(n: Data) {
    n != [] && n[|n| - 1] != 0 && forall j :: 0 <= j < |n| ==> !SepAt(n, j)
  }

  ghost predicate AllClean(units: seq<Unit>) {
    forall k :: 0 <= k < |units| ==> Clean(units[k].nal)
  }

  /** What the converter takes for the NAL units: one it does not recognise stays part of the one before. */
  function Gather(cur: Data, units: seq<Unit>): (r: seq<Data>)
    decreases |units|
  {
    if units == [] then [cur]
    else
      var n := units[0].nal;
      if n != [] && Starts(n[0]) then [cur] + Gather(n, units[1..])
      else Gather(cur + StartCode(units[0].long) + n, units[1..])
  }

  /** The buffer in mid-conversion: finished units, a length field, the unit being read, and the rest untouched. */
  function Buffer(done: Data, field: Data, cur: Data, rest: seq<Unit>): (r: Data)
  {
    done + field + cur + Raw(rest)
  }

  /** The search position: at the last NAL unit read, or one before it after an inserted byte. */
  ghost predicate Searching(done: Data, field: Data, before: Data, n: Data, i: nat) {
    && |field| == 4 && Clean(n)
    && (i == |done| + 4 + |before| || (i == |done| + 3 && before == [] && field[3] == 0 && n[0] != 0))
  }

  lemma NoSeparatorInside(done: Data, field: Data, before: Data, n: Data, rest: seq<Unit>, i: nat, j: nat)
    requires Searching(done, field, before, n, i) && i <= j < |done + field + before + n|
    ensures !SepAt(Buffer(done, field, before + n, rest), j)
  {
    hide Raw;
    var b := Buffer(done, field, before + n, rest);
    var head := done + field + before;
    var end := |head| + |n|;
    assert b == head + n + Raw(rest);
    assert b[end - 1] == n[|n| - 1];
    if j >= |head| && j + 3 <= end {
      assert !SepAt(n, j - |head|);
      assert n[j - |head|] == b[j] && n[j - |head| + 1] == b[j + 1] && n[j - |head| + 2] == b[j + 2];
    }
  }

  lemma NextSeparator(done: Data, field: Data, before: Data, n: Data, rest: seq<Unit>, i: nat)
    requires Searching(done, field, before, n, i) && AllClean(rest)
    ensures var b := Buffer(done, field, before + n, rest);
            Index(b, i) == if rest == [] then -1 else |done| + 4 + |before + n| + if rest[0].long then 1 else 0
  {
    var b := Buffer(done, field, before + n, rest);
    var end := |done + field + before + n|;
    assert b == (done + field + before + n) + Raw(rest);
    forall j | i <= j < end ensures !SepAt(b, j) {
      NoSeparatorInside(done, field, before, n, rest, i, j);
    }
    if rest == [] {
      IndexIsNone(b, i);
    } else {
      var sc := StartCode(rest[0].long);
      var p := end + if rest[0].long then 1 else 0;
      assert b[end..][..|sc|] == sc;
      assert forall j :: 0 <= j < |sc| ==> b[end + j] == b[end..][..|sc|][j];
      IndexIs(b, i, p);
    }
  }

  lemma PatchBuffer(done: Data, field: Data, cur: Data, rest: seq<Unit>)
    requires |field| == 4
    ensures Patch(Buffer(done, field, cur, rest), |done|, |cur|) == done + Prefixed(cur) + Raw(rest)
  {
    hide PutU32;
    var b := Buffer(done, field, cur, rest);
    assert b == done + field + (cur + Raw(rest));
    assert b[..|done|] == done && b[|done| + 4..] == cur + Raw(rest);
  }

  /** The bytes the loop looks at once it has passed the separator. */
  lemma AfterSeparator(done: Data, field: Data, cur: Data, rest: seq<Unit>)
    requires |field| == 4 && cur != [] && cur[|cur| - 1] != 0 && rest != [] && rest[0].nal != []
    ensures var b := Buffer(done, field, cur, rest);
            var j := |done| + 4 + |cur| + |StartCode(rest[0].long)|;
            j < |b| && b[j] == rest[0].nal[0] && (b[j - 4] == 0 <==> rest[0].long)
  {
  }

  /** Closing the current unit and opening the next one. */
  lemma StartUnit(done: Data, field: Data, cur: Data, rest: seq<Unit>)
    requires |field| == 4 && rest != []
    ensures var sc, after := StartCode(rest[0].long), rest[0].nal + Raw(rest[1..]);
            var b := Buffer(done, field, cur, rest);
            var j := |done| + 4 + |cur| + |sc|;
            && b[j..] == after
            && Patch(b, |done|, |cur|) == (done + Prefixed(cur)) + sc + after
            && Patch(b, |done|, |cur|)[..j] == (done + Prefixed(cur)) + sc
            && |done + Prefixed(cur)| == |done| + 4 + |cur|
  {
    var sc, after := StartCode(rest[0].long), rest[0].nal + Raw(rest[1..]);
    assert Raw(rest) == sc + after;
    hide PutU32, Patch, Raw, StartCode;
    PatchBuffer(done, field, cur, rest);
    DropFront(done + field + cur, sc, after);
    DropFront(done + Prefixed(cur), sc, after);
  }

  lemma DropFront(a: Data, b: Data, c: Data)
    ensures (a + (b + c))[|a| + |b|..] == c
    ensures a + (b + c) == a + b + c
    ensures (a + (b + c))[..|a| + |b|] == a + b
  {
  }

  /** A long start code becomes the next length field as it stands. */
  lemma StartLong(done: Data, rest: seq<Unit>)
    requires rest != [] && rest[0].long
    ensures done + StartCode(true) + (rest[0].nal + Raw(rest[1..]))
         == Buffer(done, FieldOf(true), [] + rest[0].nal, rest[1..])
  {
  }

  /** A short one becomes a length field by the byte inserted after it. */
  lemma StartShort(done: Data, rest: seq<Unit>)
    requires rest != [] && !rest[0].long
    ensures done + StartCode(false) + [0] + (rest[0].nal + Raw(rest[1..]))
         == Buffer(done, FieldOf(false), [] + rest[0].nal, rest[1..])
  {
    assert done + StartCode(false) + [0] == done + [0, 0, 1, 0];
  }

  lemma EndTurn(done: Data, field: Data, before: Data, n: Data, i: nat)
    requires Searching(done, field, before, n, i) && i > 0
    ensures Turn(Loop(Buffer(done, field, before + n, []), i, |done|)) == None
  {
    NextSeparator(done, field, before, n, [], i);
  }

  /** A unit that does not start one of its own is read on as it stands, start code and all. */
  lemma GlueTurn(done: Data, field: Data, before: Data, n: Data, rest: seq<Unit>, i: nat)
    requires Searching(done, field, before, n, i) && i > 0
    requires rest != [] && AllClean(rest) && !Starts(rest[0].nal[0])
    ensures Turn(Loop(Buffer(done, field, before + n, rest), i, |done|))
         == Some(Loop(Buffer(done, field, before + n + StartCode(rest[0].long) + rest[0].nal, rest[1..]),
                      |done| + 4 + |before + n| + |StartCode(rest[0].long)|, |done|))
  {
    hide Opened, Index, SepAt, Starts, Buffer;
    NextSeparator(done, field, before, n, rest, i);
    AfterSeparator(done, field, before + n, rest);
    GlueBuffer(done, field, before + n, rest);
  }

  lemma GlueBuffer(done: Data, field: Data, cur: Data, rest: seq<Unit>)
    requires rest != []
    ensures Buffer(done, field, cur + StartCode(rest[0].long) + rest[0].nal, rest[1..]) == Buffer(done, field, cur, rest)
  {
  }

  function FieldOf(long: bool): (r: Data)
    ensures |r| == 4
  {
    if long then [0, 0, 0, 1] else [0, 0, 1, 0]
  }

  /** The loop at the start of the next unit, everything before it finished. */
  function Reopened(done: Data, rest: seq<Unit>): (l: Loop)
    requires rest != []
  {
    Loop(Buffer(done, FieldOf(rest[0].long), [] + rest[0].nal, rest[1..]), |done| + |StartCode(rest[0].long)|, |done|)
  }

  lemma OpenedBuffer(done: Data, field: Data, cur: Data, rest: seq<Unit>, i: nat)
    requires |field| == 4 && cur != [] && cur[|cur| - 1] != 0 && rest != [] && rest[0].nal != []
    requires i > 0 && |done| + 3 <= i
    requires i + 3 <= |done| + 4 + |cur| + |StartCode(rest[0].long)| < |Buffer(done, field, cur, rest)|
    ensures Opened(Loop(Buffer(done, field, cur, rest), i, |done|), |done| + 4 + |cur| + |StartCode(rest[0].long)|)
         == Reopened(done + Prefixed(cur), rest)
  {
    hide PutU32, Patch, Raw;
    AfterSeparator(done, field, cur, rest);
    StartUnit(done, field, cur, rest);
    var done' := done + Prefixed(cur);
    if rest[0].long {
      StartLong(done', rest);
    } else {
      StartShort(done', rest);
    }
  }

  lemma StartTurn(done: Data, field: Data, before: Data, n: Data, rest: seq<Unit>, i: nat)
    requires Searching(done, field, before, n, i) && i > 0
    requires rest != [] && AllClean(rest) && Starts(rest[0].nal[0])
    ensures Turn(Loop(Buffer(done, field, before + n, rest), i, |done|))
         == Some(Reopened(done + Prefixed(before + n), rest))
  {
    hide PutU32, Opened, Index, SepAt, Starts, Buffer;
    NextSeparator(done, field, before, n, rest, i);
    AfterSeparator(done, field, before + n, rest);
    OpenedBuffer(done, field, before + n, rest, i);
  }

  /** The loop from mid-conversion on: the units gathered from here are joined after the finished ones. */
  lemma {:induction false} ConvertBuffer(done: Data, field: Data, before: Data, n: Data, rest: seq<Unit>, i: nat)
    requires Searching(done, field, before, n, i) && AllClean(rest) && i > 0
    ensures Convert(Loop(Buffer(done, field, before + n, rest), i, |done|)) == done + Join(Gather(before + n, rest))
    decreases |rest|
  {
    hide PutU32, Patch, Index, SepAt, Turn, Buffer, Starts, Raw, Join, Prefixed;
    var cur := before + n;
    if rest == [] {
      EndTurn(done, field, before, n, i);
      EndPatch(done, field, cur);
    } else {
      var u, rest' := rest[0], rest[1..];
      if !Starts(u.nal[0]) {
        GlueTurn(done, field, before, n, rest, i);
        var cur' := cur + StartCode(u.long);
        ConvertBuffer(done, field, cur', u.nal, rest', |done| + 4 + |cur'|);
      } else {
        StartTurn(done, field, before, n, rest, i);
        var done' := done + Prefixed(cur);
        StartsWithNonZero(u.nal[0]);
        ConvertBuffer(done', FieldOf(u.long), [], u.nal, rest', |done'| + |StartCode(u.long)|);
        assert [] + u.nal == u.nal;
        JoinStep(done, cur, Gather(u.nal, rest'));
      }
    }
  }

  lemma StartsWithNonZero(octet: byte)
    requires Starts(octet)
    ensures octet != 0
  {
  }

  lemma EndPatch(done: Data, field: Data, cur: Data)
    requires |field| == 4 && cur != []
    ensures var b := Buffer(done, field, cur, []);
            Patch(b, |done|, |b| - |done| - 4) == done + Join([cur])
  {
    hide PutU32, Patch;
    PatchBuffer(done, field, cur, []);
    JoinOne(cur);
    assert done + Prefixed(cur) + [] == done + Prefixed(cur);
  }

  lemma JoinStep(done: Data, cur: Data, later: seq<Data>)
    requires cur != []
    ensures done + Prefixed(cur) + Join(later) == done + Join([cur] + later)
  {
    hide PutU32;
    assert ([cur] + later)[1..] == later;
    assert done + Prefixed(cur) + Join(later) == done + (Prefixed(cur) + Join(later));
  }

  function Nals(units: seq<Unit>): (r: seq<Data>)
    ensures |r| == |units| && forall k :: 0 <= k < |r| ==> r[k] == units[k].nal
  {
    seq(|units|, k requires 0 <= k < |units| => units[k].nal)
  }

  lemma CodeInFront(long: bool, body: Data)
    requires body != []
    ensures |StartCode(long) + body| >= 4
    ensures (StartCode(long) + body)[2] == 1 <==> !long
    ensures [0] + (StartCode(false) + body) == StartCode(true) + body
  {
    var raw := StartCode(long) + body;
    assert raw[2] == StartCode(long)[2];
    assert [0] + StartCode(false) == StartCode(true);
    assert [0] + (StartCode(false) + body) == ([0] + StartCode(false)) + body;
  }

  lemma RawSplit(units: seq<Unit>)
    requires units != []
    ensures Raw(units) == StartCode(units[0].long) + (units[0].nal + Raw(units[1..]))
    ensures Buffer([], StartCode(true), units[0].nal, units[1..]) == StartCode(true) + (units[0].nal + Raw(units[1..]))
  {
    hide StartCode;
    Regroup(StartCode(units[0].long), units[0].nal, Raw(units[1..]));
    Regroup(StartCode(true), units[0].nal, Raw(units[1..]));
    assert [] + StartCode(true) == StartCode(true);
  }

  /** Whatever the first start code, the loop begins with a four-byte one. */
  lemma FirstBuffer(units: seq<Unit>)
    requires units != [] && units[0].nal != []
    ensures Decodable(Raw(units))
    ensures (if Raw(units)[2] == 1 then [0] + Raw(units) else Raw(units))
         == Buffer([], StartCode(true), units[0].nal, units[1..])
  {
    hide Raw, Buffer, StartCode;
    RawSplit(units);
    CodeInFront(units[0].long, units[0].nal + Raw(units[1..]));
  }

  /** On every stream of clean NAL units the result is the gathered units, joined. */
  lemma DecodesToGathered(units: seq<Unit>)
    requires units != [] && AllClean(units)
    ensures Decodable(Raw(units))
    ensures Decoded(Raw(units)) == Join(Gather(units[0].nal, units[1..]))
  {
    hide Convert, PutU32, Gather, Join, Turn, Buffer, Raw;
    var n, rest := units[0].nal, units[1..];
    FirstBuffer(units);
    assert [] + n == n;
    ConvertBuffer([], StartCode(true), [], n, rest, 4);
    assert [] + Join(Gather(n, rest)) == Join(Gather(n, rest));
  }

  lemma {:induction false} GatherShape(cur: Data, units: seq<Unit>)
    requires cur != [] && forall k :: 0 <= k < |units| ==> units[k].nal != []
    ensures Solid(Gather(cur, units))
    ensures |Gather(cur, units)| <= |units| + 1
    ensures AllStart(units) <==> |Gather(cur, units)| == |units| + 1
    ensures |Gather(cur, units)| == |units| + 1 ==> Gather(cur, units) == [cur] + Nals(units)
    decreases |units|
  {
    if units != [] {
      var n := units[0].nal;
      if Starts(n[0]) {
        GatherShape(n, units[1..]);
        assert [n] + Nals(units[1..]) == Nals(units);
      } else {
        GatherShape(cur + StartCode(units[0].long) + n, units[1..]);
      }
    }
  }

  /** Slices, sequence and picture parameter sets, forbidden bit clear. */
  ghost predicate AllStart(units: seq<Unit>) {
    forall k :: 0 <= k < |units| ==>
      units[k].nal != [] && units[k].nal[0] < 0x80
      && var t := units[k].nal[0] as nat % 0x20;
         t == 1 || t == 5 || t == 7 || t == 8
  }

  /** The result is the length-prefixed form of the units exactly when each after the first is recognised. */
  lemma AnnexBToAvcc(units: seq<Unit>)
    requires units != [] && AllClean(units) && |Raw(units)| < 0x1_0000_0000
    ensures Decodable(Raw(units))
    ensures Decoded(Raw(units)) == Join(Nals(units)) <==> AllStart(units[1..])
  {
    hide Decoded, Starts, Raw, Join, Gather, AllStart, AllClean;
    DecodesToGathered(units);
    if AllStart(units[1..]) {
      GatherApart(units);
    }
    if Join(Gather(units[0].nal, units[1..])) == Join(Nals(units)) {
      GatherInjects(units);
      ApartAllStart(units);
    }
  }

  lemma GatherApart(units: seq<Unit>)
    requires units != [] && AllClean(units) && AllStart(units[1..])
    ensures Gather(units[0].nal, units[1..]) == Nals(units)
  {
    hide Gather, AllStart, Starts;
    GatherShape(units[0].nal, units[1..]);
    assert Nals(units) == [units[0].nal] + Nals(units[1..]);
  }

  lemma ApartAllStart(units: seq<Unit>)
    requires units != [] && AllClean(units) && Gather(units[0].nal, units[1..]) == Nals(units)
    ensures AllStart(units[1..])
  {
    hide Gather, AllStart, Starts;
    GatherShape(units[0].nal, units[1..]);
    assert |Nals(units)| == |units|;
  }

  lemma GatherInjects(units: seq<Unit>)
    requires units != [] && AllClean(units) && |Raw(units)| < 0x1_0000_0000
    requires Join(Gather(units[0].nal, units[1..])) == Join(Nals(units))
    ensures Gather(units[0].nal, units[1..]) == Nals(units)
  {
    hide Raw, Join, Gather, Starts;
    UnitsAreShort(units);
    ShortGather(units);
    GatherShape(units[0].nal, units[1..]);
    JoinInjective(Gather(units[0].nal, units[1..]), Nals(units));
  }

  /** An SEI unit after a slice becomes part of the slice, start code and all. */
  lemma SeiIsMerged()
    ensures var slice: Data, sei: Data := [0x65, 1], [0x06, 2];
            var units := [Unit(true, slice), Unit(true, sei)];
            && Decodable(Raw(units))
            && Decoded(Raw(units)) == Join([[0x65, 1, 0, 0, 0, 1, 0x06, 2]]) != Join(Nals(units))
  {
    hide Decoded, Raw;
    var slice: Data, sei: Data := [0x65, 1], [0x06, 2];
    var units := [Unit(true, slice), Unit(true, sei)];
    assert AllClean(units);
    DecodesToGathered(units);
    assert !Starts(sei[0]);
    assert units[1..] == [units[1]] && [units[1]][1..] == [];
    var merged := slice + StartCode(true) + sei;
    assert Gather(slice, units[1..]) == [merged] && merged == [0x65, 1, 0, 0, 0, 1, 0x06, 2];
    assert Nals(units) == [slice, sei];
    if Join([merged]) == Join([slice, sei]) {
      JoinInjective([merged], [slice, sei]);
    }
  }

  lemma ShortGather(units: seq<Unit>)
    requires units != [] && |Raw(units)| < 0x1_0000_0000
    ensures Short(Gather(units[0].nal, units[1..]))
  {
    RawSplit(units);
    GatherIsShort(units[0].nal, units[1..]);
  }

  lemma {:induction false} UnitsAreShort(units: seq<Unit>)
    ensures forall k :: 0 <= k < |units| ==> |units[k].nal| <= |Raw(units)|
  {
    if units != [] {
      UnitsAreShort(units[1..]);
      forall k | 0 <= k < |units| ensures |units[k].nal| <= |Raw(units)| {
        assert k > 0 ==> units[k] == units[1..][k - 1];
      }
    }
  }

  lemma {:induction false} GatherIsShort(cur: Data, units: seq<Unit>)
    ensures forall k :: 0 <= k < |Gather(cur, units)| ==> |Gather(cur, units)[k]| <= |cur| + |Raw(units)|
    decreases |units|
  {
    if units != [] {
      var n := units[0].nal;
      if n != [] && Starts(n[0]) {
        GatherIsShort(n, units[1..]);
      } else {
        GatherIsShort(cur + StartCode(units[0].long) + n, units[1..]);
      }
    }
  }

  /** And then SplitNALU gives the units back, each behind its length. */
  lemma SplitRecovers(units: seq<Unit>)
    requires units != [] && AllClean(units) && |Raw(units)| < 0x1_0000_0000
    requires AllStart(units[1..])
    ensures Split(Decoded(Raw(units))) == Some(PrefixedAll(Nals(units)))
  {
    AnnexBToAvcc(units);
    UnitsAreShort(units);
    SplitOfJoin(Nals(units));
  }
}
