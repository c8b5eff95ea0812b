/** The H.265 RTP packetiser (pkg/h265/payloader.go) with AddDONL off, as RTPPay uses it. */
module H265Payloader {
  import opened Bytes
  import opened Avcc
  import opened Aggregates

  // The 16-bit NAL unit header: F, six bits of type, six of layer id, three of temporal id plus one.

  function HeaderOf(high: byte, low: byte): (h: nat)
    ensures h < 0x1_0000
  {
    high as nat * 0x100 + low
  }

  function Type(h: nat): (t: nat)
    ensures t < 0x40
  {
    h / 0x200 % 0x40
  }

  function LayerId(h: nat): (l: nat)
    ensures l < 0x40
  {
    h / 8 % 0x40
  }

  function Tid(h: nat): (t: nat)
    ensures t < 8
  {
    h % 8
  }

  /** The type bits of a NAL unit's, or of a payload's, first byte. */
  function TypeOf(nal: Data): (t: nat)
    requires nal != []
    ensures t < 0x40
  {
    nal[0] as nat / 2 % 0x40
  }

  lemma TypeIsInTheFirstByte(high: byte, low: byte)
    ensures Type(HeaderOf(high, low)) == high as nat / 2 % 0x40
  {
  }

  const AP := 48
  const FU := 49
  const PACI := 50

  // Fragmentation units, section 4.4.3 of RFC 7798.

  /** The payload header of a fragmentation unit: the NAL unit's own, with its type replaced. */
  function FuFirstByte(high: byte): (b: byte)
  {
    high / 0x80 * 0x80 + high % 2 + FU * 2
  }

  /** One fragment: payload header, FU header with S or E, and a piece of the NAL unit. */
  function Fragment(high: byte, low: byte, first: bool, last: bool, piece: Data): (r: Data)
  {
    [FuFirstByte(high), low, high / 2 % 0x40 + if first then 0x80 else if last then 0x40 else 0] + piece
  }

  /** The fragments of what is left of a NAL unit whose body had `full` bytes. */
  function Fragments(high: byte, low: byte, body: Data, room: nat, full: nat): (r: seq<Data>)
    requires room > 0
    decreases |body|
  {
    if body == [] then []
    else
      var size := if |body| > room then room else |body|;
      [Fragment(high, low, |body| == full, |body| == size, body[..size])]
        + Fragments(high, low, body[size..], room, full)
  }

  lemma FragmentsStep(high: byte, low: byte, body: Data, room: nat, full: nat)
    requires room > 0 && body != []
    ensures var size := if |body| > room then room else |body|;
            Fragments(high, low, body, room, full) ==
            [Fragment(high, low, |body| == full, |body| == size, body[..size])]
              + Fragments(high, low, body[size..], room, full)
  {
    hide Fragment;
  }

  lemma NoFragments(high: byte, low: byte, room: nat, full: nat)
    requires room > 0
    ensures Fragments(high, low, [], room, full) == []
  {
  }

  // Aggregation packets, section 4.4.2 of RFC 7798.

  function Least(xs: seq<nat>, bound: nat): (m: nat)
  {
    if xs == [] then bound else Least(xs[1..], if xs[0] < bound then xs[0] else bound)
  }

  /** The headers of the units; the source panics on a unit without one, which counts as 0 here. */
  function Headers(nals: seq<Data>): (hs: seq<nat>)
    ensures |hs| == |nals|
    ensures forall i :: 0 <= i < |nals| && |nals[i]| >= 2 ==> hs[i] == HeaderOf(nals[i][0], nals[i][1])
  {
    seq(|nals|, i requires 0 <= i < |nals| => if |nals[i]| >= 2 then HeaderOf(nals[i][0], nals[i][1]) else 0)
  }

  function Layers(hs: seq<nat>): (ls: seq<nat>)
    ensures |ls| == |hs| && forall i :: 0 <= i < |hs| ==> ls[i] == LayerId(hs[i])
  {
    seq(|hs|, i requires 0 <= i < |hs| => LayerId(hs[i]))
  }

  function Tids(hs: seq<nat>): (ts: seq<nat>)
    ensures |ts| == |hs| && forall i :: 0 <= i < |hs| ==> ts[i] == Tid(hs[i])
  {
    seq(|hs|, i requires 0 <= i < |hs| => Tid(hs[i]))
  }

  lemma {:induction false} LeastIsLeast(xs: seq<nat>, bound: nat)
    ensures Least(xs, bound) <= bound
    ensures forall i :: 0 <= i < |xs| ==> Least(xs, bound) <= xs[i]
    ensures Least(xs, bound) == bound || Least(xs, bound) in xs
  {
    if xs != [] {
      var b := if xs[0] < bound then xs[0] else bound;
      LeastIsLeast(xs[1..], b);
      forall i | 0 <= i < |xs| ensures Least(xs, bound) <= xs[i] {
        assert i > 0 ==> xs[i] == xs[1..][i - 1];
      }
    }
  }

  /** The aggregation packet of two or more NAL units. */
  function Aggregate(nals: seq<Data>): (r: Data)
    ensures |r| == 2 + |Units(nals)|
  {
    var hs := Headers(nals);
    PutU16(AP * 0x200 + Least(Layers(hs), 0xFF) * 8 + Least(Tids(hs), 0xFF)) + Units(nals)
  }

  /** An aggregation packet announces type 48, F = 0 and the lowest layer and temporal ids among its units. */
  lemma AggregateHeader(nals: seq<Data>)
    requires nals != []
    ensures var p := Aggregate(nals); var h := HeaderOf(p[0], p[1]);
            && h < 0x8000 && Type(h) == AP
            && (forall i :: 0 <= i < |nals| ==> LayerId(h) <= LayerId(Headers(nals)[i]) && Tid(h) <= Tid(Headers(nals)[i]))
            && (exists i :: 0 <= i < |nals| && LayerId(h) == LayerId(Headers(nals)[i]))
            && (exists i :: 0 <= i < |nals| && Tid(h) == Tid(Headers(nals)[i]))
  {
    hide Aggregate, HeaderOf, Type, LayerId, Tid;
    var hs := Headers(nals);
    var l, t := Least(Layers(hs), 0xFF), Least(Tids(hs), 0xFF);
    var i, j := LowestIdsOccur(hs);
    HeaderFields(l, t);
    AggregateStarts(nals);
  }

  lemma LowestIdsOccur(hs: seq<nat>) returns (i: nat, j: nat)
    requires hs != []
    ensures var l, t := Least(Layers(hs), 0xFF), Least(Tids(hs), 0xFF);
            && i < |hs| && LayerId(hs[i]) == l && j < |hs| && Tid(hs[j]) == t
            && forall k :: 0 <= k < |hs| ==> l <= LayerId(hs[k]) && t <= Tid(hs[k])
  {
    hide Least;
    var ls, ts := Layers(hs), Tids(hs);
    LeastIsLeast(ls, 0xFF);
    LeastIsLeast(ts, 0xFF);
    assert Least(ls, 0xFF) <= ls[0] && Least(ts, 0xFF) <= ts[0];
    i :| i < |ls| && ls[i] == Least(ls, 0xFF);
    j :| j < |ts| && ts[j] == Least(ts, 0xFF);
  }

  lemma AggregateStarts(nals: seq<Data>)
    requires nals != []
    ensures var l, t := Least(Layers(Headers(nals)), 0xFF), Least(Tids(Headers(nals)), 0xFF);
            && l < 0x40 && t < 8
            && var p := Aggregate(nals); HeaderOf(p[0], p[1]) == AP * 0x200 + l * 8 + t
  {
    hide Least, Type, LayerId, Tid;
    var hs := Headers(nals);
    var l, t := Least(Layers(hs), 0xFF), Least(Tids(hs), 0xFF);
    var i, j := LowestIdsOccur(hs);
    HeaderFields(l, t);
    var p := Aggregate(nals);
    assert p[0] == (AP * 0x200 + l * 8 + t) / 0x100 % 0x100 && p[1] == (AP * 0x200 + l * 8 + t) % 0x100;
  }

  lemma HeaderFields(l: nat, t: nat)
    requires l < 0x40 && t < 8
    ensures var h := AP * 0x200 + l * 8 + t;
            h < 0x8000 && Type(h) == AP && LayerId(h) == l && Tid(h) == t
            && h / 0x100 % 0x100 * 0x100 + h % 0x100 == h
  {
    HeaderIds(l, t);
    HeaderType(l, t);
    TwoBytes(AP * 0x200 + l * 8 + t);
  }

  lemma HeaderIds(l: nat, t: nat)
    requires l < 0x40 && t < 8
    ensures var h := AP * 0x200 + l * 8 + t;
            LayerId(h) == l && Tid(h) == t
  {
    var h := AP * 0x200 + l * 8 + t;
    assert h / 8 == AP * 0x40 + l;
  }

  lemma HeaderType(l: nat, t: nat)
    requires l < 0x40 && t < 8
    ensures var h := AP * 0x200 + l * 8 + t;
            h < 0x8000 && Type(h) == AP
  {
    var h := AP * 0x200 + l * 8 + t;
    assert h / 0x200 == AP;
  }

  // The packetiser.

  /** aggregationBufferSize for the buffered units. */
  function BufferedSize(nals: seq<Data>): (n: nat)
  {
    if nals == [] then 0 else BufferedSize(nals[..|nals| - 1]) + |nals[|nals| - 1]| + 2
  }

  lemma NoneBuffered()
    ensures BufferedSize([]) == 0
  {
  }

  lemma SizeOfPush(nals: seq<Data>, n: Data)
    ensures BufferedSize(nals + [n]) == BufferedSize(nals) + |n| + 2
  {
    assert (nals + [n])[..|nals|] == nals;
  }

  lemma {:induction false} UnitsSize(nals: seq<Data>)
    ensures |Units(nals)| == BufferedSize(nals)
  {
    if nals != [] {
      var k := |nals| - 1;
      UnitsSize(nals[..k]);
      UnitsAppend(nals[..k], nals[k]);
      assert nals[..k] + [nals[k]] == nals;
    }
  }

  /** What flushBufferedNals emits. */
  function FlushOf(buffered: seq<Data>): (r: seq<Data>)
  {
    if buffered == [] then []
    else if |buffered| == 1 then buffered
    else [Aggregate(buffered)]
  }

  /** A unit too long for the mtu is dropped when a fragment of it would carry nothing. */
  predicate Dropped(mtu: nat, n: Data) {
    mtu == 3 || |n| == 2
  }

  /** What one call of the EmitNalus callback appends, and the units it leaves buffered. */
  function Step(mtu: nat, skip: bool, buffered: seq<Data>, n: Data): (r: (seq<Data>, seq<Data>))
  {
    if n == [] then ([], buffered)
    else if |n| <= mtu then
      var full := BufferedSize(buffered) + |n| + 2 > mtu;
      var early := if full then FlushOf(buffered) else [];
      var held := if full then [n] else buffered + [n];
      if skip then (early + FlushOf(held), []) else (early, held)
    else if mtu < 3 || Dropped(mtu, n) then ([], buffered)
    else (FlushOf(buffered) + Fragments(n[0], n[1], n[2..], mtu - 3, |n| - 2), [])
  }

  /** The payloads still to come, given the units already buffered. */
  function Emit(mtu: nat, skip: bool, buffered: seq<Data>, nals: seq<Data>): (r: seq<Data>)
    decreases |nals|
  {
    if nals == [] then FlushOf(buffered)
    else
      var (out, held) := Step(mtu, skip, buffered, nals[0]);
      out + Emit(mtu, skip, held, nals[1..])
  }

  function Payloads(mtu: nat, skip: bool, payload: Data): (r: seq<Data>)
  {
    Emit(mtu, skip, [], AvcNals(payload))
  }

  // Where an index of the source would be out of range: the header of a unit that has none, and a fragment with less
  // than no room.

  predicate HeadersPresent(nals: seq<Data>) {
    forall i :: 0 <= i < |nals| ==> |nals[i]| >= 2
  }

  predicate Flushable(buffered: seq<Data>) {
    |buffered| > 1 ==> HeadersPresent(buffered)
  }

  predicate StepIndexable(mtu: nat, skip: bool, buffered: seq<Data>, n: Data) {
    if n == [] then true
    else if |n| <= mtu then
      var full := BufferedSize(buffered) + |n| + 2 > mtu;
      (full ==> Flushable(buffered)) && (skip ==> Flushable(if full then [n] else buffered + [n]))
    else |n| >= 2 && (Dropped(mtu, n) || (mtu > 3 && Flushable(buffered)))
  }

  predicate IndexableFrom(mtu: nat, skip: bool, buffered: seq<Data>, nals: seq<Data>)
    decreases |nals|
  {
    if nals == [] then Flushable(buffered)
    else
      && StepIndexable(mtu, skip, buffered, nals[0])
      && IndexableFrom(mtu, skip, Step(mtu, skip, buffered, nals[0]).1, nals[1..])
  }

  /** The inputs on which no index of the source is out of range. */
  predicate Indexable(mtu: nat, skip: bool, nals: seq<Data>) {
    IndexableFrom(mtu, skip, [], nals)
  }

  /** Units with headers never run into it, once a fragment has room. */
  lemma {:induction false} HeadersIndexable(mtu: nat, skip: bool, buffered: seq<Data>, nals: seq<Data>)
    requires mtu >= 3 && HeadersPresent(buffered) && HeadersPresent(nals)
    ensures IndexableFrom(mtu, skip, buffered, nals)
    decreases |nals|
  {
    hide Fragments, BufferedSize, Aggregate;
    if nals != [] {
      HeadersIndexable(mtu, skip, Step(mtu, skip, buffered, nals[0]).1, nals[1..]);
    }
  }

  class Payloader {
    var SkipAggregation: bool

    constructor (skip: bool)
      ensures SkipAggregation == skip
    {
      SkipAggregation := skip;
    }

    static method LowestIds(nals: seq<Data>) returns (layerId: nat, tid: nat)
      requires HeadersPresent(nals)
      ensures layerId == Least(Layers(Headers(nals)), 0xFF)
      ensures tid == Least(Tids(Headers(nals)), 0xFF)
    {
      layerId, tid := 0xFF, 0xFF;
      ghost var ls, ts := Layers(Headers(nals)), Tids(Headers(nals));
      for k := 0 to |nals|
        invariant Least(ls, 0xFF) == Least(ls[k..], layerId)
        invariant Least(ts, 0xFF) == Least(ts[k..], tid)
      {
        var header := HeaderOf(nals[k][0], nals[k][1]);
        assert ls[k..][1..] == ls[k + 1..] && ts[k..][1..] == ts[k + 1..];
        var headerLayerId := LayerId(header);
        var headerTid := Tid(header);
        if headerLayerId < layerId {
          layerId := headerLayerId;
        }
        if headerTid < tid {
          tid := headerTid;
        }
      }
    }

    /** The aggregation packet, filled piece by piece into a buffer of the size that was kept along the way. */
    static method AggregateUnits(nals: seq<Data>, aggregationBufferSize: nat) returns (buf: array<byte>)
      requires HeadersPresent(nals) && nals != [] && aggregationBufferSize == BufferedSize(nals)
      ensures fresh(buf) && buf.Length == aggregationBufferSize + 2
      ensures buf[..] == Aggregate(nals)
    {
      hide Least, Units, PutU16, Headers, Layers, Tids, HeaderOf;
      buf := new byte[aggregationBufferSize + 2];
      var layerId, tid := LowestIds(nals);
      var header := PutU16(AP * 0x200 + layerId * 8 + tid);
      Fill(buf, 0, header);
      var index := 2;
      UnitsSize(nals);
      NoUnits();
      for k := 0 to |nals|
        invariant index == 2 + |Units(nals[..k])| <= buf.Length == 2 + |Units(nals)|
        invariant buf[..index] == header + Units(nals[..k])
      {
        UnitsTake(nals, k);
        FillUnit(buf, index, nals[k]);
        index := index + 2 + |nals[k]|;
        assert buf[..index] == header + (Units(nals[..k]) + PutU16(|nals[k]|) + nals[k]);
      }
      assert nals[..|nals|] == nals;
      assert buf[..] == buf[..index];
    }

    /** The body of its loop. */
    static method FillUnit(buf: array<byte>, index: nat, nal: Data)
      requires index + 2 + |nal| <= buf.Length
      modifies buf
      ensures buf[..index + 2 + |nal|] == old(buf[..index]) + PutU16(|nal|) + nal
    {
      hide PutU16;
      var size := PutU16(|nal|);
      Fill(buf, index, size);
      assert buf[..index + 2] == buf[..index] + buf[index..index + 2];
      Fill(buf, index + 2, nal);
      assert buf[..index + 2 + |nal|] == buf[..index + 2] + buf[index + 2..index + 2 + |nal|];
    }

    /** The flushBufferedNals closure: what it appends. */
    static method FlushBufferedNals(bufferedNALUs: seq<Data>, aggregationBufferSize: nat) returns (out: seq<Data>)
      requires Flushable(bufferedNALUs) && aggregationBufferSize == BufferedSize(bufferedNALUs)
      ensures out == FlushOf(bufferedNALUs)
    {
      if |bufferedNALUs| == 0 {
        return [];
      }
      if |bufferedNALUs| == 1 {
        return [bufferedNALUs[0]];
      }
      var buf := AggregateUnits(bufferedNALUs, aggregationBufferSize);
      out := [buf[..]];
    }

    /** The fragmenting loop for one NAL unit. */
    static method Fragment(mtu: nat, unit: Data) returns (out: seq<Data>)
      requires |unit| > mtu > 3
      ensures out == Fragments(unit[0], unit[1], unit[2..], mtu - 3, |unit| - 2)
    {
      hide Type, HeaderOf, FuFirstByte, Fragments;
      var maxFUPayloadSize := mtu - 3;
      var naluHeader := HeaderOf(unit[0], unit[1]);
      TypeIsInTheFirstByte(unit[0], unit[1]);
      var nalu := unit[2..];
      var fullNALUSize := |nalu|;
      out := [];
      while |nalu| > 0
        invariant out + Fragments(unit[0], unit[1], nalu, mtu - 3, |unit| - 2)
               == Fragments(unit[0], unit[1], unit[2..], mtu - 3, |unit| - 2)
        decreases |nalu|
      {
        FragmentsStep(unit[0], unit[1], nalu, mtu - 3, |unit| - 2);
        var size := |nalu|;
        if size > maxFUPayloadSize {
          size := maxFUPayloadSize;
        }
        var fuHeader: byte := Type(naluHeader);
        if |nalu| == fullNALUSize {
          fuHeader := fuHeader + 0x80;
        } else if |nalu| - size == 0 {
          fuHeader := fuHeader + 0x40;
        }
        var packet := [FuFirstByte(unit[0]), unit[1], fuHeader] + nalu[..size];
        out := out + [packet];
        nalu := nalu[size..];
      }
      NoFragments(unit[0], unit[1], mtu - 3, |unit| - 2);
    }

    /** The callback Payload passes to EmitNalus, over the variables it captures. */
    method OnNalu(mtu: nat, nalu: Data, buffered: seq<Data>, bufferSize: nat)
      returns (payloads: seq<Data>, bufferedNALUs: seq<Data>, aggregationBufferSize: nat)
      requires StepIndexable(mtu, SkipAggregation, buffered, nalu)
      requires bufferSize == BufferedSize(buffered)
      ensures (payloads, bufferedNALUs) == Step(mtu, SkipAggregation, buffered, nalu)
      ensures aggregationBufferSize == BufferedSize(bufferedNALUs)
    {
      hide Fragments, FlushOf, Flushable, BufferedSize;
      payloads, bufferedNALUs, aggregationBufferSize := [], buffered, bufferSize;
      if |nalu| == 0 {
        return;
      }
      if |nalu| <= mtu {
        var marginalAggregationSize := |nalu| + 2;
        if aggregationBufferSize + marginalAggregationSize > mtu {
          payloads := FlushBufferedNals(bufferedNALUs, aggregationBufferSize);
          bufferedNALUs, aggregationBufferSize := [], 0;
        }
        NoneBuffered();
        SizeOfPush(bufferedNALUs, nalu);
        assert [] + [nalu] == [nalu];
        bufferedNALUs := bufferedNALUs + [nalu];
        aggregationBufferSize := aggregationBufferSize + marginalAggregationSize;
        if SkipAggregation {
          var flushed := FlushBufferedNals(bufferedNALUs, aggregationBufferSize);
          payloads := payloads + flushed;
          bufferedNALUs, aggregationBufferSize := [], 0;
        }
      } else {
        NoneBuffered();
        var maxFUPayloadSize := mtu - 3;
        if maxFUPayloadSize == 0 || |nalu| - 2 == 0 {
          return;
        }
        payloads := FlushBufferedNals(bufferedNALUs, aggregationBufferSize);
        bufferedNALUs, aggregationBufferSize := [], 0;
        var fragments := Fragment(mtu, nalu);
        payloads := payloads + fragments;
      }
    }

    method Payload(mtu: nat, payload: Data) returns (payloads: seq<Data>)
      requires Emittable(payload) && Indexable(mtu, SkipAggregation, AvcNals(payload))
      ensures payloads == Payloads(mtu, SkipAggregation, payload)
    {
      hide StepIndexable, Step;
      payloads := [];
      if |payload| == 0 {
        return;
      }
      var bufferedNALUs: seq<Data> := [];
      var aggregationBufferSize := 0;
      var nals, panicked := EmitNalus(payload);
      for k := 0 to |nals|
        invariant aggregationBufferSize == BufferedSize(bufferedNALUs)
        invariant IndexableFrom(mtu, SkipAggregation, bufferedNALUs, nals[k..])
        invariant payloads + Emit(mtu, SkipAggregation, bufferedNALUs, nals[k..]) == Payloads(mtu, SkipAggregation, payload)
      {
        assert nals[k..][0] == nals[k] && nals[k..][1..] == nals[k + 1..];
        var out: seq<Data>;
        ghost var before, held := payloads, bufferedNALUs;
        out, bufferedNALUs, aggregationBufferSize := OnNalu(mtu, nals[k], bufferedNALUs, aggregationBufferSize);
        payloads := payloads + out;
        EmitStep(before, mtu, SkipAggregation, held, nals[k..]);
      }
      var flushed := FlushBufferedNals(bufferedNALUs, aggregationBufferSize);
      payloads := payloads + flushed;
    }
  }

  lemma NoUnits()
    ensures Units([]) == []
  {
  }

  lemma UnitsTake(nals: seq<Data>, k: nat)
    requires k < |nals|
    ensures Units(nals[..k + 1]) == Units(nals[..k]) + PutU16(|nals[k]|) + nals[k]
    ensures |Units(nals[..k + 1])| <= |Units(nals)|
  {
    assert nals[..k + 1] == nals[..k] + [nals[k]];
    UnitsAppend(nals[..k], nals[k]);
    UnitsPrefix(nals, k + 1);
  }

  lemma {:induction false} UnitsPrefix(nals: seq<Data>, k: nat)
    requires k <= |nals|
    ensures |Units(nals[..k])| <= |Units(nals)|
  {
    if k > 0 {
      assert nals[..k][1..] == nals[1..][..k - 1];
      UnitsPrefix(nals[1..], k - 1);
    }
  }

  lemma EmitStep(done: seq<Data>, mtu: nat, skip: bool, buffered: seq<Data>, nals: seq<Data>)
    requires nals != []
    ensures var s := Step(mtu, skip, buffered, nals[0]);
            done + Emit(mtu, skip, buffered, nals) == (done + s.0) + Emit(mtu, skip, s.1, nals[1..])
  {
  }
}
