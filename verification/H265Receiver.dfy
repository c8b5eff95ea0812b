/**
 A receiver written from RFC 7798, sections 4.4.1 to 4.4.3 (single NAL unit packets, aggregation packets and
 fragmentation units, no DONL), and the proof that it recovers exactly what the packetiser was given.
 */
module H265Receiver {
  import opened Bytes
  import opened Wrappers
  import opened Avcc
  import opened Aggregates
  import opened H265Payloader

  /** The NAL units recovered so far, and the one whose fragments are arriving. */
  datatype Receiver = Receiver(nals: seq<Data>, open: Option<Data>)

  /** One payload; None when the payload is not one the RFC allows here. */
  function Receive(r: Receiver, p: Data): (r': Option<Receiver>)
  {
    if |p| < 2 then None
    else if TypeOf(p) == 48 then
      if r.open.Some? then None
      else
        match SplitUnits(p[2..])
        case None => None
        case Some(units) => if |units| < 2 then None else Some(r.(nals := r.nals + units))
    else if TypeOf(p) == 49 then
      if |p| < 4 then None
      else
        var start, end := p[2] / 0x80, p[2] / 0x40 % 2;
        var first: byte := p[0] / 0x80 * 0x80 + p[2] % 0x40 * 2 + p[0] % 2;
        if start == 1 then
          if end == 1 || r.open.Some? then None
          else Some(r.(open := Some([first, p[1]] + p[3..])))
        else if r.open.None? || r.open.value == [] || r.open.value[0] != first then None
        else if end == 0 then Some(r.(open := Some(r.open.value + p[3..])))
        else Some(Receiver(r.nals + [r.open.value + p[3..]], None))
    else if TypeOf(p) >= 50 || r.open.Some? then None
    else Some(r.(nals := r.nals + [p]))
  }

  function ReceiveAll(r: Receiver, ps: seq<Data>): (r': Option<Receiver>)
    decreases |ps|
  {
    if ps == [] then Some(r)
    else
      match Receive(r, ps[0])
      case None => None
      case Some(next) => ReceiveAll(next, ps[1..])
  }

  lemma {:induction false} ReceiveConcat(r: Receiver, a: seq<Data>, b: seq<Data>)
    ensures ReceiveAll(r, a + b)
         == match ReceiveAll(r, a) case None => None case Some(next) => ReceiveAll(next, b)
    decreases |a|
  {
    if a == [] {
      assert a + b == b;
    } else {
      assert (a + b)[1..] == a[1..] + b;
      match Receive(r, a[0])
      case None =>
      case Some(next) => ReceiveConcat(next, a[1..], b);
    }
  }

  /** A NAL unit of HEVC itself: at least its header, and a type below the ones RFC 7798 takes for itself. */
  ghost predicate Hevc(n: Data) {
    2 <= |n| < 0x1_0000_0000 && TypeOf(n) < 48
  }

  lemma FirstByteRestored(high: byte, flags: nat)
    requires flags < 4
    ensures var h := FuFirstByte(high); var f := high / 2 % 0x40 + flags * 0x40;
            && h / 0x80 * 0x80 + f % 0x40 * 2 + h % 2 == high
            && h / 2 % 0x40 == FU
            && f / 0x80 == flags / 2 && f / 0x40 % 2 == flags % 2
  {
    var top, kind, low: nat := high / 0x80, high / 2 % 0x40, high % 2;
    assert FuFirstByte(high) as int == top * 0x80 + FU * 2 + low;
    ByteParts(high);
    hide FuFirstByte;
    PartsOfByte(top, FU, low);
    FlagParts(kind, flags);
  }

  lemma ByteParts(b: byte)
    ensures b as int == b as int / 0x80 * 0x80 + b as int / 2 % 0x40 * 2 + b as int % 2
    ensures b as int / 0x80 < 2
  {
  }

  lemma PartsOfByte(top: nat, kind: nat, low: nat)
    requires top < 2 && kind < 0x40 && low < 2
    ensures var b := top * 0x80 + kind * 2 + low;
            b / 0x80 == top && b / 2 % 0x40 == kind && b % 2 == low
  {
    var b := top * 0x80 + kind * 2 + low;
    assert b / 2 == top * 0x40 + kind;
  }

  lemma FlagParts(kind: nat, flags: nat)
    requires kind < 0x40 && flags < 4
    ensures var f := kind + flags * 0x40;
            f % 0x40 == kind && f / 0x80 == flags / 2 && f / 0x40 % 2 == flags % 2
  {
    assert (kind + flags * 0x40) / 0x40 == flags;
  }

  /** What an open fragmented unit receives: the rest of its fragments close it. */
  lemma {:induction false} ReceiveLaterFragments(r: Receiver, high: byte, low: byte, body: Data, room: nat, full: nat)
    requires room > 0 && 0 < |body| < full
    requires r.open.Some? && r.open.value != [] && r.open.value[0] == high
    ensures ReceiveAll(r, Fragments(high, low, body, room, full))
         == Some(Receiver(r.nals + [r.open.value + body], None))
    decreases |body|
  {
    var size := if |body| > room then room else |body|;
    var last := |body| == size;
    var p := Fragment(high, low, false, last, body[..size]);
    FirstByteRestored(high, if last then 1 else 0);
    assert p[3..] == body[..size];
    var ps := Fragments(high, low, body, room, full);
    assert ps[0] == p && ps[1..] == Fragments(high, low, body[size..], room, full);
    if last {
      assert body[..size] == body;
    } else {
      var next := r.(open := Some(r.open.value + body[..size]));
      assert Receive(r, p) == Some(next);
      ReceiveLaterFragments(next, high, low, body[size..], room, full);
      assert next.open.value + body[size..] == r.open.value + body by {
        assert body == body[..size] + body[size..];
      }
    }
  }

  lemma ReceiveFirstFragment(r: Receiver, high: byte, low: byte, piece: Data)
    requires r.open.None? && piece != []
    ensures Receive(r, Fragment(high, low, true, false, piece)) == Some(r.(open := Some([high, low] + piece)))
  {
    var p := Fragment(high, low, true, false, piece);
    FirstByteRestored(high, 2);
    assert p[3..] == piece && p[0] == FuFirstByte(high) && p[1] == low;
    assert p[2] as int == high as int / 2 % 0x40 + 0x80;
    hide FuFirstByte, Fragment;
  }

  lemma ReceiveFragments(r: Receiver, n: Data, room: nat)
    requires r.open.None? && 0 < room < |n| - 2
    ensures ReceiveAll(r, Fragments(n[0], n[1], n[2..], room, |n| - 2)) == Some(r.(nals := r.nals + [n]))
  {
    var body := n[2..];
    var p := Fragment(n[0], n[1], true, false, body[..room]);
    var ps := Fragments(n[0], n[1], body, room, |n| - 2);
    hide Receive, Fragment;
    FragmentsStep(n[0], n[1], body, room, |n| - 2);
    hide Fragments;
    assert ps[0] == p && ps[1..] == Fragments(n[0], n[1], body[room..], room, |n| - 2);
    var next := r.(open := Some([n[0], n[1]] + body[..room]));
    ReceiveFirstFragment(r, n[0], n[1], body[..room]);
    ReceiveLaterFragments(next, n[0], n[1], body[room..], room, |n| - 2);
    Rejoined(n, room);
  }

  lemma Rejoined(n: Data, room: nat)
    requires room < |n| - 2
    ensures [n[0], n[1]] + n[2..][..room] + n[2..][room..] == n
  {
    assert n[2..] == n[2..][..room] + n[2..][room..];
  }

  lemma ReceiveFlush(r: Receiver, mtu: nat, buffered: seq<Data>)
    requires r.open.None? && mtu < 0x1_0000
    requires forall i :: 0 <= i < |buffered| ==> Hevc(buffered[i]) && |buffered[i]| <= mtu
    ensures ReceiveAll(r, FlushOf(buffered)) == Some(r.(nals := r.nals + buffered))
  {
    if |buffered| == 1 {
      assert Receive(r, buffered[0]) == Some(r.(nals := r.nals + [buffered[0]]));
      assert FlushOf(buffered)[1..] == [];
      assert buffered == [buffered[0]];
    } else if |buffered| > 1 {
      var p := Aggregate(buffered);
      AggregateHeader(buffered);
      TypeIsInTheFirstByte(p[0], p[1]);
      assert p[2..] == Units(buffered);
      UnitsSplit(buffered);
      assert FlushOf(buffered)[1..] == [];
    } else {
      assert r.nals + buffered == r.nals;
    }
  }

  ghost predicate Buffer(mtu: nat, skip: bool, buffered: seq<Data>) {
    && (skip ==> buffered == [])
    && forall i :: 0 <= i < |buffered| ==> Hevc(buffered[i]) && |buffered[i]| <= mtu
  }

  lemma SkipStepSizes(mtu: nat, n: Data)
    requires n != [] && |n| <= mtu
    ensures Step(mtu, true, [], n) == ([n], [])
  {
    assert FlushOf([]) == [] && FlushOf([n]) == [n];
    assert [] + [n] == [n];
  }

  /** A step's payloads carry `got`, the oldest of the waiting units; the youngest stay buffered. */
  ghost predicate Carries(r: Receiver, mtu: nat, skip: bool, buffered: seq<Data>, n: Data, got: seq<Data>)
    requires Buffer(mtu, skip, buffered)
  {
    var (out, held) := Step(mtu, skip, buffered, n);
    && Buffer(mtu, skip, held)
    && got + held == buffered + [n]
    && ReceiveAll(r, out) == Some(Receiver(r.nals + got, None))
  }

  lemma ReceiveSkipped(r: Receiver, mtu: nat, n: Data)
    requires r.open.None? && mtu < 0x1_0000 && Hevc(n) && |n| <= mtu
    ensures Carries(r, mtu, true, [], n, [n])
  {
    SkipStepSizes(mtu, n);
    ReceiveFlush(r, mtu, [n]);
    assert [n] + [] == [] + [n];
  }

  lemma ReceiveSmall(r: Receiver, mtu: nat, buffered: seq<Data>, n: Data)
    requires r.open.None? && mtu < 0x1_0000 && Buffer(mtu, false, buffered) && Hevc(n) && |n| <= mtu
    ensures Carries(r, mtu, false, buffered, n, if BufferedSize(buffered) + |n| + 2 > mtu then buffered else [])
  {
    if BufferedSize(buffered) + |n| + 2 > mtu {
      ReceiveFlush(r, mtu, buffered);
    } else {
      assert r.nals + [] == r.nals;
      assert [] + (buffered + [n]) == buffered + [n];
    }
  }

  lemma ReceiveLarge(r: Receiver, mtu: nat, skip: bool, buffered: seq<Data>, n: Data)
    requires r.open.None? && 4 <= mtu < 0x1_0000 && Buffer(mtu, skip, buffered) && Hevc(n) && |n| > mtu
    ensures Carries(r, mtu, skip, buffered, n, buffered + [n])
  {
    ReceiveFlush(r, mtu, buffered);
    var flushed := Receiver(r.nals + buffered, None);
    ReceiveFragments(flushed, n, mtu - 3);
    ReceiveConcat(r, FlushOf(buffered), Fragments(n[0], n[1], n[2..], mtu - 3, |n| - 2));
    assert flushed.nals + [n] == r.nals + (buffered + [n]);
    assert (buffered + [n]) + [] == buffered + [n];
  }

  lemma ReceiveStep(r: Receiver, mtu: nat, skip: bool, buffered: seq<Data>, n: Data) returns (got: seq<Data>)
    requires r.open.None? && 4 <= mtu < 0x1_0000 && Buffer(mtu, skip, buffered) && Hevc(n)
    ensures Carries(r, mtu, skip, buffered, n, got)
  {
    if |n| > mtu {
      got := buffered + [n];
      ReceiveLarge(r, mtu, skip, buffered, n);
    } else if skip {
      got := [n];
      ReceiveSkipped(r, mtu, n);
    } else {
      got := if BufferedSize(buffered) + |n| + 2 > mtu then buffered else [];
      ReceiveSmall(r, mtu, buffered, n);
    }
  }

  lemma {:induction false} ReceiveEmitted(r: Receiver, mtu: nat, skip: bool, buffered: seq<Data>, nals: seq<Data>)
    requires r.open.None? && 4 <= mtu < 0x1_0000 && Buffer(mtu, skip, buffered)
    requires forall i :: 0 <= i < |nals| ==> Hevc(nals[i])
    ensures ReceiveAll(r, Emit(mtu, skip, buffered, nals)) == Some(Receiver(r.nals + buffered + nals, None))
    decreases |nals|
  {
    if nals == [] {
      ReceiveFlush(r, mtu, buffered);
      assert r.nals + buffered + nals == r.nals + buffered;
    } else {
      var got := ReceiveStep(r, mtu, skip, buffered, nals[0]);
      var (out, held) := Step(mtu, skip, buffered, nals[0]);
      var next := Receiver(r.nals + got, None);
      ReceiveEmitted(next, mtu, skip, held, nals[1..]);
      ReceiveConcat(r, out, Emit(mtu, skip, held, nals[1..]));
      Rebracket(r.nals, got, held, nals[1..]);
      Rebracket(r.nals, buffered, [nals[0]], nals[1..]);
      assert [nals[0]] + nals[1..] == nals;
    }
  }

  lemma Rebracket(a: seq<Data>, b: seq<Data>, c: seq<Data>, d: seq<Data>)
    ensures (a + b) + c + d == a + (b + c) + d == (a + b) + (c + d)
  {
  }

  /**
   Whether or not small units are aggregated, a receiver following the RFC recovers the NAL units of the access
   unit, in order, from the payloads, and is left with nothing half received.
   */
  lemma RfcRoundTrip(mtu: nat, skip: bool, nals: seq<Data>)
    requires 4 <= mtu < 0x1_0000
    requires forall i :: 0 <= i < |nals| ==> Hevc(nals[i])
    ensures Indexable(mtu, skip, AvcNals(Join(nals)))
    ensures |Join(nals)| < 0x1_0000_0000 ==> Emittable(Join(nals))
    ensures ReceiveAll(Receiver([], None), Payloads(mtu, skip, Join(nals))) == Some(Receiver(nals, None))
  {
    AvcNalsOfJoin(nals);
    NonEmptyIsIdentity(nals);
    HeadersIndexable(mtu, skip, [], nals);
    if |Join(nals)| < 0x1_0000_0000 {
      JoinWalkable(nals);
    }
    ReceiveEmitted(Receiver([], None), mtu, skip, [], nals);
    assert [] + [] + nals == nals;
  }

  // How long a payload can be.

  /** What flushBufferedNals sends as one packet, and the fragmented units, in the order they are sent. */
  function Bundles(mtu: nat, buffered: seq<Data>, nals: seq<Data>): (bundles: seq<seq<Data>>)
    decreases |nals|
  {
    if nals == [] then Flushed(buffered)
    else
      var n := nals[0];
      if n == [] then Bundles(mtu, buffered, nals[1..])
      else if |n| <= mtu then
        if BufferedSize(buffered) + |n| + 2 > mtu then Flushed(buffered) + Bundles(mtu, [n], nals[1..])
        else Bundles(mtu, buffered + [n], nals[1..])
      else if mtu < 3 || Dropped(mtu, n) then Bundles(mtu, buffered, nals[1..])
      else Flushed(buffered) + ([[n]] + Bundles(mtu, [], nals[1..]))
  }

  function Flushed(buffered: seq<Data>): (bundles: seq<seq<Data>>)
  {
    if buffered == [] then [] else [buffered]
  }

  function BundlePayloads(mtu: nat, bundle: seq<Data>): (ps: seq<Data>)
  {
    if |bundle| == 1 && |bundle[0]| > mtu then
      var n := bundle[0];
      if mtu < 3 || Dropped(mtu, n) then [] else Fragments(n[0], n[1], n[2..], mtu - 3, |n| - 2)
    else FlushOf(bundle)
  }

  function Sent(mtu: nat, bundles: seq<seq<Data>>): (ps: seq<Data>)
  {
    if bundles == [] then [] else BundlePayloads(mtu, bundles[0]) + Sent(mtu, bundles[1..])
  }

  /** The units that may wait in the buffer. */
  ghost predicate Small(mtu: nat, nals: seq<Data>) {
    forall i :: 0 <= i < |nals| ==> |nals[i]| <= mtu
  }

  lemma {:induction false} SentConcat(mtu: nat, a: seq<seq<Data>>, b: seq<seq<Data>>)
    ensures Sent(mtu, a + b) == Sent(mtu, a) + Sent(mtu, b)
  {
    hide BundlePayloads;
    if a == [] {
      assert a + b == b;
    } else {
      assert (a + b)[1..] == a[1..] + b;
      SentConcat(mtu, a[1..], b);
    }
  }

  lemma SentFlushed(mtu: nat, buffered: seq<Data>)
    requires Small(mtu, buffered)
    ensures Sent(mtu, Flushed(buffered)) == FlushOf(buffered)
  {
    if buffered != [] {
      SentOne(mtu, buffered);
    }
  }

  lemma SentOne(mtu: nat, bundle: seq<Data>)
    ensures Sent(mtu, [bundle]) == BundlePayloads(mtu, bundle)
  {
    assert [bundle][1..] == [];
    assert BundlePayloads(mtu, bundle) + [] == BundlePayloads(mtu, bundle);
  }

  /** With aggregation on, the payloads are those of the bundles. */
  lemma {:induction false} EmitIsSent(mtu: nat, buffered: seq<Data>, nals: seq<Data>)
    requires Small(mtu, buffered)
    ensures Emit(mtu, false, buffered, nals) == Sent(mtu, Bundles(mtu, buffered, nals))
    decreases |nals|
  {
    hide Fragments, FlushOf, BufferedSize, Sent;
    SentFlushed(mtu, buffered);
    if nals != [] {
      var n := nals[0];
      var held := Step(mtu, false, buffered, n).1;
      EmitIsSent(mtu, held, nals[1..]);
      var rest := Bundles(mtu, held, nals[1..]);
      SentConcat(mtu, Flushed(buffered), rest);
      SentOne(mtu, [n]);
      SentConcat(mtu, [[n]], rest);
      SentConcat(mtu, Flushed(buffered), [[n]] + rest);
      assert (FlushOf(buffered) + BundlePayloads(mtu, [n])) + Sent(mtu, rest)
          == FlushOf(buffered) + (BundlePayloads(mtu, [n]) + Sent(mtu, rest));
      assert [] + Sent(mtu, rest) == Sent(mtu, rest);
    }
  }

  /** A buffer of several units has passed the size test, which leaves out the two bytes of the packet's header. */
  ghost predicate Fits(mtu: nat, buffered: seq<Data>) {
    Small(mtu, buffered) && (|buffered| > 1 ==> BufferedSize(buffered) <= mtu)
  }

  ghost predicate AllFit(mtu: nat, bundles: seq<seq<Data>>) {
    forall i :: 0 <= i < |bundles| ==> |bundles[i]| > 0 && (|bundles[i]| > 1 ==> Fits(mtu, bundles[i]))
  }

  lemma {:induction false} BundlesFit(mtu: nat, buffered: seq<Data>, nals: seq<Data>)
    requires Fits(mtu, buffered)
    ensures AllFit(mtu, Bundles(mtu, buffered, nals))
    decreases |nals|
  {
    hide BufferedSize;
    if nals != [] {
      var n := nals[0];
      if n == [] {
        BundlesFit(mtu, buffered, nals[1..]);
      } else if |n| <= mtu {
        if BufferedSize(buffered) + |n| + 2 > mtu {
          BundlesFit(mtu, [n], nals[1..]);
        } else {
          SizeOfPush(buffered, n);
          BundlesFit(mtu, buffered + [n], nals[1..]);
        }
      } else if mtu < 3 || Dropped(mtu, n) {
        BundlesFit(mtu, buffered, nals[1..]);
      } else {
        BundlesFit(mtu, [], nals[1..]);
      }
    }
  }

  ghost predicate AllWithin(ps: seq<Data>, bound: nat) {
    forall i :: 0 <= i < |ps| ==> |ps[i]| <= bound
  }

  lemma {:induction false} FragmentsFit(high: byte, low: byte, body: Data, room: nat, full: nat)
    requires room > 0
    ensures AllWithin(Fragments(high, low, body, room, full), room + 3)
    decreases |body|
  {
    if body != [] {
      FragmentsFit(high, low, body[if |body| > room then room else |body|..], room, full);
    }
  }

  /** A bundle of several units becomes a packet of its size and two bytes more. */
  predicate Tight(mtu: nat, bundle: seq<Data>) {
    |bundle| > 1 ==> BufferedSize(bundle) + 2 <= mtu
  }

  lemma BundleWithin(mtu: nat, bundle: seq<Data>, bound: nat)
    requires |bundle| > 0 && mtu <= bound
    ensures AllWithin(BundlePayloads(mtu, bundle), bound) <==> |bundle| > 1 ==> BufferedSize(bundle) + 2 <= bound
  {
    hide Fragments, BufferedSize;
    if |bundle| == 1 {
      var n := bundle[0];
      if |n| > mtu && mtu > 3 {
        FragmentsFit(n[0], n[1], n[2..], mtu - 3, |n| - 2);
      }
    } else {
      UnitsSize(bundle);
      assert BundlePayloads(mtu, bundle)[0] == Aggregate(bundle);
    }
  }

  lemma {:induction false} SentWithin(mtu: nat, bundles: seq<seq<Data>>, bound: nat)
    requires mtu <= bound && forall i :: 0 <= i < |bundles| ==> |bundles[i]| > 0
    ensures AllWithin(Sent(mtu, bundles), bound) <==>
            forall i :: 0 <= i < |bundles| ==> |bundles[i]| > 1 ==> BufferedSize(bundles[i]) + 2 <= bound
  {
    hide BundlePayloads, BufferedSize;
    if bundles != [] {
      var first, rest := BundlePayloads(mtu, bundles[0]), Sent(mtu, bundles[1..]);
      BundleWithin(mtu, bundles[0], bound);
      SentWithin(mtu, bundles[1..], bound);
      WithinConcat(first, rest, bound);
      assert forall i :: 1 <= i < |bundles| ==> bundles[i] == bundles[1..][i - 1];
    }
  }

  lemma WithinConcat(a: seq<Data>, b: seq<Data>, bound: nat)
    ensures AllWithin(a + b, bound) <==> AllWithin(a, bound) && AllWithin(b, bound)
  {
    if AllWithin(a + b, bound) {
      assert forall i :: 0 <= i < |a| ==> a[i] == (a + b)[i];
      assert forall i :: 0 <= i < |b| ==> b[i] == (a + b)[|a| + i];
    }
  }

  /**
   With aggregation on, every payload is within the mtu if and only if no bundle of several units comes within two
   bytes of it; and the bound that always holds is two bytes more.
   */
  lemma AggregatedSizes(mtu: nat, nals: seq<Data>)
    ensures var bundles := Bundles(mtu, [], nals);
            AllWithin(Emit(mtu, false, [], nals), mtu) <==> forall i :: 0 <= i < |bundles| ==> Tight(mtu, bundles[i])
    ensures AllWithin(Emit(mtu, false, [], nals), mtu + 2)
  {
    hide Bundles, Sent, Emit, BufferedSize;
    var bundles := Bundles(mtu, [], nals);
    EmitIsSent(mtu, [], nals);
    BundlesFit(mtu, [], nals);
    SentWithin(mtu, bundles, mtu);
    SentWithin(mtu, bundles, mtu + 2);
  }

  /** With aggregation off no payload is longer than the mtu. */
  lemma {:induction false} PayloadSizes(mtu: nat, nals: seq<Data>)
    ensures AllWithin(Emit(mtu, true, [], nals), mtu)
    decreases |nals|
  {
    if nals != [] {
      var n := nals[0];
      PayloadSizes(mtu, nals[1..]);
      if n != [] && |n| <= mtu {
        SkipStepSizes(mtu, n);
      } else if |n| > mtu > 3 && !Dropped(mtu, n) {
        FragmentsFit(n[0], n[1], n[2..], mtu - 3, |n| - 2);
      }
      WithinConcat(Step(mtu, true, [], n).0, Emit(mtu, true, [], nals[1..]), mtu);
    }
  }

  lemma {:induction false} FragmentsFill(high: byte, low: byte, body: Data, room: nat, full: nat)
    requires room > 0
    ensures var ps := Fragments(high, low, body, room, full);
            && (|body| > room ==> |ps| > 1)
            && forall i :: 0 <= i < |ps| - 1 ==> |ps[i]| == room + 3
    decreases |body|
  {
    if body != [] {
      var size := if |body| > room then room else |body|;
      FragmentsFill(high, low, body[size..], room, full);
      FragmentsStep(high, low, body, room, full);
      var p := Fragment(high, low, |body| == full, |body| == size, body[..size]);
      assert |p| == size + 3;
    }
  }

  /** A unit that fits travels whole; of one that does not, every packet but the last is as long as the mtu. */
  lemma PacketsAreFull(mtu: nat, n: Data)
    requires n != [] && mtu > 3
    ensures var ps := Step(mtu, true, [], n).0;
            if |n| <= mtu then ps == [n] else |ps| > 1 && forall i :: 0 <= i < |ps| - 1 ==> |ps[i]| == mtu
  {
    hide Fragments;
    if |n| <= mtu {
      SkipStepSizes(mtu, n);
    } else {
      FragmentsFill(n[0], n[1], n[2..], mtu - 3, |n| - 2);
      var fragments := Fragments(n[0], n[1], n[2..], mtu - 3, |n| - 2);
      assert Step(mtu, true, [], n).0 == [] + fragments == fragments;
    }
  }

  /** No packet leaves while the next small unit could still join it. */
  ghost predicate Greedy(mtu: nat, bundles: seq<seq<Data>>) {
    forall i :: 0 <= i < |bundles| ==>
      Small(mtu, bundles[i]) && i + 1 < |bundles| && bundles[i + 1] != [] && |bundles[i + 1][0]| <= mtu ==>
        BufferedSize(bundles[i]) + |bundles[i + 1][0]| + 2 > mtu
  }

  /** Aggregation is greedy: a unit opens a new packet only when the open one has no room for it. */
  lemma {:induction false} BundlesAreGreedy(mtu: nat, buffered: seq<Data>, nals: seq<Data>)
    requires Small(mtu, buffered)
    ensures var bundles := Bundles(mtu, buffered, nals);
            Greedy(mtu, bundles) && (buffered != [] ==> bundles != [] && buffered <= bundles[0])
    decreases |nals|
  {
    hide BufferedSize;
    if nals != [] {
      var n, rest := nals[0], nals[1..];
      if n == [] || (|n| > mtu && (mtu < 3 || Dropped(mtu, n))) {
        BundlesAreGreedy(mtu, buffered, rest);
      } else if |n| > mtu {
        BundlesAreGreedy(mtu, [], rest);
        AloneIsGreedy(mtu, n, Bundles(mtu, [], rest));
        FlushedIsGreedy(mtu, buffered, [[n]] + Bundles(mtu, [], rest));
      } else if BufferedSize(buffered) + |n| + 2 > mtu {
        BundlesAreGreedy(mtu, [n], rest);
        FlushedIsGreedy(mtu, buffered, Bundles(mtu, [n], rest));
      } else {
        BundlesAreGreedy(mtu, buffered + [n], rest);
      }
    }
  }

  lemma AloneIsGreedy(mtu: nat, n: Data, bundles: seq<seq<Data>>)
    requires |n| > mtu && Greedy(mtu, bundles)
    ensures Greedy(mtu, [[n]] + bundles)
  {
    hide BufferedSize;
    var all := [[n]] + bundles;
    assert !Small(mtu, [n]) by {
      assert [n][0] == n;
    }
    assert forall i :: 1 <= i < |all| ==> all[i] == bundles[i - 1];
  }

  lemma FlushedIsGreedy(mtu: nat, buffered: seq<Data>, bundles: seq<seq<Data>>)
    requires Greedy(mtu, bundles) && bundles != [] && bundles[0] != []
    requires |bundles[0][0]| <= mtu ==> BufferedSize(buffered) + |bundles[0][0]| + 2 > mtu
    ensures Greedy(mtu, Flushed(buffered) + bundles)
  {
    hide BufferedSize;
    if buffered == [] {
      assert Flushed(buffered) + bundles == bundles;
    } else {
      var all := [buffered] + bundles;
      assert forall i :: 1 <= i < |all| ==> all[i] == bundles[i - 1];
    }
  }

  /** Two units of three bytes at an mtu of ten: one payload of twelve bytes. */
  lemma AggregationExceedsMtu()
    ensures var n: Data := [2, 1, 0];
            AvcNals(Join([n, n])) == [n, n] && Payloads(10, false, Join([n, n])) == [Aggregate([n, n])]
            && |Aggregate([n, n])| == 12
  {
    var n: Data := [2, 1, 0];
    AvcNalsOfJoin([n, n]);
    NonEmptyIsIdentity([n, n]);
    TwoShare(n);
    hide Join, AvcNals, Aggregate, Emit;
  }

  lemma TwoShare(n: Data)
    requires |n| == 3
    ensures Emit(10, false, [], [n, n]) == [Aggregate([n, n])] && |Aggregate([n, n])| == 12
  {
    NoneBuffered();
    SizeOfPush([], n);
    SizeOfPush([n], n);
    UnitsSize([n, n]);
    assert [] + [n] == [n] && [n] + [n] == [n, n];
    hide Aggregate, BufferedSize;
    assert Step(10, false, [], n) == ([], [n]) && Step(10, false, [n], n) == ([], [n, n]);
    hide Step;
    assert [n, n][1..] == [n] && [n][1..] == [];
    assert Emit(10, false, [n, n], []) == [Aggregate([n, n])];
    assert Emit(10, false, [n], [n]) == [] + Emit(10, false, [n, n], []);
  }
}
