/** What the reassembler makes of the packetiser's packets when none is lost (RTPPay and RTPDepay in pkg/h265/rtp.go). */
module H265RoundTrip {
  import opened Bytes
  import opened Wrappers
  import opened Avcc
  import opened Aggregates
  import opened H265Payloader
  import opened H265Depay
  import opened H265Receiver

  function Advance(s: Seq16, k: nat): (r: Seq16)
  {
    (s + k) % 0x1_0000
  }

  lemma AdvanceStep(s: Seq16, k: nat)
    ensures Advance(Succ(s), k) == Advance(s, k + 1) == Succ(Advance(s, k))
  {
  }

  /** The packets RTPPay makes of the payloads: numbered from s, the last one marked when `mark` holds. */
  function Packetize(s: Seq16, payloads: seq<Data>, mark: bool): (r: seq<Packet>)
    ensures |r| == |payloads|
    decreases |payloads|
  {
    if payloads == [] then []
    else [Packet(s, mark && |payloads| == 1, payloads[0])] + Packetize(Succ(s), payloads[1..], mark)
  }

  lemma {:induction false} PacketizeAt(s: Seq16, payloads: seq<Data>, mark: bool, k: nat)
    requires k < |payloads|
    ensures Packetize(s, payloads, mark)[k] == Packet(Advance(s, k), mark && k == |payloads| - 1, payloads[k])
    decreases |payloads|
  {
    if k > 0 {
      PacketizeAt(Succ(s), payloads[1..], mark, k - 1);
      AdvanceStep(s, k - 1);
    }
  }

  lemma AdvanceTwice(s: Seq16, j: nat, k: nat)
    ensures Advance(Advance(s, j), k) == Advance(s, j + k)
  {
  }

  lemma PacketizeConcat(s: Seq16, a: seq<Data>, b: seq<Data>, mark: bool)
    requires b != []
    ensures Packetize(s, a + b, mark) == Packetize(s, a, false) + Packetize(Advance(s, |a|), b, mark)
  {
    hide Packetize, Advance;
    var l, r := Packetize(s, a + b, mark), Packetize(s, a, false) + Packetize(Advance(s, |a|), b, mark);
    forall k | 0 <= k < |l| ensures l[k] == r[k] {
      PacketizeAt(s, a + b, mark, k);
      if k < |a| {
        PacketizeAt(s, a, false, k);
      } else {
        PacketizeAt(Advance(s, |a|), b, mark, k - |a|);
        AdvanceTwice(s, |a|, k - |a|);
      }
    }
  }

  class Pay {
    const mtu: nat
    const payloader: Payloader
    var seqNum: Seq16

    /** RTPPay: an mtu of 0 means 1472, and the 12 bytes of RTP header are taken off in uint16 arithmetic. */
    constructor (mtu: Seq16, skip: bool, start: Seq16)
      ensures this.mtu == (if mtu == 0 then 1460 else (mtu as int - 12) % 0x1_0000)
      ensures fresh(payloader) && payloader.SkipAggregation == skip && seqNum == start
    {
      var m: int := if mtu == 0 then 1472 else mtu;
      this.mtu := (m - 12) % 0x1_0000;
      this.payloader := new Payloader(skip);
      this.seqNum := start;
    }

    /** The handler closure for an access unit in AVC form. */
    method Handle(accessUnit: Data) returns (packets: seq<Packet>)
      requires Emittable(accessUnit) && Indexable(mtu, payloader.SkipAggregation, AvcNals(accessUnit))
      modifies `seqNum
      ensures packets == Packetize(Succ(old(seqNum)), Payloads(mtu, payloader.SkipAggregation, accessUnit), true)
      ensures seqNum == Advance(old(seqNum), |packets|)
    {
      var payloads := payloader.Payload(mtu, accessUnit);
      packets := Number(payloads);
    }

    /** The loop over the payloads. */
    method Number(payloads: seq<Data>) returns (packets: seq<Packet>)
      modifies `seqNum
      ensures packets == Packetize(Succ(old(seqNum)), payloads, true)
      ensures seqNum == Advance(old(seqNum), |packets|)
    {
      hide Packetize;
      packets := [];
      ghost var first := Succ(seqNum);
      ghost var all := Packetize(first, payloads, true);
      for i := 0 to |payloads|
        invariant seqNum == Advance(old(seqNum), i)
        invariant packets == all[..i]
      {
        AdvanceStep(old(seqNum), i);
        seqNum := Succ(seqNum);
        PacketizeAt(first, payloads, true, i);
        packets := packets + [Packet(seqNum, i == |payloads| - 1, payloads[i])];
        assert all[..i + 1] == all[..i] + [all[i]];
      }
    }
  }

  type Room = m: nat | m >= 4 witness 4

  /** The payloads of one unit that is sent on its own. */
  function PayloadsOf(mtu: Room, n: Data): (r: seq<Data>)
    ensures n != [] ==> r != []
  {
    if |n| <= mtu then [n] else Fragments(n[0], n[1], n[2..], mtu - 3, |n| - 2)
  }

  /** A unit as it is sent: whole when it fits, else in fragments. */
  datatype Carried = Carried(mtu: Room, unit: Data)

  function PayloadsOfAll(cs: seq<Carried>): (r: seq<Data>)
  {
    if cs == [] then [] else PayloadsOf(cs[0].mtu, cs[0].unit) + PayloadsOfAll(cs[1..])
  }

  function UnitsOf(cs: seq<Carried>): (nals: seq<Data>)
    ensures |nals| == |cs| && forall i :: 0 <= i < |cs| ==> nals[i] == cs[i].unit
  {
    seq(|cs|, i requires 0 <= i < |cs| => cs[i].unit)
  }

  /** Without aggregation every unit is sent on its own. */
  function Each(mtu: Room, nals: seq<Data>): (cs: seq<Carried>)
    ensures |cs| == |nals| && forall i :: 0 <= i < |nals| ==> cs[i] == Carried(mtu, nals[i])
  {
    seq(|nals|, i requires 0 <= i < |nals| => Carried(mtu, nals[i]))
  }

  /** With it a bundle of several units is sent as one aggregation packet, whatever its size. */
  function CarriedOf(mtu: Room, bundle: seq<Data>): (c: Carried)
  {
    if |bundle| == 1 then Carried(mtu, bundle[0]) else Carried(mtu + 2, Aggregate(bundle))
  }

  function Bundled(mtu: Room, bundles: seq<seq<Data>>): (cs: seq<Carried>)
    ensures |cs| == |bundles| && forall i :: 0 <= i < |bundles| ==> cs[i] == CarriedOf(mtu, bundles[i])
  {
    seq(|bundles|, i requires 0 <= i < |bundles| => CarriedOf(mtu, bundles[i]))
  }

  function Carriage(mtu: Room, skip: bool, nals: seq<Data>): (cs: seq<Carried>)
  {
    if skip then Each(mtu, nals) else Bundled(mtu, Bundles(mtu, [], nals))
  }

  lemma {:induction false} EmitWithoutAggregation(mtu: Room, nals: seq<Data>)
    requires Solid(nals)
    ensures Emit(mtu, true, [], nals) == PayloadsOfAll(Each(mtu, nals))
  {
    if nals != [] {
      var n := nals[0];
      EmitWithoutAggregation(mtu, nals[1..]);
      assert Each(mtu, nals)[1..] == Each(mtu, nals[1..]);
      if |n| <= mtu {
        SkipStepSizes(mtu, n);
      } else {
        assert [] + PayloadsOf(mtu, n) == PayloadsOf(mtu, n);
      }
    }
  }

  lemma {:induction false} SentIsCarried(mtu: Room, bundles: seq<seq<Data>>)
    requires AllFit(mtu, bundles)
    ensures Sent(mtu, bundles) == PayloadsOfAll(Bundled(mtu, bundles))
  {
    hide Fragments, BufferedSize, Aggregate;
    if bundles != [] {
      var b := bundles[0];
      SentIsCarried(mtu, bundles[1..]);
      assert Bundled(mtu, bundles)[1..] == Bundled(mtu, bundles[1..]);
      UnitsSize(b);
      assert BundlePayloads(mtu, b) == PayloadsOf(CarriedOf(mtu, b).mtu, CarriedOf(mtu, b).unit);
    }
  }

  /** What the packetiser emits is what is carried. */
  lemma EmitIsCarried(mtu: Room, skip: bool, nals: seq<Data>)
    requires Solid(nals)
    ensures Emit(mtu, skip, [], nals) == PayloadsOfAll(Carriage(mtu, skip, nals))
  {
    hide Emit, Sent, PayloadsOfAll, Bundles;
    if skip {
      EmitWithoutAggregation(mtu, nals);
    } else {
      EmitIsSent(mtu, [], nals);
      BundlesFit(mtu, [], nals);
      SentIsCarried(mtu, Bundles(mtu, [], nals));
    }
  }

  /** The NAL units the reassembler can pass on: three bytes or more, and not mistaken for a fragment. */
  ghost predicate Passable(mtu: nat, n: Data) {
    3 <= |n| < 0x1_0000_0000 && (|n| <= mtu ==> TypeOf(n) != 49)
  }

  /** The NAL units whose marked last packet closes an access unit. */
  ghost predicate Closing(mtu: nat, n: Data) {
    |n| > mtu || |n| >= 128 || (n != [] && !(32 <= TypeOf(n) <= 34 || 39 <= TypeOf(n) <= 40))
  }

  /** The stored parameter sets go before a fragmented keyframe that comes first in the buffer. */
  function Lead(ps: Data, buf: Data, mtu: nat, n: Data): (r: Data)
  {
    if buf == [] && |n| > mtu && 19 <= TypeOf(n) <= 21 then ps else []
  }

  /** The buffer after a NAL unit. */
  function Grown(ps: Data, buf: Data, mtu: nat, n: Data): (r: Data)
  {
    buf + Lead(ps, buf, mtu, n) + Prefixed(n)
  }

  ghost predicate Ready(st: State, s: Seq16) {
    st.buf != [] ==> s == Succ(st.seqNum)
  }

  ghost predicate Handed1(r: Run, mark: bool, buf: Data) {
    && !r.panicked
    && if mark then r.units == [buf] && r.st.buf == [] else r.units == [] && r.st.buf == buf
  }

  lemma HeaderByteRestored(high: byte)
    ensures RestoredHeader(FuFirstByte(high), high as nat / 2 % 0x40) == high
    ensures FuFirstByte(high) as nat / 2 % 0x40 == FU
  {
    FirstByteRestored(high, 0);
  }

  /**
   A whole unit in one fragment, S and E both set, as some cameras send it: it joins the buffer as if it had come on its
   own, and closes the access unit when its packet is marked.
   */
  lemma WholeInOneFragment(ps: Data, st: State, s: Seq16, n: Data, mark: bool)
    requires |n| >= 2 && Ready(st, s)
    ensures var p := Packet(s, mark, [FuFirstByte(n[0]), n[1], 0xC0 + TypeOf(n)] + n[2..]);
            var grown := st.buf + PutU32(|n|) + n;
            Feed(ps, st, [p]) == if mark then Run(State([], st.nuStart, s), [grown], false)
                                 else Run(State(grown, st.nuStart, s), [], false)
    ensures |n| < 0x1_0000_0000 ==> PutU32(|n|) + n == Join([n])
  {
    hide PutU32;
    FirstByteRestored(n[0], 3);
    HeaderByteRestored(n[0]);
    var data := [FuFirstByte(n[0]), n[1], 0xC0 + TypeOf(n)] + n[2..];
    assert TypeOf(data) == FU && data[2] / 0x40 == 3 && data[2] as nat % 0x40 == TypeOf(n);
    assert data[3..] == n[2..] && n == [n[0], n[1]] + n[2..];
    var p := Packet(s, mark, data);
    FeedOne(ps, st, p);
    assert st.buf + PutU32(|data| - 1) + [n[0], n[1]] + n[2..] == st.buf + PutU32(|n|) + n;
    JoinOne(n);
  }

  lemma FragmentFields(high: byte, low: byte, last: bool, piece: Data)
    ensures var data := Fragment(high, low, false, last, piece);
            && |data| == 3 + |piece| && TypeOf(data) == FU && data[3..] == piece
            && data[2] / 0x40 == if last then 1 else 0
  {
    FirstByteRestored(high, if last then 1 else 0);
  }

  lemma Patched(head: Data, part: Data, piece: Data)
    ensures var b := head + [0, 0, 0, 0] + part + piece;
            && b == head + [0, 0, 0, 0] + (part + piece)
            && b[..|head|] + PutU32(|b| - |head| - 4) + b[|head| + 4..] == head + Prefixed(part + piece)
  {
    hide PutU32;
    var b := head + [0, 0, 0, 0] + part + piece;
    assert b[..|head|] == head && b[|head| + 4..] == part + piece;
  }

  /** A later fragment while the unit that started at |head| is open. */
  lemma LaterFragment(ps: Data, st: State, p: Packet, high: byte, low: byte, piece: Data, last: bool, head: Data, part: Data)
    requires p.payload == Fragment(high, low, false, last, piece) && piece != []
    requires p.marker ==> last
    requires p.seqNum == Succ(st.seqNum)
    requires st.nuStart == |head| && st.buf == head + [0, 0, 0, 0] + part
    requires |part| + |piece| < 0x1_0000_0000
    ensures var grown := if last then head + Prefixed(part + piece) else head + [0, 0, 0, 0] + (part + piece);
            Arrive(ps, st, p) == if p.marker then Next(State([], |head|, p.seqNum), Some(grown))
                                 else Next(State(grown, |head|, p.seqNum), None)
  {
    hide Fragment, PutU32, Prefixed, TypeOf;
    FragmentFields(high, low, last, piece);
    Patched(head, part, piece);
  }

  lemma FragmentsStep(high: byte, low: byte, body: Data, room: nat, full: nat, s: Seq16, mark: bool)
    requires room > 0 && 0 < |body| < full
    ensures var size := if |body| > room then room else |body|;
            var tail := Fragments(high, low, body[size..], room, full);
            var f := Fragment(high, low, false, |body| == size, body[..size]);
            && Fragments(high, low, body, room, full) == [f] + tail
            && (tail == [] <==> |body| == size)
            && Packetize(s, [f] + tail, mark) == [Packet(s, mark && |body| == size, f)] + Packetize(Succ(s), tail, mark)
  {
    var size := if |body| > room then room else |body|;
    var tail := Fragments(high, low, body[size..], room, full);
    var f := Fragment(high, low, false, |body| == size, body[..size]);
    assert ([f] + tail)[1..] == tail;
  }

  lemma FeedFirst(ps: Data, st: State, p: Packet, rest: seq<Packet>)
    requires Arrive(ps, st, p).Next?
    ensures var o := Arrive(ps, st, p);
            var r := Feed(ps, o.st, rest);
            Feed(ps, st, [p] + rest) == r.(units := Handed(o.unit) + r.units)
  {
    assert ([p] + rest)[1..] == rest;
  }

  lemma FeedNone(ps: Data, st: State, mark: bool)
    ensures Feed(ps, st, []) == Run(st, [], false)
    ensures forall s: Seq16 :: Packetize(s, [], mark) == []
  {
  }

  lemma {:induction false} FeedLaterFragments(ps: Data, st: State, s: Seq16, high: byte, low: byte, body: Data,
                                              room: nat, full: nat, mark: bool, head: Data, part: Data)
    requires room > 0 && 0 < |body| < full
    requires s == Succ(st.seqNum) && st.nuStart == |head| && st.buf == head + [0, 0, 0, 0] + part
    requires |part| + |body| < 0x1_0000_0000
    ensures var ps' := Fragments(high, low, body, room, full);
            var r := Feed(ps, st, Packetize(s, ps', mark));
            && Handed1(r, mark, head + Prefixed(part + body))
            && Succ(r.st.seqNum) == Advance(s, |ps'|)
    decreases |body|
  {
    hide Feed, Arrive, Packetize, Fragments, Fragment, PutU32;
    var size := if |body| > room then room else |body|;
    var last := |body| == size;
    var piece := body[..size];
    var tail := Fragments(high, low, body[size..], room, full);
    FragmentsStep(high, low, body, room, full, s, mark);
    var p := Packet(s, mark && last, Fragment(high, low, false, last, piece));
    LaterFragment(ps, st, p, high, low, piece, last, head, part);
    FeedFirst(ps, st, p, Packetize(Succ(s), tail, mark));
    AdvanceStep(s, |tail|);
    if last {
      assert piece == body;
      AdvanceStep(s, 0);
      FeedNone(ps, Arrive(ps, st, p).st, mark);
    } else {
      var next := State(head + [0, 0, 0, 0] + (part + piece), |head|, s);
      FeedLaterFragments(ps, next, Succ(s), high, low, body[size..], room, full, mark, head, part + piece);
      assert part + piece + body[size..] == part + body;
    }
  }

  /** The first fragment opens the unit. */
  lemma FirstFragment(ps: Data, st: State, p: Packet, mtu: nat, n: Data)
    requires mtu >= 4 && |n| > mtu
    requires p.payload == Fragment(n[0], n[1], true, false, n[2..][..mtu - 3]) && !p.marker
    requires Ready(st, p.seqNum)
    ensures var head := st.buf + Lead(ps, st.buf, mtu, n);
            Arrive(ps, st, p) == Next(State(head + [0, 0, 0, 0] + n[..mtu - 1], |head|, p.seqNum), None)
  {
    var data := p.payload;
    FirstByteRestored(n[0], 2);
    HeaderByteRestored(n[0]);
    assert TypeOf(data) == FU && data[2] / 0x40 == 2 && data[2] as nat % 0x40 == TypeOf(n);
    assert data[3..] == n[2..][..mtu - 3];
    assert n[..mtu - 1] == [n[0], n[1]] + n[2..][..mtu - 3];
    assert st.buf + Lead(ps, st.buf, mtu, n) == if st.buf == [] && IsKeyframe(TypeOf(n)) then ps else st.buf;
  }

  lemma FirstFragmentStep(mtu: nat, n: Data, s: Seq16, mark: bool)
    requires mtu >= 4 && |n| > mtu
    ensures var room := mtu - 3;
            var f := Fragment(n[0], n[1], true, false, n[2..][..room]);
            var tail := Fragments(n[0], n[1], n[2..][room..], room, |n| - 2);
            && PayloadsOf(mtu, n) == [f] + tail
            && Packetize(s, [f] + tail, mark) == [Packet(s, false, f)] + Packetize(Succ(s), tail, mark)
  {
    var room := mtu - 3;
    var f := Fragment(n[0], n[1], true, false, n[2..][..room]);
    var tail := Fragments(n[0], n[1], n[2..][room..], room, |n| - 2);
    assert ([f] + tail)[1..] == tail && |tail| > 0;
  }

  lemma FeedFragments(ps: Data, st: State, s: Seq16, mtu: nat, n: Data, mark: bool)
    requires mtu >= 4 && Ready(st, s) && Passable(mtu, n) && |n| > mtu
    ensures var r := Feed(ps, st, Packetize(s, PayloadsOf(mtu, n), mark));
            && Handed1(r, mark, Grown(ps, st.buf, mtu, n))
            && Succ(r.st.seqNum) == Advance(s, |PayloadsOf(mtu, n)|)
  {
    hide Fragment, Fragments, PayloadsOf, Packetize, Feed, Arrive, Lead, PutU32;
    var room, body := mtu - 3, n[2..];
    var f := Fragment(n[0], n[1], true, false, body[..room]);
    var tail := Fragments(n[0], n[1], body[room..], room, |n| - 2);
    FirstFragmentStep(mtu, n, s, mark);
    var p := Packet(s, false, f);
    FirstFragment(ps, st, p, mtu, n);
    FeedFirst(ps, st, p, Packetize(Succ(s), tail, mark));
    var head := st.buf + Lead(ps, st.buf, mtu, n);
    var next := State(head + [0, 0, 0, 0] + n[..mtu - 1], |head|, s);
    FeedLaterFragments(ps, next, Succ(s), n[0], n[1], body[room..], room, |n| - 2, mark, head, n[..mtu - 1]);
    assert n[..mtu - 1] + body[room..] == n;
    AdvanceStep(s, |tail|);
  }

  /** An unfragmented unit.  A short marked SEI leaves no trace; a short marked parameter set is only buffered. */
  lemma FeedSingle(ps: Data, st: State, s: Seq16, mtu: nat, n: Data, mark: bool)
    requires mtu >= 4 && Ready(st, s) && Passable(mtu, n) && |n| <= mtu
    ensures PayloadsOf(mtu, n) == [n]
    ensures var r := Feed(ps, st, Packetize(s, [n], mark));
            if mark && !Closing(mtu, n) && IsSei(TypeOf(n)) then r == Run(st, [], false)
            else Handed1(r, mark && Closing(mtu, n), Grown(ps, st.buf, mtu, n)) && r.st.seqNum == s
  {
    var p := Packet(s, mark, n);
    assert [n][1..] == [] && Packetize(s, [n], mark) == [p];
    FeedOne(ps, st, p);
    assert st.buf + [] + Prefixed(n) == st.buf + Prefixed(n);
  }

  /** Every unit but the last of an access unit: its packets only grow the buffer. */
  lemma FeedUnmarked(ps: Data, st: State, s: Seq16, mtu: nat, n: Data)
    requires mtu >= 4 && Ready(st, s) && Passable(mtu, n)
    ensures var r := Feed(ps, st, Packetize(s, PayloadsOf(mtu, n), false));
            && !r.panicked && r.units == [] && r.st.buf == Grown(ps, st.buf, mtu, n)
            && Ready(r.st, Advance(s, |PayloadsOf(mtu, n)|))
  {
    if |n| > mtu {
      FeedFragments(ps, st, s, mtu, n, false);
    } else {
      FeedSingle(ps, st, s, mtu, n, false);
    }
  }

  lemma FeedMarked(ps: Data, st: State, s: Seq16, mtu: nat, n: Data)
    requires mtu >= 4 && Ready(st, s) && Passable(mtu, n)
    ensures var r := Feed(ps, st, Packetize(s, PayloadsOf(mtu, n), true));
            && !r.panicked
            && r.units == (if Closing(mtu, n) then [Grown(ps, st.buf, mtu, n)] else [])
            && (Closing(mtu, n) ==> r.st.buf == [])
  {
    if |n| > mtu {
      FeedFragments(ps, st, s, mtu, n, true);
    } else {
      FeedSingle(ps, st, s, mtu, n, true);
    }
  }

  /** A run that hands on the one unit when it can be closed, and otherwise nothing at all. */
  ghost predicate Completes(r: Run, closing: bool, unit: Data) {
    && !r.panicked
    && r.units == (if closing then [unit] else [])
    && (closing ==> r.st.buf == [])
  }

  lemma FeedThen(ps: Data, st: State, a: seq<Packet>, b: seq<Packet>)
    requires var r := Feed(ps, st, a); !r.panicked && r.units == []
    ensures Feed(ps, st, a + b) == Feed(ps, Feed(ps, st, a).st, b)
  {
    FeedConcat(ps, st, a, b);
  }

  ghost predicate AllPassable(mtu: nat, nals: seq<Data>) {
    forall i :: 0 <= i < |nals| ==> Passable(mtu, nals[i])
  }

  ghost predicate AllCarriable(cs: seq<Carried>) {
    forall i :: 0 <= i < |cs| ==> Passable(cs[i].mtu, cs[i].unit)
  }

  lemma {:induction false} FeedAccessUnit(ps: Data, st: State, s: Seq16, cs: seq<Carried>)
    requires Ready(st, s) && cs != [] && AllCarriable(cs)
    ensures Completes(Feed(ps, st, Packetize(s, PayloadsOfAll(cs), true)), Closing(cs[|cs| - 1].mtu, cs[|cs| - 1].unit),
                      st.buf + Lead(ps, st.buf, cs[0].mtu, cs[0].unit) + Join(UnitsOf(cs)))
    decreases |cs|
  {
    hide Feed, Packetize, PayloadsOf, Grown, Lead, Join, Closing, Passable;
    var mtu, n, rest := cs[0].mtu, cs[0].unit, cs[1..];
    var head, tail := PayloadsOf(mtu, n), PayloadsOfAll(rest);
    assert UnitsOf(cs) == [n] + UnitsOf(rest);
    UnitsNotEmpty(cs);
    if rest == [] {
      assert UnitsOf(cs) == [n];
      assert head + tail == head;
      FeedMarked(ps, st, s, mtu, n);
      LastGrows(ps, st.buf, mtu, n);
    } else {
      FeedUnmarked(ps, st, s, mtu, n);
      var next := Feed(ps, st, Packetize(s, head, false)).st;
      var s' := Advance(s, |head|);
      FeedAccessUnit(ps, next, s', rest);
      PacketizeConcat(s, head, tail, true);
      FeedThen(ps, st, Packetize(s, head, false), Packetize(s', tail, true));
      BufferGrows(ps, st.buf, mtu, n, rest);
    }
  }

  lemma UnitsNotEmpty(cs: seq<Carried>)
    requires AllCarriable(cs) && cs != []
    ensures cs[0].unit != [] && (|cs| > 1 ==> PayloadsOfAll(cs[1..]) != [])
  {
    assert Passable(cs[0].mtu, cs[0].unit);
    if |cs| > 1 {
      var c := cs[1..][0];
      assert Passable(c.mtu, c.unit);
    }
  }

  lemma LastGrows(ps: Data, buf: Data, mtu: nat, n: Data)
    requires n != []
    ensures Grown(ps, buf, mtu, n) == buf + Lead(ps, buf, mtu, n) + Join([n])
  {
    hide Prefixed;
    JoinOne(n);
  }

  lemma BufferGrows(ps: Data, buf: Data, mtu: Room, n: Data, rest: seq<Carried>)
    requires n != [] && rest != []
    ensures var b := Grown(ps, buf, mtu, n);
            b + Lead(ps, b, rest[0].mtu, rest[0].unit) + Join(UnitsOf(rest)) ==
            buf + Lead(ps, buf, mtu, n) + Join([n] + UnitsOf(rest))
  {
    var lead, tail := Lead(ps, buf, mtu, n), UnitsOf(rest);
    assert ([n] + tail)[1..] == tail;
    assert Join([n] + tail) == Prefixed(n) + Join(tail);
    assert (buf + lead + Prefixed(n)) + [] + Join(tail) == buf + lead + (Prefixed(n) + Join(tail));
  }

  /** Units the packetiser and the reassembler are made for: with aggregation on, of HEVC's own types. */
  ghost predicate Carriable(mtu: Room, skip: bool, nals: seq<Data>) {
    AllPassable(mtu, nals) && (skip || (mtu < 0x1_0000 && forall i :: 0 <= i < |nals| ==> Hevc(nals[i])))
  }

  /** A bundle is a stretch of the units. */
  ghost predicate Consists(mtu: Room, bundle: seq<Data>) {
    bundle != [] && forall j :: 0 <= j < |bundle| ==> Passable(mtu, bundle[j]) && Hevc(bundle[j])
  }

  ghost predicate AllConsist(mtu: Room, bundles: seq<seq<Data>>) {
    forall i :: 0 <= i < |bundles| ==> Consists(mtu, bundles[i])
  }

  lemma {:induction false} BundlesConsist(mtu: Room, buffered: seq<Data>, nals: seq<Data>)
    requires forall i :: 0 <= i < |buffered| ==> Passable(mtu, buffered[i]) && Hevc(buffered[i])
    requires forall i :: 0 <= i < |nals| ==> Passable(mtu, nals[i]) && Hevc(nals[i])
    ensures AllConsist(mtu, Bundles(mtu, buffered, nals))
    decreases |nals|
  {
    hide Passable, Hevc, BufferedSize;
    if nals != [] {
      var n := nals[0];
      assert n != [] by {
        HevcNotEmpty(n);
      }
      if |n| > mtu {
        BundlesConsist(mtu, [], nals[1..]);
      } else if BufferedSize(buffered) + |n| + 2 > mtu {
        BundlesConsist(mtu, [n], nals[1..]);
      } else {
        BundlesConsist(mtu, buffered + [n], nals[1..]);
      }
    }
  }

  lemma HevcNotEmpty(n: Data)
    requires Hevc(n)
    ensures n != []
  {
  }

  /** An aggregation packet is a unit of type 48 to the reassembler. */
  lemma AggregateType(bundle: seq<Data>)
    requires bundle != []
    ensures TypeOf(Aggregate(bundle)) == AP
  {
    AggregateHeader(bundle);
    var p := Aggregate(bundle);
    TypeIsInTheFirstByte(p[0], p[1]);
  }

  lemma BundleCarriable(mtu: Room, bundle: seq<Data>)
    requires mtu < 0x1_0000 && Consists(mtu, bundle) && (|bundle| > 1 ==> Fits(mtu, bundle))
    ensures var c := CarriedOf(mtu, bundle);
            Passable(c.mtu, c.unit) && (|bundle| > 1 ==> TypeOf(c.unit) == AP && Closing(c.mtu, c.unit))
  {
    hide Aggregate, BufferedSize;
    if |bundle| > 1 {
      AggregateType(bundle);
      UnitsSize(bundle);
      UnitsSizeBelow(bundle);
    }
  }

  lemma UnitsSizeBelow(nals: seq<Data>)
    requires nals != []
    ensures |Units(nals)| >= 2
  {
  }

  lemma CarriageCarriable(mtu: Room, skip: bool, nals: seq<Data>)
    requires Carriable(mtu, skip, nals)
    ensures AllCarriable(Carriage(mtu, skip, nals))
  {
    hide Bundles, Passable, Hevc, CarriedOf, Fits, Consists;
    if !skip {
      var bundles := Bundles(mtu, [], nals);
      BundlesConsist(mtu, [], nals);
      NothingFits(mtu);
      BundlesFit(mtu, [], nals);
      forall i | 0 <= i < |bundles| ensures Passable(Bundled(mtu, bundles)[i].mtu, Bundled(mtu, bundles)[i].unit) {
        BundleCarriable(mtu, bundles[i]);
      }
    }
  }

  lemma NothingFits(mtu: nat)
    ensures Fits(mtu, [])
  {
  }

  /** The first bundle begins with the units that waited, and the last one ends with the last unit. */
  lemma BundlesStep(mtu: Room, buffered: seq<Data>, n: Data, rest: seq<Data>)
    requires Solid([n] + rest)
    ensures Solid(rest)
    ensures Bundles(mtu, buffered, [n] + rest) ==
            if |n| > mtu then Flushed(buffered) + ([[n]] + Bundles(mtu, [], rest))
            else if BufferedSize(buffered) + |n| + 2 > mtu then Flushed(buffered) + Bundles(mtu, [n], rest)
            else Bundles(mtu, buffered + [n], rest)
  {
    hide BufferedSize;
    var nals := [n] + rest;
    assert nals[0] == n && nals[1..] == rest;
  }

  lemma FlushedFirst(buffered: seq<Data>, more: seq<seq<Data>>)
    ensures var all := Flushed(buffered) + more;
            && (buffered != [] ==> all != [] && all[0] == buffered)
            && (buffered == [] ==> all == more)
  {
  }

  lemma {:induction false} BundleFirst(mtu: Room, buffered: seq<Data>, nals: seq<Data>)
    requires Solid(nals) && buffered + nals != []
    ensures var bundles := Bundles(mtu, buffered, nals);
            && bundles != []
            && (buffered != [] ==> buffered <= bundles[0])
            && (buffered == [] ==> bundles[0] != [] && bundles[0][0] == nals[0])
            && (buffered == [] && |nals[0]| > mtu ==> bundles[0] == [nals[0]])
    decreases |nals|
  {
    hide BufferedSize;
    if nals != [] {
      var n, rest := nals[0], nals[1..];
      assert nals == [n] + rest;
      BundlesStep(mtu, buffered, n, rest);
      hide Bundles, Solid;
      if |n| > mtu {
        FlushedFirst(buffered, [[n]] + Bundles(mtu, [], rest));
      } else if BufferedSize(buffered) + |n| + 2 > mtu {
        BundleFirst(mtu, [n], rest);
        FlushedFirst(buffered, Bundles(mtu, [n], rest));
      } else {
        BundleFirst(mtu, buffered + [n], rest);
      }
    }
  }

  /** The last unit of the last bundle. */
  predicate EndsIn(bundles: seq<seq<Data>>, n: Data) {
    bundles != [] && var last := bundles[|bundles| - 1]; last != [] && last[|last| - 1] == n
  }

  lemma AddedEndsIn(front: seq<seq<Data>>, more: seq<seq<Data>>, n: Data)
    requires EndsIn(more, n)
    ensures EndsIn(front + more, n)
  {
  }

  lemma {:induction false} BundleLast(mtu: Room, buffered: seq<Data>, nals: seq<Data>)
    requires Solid(nals) && buffered + nals != []
    ensures EndsIn(Bundles(mtu, buffered, nals), if nals != [] then nals[|nals| - 1] else buffered[|buffered| - 1])
    decreases |nals|
  {
    hide BufferedSize;
    if nals != [] {
      var n, rest := nals[0], nals[1..];
      var end := nals[|nals| - 1];
      assert nals == [n] + rest;
      assert end == if rest != [] then rest[|rest| - 1] else n;
      BundlesStep(mtu, buffered, n, rest);
      assert rest == [] ==> Bundles(mtu, [], rest) == [] && EndsIn([[n]] + [], n);
      hide Bundles, Solid, Flushed, EndsIn;
      if |n| > mtu {
        if rest != [] {
          BundleLast(mtu, [], rest);
          AddedEndsIn([[n]], Bundles(mtu, [], rest), end);
        }
        AddedEndsIn(Flushed(buffered), [[n]] + Bundles(mtu, [], rest), end);
      } else if BufferedSize(buffered) + |n| + 2 > mtu {
        BundleLast(mtu, [n], rest);
        AddedEndsIn(Flushed(buffered), Bundles(mtu, [n], rest), end);
      } else {
        BundleLast(mtu, buffered + [n], rest);
      }
    }
  }

  /** Nothing leads an aggregation packet, nor the small unit it begins with. */
  lemma FirstCarried(ps: Data, mtu: Room, bundle: seq<Data>, n: Data)
    requires mtu < 0x1_0000 && Consists(mtu, bundle) && bundle[0] == n && (|bundle| > 1 ==> Fits(mtu, bundle))
    ensures var c := CarriedOf(mtu, bundle);
            Lead(ps, [], c.mtu, c.unit) == Lead(ps, [], mtu, n)
  {
    hide BufferedSize, Aggregate, Passable, Hevc;
    if |bundle| > 1 {
      BundleCarriable(mtu, bundle);
      FitsFirst(mtu, bundle);
    }
  }

  lemma LastCarried(mtu: Room, bundle: seq<Data>, n: Data)
    requires mtu < 0x1_0000 && Consists(mtu, bundle) && bundle[|bundle| - 1] == n && (|bundle| > 1 ==> Fits(mtu, bundle))
    requires Closing(mtu, n)
    ensures var c := CarriedOf(mtu, bundle);
            Closing(c.mtu, c.unit)
  {
    hide BufferedSize, Aggregate, Passable, Hevc, Closing, Fits;
    if |bundle| > 1 {
      BundleCarriable(mtu, bundle);
    }
  }

  lemma BundleEnds(mtu: Room, nals: seq<Data>)
    requires nals != [] && Carriable(mtu, false, nals)
    ensures var bundles := Bundles(mtu, [], nals);
            && mtu < 0x1_0000 && bundles != []
            && bundles[0] != [] && bundles[0][0] == nals[0] && EndsIn(bundles, nals[|nals| - 1])
            && AllConsist(mtu, bundles) && AllFit(mtu, bundles)
  {
    hide Bundles, Fits, Consists, EndsIn;
    assert [] + nals == nals;
    BundleFirst(mtu, [], nals);
    BundleLast(mtu, [], nals);
    BundlesConsist(mtu, [], nals);
    NothingFits(mtu);
    BundlesFit(mtu, [], nals);
  }

  lemma CarriageEnds(ps: Data, mtu: Room, skip: bool, nals: seq<Data>)
    requires nals != [] && Carriable(mtu, skip, nals)
    ensures var cs := Carriage(mtu, skip, nals);
            && cs != [] && Lead(ps, [], cs[0].mtu, cs[0].unit) == Lead(ps, [], mtu, nals[0])
            && (Closing(mtu, nals[|nals| - 1]) ==> Closing(cs[|cs| - 1].mtu, cs[|cs| - 1].unit))
  {
    hide Bundles, Fits, Lead, Closing, Consists, CarriedOf;
    if !skip {
      var bundles := Bundles(mtu, [], nals);
      BundleEnds(mtu, nals);
      hide Carriable, Passable, Hevc;
      FirstCarried(ps, mtu, bundles[0], nals[0]);
      if Closing(mtu, nals[|nals| - 1]) {
        LastCarried(mtu, bundles[|bundles| - 1], nals[|nals| - 1]);
      }
    }
  }

  lemma FitsFirst(mtu: nat, nals: seq<Data>)
    requires Fits(mtu, nals) && nals != []
    ensures |nals[0]| <= mtu
  {
  }

  /** No two neighbours could share an aggregation packet. */
  predicate Apart(mtu: nat, nals: seq<Data>) {
    forall i :: 0 <= i < |nals| - 1 ==> |nals[i]| + |nals[i + 1]| + 4 > mtu
  }

  lemma ApartFirst(mtu: nat, a: Data, nals: seq<Data>)
    ensures Apart(mtu, [a] + nals) <==> (nals != [] ==> |a| + |nals[0]| + 4 > mtu) && Apart(mtu, nals)
  {
    var all := [a] + nals;
    if Apart(mtu, all) && nals != [] {
      assert |all[0]| + |all[1]| + 4 > mtu;
      forall i | 0 <= i < |nals| - 1 ensures |nals[i]| + |nals[i + 1]| + 4 > mtu {
        assert |all[i + 1]| + |all[i + 2]| + 4 > mtu;
      }
    }
  }

  /** Units that share a buffer are sent together. */
  lemma {:induction false} SharedStays(mtu: Room, buffered: seq<Data>, nals: seq<Data>) returns (i: nat)
    requires Solid(nals) && |buffered| > 1
    ensures i < |Bundles(mtu, buffered, nals)| && |Bundles(mtu, buffered, nals)[i]| > 1
    decreases |nals|
  {
    BundleFirst(mtu, buffered, nals);
    i := 0;
  }

  /** Some units are sent together. */
  predicate Shares(bundles: seq<seq<Data>>) {
    exists i :: 0 <= i < |bundles| && |bundles[i]| > 1
  }

  /** What the bundles are sent as. */
  function Singles(mtu: Room, bundles: seq<seq<Data>>): (nals: seq<Data>)
  {
    UnitsOf(Bundled(mtu, bundles))
  }

  /** Neighbours that fit together are bundled, and only those: apart, every unit is a bundle of its own. */
  lemma {:induction false} ApartIsAlone(mtu: Room, buffered: seq<Data>, nals: seq<Data>)
    requires Solid(nals) && |buffered| <= 1 && Small(mtu, buffered)
    ensures var bundles := Bundles(mtu, buffered, nals);
            if Apart(mtu, buffered + nals) then Singles(mtu, bundles) == buffered + nals else Shares(bundles)
    decreases |nals|
  {
    hide Apart, Singles, Shares;
    if nals == [] {
      BufferIsAlone(mtu, buffered);
    } else {
      var n, rest := nals[0], nals[1..];
      assert nals == [n] + rest;
      BundlesStep(mtu, buffered, n, rest);
      hide Bundles, Solid;
      if |n| > mtu {
        ApartIsAlone(mtu, [], rest);
        assert [] + rest == rest;
        hide Flushed, Small, BufferedSize;
        LongIsAlone(mtu, buffered, n, rest, Bundles(mtu, [], rest));
      } else if BufferedSize(buffered) + |n| + 2 > mtu {
        ApartIsAlone(mtu, [n], rest);
        SizeOfOne(buffered);
        FlushedApart(mtu, buffered, [n] + rest);
        hide Flushed, Small, BufferedSize;
        BundledParts(mtu, buffered, Bundles(mtu, [n], rest));
      } else if buffered == [] {
        assert buffered + [n] == [n] && buffered + nals == [n] + rest;
        ApartIsAlone(mtu, [n], rest);
      } else {
        TwoShareOne(mtu, buffered, n, rest);
      }
    }
  }

  lemma BufferIsAlone(mtu: Room, buffered: seq<Data>)
    requires |buffered| <= 1 && Small(mtu, buffered)
    ensures Apart(mtu, buffered + []) && Singles(mtu, Bundles(mtu, buffered, [])) == buffered + []
  {
    hide Apart, Singles, Shares;
    assert buffered + [] == buffered;
    ApartShort(mtu, buffered);
    BundledParts(mtu, buffered, []);
    assert Flushed(buffered) + [] == Flushed(buffered);
    NothingBundled(mtu);
  }

  lemma TwoShareOne(mtu: Room, buffered: seq<Data>, n: Data, rest: seq<Data>)
    requires |buffered| == 1 && Small(mtu, buffered) && Solid([n] + rest)
    requires |n| <= mtu && BufferedSize(buffered) + |n| + 2 <= mtu
    ensures Shares(Bundles(mtu, buffered + [n], rest)) && !Apart(mtu, buffered + ([n] + rest))
  {
    hide Bundles, Apart, Shares;
    SizeOfOne(buffered);
    assert Solid(rest) by {
      assert forall i :: 0 <= i < |rest| ==> rest[i] == ([n] + rest)[i + 1];
    }
    var i := SharedStays(mtu, buffered + [n], rest);
    OneShares(Bundles(mtu, buffered + [n], rest), i);
    assert buffered + ([n] + rest) == [buffered[0]] + ([n] + rest);
    ApartFirst(mtu, buffered[0], [n] + rest);
  }

  lemma LongIsAlone(mtu: Room, buffered: seq<Data>, n: Data, rest: seq<Data>, bundles: seq<seq<Data>>)
    requires |buffered| <= 1 && |n| > mtu
    requires if Apart(mtu, rest) then Singles(mtu, bundles) == rest else Shares(bundles)
    ensures var all := Flushed(buffered) + ([[n]] + bundles);
            if Apart(mtu, buffered + ([n] + rest)) then Singles(mtu, all) == buffered + ([n] + rest) else Shares(all)
  {
    hide Apart, Singles, Shares;
    ApartFirst(mtu, n, rest);
    FlushedApart(mtu, buffered, [n] + rest);
    assert Flushed([n]) == [[n]];
    hide Flushed;
    BundledParts(mtu, buffered, [[n]] + bundles);
    BundledParts(mtu, [n], bundles);
  }

  lemma ApartShort(mtu: nat, nals: seq<Data>)
    requires |nals| <= 1
    ensures Apart(mtu, nals)
  {
  }

  lemma SizeOfOne(buffered: seq<Data>)
    requires |buffered| <= 1
    ensures BufferedSize(buffered) == if buffered == [] then 0 else |buffered[0]| + 2
  {
    if buffered != [] {
      assert buffered[..0] == [];
    }
  }

  lemma FlushedApart(mtu: nat, buffered: seq<Data>, nals: seq<Data>)
    requires |buffered| <= 1 && nals != [] && (buffered != [] ==> |buffered[0]| + |nals[0]| + 4 > mtu)
    ensures Apart(mtu, buffered + nals) <==> Apart(mtu, nals)
  {
    if buffered == [] {
      assert buffered + nals == nals;
    } else {
      assert buffered + nals == [buffered[0]] + nals;
      ApartFirst(mtu, buffered[0], nals);
    }
  }

  lemma BundledParts(mtu: Room, buffered: seq<Data>, bundles: seq<seq<Data>>)
    requires |buffered| <= 1
    ensures Singles(mtu, Flushed(buffered) + bundles) == buffered + Singles(mtu, bundles)
    ensures Shares(bundles) ==> Shares(Flushed(buffered) + bundles)
  {
    if buffered == [] {
      assert Flushed(buffered) + bundles == bundles;
      hide Singles, Shares;
      assert buffered + Singles(mtu, bundles) == Singles(mtu, bundles);
    } else {
      assert Flushed(buffered) == [buffered];
      FirstIsSingle(mtu, buffered, bundles);
      hide Singles, Shares, Flushed;
      if Shares(bundles) {
        StillShares(buffered, bundles);
      }
    }
  }

  lemma StillShares(bundle: seq<Data>, bundles: seq<seq<Data>>)
    requires Shares(bundles)
    ensures Shares([bundle] + bundles)
  {
    var i :| 0 <= i < |bundles| && |bundles[i]| > 1;
    OneShares([bundle] + bundles, 1 + i);
  }

  lemma FirstIsSingle(mtu: Room, bundle: seq<Data>, bundles: seq<seq<Data>>)
    requires |bundle| == 1
    ensures Singles(mtu, [bundle] + bundles) == bundle + Singles(mtu, bundles)
  {
    OneIsItself(mtu, bundle);
    hide CarriedOf;
    var one, all := Singles(mtu, bundles), Singles(mtu, [bundle] + bundles);
    forall i | 0 <= i < |all| ensures all[i] == (bundle + one)[i] {
      if i > 0 {
        assert ([bundle] + bundles)[i] == bundles[i - 1];
      }
    }
  }

  lemma OneIsItself(mtu: Room, bundle: seq<Data>)
    requires |bundle| == 1
    ensures CarriedOf(mtu, bundle) == Carried(mtu, bundle[0])
  {
  }

  lemma OneShares(bundles: seq<seq<Data>>, i: nat)
    requires i < |bundles| && |bundles[i]| > 1
    ensures Shares(bundles)
  {
  }

  lemma NothingBundled(mtu: Room)
    ensures Singles(mtu, []) == []
  {
  }

  /** What comes out of one access unit, for both settings of SkipAggregation. */
  lemma CarriedRoundTrip(ps: Data, st: State, s: Seq16, mtu: Room, skip: bool, nals: seq<Data>)
    requires st.buf == [] && nals != [] && Carriable(mtu, skip, nals)
    ensures Indexable(mtu, skip, AvcNals(Join(nals)))
    ensures |Join(nals)| < 0x1_0000_0000 ==> Emittable(Join(nals))
    ensures var cs := Carriage(mtu, skip, nals);
            && cs != [] && AllCarriable(cs)
            && Completes(Feed(ps, st, Packetize(s, Payloads(mtu, skip, Join(nals)), true)),
                         Closing(cs[|cs| - 1].mtu, cs[|cs| - 1].unit), Lead(ps, [], mtu, nals[0]) + Join(UnitsOf(cs)))
  {
    hide Feed, Packetize, PayloadsOfAll, Join, AvcNals, Completes, Closing, Lead, Carriage, AllCarriable, Emit;
    hide IndexableFrom, Carriable, Walkable;
    PayloadsOfAccessUnit(mtu, skip, nals);
    CarriageCarriable(mtu, skip, nals);
    CarriageEnds(ps, mtu, skip, nals);
    var cs := Carriage(mtu, skip, nals);
    FeedAccessUnit(ps, st, s, cs);
    var lead := Lead(ps, [], mtu, nals[0]);
    assert [] + lead + Join(UnitsOf(cs)) == lead + Join(UnitsOf(cs));
  }

  lemma PayloadsOfAccessUnit(mtu: Room, skip: bool, nals: seq<Data>)
    requires Carriable(mtu, skip, nals)
    ensures Indexable(mtu, skip, AvcNals(Join(nals)))
    ensures |Join(nals)| < 0x1_0000_0000 ==> Emittable(Join(nals))
    ensures Payloads(mtu, skip, Join(nals)) == PayloadsOfAll(Carriage(mtu, skip, nals))
  {
    hide Emit, PayloadsOfAll, Carriage, Walkable;
    AvcNalsOfJoin(nals);
    NonEmptyIsIdentity(nals);
    HeadersIndexable(mtu, skip, [], nals);
    EmitIsCarried(mtu, skip, nals);
    if |Join(nals)| < 0x1_0000_0000 {
      JoinWalkable(nals);
    }
  }

  /**
   One access unit through an empty reassembler, without aggregation.  It comes out exactly when its last unit can
   close it, and then it is the input, byte for byte, after the stored parameter sets when the first unit is a
   fragmented keyframe.
   */
  lemma RoundTrip(ps: Data, st: State, s: Seq16, mtu: Room, nals: seq<Data>)
    requires st.buf == [] && nals != [] && AllPassable(mtu, nals)
    ensures Indexable(mtu, true, AvcNals(Join(nals)))
    ensures Completes(Feed(ps, st, Packetize(s, Payloads(mtu, true, Join(nals)), true)), Closing(mtu, nals[|nals| - 1]),
                      Lead(ps, [], mtu, nals[0]) + Join(nals))
  {
    hide Feed, Packetize, Payloads, Join, AvcNals, Completes, Closing, Lead, AllPassable, Indexable;
    CarriedRoundTrip(ps, st, s, mtu, true, nals);
    assert UnitsOf(Each(mtu, nals)) == nals;
  }

  /** The units carried are the NAL units just when nothing is aggregated. */
  lemma CarriedAsTheyAre(mtu: Room, skip: bool, nals: seq<Data>)
    requires Carriable(mtu, skip, nals)
    ensures UnitsOf(Carriage(mtu, skip, nals)) == nals <==> skip || Apart(mtu, nals)
  {
    hide Bundles, Apart, Fits, Aggregate;
    if skip {
      assert UnitsOf(Each(mtu, nals)) == nals;
    } else {
      var bundles := Bundles(mtu, [], nals);
      ApartIsAlone(mtu, [], nals);
      assert [] + nals == nals;
      if !Apart(mtu, nals) {
        BundlesConsist(mtu, [], nals);
        NothingFits(mtu);
        BundlesFit(mtu, [], nals);
        var i :| 0 <= i < |bundles| && |bundles[i]| > 1;
        BundleCarriable(mtu, bundles[i]);
        assert UnitsOf(Bundled(mtu, bundles))[i] == CarriedOf(mtu, bundles[i]).unit;
        if i < |nals| {
          assert Hevc(nals[i]);
        }
      }
    }
  }

  lemma JoinsAgree(cs: seq<Carried>, mtu: Room, nals: seq<Data>, lead: Data)
    requires AllCarriable(cs) && AllPassable(mtu, nals)
    ensures lead + Join(UnitsOf(cs)) == lead + Join(nals) <==> UnitsOf(cs) == nals
  {
    if lead + Join(UnitsOf(cs)) == lead + Join(nals) {
      assert (lead + Join(UnitsOf(cs)))[|lead|..] == Join(UnitsOf(cs));
      assert (lead + Join(nals))[|lead|..] == Join(nals);
      JoinInjective(UnitsOf(cs), nals);
    }
  }

  /**
   One access unit whose last unit can close it, for both settings of SkipAggregation: one unit comes out, and it is
   the access unit if and only if aggregation is off or no two neighbours could share an aggregation packet.
   */
  lemma RoundTripExactly(ps: Data, st: State, s: Seq16, mtu: Room, skip: bool, nals: seq<Data>)
    requires st.buf == [] && nals != [] && Carriable(mtu, skip, nals) && Closing(mtu, nals[|nals| - 1])
    ensures Indexable(mtu, skip, AvcNals(Join(nals)))
    ensures var r := Feed(ps, st, Packetize(s, Payloads(mtu, skip, Join(nals)), true));
            && !r.panicked && |r.units| == 1 && r.st.buf == []
            && (r.units == [Lead(ps, [], mtu, nals[0]) + Join(nals)] <==> skip || Apart(mtu, nals))
  {
    hide Feed, Packetize, Payloads, Join, AvcNals, Closing, Lead, Carriage, AllCarriable, Indexable, Apart, AllPassable;
    CarriedRoundTrip(ps, st, s, mtu, skip, nals);
    CarriageEnds(ps, mtu, skip, nals);
    CarriedAsTheyAre(mtu, skip, nals);
    JoinsAgree(Carriage(mtu, skip, nals), mtu, nals, Lead(ps, [], mtu, nals[0]));
  }

  /** Two short units at an mtu of ten share a packet, which the reassembler hands on as if it were a unit. */
  lemma AggregateIsNotUnpacked(ps: Data, st: State, s: Seq16)
    requires st.buf == []
    ensures var n: Data := [2, 1, 0];
            var r := Feed(ps, st, Packetize(s, Payloads(10, false, Join([n, n])), true));
            r.units == [Prefixed(Aggregate([n, n]))] != [Join([n, n])]
  {
    hide Feed, Packetize, Payloads, Aggregate;
    var n: Data := [2, 1, 0];
    AggregationExceedsMtu();
    AggregateType([n, n]);
    var p := Aggregate([n, n]);
    FeedSingle(ps, st, s, 12, p, true);
    assert Closing(12, p) && Grown(ps, [], 12, p) == Prefixed(p);
    assert TypeOf(n) == 1;
    assert [n, n][1] == n && !Apart(10, [n, n]);
    RoundTripExactly(ps, st, s, 10, false, [n, n]);
    assert Lead(ps, [], 10, n) + Join([n, n]) == Join([n, n]);
  }

  // A whole stream of access units.

  function PacketizeUnits(s: Seq16, mtu: nat, skip: bool, units: seq<seq<Data>>): (r: seq<Packet>)
    decreases |units|
  {
    if units == [] then []
    else
      var now := Packetize(s, Payloads(mtu, skip, Join(units[0])), true);
      now + PacketizeUnits(Advance(s, |now|), mtu, skip, units[1..])
  }

  function Received(ps: Data, mtu: nat, units: seq<seq<Data>>): (r: seq<Data>)
    ensures |r| == |units|
  {
    if units == [] then []
    else [Lead(ps, [], mtu, if units[0] == [] then [] else units[0][0]) + Join(units[0])] + Received(ps, mtu, units[1..])
  }

  ghost predicate Sendable(mtu: Room, skip: bool, nals: seq<Data>) {
    && nals != []
    && Carriable(mtu, skip, nals)
    && Closing(mtu, nals[|nals| - 1])
  }

  /**
   Any number of access units, numbered on across them and across the wrap of the sequence number: one unit for each
   comes out, and they are the access units if and only if aggregation is off or in none of them two neighbours could
   share a packet.
   */
  lemma {:induction false} StreamRoundTrip(ps: Data, st: State, s: Seq16, mtu: Room, skip: bool, units: seq<seq<Data>>)
    requires st.buf == []
    requires forall i :: 0 <= i < |units| ==> Sendable(mtu, skip, units[i])
    ensures forall i :: 0 <= i < |units| ==> Indexable(mtu, skip, AvcNals(Join(units[i])))
    ensures var r := Feed(ps, st, PacketizeUnits(s, mtu, skip, units));
            && !r.panicked && r.st.buf == [] && |r.units| == |units|
            && (r.units == Received(ps, mtu, units) <==> skip || forall i :: 0 <= i < |units| ==> Apart(mtu, units[i]))
    decreases |units|
  {
    hide Feed, Packetize, Payloads, Join, AvcNals, Lead, Indexable, Apart, Carriable, Closing;
    forall i | 0 <= i < |units| ensures Indexable(mtu, skip, AvcNals(Join(units[i]))) {
      RoundTripExactly(ps, st, s, mtu, skip, units[i]);
    }
    if units == [] {
      FeedNone(ps, st, true);
    } else {
      var now := Packetize(s, Payloads(mtu, skip, Join(units[0])), true);
      RoundTripExactly(ps, st, s, mtu, skip, units[0]);
      var r := Feed(ps, st, now);
      var rest := PacketizeUnits(Advance(s, |now|), mtu, skip, units[1..]);
      StreamRoundTrip(ps, r.st, Advance(s, |now|), mtu, skip, units[1..]);
      FeedConcat(ps, st, now, rest);
      var later := Feed(ps, r.st, rest).units;
      assert (r.units + later)[1..] == later && Received(ps, mtu, units)[1..] == Received(ps, mtu, units[1..]);
      assert forall i :: 1 <= i < |units| ==> units[i] == units[1..][i - 1];
    }
  }

  /** Every fragmented unit gives two fragments or more; only the first carries S and only the last E. */
  lemma {:induction false} FragmentFlags(n: Data, mtu: nat)
    requires mtu >= 4 && |n| > mtu
    ensures var ps := PayloadsOf(mtu, n);
            |ps| >= 2
            && forall i :: 0 <= i < |ps| ==>
                 |ps[i]| >= 4 && TypeOf(ps[i]) == FU && ps[i][2] as nat % 0x40 == TypeOf(n)
                 && (ps[i][2] / 0x80 == 1 <==> i == 0)
                 && (ps[i][2] / 0x40 % 2 == 1 <==> i == |ps| - 1)
  {
    var room, body := mtu - 3, n[2..];
    var tail := Fragments(n[0], n[1], body[room..], room, |n| - 2);
    assert PayloadsOf(mtu, n) == [Fragment(n[0], n[1], true, false, body[..room])] + tail;
    FirstByteRestored(n[0], 2);
    HeaderByteRestored(n[0]);
    hide FuFirstByte, Fragments, PayloadsOf;
    LaterFlags(n[0], n[1], body[room..], room, |n| - 2);
  }

  lemma {:induction false} LaterFlags(high: byte, low: byte, body: Data, room: nat, full: nat)
    requires room > 0 && 0 < |body| < full
    ensures var ps := Fragments(high, low, body, room, full);
            ps != []
            && forall i :: 0 <= i < |ps| ==>
                 |ps[i]| >= 4 && TypeOf(ps[i]) == FU && ps[i][2] as nat % 0x40 == high as nat / 2 % 0x40
                 && ps[i][2] / 0x80 == 0 && (ps[i][2] / 0x40 % 2 == 1 <==> i == |ps| - 1)
    decreases |body|
  {
    var size := if |body| > room then room else |body|;
    var tail := Fragments(high, low, body[size..], room, full);
    FirstByteRestored(high, if |body| == size then 1 else 0);
    HeaderByteRestored(high);
    if |body| != size {
      LaterFlags(high, low, body[size..], room, full);
    }
  }
}
