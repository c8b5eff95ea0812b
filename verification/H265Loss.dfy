/**
 The reassembler of pkg/h265/rtp.go on any arrivals at all: packets lost, repeated, reordered or malformed.  The run
 is replayed with a record of which arrivals the buffer was built from.
 */
module H265Loss {
  import opened Bytes
  import opened Avcc
  import opened Wrappers
  import opened H265Payloader
  import opened H265Depay

  /** The state, the arrivals its buffer was built from, and nuStart when the first of them came in. */
  datatype Collector = Collector(st: State, sources: seq<nat>, from: nat)

  /** An access unit handed on, with the arrivals it was built from. */
  datatype Delivery = Delivery(unit: Data, sources: seq<nat>, from: nat)

  /** Arrival i joins what is buffered, or starts a new collection. */
  function Joined(c: Collector, i: nat): (r: Collector)
  {
    if c.st.buf == [] then Collector(c.st, [i], c.st.nuStart) else c.(sources := c.sources + [i])
  }

  function Track(ps: Data, c: Collector, p: Packet, i: nat): (r: Collector)
    requires Arrive(ps, c.st, p).Next?
  {
    var st := Arrive(ps, c.st, p).st;
    if Ignored(p) then c
    else if st.buf == [] then Collector(st, [], 0)
    else Joined(c, i).(st := st)
  }

  /** The deliveries of the arrivals from index i on. */
  function Deliveries(ps: Data, c: Collector, arrivals: seq<Packet>, i: nat): (r: seq<Delivery>)
    requires i <= |arrivals|
    decreases |arrivals| - i
  {
    if i == |arrivals| then []
    else
      match Arrive(ps, c.st, arrivals[i])
      case Panicked => []
      case Next(st, unit) =>
        var rest := Deliveries(ps, Track(ps, c, arrivals[i], i), arrivals, i + 1);
        if unit.None? then rest
        else [Delivery(unit.value, Joined(c, i).sources, Joined(c, i).from)] + rest
  }

  function UnitsOf(ds: seq<Delivery>): (r: seq<Data>)
  {
    if ds == [] then [] else [ds[0].unit] + UnitsOf(ds[1..])
  }

  /** The record changes nothing: the units delivered are those of the plain run. */
  lemma {:induction false} DeliveriesAreTheRun(ps: Data, c: Collector, arrivals: seq<Packet>, i: nat)
    requires i <= |arrivals|
    ensures UnitsOf(Deliveries(ps, c, arrivals, i)) == Feed(ps, c.st, arrivals[i..]).units
    decreases |arrivals| - i
  {
    if i < |arrivals| {
      assert arrivals[i..][0] == arrivals[i] && arrivals[i..][1..] == arrivals[i + 1..];
      match Arrive(ps, c.st, arrivals[i])
      case Panicked =>
      case Next(st, unit) =>
        DeliveriesAreTheRun(ps, Track(ps, c, arrivals[i], i), arrivals, i + 1);
        var rest := Deliveries(ps, Track(ps, c, arrivals[i], i), arrivals, i + 1);
        if unit.Some? {
          assert Deliveries(ps, c, arrivals, i)[1..] == rest;
        }
    }
  }

  function Select(arrivals: seq<Packet>, sources: seq<nat>): (r: seq<Packet>)
    requires Within(sources, |arrivals|)
    ensures |r| == |sources| && forall j :: 0 <= j < |r| ==> r[j] == arrivals[sources[j]]
  {
    seq(|sources|, j requires 0 <= j < |sources| => arrivals[sources[j]])
  }

  predicate Within(sources: seq<nat>, n: nat) {
    forall j :: 0 <= j < |sources| ==> sources[j] < n
  }

  /** Distinct arrivals, in arrival order. */
  predicate Increasing(sources: seq<nat>) {
    forall j, k :: 0 <= j < k < |sources| ==> sources[j] < sources[k]
  }

  /** Each packet's sequence number is the one after its predecessor's, modulo 2^16. */
  predicate Consecutive(packets: seq<Packet>) {
    forall j :: 0 <= j < |packets| - 1 ==> packets[j + 1].seqNum == Succ(packets[j].seqNum)
  }

  /** What an empty reassembler, with some stale nuStart, makes of these packets alone. */
  function Alone(ps: Data, from: nat, packets: seq<Packet>): (r: Run)
  {
    Feed(ps, State([], from, 0), packets)
  }

  /** The buffer is what the recorded arrivals alone would have built. */
  ghost predicate Accounted(ps: Data, c: Collector, arrivals: seq<Packet>, i: nat)
    requires i <= |arrivals|
  {
    c.st.buf != [] ==>
      && c.sources != [] && Within(c.sources, i) && Increasing(c.sources)
      && var packets := Select(arrivals, c.sources);
         && Consecutive(packets) && NoneIgnored(packets)
         && packets[|packets| - 1].seqNum == c.st.seqNum
         && Alone(ps, c.from, packets) == Run(c.st, [], false)
  }

  lemma SequenceNumberIsOverwritten(ps: Data, nuStart: nat, s: Seq16, t: Seq16, p: Packet)
    requires !Ignored(p)
    ensures Arrive(ps, State([], nuStart, s), p) == Arrive(ps, State([], nuStart, t), p)
  {
  }

  /** The packets of the extended collection: still consecutive, and fed alone they do what p did. */
  lemma ExtendCollection(ps: Data, c: Collector, arrivals: seq<Packet>, i: nat)
    requires i < |arrivals| && Accounted(ps, c, arrivals, i)
    requires !Ignored(arrivals[i]) && !OutOfSequence(c.st, arrivals[i])
    requires Arrive(ps, c.st, arrivals[i]).Next?
    ensures var o := Arrive(ps, c.st, arrivals[i]);
            var j := Joined(c, i);
            && j.sources != [] && Within(j.sources, i + 1) && Increasing(j.sources)
            && var packets := Select(arrivals, j.sources);
               && Consecutive(packets) && NoneIgnored(packets) && packets[|packets| - 1] == arrivals[i]
               && Alone(ps, j.from, packets) == Run(o.st, Handed(o.unit), false)
  {
    hide Arrive;
    var p := arrivals[i];
    var o := Arrive(ps, c.st, p);
    if c.st.buf == [] {
      SequenceNumberIsOverwritten(ps, c.st.nuStart, c.st.seqNum, 0, p);
      assert c.st == State([], c.st.nuStart, c.st.seqNum);
      assert Select(arrivals, [i]) == [p];
      FeedOne(ps, State([], c.st.nuStart, 0), p);
    } else {
      var before := Select(arrivals, c.sources);
      assert Select(arrivals, c.sources + [i]) == before + [p];
      FeedConcat(ps, State([], c.from, 0), before, [p]);
      FeedOne(ps, c.st, p);
    }
  }

  lemma ArriveKeepsSequence(ps: Data, st: State, p: Packet)
    requires Arrive(ps, st, p).Next? && !Ignored(p) && Arrive(ps, st, p).st.buf != []
    ensures !OutOfSequence(st, p)
    ensures Arrive(ps, st, p).st.seqNum == p.seqNum && Arrive(ps, st, p).unit.None?
  {
  }

  lemma DeliveredInSequence(ps: Data, st: State, p: Packet)
    requires Arrive(ps, st, p).Next? && Arrive(ps, st, p).unit.Some?
    ensures !Ignored(p) && !OutOfSequence(st, p)
  {
  }

  lemma TrackAccounts(ps: Data, c: Collector, arrivals: seq<Packet>, i: nat)
    requires i < |arrivals| && Accounted(ps, c, arrivals, i)
    requires Arrive(ps, c.st, arrivals[i]).Next?
    ensures Accounted(ps, Track(ps, c, arrivals[i], i), arrivals, i + 1)
  {
    hide Arrive, Feed;
    var p := arrivals[i];
    var o := Arrive(ps, c.st, p);
    if Ignored(p) {
    } else if o.st.buf != [] {
      ArriveKeepsSequence(ps, c.st, p);
      ExtendCollection(ps, c, arrivals, i);
    }
  }

  /** What a delivery promises: it is the work of consecutive packets and of nothing else. */
  ghost predicate Sound(ps: Data, arrivals: seq<Packet>, d: Delivery) {
    && d.sources != [] && Within(d.sources, |arrivals|) && Increasing(d.sources)
    && var packets := Select(arrivals, d.sources);
       && Consecutive(packets) && NoneIgnored(packets)
       && !Alone(ps, d.from, packets).panicked
       && Alone(ps, d.from, packets).units == [d.unit]
  }

  lemma {:induction false} EveryDeliveryIsSound(ps: Data, c: Collector, arrivals: seq<Packet>, i: nat)
    requires i <= |arrivals| && Accounted(ps, c, arrivals, i)
    ensures forall k :: 0 <= k < |Deliveries(ps, c, arrivals, i)| ==> Sound(ps, arrivals, Deliveries(ps, c, arrivals, i)[k])
    decreases |arrivals| - i
  {
    hide Arrive, Feed;
    if i < |arrivals| && Arrive(ps, c.st, arrivals[i]).Next? {
      TrackAccounts(ps, c, arrivals, i);
      EveryDeliveryIsSound(ps, Track(ps, c, arrivals[i], i), arrivals, i + 1);
      if Arrive(ps, c.st, arrivals[i]).unit.Some? {
        DeliveredInSequence(ps, c.st, arrivals[i]);
        ExtendCollection(ps, c, arrivals, i);
      }
    }
  }

  /**
   For every arrival sequence: each unit the reassembler hands on is exactly what it would have made of some of the
   arrivals alone, in arrival order, whose sequence numbers are consecutive modulo 2^16.
   */
  lemma ReassemblyUnderLoss(ps: Data, st: State, arrivals: seq<Packet>)
    requires st.buf == []
    ensures var ds := Deliveries(ps, Collector(st, [], 0), arrivals, 0);
            && UnitsOf(ds) == Feed(ps, st, arrivals).units
            && forall k :: 0 <= k < |ds| ==> Sound(ps, arrivals, ds[k])
  {
    DeliveriesAreTheRun(ps, Collector(st, [], 0), arrivals, 0);
    assert arrivals[0..] == arrivals;
    EveryDeliveryIsSound(ps, Collector(st, [], 0), arrivals, 0);
  }

  // The one thing a unit can still owe to earlier packets: a stale nuStart.

  predicate IsBegin(p: Packet) {
    !Ignored(p) && TypeOf(p.payload) == FU && p.payload[2] / 0x40 == 2
  }

  predicate IsEnd(p: Packet) {
    !Ignored(p) && TypeOf(p.payload) == FU && p.payload[2] / 0x40 == 1
  }

  /** No end fragment comes before the first begin fragment. */
  predicate NoOrphanEnd(packets: seq<Packet>)
  {
    packets != [] ==> !IsEnd(packets[0]) && (IsBegin(packets[0]) || NoOrphanEnd(packets[1..]))
  }

  predicate NoneIgnored(packets: seq<Packet>) {
    forall j :: 0 <= j < |packets| ==> !Ignored(packets[j])
  }

  lemma StepIgnoresNuStart(ps: Data, st: State, other: nat, p: Packet)
    requires !Ignored(p) && !OutOfSequence(st, p) && !IsEnd(p)
    ensures var o, o' := Arrive(ps, st, p), Arrive(ps, st.(nuStart := other), p);
            && o.Next? && o'.Next? && o'.unit == o.unit
            && o'.st == (if IsBegin(p) then o.st else o.st.(nuStart := other))
            && o.st.seqNum == p.seqNum
  {
  }

  /** A collection in which every end fragment follows a begin fragment comes out the same whatever went before it. */
  lemma {:induction false} HistoryIsIrrelevant(ps: Data, st: State, other: nat, packets: seq<Packet>)
    requires NoneIgnored(packets) && Consecutive(packets) && NoOrphanEnd(packets)
    requires packets != [] ==> !OutOfSequence(st, packets[0])
    ensures Feed(ps, st, packets).units == Feed(ps, st.(nuStart := other), packets).units
    ensures Feed(ps, st, packets).panicked == Feed(ps, st.(nuStart := other), packets).panicked
    decreases |packets|
  {
    hide Arrive;
    if packets != [] {
      var p, rest := packets[0], packets[1..];
      StepIgnoresNuStart(ps, st, other, p);
      var o := Arrive(ps, st, p);
      if !IsBegin(p) {
        if rest != [] {
          assert packets[1] == rest[0];
        }
        HistoryIsIrrelevant(ps, o.st, other, rest);
      }
    }
  }

  // Where the stale nuStart makes the reassembler slice past its buffer.

  /** An end fragment of the current collection. */
  predicate Ends(st: State, p: Packet) {
    IsEnd(p) && !OutOfSequence(st, p) && st.buf != []
  }

  /** The length of the buffer once the end fragment is appended. */
  function EndSize(st: State, p: Packet): (n: nat)
    requires Ends(st, p)
  {
    |st.buf| + |p.payload| - 3
  }

  /** It panics on exactly the end fragments that find nuStart within four bytes of the end of the buffer. */
  lemma PanicExactly(ps: Data, st: State, p: Packet)
    ensures Arrive(ps, st, p).Panicked? <==> Ends(st, p) && EndSize(st, p) - 4 < st.nuStart <= EndSize(st, p) + 4
  {
  }

  /**
   Every end fragment finds a begin fragment in the collection that it ends; `begun` says whether the current one has
   had one.
   */
  predicate Orderly(ps: Data, st: State, begun: bool, arrivals: seq<Packet>)
    decreases |arrivals|
  {
    if arrivals == [] then true
    else
      var p := arrivals[0];
      && (Ends(st, p) ==> begun)
      && match Arrive(ps, st, p)
         case Panicked => true
         case Next(next, _) => Orderly(ps, next, next.buf != [] && (begun || IsBegin(p)), arrivals[1..])
  }

  /** A collection that has begun a fragmented unit keeps its length field inside the buffer. */
  ghost predicate Placed(st: State, begun: bool) {
    begun ==> st.nuStart + 4 <= |st.buf|
  }

  lemma ArriveKeepsPlaced(ps: Data, st: State, begun: bool, p: Packet)
    requires Placed(st, begun) && (Ends(st, p) ==> begun)
    ensures Arrive(ps, st, p).Next?
    ensures var next := Arrive(ps, st, p).st;
            Placed(next, next.buf != [] && (begun || IsBegin(p)))
  {
    hide PutU32;
    PanicExactly(ps, st, p);
  }

  /** So it never panics while every end fragment follows its begin fragment, whatever is lost around them. */
  lemma {:induction false} OrderlyNeverPanics(ps: Data, st: State, begun: bool, arrivals: seq<Packet>)
    requires Placed(st, begun) && Orderly(ps, st, begun, arrivals)
    ensures !Feed(ps, st, arrivals).panicked
    decreases |arrivals|
  {
    hide Arrive, Placed, Ends, IsBegin;
    if arrivals != [] {
      var p := arrivals[0];
      ArriveKeepsPlaced(ps, st, begun, p);
      var next := Arrive(ps, st, p).st;
      OrderlyNeverPanics(ps, next, next.buf != [] && (begun || IsBegin(p)), arrivals[1..]);
    }
  }

  const SINGLE: Data := [2, 1, 0]
  const BEGIN: Data := [98, 1, 0x81, 0]
  const END: Data := [98, 1, 0x41, 0]

  const COMPLETE: seq<Packet> := [Packet(1, false, SINGLE), Packet(2, false, BEGIN), Packet(3, true, END)]
  const BROKEN: seq<Packet> := [Packet(4, false, SINGLE), Packet(5, false, END)]

  /** An access unit of a short and a fragmented unit leaves nuStart at 7. */
  lemma StartIsLeft(ps: Data)
    ensures Feed(ps, State([], 0, 0), COMPLETE).st == State([], 7, 3)
    ensures !Feed(ps, State([], 0, 0), COMPLETE).panicked
  {
    hide PutU32;
    var p, q, r := COMPLETE[0], COMPLETE[1], COMPLETE[2];
    assert TypeOf(SINGLE) == 1 && TypeOf(BEGIN) == FU && BEGIN[2] / 0x40 == 2 && TypeOf(END) == FU && END[2] / 0x40 == 1;
    var s1 := Arrive(ps, State([], 0, 0), p).st;
    var s2 := Arrive(ps, s1, q).st;
    assert |s1.buf| == 7 && s1.nuStart == 0 && s1.seqNum == 1;
    assert |s2.buf| == 14 && s2.nuStart == 7 && s2.seqNum == 2;
    assert Arrive(ps, s2, r).Next? && Arrive(ps, s2, r).st == State([], 7, 3);
    hide Arrive;
    assert COMPLETE[1..] == [q, r] && [q, r][1..] == [r];
    FeedOne(ps, s2, r);
    assert Feed(ps, s1, [q, r]).st == State([], 7, 3) && !Feed(ps, s1, [q, r]).panicked;
  }

  /** A short unit and then an end fragment without its begin: the stale nuStart points past the buffer. */
  lemma StaleStartPanics(ps: Data)
    ensures Feed(ps, State([], 0, 0), COMPLETE + BROKEN).panicked
  {
    hide Arrive;
    var p, q := BROKEN[0], BROKEN[1];
    StartIsLeft(ps);
    FeedConcat(ps, State([], 0, 0), COMPLETE, BROKEN);
    SingleArrives(ps, p);
    assert TypeOf(END) == FU && END[2] / 0x40 == 1;
    PanicExactly(ps, State([] + Prefixed(SINGLE), 7, 4), q);
    assert BROKEN[1..] == [q];
  }

  lemma SingleArrives(ps: Data, p: Packet)
    requires p == Packet(4, false, SINGLE)
    ensures Arrive(ps, State([], 7, 3), p) == Next(State([] + Prefixed(SINGLE), 7, 4), None)
  {
    assert TypeOf(SINGLE) == 1;
  }
}
