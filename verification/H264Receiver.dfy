/**
 A receiver written from RFC 6184, sections 5.6 (single NAL units), 5.7.1 (STAP-A) and 5.8 (FU-A), and the proof of
 what it recovers from any number of calls of the packetiser.
 */
module H264Receiver {
  import opened Bytes
  import opened Wrappers
  import opened Avcc
  import opened Aggregates
  import opened H264Payloader

  datatype Receiver = Receiver(nals: seq<Data>, open: Option<Data>)

  function Receive(r: Receiver, p: Data): (r': Option<Receiver>)
  {
    if p == [] then None
    else if 1 <= TypeOf(p) <= 23 then
      if r.open.Some? then None else Some(r.(nals := r.nals + [p]))
    else if TypeOf(p) == 24 then
      if r.open.Some? then None
      else
        match SplitUnits(p[1..])
        case None => None
        case Some(units) => if units == [] then None else Some(r.(nals := r.nals + units))
    else if TypeOf(p) == 28 then
      if |p| < 2 then None
      else
        var start, end := p[1] / 0x80, p[1] / 0x40 % 2;
        var header: byte := p[0] / 0x20 * 0x20 + p[1] % 0x20;
        if start == 1 then
          if end == 1 || r.open.Some? then None
          else Some(r.(open := Some([header] + p[2..])))
        else if r.open.None? || r.open.value == [] || r.open.value[0] != header then None
        else if end == 0 then Some(r.(open := Some(r.open.value + p[2..])))
        else Some(Receiver(r.nals + [r.open.value + p[2..]], None))
    else None
  }

  function ReceiveAll(r: Receiver, ps: seq<Data>): (r': Option<Receiver>)
    decreases |ps|
  {
    if ps == [] then Some(r)
    else
      match Receive(r, ps[0])
      case None => None
      case Some(next) => ReceiveAll(next, ps[1..])
  }

  lemma {:induction false} ReceiveConcat(r: Receiver, a: seq<Data>, b: seq<Data>)
    ensures ReceiveAll(r, a + b)
         == match ReceiveAll(r, a) case None => None case Some(next) => ReceiveAll(next, b)
    decreases |a|
  {
    hide Receive;
    if a == [] {
      assert a + b == b;
    } else {
      assert (a + b)[1..] == a[1..] + b;
      match Receive(r, a[0])
      case None =>
      case Some(next) => ReceiveConcat(next, a[1..], b);
    }
  }

  // What the calls are for, without bytes: parameter sets wait for the next unit that is not one.

  /** The bytes of the waiting group when it is sent. */
  function GroupSize(group: seq<Data>): (n: nat)
  {
    1 + |Units(group)|
  }

  /** The waiting group as stapANalu holds it. */
  function Encoded(group: seq<Data>): (held: Option<Data>)
  {
    if group == [] then None else Some([STAP_A_HEADER] + Units(group))
  }

  /** The units one NAL unit sends on their way, and the group left waiting. */
  function Deliver(mtu: nat, group: seq<Data>, n: Data): (r: (seq<Data>, seq<Data>))
  {
    if n == [] || IsSkipped(TypeOf(n)) then ([], group)
    else if IsParameterSet(TypeOf(n)) then ([], group + [n])
    else ((if GroupSize(group) <= mtu then group else []) + [n], [])
  }

  function DeliverAll(mtu: nat, group: seq<Data>, nals: seq<Data>): (r: (seq<Data>, seq<Data>))
    decreases |nals|
  {
    if nals == [] then ([], group)
    else
      var (sent, next) := Deliver(mtu, group, nals[0]);
      var (rest, last) := DeliverAll(mtu, next, nals[1..]);
      (sent + rest, last)
  }

  function DeliverCalls(group: seq<Data>, calls: seq<Call>): (r: (seq<Data>, seq<Data>))
    decreases |calls|
  {
    if calls == [] then ([], group)
    else
      var (sent, next) := DeliverAll(calls[0].mtu, group, AvcNals(calls[0].payload));
      var (rest, last) := DeliverCalls(next, calls[1..]);
      (sent + rest, last)
  }

  /** The units a call is meant to carry: no empty ones, no delimiters, no filler. */
  function WantedOne(n: Data): (r: seq<Data>)
  {
    if n == [] || TypeOf(n) == 9 || TypeOf(n) == 12 then [] else [n]
  }

  function Wanted(nals: seq<Data>): (r: seq<Data>)
  {
    if nals == [] then [] else WantedOne(nals[0]) + Wanted(nals[1..])
  }

  function WantedOf(calls: seq<Call>): (r: seq<Data>)
  {
    if calls == [] then [] else Wanted(AvcNals(calls[0].payload)) + WantedOf(calls[1..])
  }

  // The packetiser does what Deliver says, and the receiver reads it back.

  /** A NAL unit RFC 6184 lets a packetiser send: types 1 to 23, and the F bit clear when it is fragmented. */
  ghost predicate Sendable(mtu: nat, n: Data) {
    n == [] || (1 <= TypeOf(n) <= 23 && (|n| > mtu ==> n[0] < 0x80))
  }

  lemma FlagsRestored(header: byte, flags: nat)
    requires flags < 4 && header < 0x80
    ensures var i, h := FU_A + header / 0x20 % 4 * 0x20, header % 0x20 + flags * 0x40;
            && i % 0x20 == FU_A && i / 0x20 * 0x20 + h % 0x20 == header
            && h / 0x80 == flags / 2 && h / 0x40 % 2 == flags % 2
  {
    var nri, kind: nat := header / 0x20, header % 0x20;
    assert header == nri * 0x20 + kind && nri < 4;
    var i := 28 + nri * 0x20;
    assert i / 0x20 == nri && i % 0x20 == 28;
  }

  lemma ReceiveFragment(r: Receiver, header: byte, first: bool, last: bool, piece: Data)
    requires header < 0x80 && !(first && last)
    requires if first then r.open.None? else r.open.Some? && r.open.value != [] && r.open.value[0] == header
    ensures Receive(r, Fragment(header, first, last, piece))
         == Some(if first then r.(open := Some([header] + piece))
                 else if last then Receiver(r.nals + [r.open.value + piece], None)
                 else r.(open := Some(r.open.value + piece)))
  {
    FlagsRestored(header, if first then 2 else if last then 1 else 0);
    var p := Fragment(header, first, last, piece);
    assert p[2..] == piece;
  }

  lemma {:induction false} ReceiveLaterFragments(r: Receiver, header: byte, body: Data, room: nat, full: nat)
    requires room > 0 && 0 < |body| < full && header < 0x80
    requires r.open.Some? && r.open.value != [] && r.open.value[0] == header
    ensures ReceiveAll(r, Fragments(header, body, room, full)) == Some(Receiver(r.nals + [r.open.value + body], None))
    decreases |body|
  {
    hide Receive;
    var size := Min(room, |body|);
    var last := |body| == size;
    ReceiveFragment(r, header, false, last, body[..size]);
    var ps := Fragments(header, body, room, full);
    assert ps[1..] == Fragments(header, body[size..], room, full);
    if last {
      assert body[..size] == body;
    } else {
      var next := r.(open := Some(r.open.value + body[..size]));
      ReceiveLaterFragments(next, header, body[size..], room, full);
      assert next.open.value + body[size..] == r.open.value + body;
    }
  }

  lemma ReceiveWhole(r: Receiver, mtu: nat, n: Data)
    requires r.open.None? && n != [] && Sendable(mtu, n) && |n| <= mtu
    ensures ReceiveAll(r, [n]) == Some(r.(nals := r.nals + [n]))
  {
    assert Receive(r, n) == Some(r.(nals := r.nals + [n]));
    hide Receive;
    assert [n][1..] == [];
  }

  lemma ReceiveInFragments(r: Receiver, mtu: nat, n: Data)
    requires r.open.None? && mtu >= 3 && n != [] && Sendable(mtu, n) && |n| > mtu
    ensures ReceiveAll(r, Fragments(n[0], n[1..], mtu - 2, |n| - 1)) == Some(r.(nals := r.nals + [n]))
  {
    hide Receive, Fragment;
    var room, body := mtu - 2, n[1..];
    ReceiveFragment(r, n[0], true, false, body[..room]);
    var ps := Fragments(n[0], body, room, |n| - 1);
    assert ps[1..] == Fragments(n[0], body[room..], room, |n| - 1);
    var next := r.(open := Some([n[0]] + body[..room]));
    ReceiveLaterFragments(next, n[0], body[room..], room, |n| - 1);
    assert next.open.value + body[room..] == n;
  }

  lemma ReceiveCarried(r: Receiver, mtu: nat, n: Data)
    requires r.open.None? && mtu >= 3 && n != [] && Sendable(mtu, n)
    ensures ReceiveAll(r, Carry(mtu, n)) == Some(r.(nals := r.nals + [n]))
  {
    hide ReceiveAll, Fragments;
    if |n| <= mtu {
      ReceiveWhole(r, mtu, n);
    } else {
      ReceiveInFragments(r, mtu, n);
    }
  }

  lemma {:induction false} GroupUnitsAreShort(group: seq<Data>)
    ensures forall i :: 0 <= i < |group| ==> |group[i]| < |Units(group)|
  {
    if group != [] {
      GroupUnitsAreShort(group[1..]);
      forall i | 0 <= i < |group| ensures |group[i]| < |Units(group)| {
        assert i > 0 ==> group[i] == group[1..][i - 1];
      }
    }
  }

  lemma ReceiveGroup(r: Receiver, mtu: nat, group: seq<Data>)
    requires r.open.None? && mtu < 0x1_0000 && group != [] && Solid(group) && GroupSize(group) <= mtu
    ensures Receive(r, Encoded(group).value) == Some(r.(nals := r.nals + group))
  {
    hide Units, SplitUnits, PutU16, U16;
    GroupUnitsAreShort(group);
    UnitsSplit(group);
    var p := Encoded(group).value;
    assert p[1..] == Units(group) && p[0] == STAP_A_HEADER;
  }

  lemma EncodedAppend(group: seq<Data>, n: Data)
    ensures Encoded(group + [n])
         == Some((if group == [] then [STAP_A_HEADER] else Encoded(group).value) + PutU16(|n|) + n)
  {
    hide PutU16;
    UnitsAppend(group, n);
    if group == [] {
      assert Units([]) == [];
      assert [STAP_A_HEADER] + ([] + PutU16(|n|) + n) == [STAP_A_HEADER] + PutU16(|n|) + n;
    } else {
      assert [STAP_A_HEADER] + (Units(group) + PutU16(|n|) + n) == [STAP_A_HEADER] + Units(group) + PutU16(|n|) + n;
    }
  }

  lemma StepDelivers(r: Receiver, mtu: nat, group: seq<Data>, n: Data)
    requires r.open.None? && 3 <= mtu < 0x1_0000 && Solid(group) && Sendable(mtu, n)
    ensures var (out, held) := Step(mtu, Encoded(group), n);
            var (sent, next) := Deliver(mtu, group, n);
            && held == Encoded(next) && Solid(next)
            && ReceiveAll(r, out) == Some(r.(nals := r.nals + sent))
  {
    hide Receive, Carry;
    assert r.nals + [] == r.nals;
    if n == [] || IsSkipped(TypeOf(n)) {
    } else if IsParameterSet(TypeOf(n)) {
      EncodedAppend(group, n);
    } else {
      var flushed := if group != [] && GroupSize(group) <= mtu then [Encoded(group).value] else [];
      var kept := if GroupSize(group) <= mtu then group else [];
      var next := r.(nals := r.nals + kept);
      if flushed != [] {
        ReceiveGroup(r, mtu, group);
        assert flushed[1..] == [];
      }
      assert ReceiveAll(r, flushed) == Some(next);
      ReceiveCarried(next, mtu, n);
      ReceiveConcat(r, flushed, Carry(mtu, n));
      assert next.nals + [n] == r.nals + (kept + [n]);
    }
  }

  lemma {:induction false} EmitDelivers(r: Receiver, mtu: nat, group: seq<Data>, nals: seq<Data>)
    requires r.open.None? && 3 <= mtu < 0x1_0000 && Solid(group)
    requires forall i :: 0 <= i < |nals| ==> Sendable(mtu, nals[i])
    ensures var (out, held) := Emit(mtu, Encoded(group), nals);
            var (sent, next) := DeliverAll(mtu, group, nals);
            && held == Encoded(next) && Solid(next)
            && ReceiveAll(r, out) == Some(r.(nals := r.nals + sent))
    decreases |nals|
  {
    hide Receive, Step, Deliver, Encoded, Solid, Sendable;
    if nals == [] {
      assert r.nals + [] == r.nals;
    } else {
      StepDelivers(r, mtu, group, nals[0]);
      var (out, held) := Step(mtu, Encoded(group), nals[0]);
      var (sent, next) := Deliver(mtu, group, nals[0]);
      var middle := r.(nals := r.nals + sent);
      assert forall i :: 0 <= i < |nals| - 1 ==> nals[1..][i] == nals[i + 1];
      EmitDelivers(middle, mtu, next, nals[1..]);
      var (more, end) := Emit(mtu, held, nals[1..]);
      var (rest, last) := DeliverAll(mtu, next, nals[1..]);
      assert Emit(mtu, Encoded(group), nals) == (out + more, end);
      assert DeliverAll(mtu, group, nals) == (sent + rest, last);
      hide Emit, DeliverAll, ReceiveAll;
      ReceiveConcat(r, out, more);
      assert middle.nals + rest == r.nals + (sent + rest);
    }
  }

  ghost predicate Callable(c: Call) {
    && 3 <= c.mtu < 0x1_0000
    && forall i :: 0 <= i < |AvcNals(c.payload)| ==> Sendable(c.mtu, AvcNals(c.payload)[i])
  }

  lemma ReceiveNone(r: Receiver)
    ensures ReceiveAll(r, []) == Some(r)
  {
  }

  lemma {:induction false} CallsDeliver(r: Receiver, group: seq<Data>, calls: seq<Call>)
    requires r.open.None? && Solid(group)
    requires forall i :: 0 <= i < |calls| ==> Callable(calls[i])
    ensures var (out, held) := EmitCalls(Encoded(group), calls);
            var (sent, next) := DeliverCalls(group, calls);
            && held == Encoded(next) && Solid(next)
            && ReceiveAll(r, out) == Some(r.(nals := r.nals + sent))
    decreases |calls|
  {
    hide Receive, ReceiveAll, Emit, DeliverAll, AvcNals, Encoded, Solid, Sendable;
    ReceiveNone(r);
    if calls == [] {
      assert r.nals + [] == r.nals;
    } else {
      var nals := AvcNals(calls[0].payload);
      EmitDelivers(r, calls[0].mtu, group, nals);
      var (out, held) := Emit(calls[0].mtu, Encoded(group), nals);
      var (sent, next) := DeliverAll(calls[0].mtu, group, nals);
      var middle := r.(nals := r.nals + sent);
      CallsDeliver(middle, next, calls[1..]);
      var (rest, last) := DeliverCalls(next, calls[1..]);
      ReceiveConcat(r, out, EmitCalls(held, calls[1..]).0);
      assert middle.nals + rest == r.nals + (sent + rest);
    }
  }

  // Nothing is lost exactly when every group that was sent on fitted its call's mtu.

  /** The unit flushes a waiting group that is longer than the mtu. */
  predicate Loses(mtu: nat, group: seq<Data>, n: Data) {
    n != [] && TypeOf(n) !in [7, 8, 9, 12] && group != [] && GroupSize(group) > mtu
  }

  predicate GroupsFit(mtu: nat, group: seq<Data>, nals: seq<Data>)
    decreases |nals|
  {
    nals != [] ==> !Loses(mtu, group, nals[0]) && GroupsFit(mtu, Deliver(mtu, group, nals[0]).1, nals[1..])
  }

  predicate AllGroupsFit(group: seq<Data>, calls: seq<Call>)
    decreases |calls|
  {
    calls != [] ==>
    && GroupsFit(calls[0].mtu, group, AvcNals(calls[0].payload))
    && AllGroupsFit(DeliverAll(calls[0].mtu, group, AvcNals(calls[0].payload)).1, calls[1..])
  }

  /** One unit: nothing is lost unless a waiting group does not fit, and then the whole group is. */
  lemma StepConserves(mtu: nat, group: seq<Data>, n: Data)
    ensures var (sent, next) := Deliver(mtu, group, n);
            if Loses(mtu, group, n) then |sent + next| < |group + WantedOne(n)|
            else sent + next == group + WantedOne(n)
  {
    hide Units;
  }

  lemma {:induction false} DeliverConserves(mtu: nat, group: seq<Data>, nals: seq<Data>)
    ensures var (sent, last) := DeliverAll(mtu, group, nals);
            && |sent + last| <= |group + Wanted(nals)|
            && (GroupsFit(mtu, group, nals) ==> sent + last == group + Wanted(nals))
            && (!GroupsFit(mtu, group, nals) ==> |sent + last| < |group + Wanted(nals)|)
    decreases |nals|
  {
    hide Deliver, WantedOne, Loses;
    if nals == [] {
      assert [] + group == group + [];
    } else {
      var n := nals[0];
      var (sent, next) := Deliver(mtu, group, n);
      var (rest, last) := DeliverAll(mtu, next, nals[1..]);
      DeliverConserves(mtu, next, nals[1..]);
      StepConserves(mtu, group, n);
      assert (sent + rest) + last == sent + (rest + last);
      assert sent + (next + Wanted(nals[1..])) == (sent + next) + Wanted(nals[1..]);
      assert (group + WantedOne(n)) + Wanted(nals[1..]) == group + Wanted(nals);
    }
  }

  lemma {:induction false} CallsConserve(group: seq<Data>, calls: seq<Call>)
    ensures var (sent, last) := DeliverCalls(group, calls);
            && |sent + last| <= |group + WantedOf(calls)|
            && (AllGroupsFit(group, calls) ==> sent + last == group + WantedOf(calls))
            && (!AllGroupsFit(group, calls) ==> |sent + last| < |group + WantedOf(calls)|)
    decreases |calls|
  {
    hide DeliverAll, GroupsFit, AvcNals, Wanted;
    if calls == [] {
      assert [] + group == group + [];
    } else {
      var c, nals := calls[0], AvcNals(calls[0].payload);
      var (sent, next) := DeliverAll(c.mtu, group, nals);
      var (rest, last) := DeliverCalls(next, calls[1..]);
      DeliverConserves(c.mtu, group, nals);
      CallsConserve(next, calls[1..]);
      assert (sent + rest) + last == sent + (rest + last);
      assert sent + (next + WantedOf(calls[1..])) == (sent + next) + WantedOf(calls[1..]);
      assert (group + Wanted(nals)) + WantedOf(calls[1..]) == group + WantedOf(calls);
    }
  }

  /**
   Any number of calls on a fresh packetiser: RFC 6184 decoding of all payloads, followed by the parameter sets still
   held back, is the wanted NAL units in order, if and only if every group of parameter sets fitted when it was sent.
   */
  lemma ManyCalls(calls: seq<Call>) returns (sent: seq<Data>, group: seq<Data>)
    requires forall i :: 0 <= i < |calls| ==> Callable(calls[i])
    ensures var (out, held) := EmitCalls(None, calls);
            ReceiveAll(Receiver([], None), out) == Some(Receiver(sent, None)) && held == Encoded(group)
    ensures sent + group == WantedOf(calls) <==> AllGroupsFit([], calls)
  {
    hide Receive, ReceiveAll, Emit, EmitCalls, DeliverCalls, AllGroupsFit, Callable;
    var r := Receiver([], None);
    CallsDeliver(r, [], calls);
    CallsConserve([], calls);
    sent, group := DeliverCalls([], calls).0, DeliverCalls([], calls).1;
    assert [] + sent == sent && [] + WantedOf(calls) == WantedOf(calls);
  }

  /** A sequence parameter set of three bytes, held back as six, does not fit an mtu of four and is gone. */
  lemma GroupIsLost()
    ensures var sps: Data, idr: Data := [0x67, 0, 0], [0x65, 1];
            var call := Call(4, Join([sps, idr]));
            EmitCalls(None, [call]).0 == [idr] && EmitCalls(None, [call]).1 == None && WantedOf([call]) == [sps, idr]
  {
    var sps: Data, idr: Data := [0x67, 0, 0], [0x65, 1];
    var call := Call(4, Join([sps, idr]));
    AvcNalsOfJoin([sps, idr]);
    NonEmptyIsIdentity([sps, idr]);
    HeldIsDropped(sps, idr);
    BothAreWanted(sps, idr);
    hide Emit, AvcNals, Wanted, Step;
    assert [call][1..] == [] && EmitCalls(None, []).0 == [] && WantedOf([]) == [];
    assert [idr] + [] == [idr] && [sps, idr] + [] == [sps, idr];
  }

  lemma HeldIsDropped(sps: Data, idr: Data)
    requires sps == [0x67, 0, 0] && idr == [0x65, 1]
    ensures Emit(4, None, [sps, idr]) == ([idr], None)
  {
    var held := Step(4, None, sps).1;
    assert held.Some? && |held.value| == 6;
    assert Step(4, held, idr).0 == [] + [idr] == [idr] && Step(4, held, idr).1 == None;
    hide Step;
    assert [sps, idr][1..] == [idr] && [idr][1..] == [];
    assert Emit(4, held, [idr]).0 == [idr] + [] == [idr];
    assert Emit(4, None, [sps, idr]).0 == [] + [idr] == [idr];
  }

  lemma BothAreWanted(sps: Data, idr: Data)
    requires sps == [0x67, 0, 0] && idr == [0x65, 1]
    ensures Wanted([sps, idr]) == [sps, idr]
  {
    assert WantedOne(idr) == [idr] && WantedOne(sps) == [sps];
    hide WantedOne;
    assert [sps, idr][1..] == [idr] && [idr][1..] == [];
    assert Wanted([idr]) == [idr] + Wanted([]) == [idr];
    assert Wanted([sps, idr]) == [sps] + Wanted([idr]);
  }

  // What stands in front: the payload types, and the header of an aggregation packet (section 5.7 of RFC 6184).

  function Nri(header: byte): (r: nat)
  {
    header as nat / 0x20 % 4
  }

  ghost predicate SomeNri(units: seq<Data>, nri: nat) {
    exists i :: 0 <= i < |units| && units[i] != [] && Nri(units[i][0]) == nri
  }

  ghost predicate SomeForbidden(units: seq<Data>) {
    exists i :: 0 <= i < |units| && units[i] != [] && units[i][0] >= 0x80
  }

  /** Sequence and picture parameter sets. */
  ghost predicate ParameterSets(units: seq<Data>) {
    forall i :: 0 <= i < |units| ==> units[i] != [] && (TypeOf(units[i]) == 7 || TypeOf(units[i]) == 8)
  }

  /**
   The header of an aggregation packet: F is clear, which is the OR of its units' F bits if and only if none of them
   is set; NRI is not below that of any unit, and it is their maximum if and only if some unit has NRI 3.
   */
  ghost predicate AggregationRule(p: Data)
    requires p != []
  {
    && SplitUnits(p[1..]).Some?
    && var units := SplitUnits(p[1..]).value;
       && units != [] && ParameterSets(units)
       && p[0] < 0x80 && ((p[0] >= 0x80 <==> SomeForbidden(units)) <==> !SomeForbidden(units))
       && (forall i :: 0 <= i < |units| && units[i] != [] ==> Nri(units[i][0]) <= Nri(p[0]))
       && (SomeNri(units, Nri(p[0])) <==> SomeNri(units, 3))
  }

  /**
   Parameter sets travel in aggregation packets only, delimiters and filler not at all, and anything else on its own or
   in FU-A fragments.
   */
  ghost predicate PayloadRule(p: Data) {
    && p != []
    && if TypeOf(p) == 24 then AggregationRule(p)
       else TypeOf(p) == 28 || (1 <= TypeOf(p) <= 23 && TypeOf(p) != 7 && TypeOf(p) != 8 && TypeOf(p) != 9 && TypeOf(p) != 12)
  }

  ghost predicate AllFollow(ps: seq<Data>) {
    forall i :: 0 <= i < |ps| ==> PayloadRule(ps[i])
  }

  lemma GroupFollows(mtu: nat, group: seq<Data>)
    requires mtu < 0x1_0000 && group != [] && ParameterSets(group) && GroupSize(group) <= mtu
    ensures PayloadRule(Encoded(group).value)
  {
    hide SplitUnits, Units, PutU16;
    GroupUnitsAreShort(group);
    UnitsSplit(group);
    var p := Encoded(group).value;
    assert p[1..] == Units(group);
    assert TypeOf(p) == 24 && p[0] < 0x80 && Nri(p[0]) == 3;
  }

  lemma {:induction false} FragmentsFollow(header: byte, body: Data, room: nat, full: nat)
    requires room > 0
    ensures AllFollow(Fragments(header, body, room, full))
    decreases |body|
  {
    hide AggregationRule;
    if body != [] {
      var size := Min(room, |body|);
      FragmentsFollow(header, body[size..], room, full);
      FragmentFollows(header, |body| == full, |body| == size, body[..size]);
    }
  }

  lemma FragmentFollows(header: byte, first: bool, last: bool, piece: Data)
    ensures PayloadRule(Fragment(header, first, last, piece))
  {
    var nri := header as nat / 0x20 % 4;
    assert (28 + nri * 0x20) % 0x20 == 28;
    hide AggregationRule;
  }

  lemma StepFollows(mtu: nat, group: seq<Data>, n: Data)
    requires 3 <= mtu < 0x1_0000 && ParameterSets(group) && Sendable(mtu, n)
    ensures AllFollow(Step(mtu, Encoded(group), n).0)
    ensures ParameterSets(Deliver(mtu, group, n).1)
  {
    hide AggregationRule, Fragments, Encoded;
    if n != [] && !IsSkipped(TypeOf(n)) && !IsParameterSet(TypeOf(n)) {
      if |n| > mtu {
        FragmentsFollow(n[0], n[1..], mtu - 2, |n| - 1);
      }
      EncodedSize(group);
      if group != [] && GroupSize(group) <= mtu {
        GroupFollows(mtu, group);
      }
    }
  }

  lemma EncodedSize(group: seq<Data>)
    ensures group == [] ==> Encoded(group) == None
    ensures group != [] ==> Encoded(group).Some? && |Encoded(group).value| == GroupSize(group)
  {
    hide Units;
  }

  lemma {:induction false} EmitFollows(mtu: nat, group: seq<Data>, nals: seq<Data>)
    requires 3 <= mtu < 0x1_0000 && ParameterSets(group)
    requires forall i :: 0 <= i < |nals| ==> Sendable(mtu, nals[i])
    ensures AllFollow(Emit(mtu, Encoded(group), nals).0)
    ensures ParameterSets(DeliverAll(mtu, group, nals).1)
    decreases |nals|
  {
    hide Step, Deliver, Encoded, Sendable, PayloadRule, ParameterSets;
    if nals != [] {
      StepFollows(mtu, group, nals[0]);
      GroupIsSolid(group);
      StepDelivers(Receiver([], None), mtu, group, nals[0]);
      EmitFollows(mtu, Deliver(mtu, group, nals[0]).1, nals[1..]);
    }
  }

  lemma GroupIsSolid(group: seq<Data>)
    requires ParameterSets(group)
    ensures Solid(group)
  {
  }

  /** Every payload of any number of calls on a fresh packetiser follows the rules. */
  lemma {:induction false} CallsFollow(group: seq<Data>, calls: seq<Call>)
    requires ParameterSets(group) && forall i :: 0 <= i < |calls| ==> Callable(calls[i])
    ensures AllFollow(EmitCalls(Encoded(group), calls).0)
    ensures ParameterSets(DeliverCalls(group, calls).1)
    decreases |calls|
  {
    hide Emit, DeliverAll, Encoded, PayloadRule, ParameterSets, AvcNals, Sendable;
    if calls != [] {
      var nals := AvcNals(calls[0].payload);
      EmitFollows(calls[0].mtu, group, nals);
      GroupIsSolid(group);
      EmitDelivers(Receiver([], None), calls[0].mtu, group, nals);
      CallsFollow(DeliverAll(calls[0].mtu, group, nals).1, calls[1..]);
    }
  }

  // No payload is longer than the mtu of its call.

  ghost predicate AllWithin(ps: seq<Data>, bound: nat) {
    forall i :: 0 <= i < |ps| ==> |ps[i]| <= bound
  }

  lemma {:induction false} FragmentsFit(header: byte, body: Data, room: nat, full: nat)
    requires room > 0
    ensures AllWithin(Fragments(header, body, room, full), room + 2)
    decreases |body|
  {
    if body != [] {
      FragmentsFit(header, body[Min(room, |body|)..], room, full);
    }
  }

  lemma {:induction false} PayloadSizes(mtu: nat, held: Option<Data>, nals: seq<Data>)
    ensures AllWithin(Emit(mtu, held, nals).0, mtu)
    decreases |nals|
  {
    if nals != [] {
      StepSizes(mtu, held, nals[0]);
      hide Step;
      PayloadSizes(mtu, Step(mtu, held, nals[0]).1, nals[1..]);
    }
  }

  lemma StepSizes(mtu: nat, held: Option<Data>, n: Data)
    ensures AllWithin(Step(mtu, held, n).0, mtu)
  {
    if |n| > mtu > 2 {
      FragmentsFit(n[0], n[1..], mtu - 2, |n| - 1);
    }
    hide Fragments;
  }

  lemma {:induction false} FragmentsFill(header: byte, body: Data, room: nat, full: nat)
    requires room > 0
    ensures var ps := Fragments(header, body, room, full);
            && (|body| > room ==> |ps| > 1)
            && forall i :: 0 <= i < |ps| - 1 ==> |ps[i]| == room + 2
    decreases |body|
  {
    if body != [] {
      var size := Min(room, |body|);
      FragmentsFill(header, body[size..], room, full);
      var p := Fragment(header, |body| == full, |body| == size, body[..size]);
      var rest := Fragments(header, body[size..], room, full);
      FillStep(p, rest, room, size, |body|);
    }
  }

  lemma FillStep(p: Data, rest: seq<Data>, room: nat, size: nat, left: nat)
    requires |p| == size + 2 && (size < left ==> size == room && rest != []) && (size == left ==> rest == [])
    requires size <= left && forall i :: 0 <= i < |rest| - 1 ==> |rest[i]| == room + 2
    ensures forall i :: 0 <= i < |[p] + rest| - 1 ==> |([p] + rest)[i]| == room + 2
  {
  }

  /** A unit that fits travels whole; of one that does not, every packet but the last is as long as the mtu. */
  lemma PacketsAreFull(mtu: nat, n: Data)
    requires n != [] && TypeOf(n) !in [7, 8, 9, 12] && mtu > 2
    ensures var ps := Step(mtu, None, n).0;
            if |n| <= mtu then ps == [n] else |ps| > 1 && forall i :: 0 <= i < |ps| - 1 ==> |ps[i]| == mtu
  {
    hide Fragments;
    if |n| <= mtu {
      assert [] + [n] == [n];
    } else {
      FragmentsFill(n[0], n[1..], mtu - 2, |n| - 1);
      var fragments := Fragments(n[0], n[1..], mtu - 2, |n| - 1);
      assert [] + fragments == fragments;
    }
  }

  /** The waiting group goes out, in front of the unit that ends the wait, if and only if its packet fits the mtu. */
  lemma GroupGoesIfItFits(mtu: nat, group: seq<Data>, n: Data)
    requires group != [] && n != [] && 1 <= TypeOf(n) <= 23 && TypeOf(n) !in [7, 8, 9, 12] && mtu > 2
    ensures var ps, alone := Step(mtu, Encoded(group), n).0, Step(mtu, None, n).0;
            ps == if 1 + |Units(group)| <= mtu then [[0x78] + Units(group)] + alone else alone
  {
    hide Units, Carry;
    assert [] + Carry(mtu, n) == Carry(mtu, n);
  }
}
