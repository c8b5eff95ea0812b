/**
 The reassembler of pkg/h265/rtp.go fed by its own packetiser over a network: any selection of the packets that RTPPay
 numbered, in any order and with repeats, as long as no two of them share a number.
 */
module H265Arrivals {
  import opened Bytes
  import opened Wrappers
  import opened Avcc
  import opened H265Payloader
  import opened H265Receiver
  import opened H265Depay
  import opened H265RoundTrip

  /** A unit on its way, and whether it ends its access unit. */
  datatype SentUnit = SentUnit(carried: Carried, last: bool)

  /** The packets of the units from an index on, numbered from s. */
  function Wire(s: Seq16, us: seq<SentUnit>, from: nat): (r: seq<Packet>)
    requires from <= |us|
    decreases |us| - from
  {
    if from == |us| then []
    else
      var now := Packetize(s, PayloadsOf(us[from].carried.mtu, us[from].carried.unit), us[from].last);
      now + Wire(Advance(s, |now|), us, from + 1)
  }

  // What each packet carries: some bytes of a unit, from lo on and before hi.

  datatype Piece = Piece(u: nat, lo: nat, hi: nat)

  function LaterPieces(u: nat, n: Data, lo: nat, room: nat): (ps: seq<Piece>)
    requires room > 0 && lo <= |n|
    decreases |n| - lo
  {
    if lo == |n| then []
    else
      var hi := if |n| - lo > room then lo + room else |n|;
      [Piece(u, lo, hi)] + LaterPieces(u, n, hi, room)
  }

  function PiecesOf(u: nat, c: Carried): (ps: seq<Piece>)
  {
    if |c.unit| <= c.mtu then [Piece(u, 0, |c.unit|)]
    else [Piece(u, 0, c.mtu - 1)] + LaterPieces(u, c.unit, c.mtu - 1, c.mtu - 3)
  }

  function Pieces(us: seq<SentUnit>, from: nat): (ps: seq<Piece>)
    requires from <= |us|
    decreases |us| - from
  {
    if from == |us| then [] else PiecesOf(from, us[from].carried) + Pieces(us, from + 1)
  }

  /** A piece that the packetiser makes of the unit. */
  predicate Cut(c: Carried, p: Piece) {
    && p.lo < p.hi <= |c.unit|
    && (|c.unit| <= c.mtu ==> p.lo == 0 && p.hi == |c.unit|)
    && (|c.unit| > c.mtu ==> if p.lo == 0 then p.hi == c.mtu - 1 else p.lo >= c.mtu - 1)
  }

  function PayloadAt(c: Carried, p: Piece): (r: Data)
    requires Cut(c, p)
  {
    var n := c.unit;
    if |n| <= c.mtu then n
    else if p.lo == 0 then Fragment(n[0], n[1], true, false, n[2..][..c.mtu - 3])
    else Fragment(n[0], n[1], false, p.hi == |n|, n[p.lo..p.hi])
  }

  /** Piece q comes right after piece p. */
  predicate Follows(us: seq<SentUnit>, p: Piece, q: Piece) {
    && p.u < |us|
    && if p.hi < |us[p.u].carried.unit| then q.u == p.u && q.lo == p.hi else q.u == p.u + 1 && q.lo == 0
  }

  ghost predicate Chained(us: seq<SentUnit>, ps: seq<Piece>) {
    && (forall j :: 0 <= j < |ps| ==> ps[j].u < |us| && Cut(us[ps[j].u].carried, ps[j]))
    && (forall j :: 0 <= j < |ps| - 1 ==> Follows(us, ps[j], ps[j + 1]))
  }

  lemma ChainedConcat(us: seq<SentUnit>, a: seq<Piece>, b: seq<Piece>)
    requires Chained(us, a) && Chained(us, b)
    requires a != [] && b != [] ==> Follows(us, a[|a| - 1], b[0])
    ensures Chained(us, a + b)
  {
    hide Cut, Follows;
  }

  lemma {:induction false} LaterChained(us: seq<SentUnit>, u: nat, lo: nat, room: nat)
    requires u < |us| && room > 0
    requires var c := us[u].carried; |c.unit| > c.mtu && c.mtu - 1 <= lo <= |c.unit|
    ensures var ps := LaterPieces(u, us[u].carried.unit, lo, room);
            && Chained(us, ps)
            && (lo < |us[u].carried.unit| ==>
                  ps != [] && ps[0].u == u && ps[0].lo == lo
                  && ps[|ps| - 1].u == u && ps[|ps| - 1].hi == |us[u].carried.unit|)
    decreases |us[u].carried.unit| - lo
  {
    var n := us[u].carried.unit;
    if lo < |n| {
      var hi := if |n| - lo > room then lo + room else |n|;
      LaterChained(us, u, hi, room);
      ChainedConcat(us, [Piece(u, lo, hi)], LaterPieces(u, n, hi, room));
    }
  }

  lemma UnitChained(us: seq<SentUnit>, u: nat)
    requires u < |us| && us[u].carried.unit != []
    ensures var ps := PiecesOf(u, us[u].carried);
            && Chained(us, ps) && ps != [] && ps[0].u == u && ps[0].lo == 0
            && ps[|ps| - 1].u == u && ps[|ps| - 1].hi == |us[u].carried.unit|
  {
    var c := us[u].carried;
    if |c.unit| > c.mtu {
      LaterChained(us, u, c.mtu - 1, c.mtu - 3);
      ChainedConcat(us, [Piece(u, 0, c.mtu - 1)], LaterPieces(u, c.unit, c.mtu - 1, c.mtu - 3));
    }
  }

  ghost predicate AllSolid(us: seq<SentUnit>) {
    forall u :: 0 <= u < |us| ==> Passable(us[u].carried.mtu, us[u].carried.unit)
  }

  lemma {:induction false} PiecesChained(us: seq<SentUnit>, from: nat)
    requires from <= |us| && AllSolid(us)
    ensures Chained(us, Pieces(us, from))
    ensures from < |us| ==> Pieces(us, from) != [] && Pieces(us, from)[0].u == from && Pieces(us, from)[0].lo == 0
    decreases |us| - from
  {
    hide PiecesOf;
    if from < |us| {
      hide Chained;
      NotEmpty(us, from);
      UnitChained(us, from);
      PiecesChained(us, from + 1);
      ChainedConcat(us, PiecesOf(from, us[from].carried), Pieces(us, from + 1));
    }
  }

  // The packets are those of the pieces.

  function PacketAt(us: seq<SentUnit>, p: Piece, number: Seq16): (r: Packet)
    requires p.u < |us| && Cut(us[p.u].carried, p)
  {
    Packet(number, us[p.u].last && p.hi == |us[p.u].carried.unit|, PayloadAt(us[p.u].carried, p))
  }

  lemma {:induction false} LaterPayloads(u: nat, c: Carried, lo: nat, k: nat)
    requires |c.unit| > c.mtu && c.mtu - 1 <= lo <= |c.unit|
    ensures var n := c.unit;
            var fs, ps := Fragments(n[0], n[1], n[lo..], c.mtu - 3, |n| - 2), LaterPieces(u, n, lo, c.mtu - 3);
            && |fs| == |ps|
            && (k < |ps| ==> Cut(c, ps[k]) && fs[k] == PayloadAt(c, ps[k]) && (ps[k].hi == |n| <==> k == |ps| - 1))
    decreases |c.unit| - lo
  {
    hide Fragment, Fragments;
    var n, room := c.unit, c.mtu - 3;
    if lo < |n| {
      var hi := if |n| - lo > room then lo + room else |n|;
      H265Payloader.FragmentsStep(n[0], n[1], n[lo..], room, |n| - 2);
      assert n[lo..][..hi - lo] == n[lo..hi] && n[lo..][hi - lo..] == n[hi..];
      LaterPayloads(u, c, hi, if k > 0 then k - 1 else 0);
      var rest := LaterPieces(u, n, hi, room);
      assert LaterPieces(u, n, lo, room) == [Piece(u, lo, hi)] + rest;
      assert hi == |n| ==> rest == [];
      hide LaterPieces;
    } else {
      H265Payloader.NoFragments(n[0], n[1], room, |n| - 2);
      assert n[lo..] == [];
    }
  }

  lemma UnitPayloads(u: nat, c: Carried, k: nat)
    requires c.unit != [] && k < |PiecesOf(u, c)|
    ensures var fs, ps := PayloadsOf(c.mtu, c.unit), PiecesOf(u, c);
            && |fs| == |ps|
            && Cut(c, ps[k]) && fs[k] == PayloadAt(c, ps[k]) && (ps[k].hi == |c.unit| <==> k == |ps| - 1)
  {
    hide Fragment;
    var n := c.unit;
    if |n| > c.mtu {
      var body, room := n[2..], c.mtu - 3;
      assert body[..room] == n[2..][..room] && body[room..] == n[c.mtu - 1..];
      LaterPayloads(u, c, c.mtu - 1, if k > 0 then k - 1 else 0);
    }
  }

  lemma UnitPackets(s: Seq16, us: seq<SentUnit>, u: nat, k: nat)
    requires u < |us| && us[u].carried.unit != []
    ensures var c := us[u].carried;
            var now := Packetize(s, PayloadsOf(c.mtu, c.unit), us[u].last);
            && |now| == |PiecesOf(u, c)|
            && (k < |now| ==> Cut(c, PiecesOf(u, c)[k]) && PiecesOf(u, c)[k].u == u
                              && now[k] == PacketAt(us, PiecesOf(u, c)[k], Advance(s, k)))
  {
    hide PayloadsOf, PiecesOf, Packetize, PayloadAt, Advance, Cut, Follows;
    var c := us[u].carried;
    UnitChained(us, u);
    UnitPayloads(u, c, 0);
    if k < |PiecesOf(u, c)| {
      UnitPayloads(u, c, k);
      PiecesOfUnit(u, c, k);
      PacketizeAt(s, PayloadsOf(c.mtu, c.unit), us[u].last, k);
    }
  }

  lemma {:induction false} LaterOfUnit(u: nat, n: Data, lo: nat, room: nat, k: nat)
    requires room > 0 && lo <= |n| && k < |LaterPieces(u, n, lo, room)|
    ensures LaterPieces(u, n, lo, room)[k].u == u
    decreases |n| - lo
  {
    if k > 0 {
      LaterOfUnit(u, n, if |n| - lo > room then lo + room else |n|, room, k - 1);
    }
  }

  lemma PiecesOfUnit(u: nat, c: Carried, k: nat)
    requires k < |PiecesOf(u, c)|
    ensures PiecesOf(u, c)[k].u == u
  {
    if k > 0 {
      LaterOfUnit(u, c.unit, c.mtu - 1, c.mtu - 3, k - 1);
    }
  }

  lemma {:induction false} WireAt(s: Seq16, us: seq<SentUnit>, from: nat, k: nat)
    requires from <= |us| && AllSolid(us)
    ensures |Wire(s, us, from)| == |Pieces(us, from)|
    ensures k < |Pieces(us, from)| ==>
              var p := Pieces(us, from)[k];
              && p.u < |us| && Cut(us[p.u].carried, p)
              && Wire(s, us, from)[k] == PacketAt(us, p, Advance(s, k))
    decreases |us| - from
  {
    hide PayloadsOf, PiecesOf, Packetize, Advance, Cut, PacketAt, Passable;
    if from < |us| {
      NotEmpty(us, from);
      var c := us[from].carried;
      var now := Packetize(s, PayloadsOf(c.mtu, c.unit), us[from].last);
      var rest, pieces := Wire(Advance(s, |now|), us, from + 1), PiecesOf(from, c);
      assert Wire(s, us, from) == now + rest && Pieces(us, from) == pieces + Pieces(us, from + 1);
      hide Wire, Pieces;
      UnitPackets(s, us, from, k);
      if k < |now| {
        WireAt(Advance(s, |now|), us, from + 1, 0);
      } else {
        WireAt(Advance(s, |now|), us, from + 1, k - |now|);
        AdvanceTwice(s, |now|, k - |now|);
      }
    }
  }

  lemma NotEmpty(us: seq<SentUnit>, u: nat)
    requires AllSolid(us) && u < |us|
    ensures us[u].carried.unit != [] && Passable(us[u].carried.mtu, us[u].carried.unit)
  {
  }

  // What the buffer holds.

  /** The units from index a on and before b. */
  function Nals(us: seq<SentUnit>, a: nat, b: nat): (nals: seq<Data>)
    requires a <= b <= |us|
    ensures |nals| == b - a && forall i :: 0 <= i < b - a ==> nals[i] == us[a + i].carried.unit
  {
    seq(b - a, i requires 0 <= i < b - a => us[a + i].carried.unit)
  }

  /** Those units as the reassembler joins them when it begins with unit a. */
  function Head(ps: Data, us: seq<SentUnit>, a: nat, b: nat): (r: Data)
    requires a < |us| && a <= b <= |us|
  {
    Lead(ps, [], us[a].carried.mtu, us[a].carried.unit) + Join(Nals(us, a, b))
  }

  lemma HeadStarts(ps: Data, us: seq<SentUnit>, a: nat)
    requires a < |us|
    ensures Head(ps, us, a, a) == Lead(ps, [], us[a].carried.mtu, us[a].carried.unit)
    ensures |us[a].carried.unit| <= us[a].carried.mtu ==> Head(ps, us, a, a) == []
  {
    assert Nals(us, a, a) == [];
  }

  lemma HeadGrows(ps: Data, us: seq<SentUnit>, a: nat, b: nat)
    requires a <= b < |us| && us[b].carried.unit != []
    ensures Head(ps, us, a, b + 1) == Head(ps, us, a, b) + Prefixed(us[b].carried.unit)
  {
    hide Prefixed, Lead, Join;
    var n := us[b].carried.unit;
    assert Nals(us, a, b + 1) == Nals(us, a, b) + [n];
    JoinConcat(Nals(us, a, b), [n]);
    JoinOne(n);
  }

  /** The collection began with unit a and has come to packet j. */
  ghost predicate Holding(ps: Data, us: seq<SentUnit>, s: Seq16, pieces: seq<Piece>, st: State, a: nat, j: nat) {
    && j < |pieces| && a <= pieces[j].u < |us| && st.seqNum == Advance(s, j)
    && var u, hi := pieces[j].u, pieces[j].hi;
       var n, head := us[u].carried.unit, Head(ps, us, a, u);
       && hi <= |n|
       && if hi == |n| then st.buf == head + Prefixed(n)
          else st.nuStart == |head| && st.buf == head + [0, 0, 0, 0] + n[..hi]
  }

  ghost predicate Held(ps: Data, us: seq<SentUnit>, s: Seq16, pieces: seq<Piece>, st: State) {
    st.buf != [] ==> exists a: nat, j: nat :: Holding(ps, us, s, pieces, st, a, j)
  }

  /** Consecutive units, the last of which ends an access unit. */
  ghost predicate IsStretch(ps: Data, us: seq<SentUnit>, unit: Data, a: nat, b: nat) {
    a <= b < |us| && us[b].last && unit == Head(ps, us, a, b + 1)
  }

  ghost predicate Stretch(ps: Data, us: seq<SentUnit>, unit: Data) {
    exists a: nat, b: nat :: IsStretch(ps, us, unit, a, b)
  }

  /** Nothing goes wrong with an arrival: no panic, and what is buffered and handed on are units in a row. */
  ghost predicate Fine(ps: Data, us: seq<SentUnit>, s: Seq16, pieces: seq<Piece>, o: Outcome) {
    o.Next? && Held(ps, us, s, pieces, o.st) && (o.unit.Some? ==> Stretch(ps, us, o.unit.value))
  }

  lemma WholeArrives(ps: Data, st: State, p: Packet)
    requires |p.payload| >= 3 && TypeOf(p.payload) != FU && !Ignored(p) && !OutOfSequence(st, p)
    ensures var grown := st.buf + Prefixed(p.payload);
            Arrive(ps, st, p) == if Marks(p) then Next(State([], st.nuStart, p.seqNum), Some(grown))
                                 else Next(State(grown, st.nuStart, p.seqNum), None)
  {
    hide Prefixed;
  }

  /** A unit sent whole, or its last fragment, has joined the buffer. */
  lemma UnitJoins(ps: Data, us: seq<SentUnit>, s: Seq16, pieces: seq<Piece>, o: Outcome, a: nat, k: nat)
    requires k < |pieces| && a <= pieces[k].u < |us| && us[pieces[k].u].carried.unit != []
    requires pieces[k].hi == |us[pieces[k].u].carried.unit|
    requires var u := pieces[k].u;
             var grown := Head(ps, us, a, u) + Prefixed(us[u].carried.unit);
             o.Next? && if o.unit.Some? then us[u].last && o.st.buf == [] && o.unit.value == grown
                        else o.st.buf == grown && o.st.seqNum == Advance(s, k)
    ensures Fine(ps, us, s, pieces, o)
  {
    hide Head, Prefixed, Advance;
    HeadGrows(ps, us, a, pieces[k].u);
    if o.unit.Some? {
      assert IsStretch(ps, us, o.unit.value, a, pieces[k].u);
    } else {
      assert Holding(ps, us, s, pieces, o.st, a, k);
    }
  }

  /** A unit sent whole, at the end of what is buffered from unit a on. */
  lemma WholeJoins(ps: Data, us: seq<SentUnit>, s: Seq16, pieces: seq<Piece>, st: State, a: nat, k: nat)
    requires AllSolid(us) && Chained(us, pieces) && k < |pieces|
    requires var u := pieces[k].u;
             a <= u < |us| && |us[u].carried.unit| <= us[u].carried.mtu && st.buf == Head(ps, us, a, u)
    requires var p := PacketAt(us, pieces[k], Advance(s, k));
             !Ignored(p) && !OutOfSequence(st, p)
    ensures Fine(ps, us, s, pieces, Arrive(ps, st, PacketAt(us, pieces[k], Advance(s, k))))
  {
    hide Head, Prefixed, Advance, Arrive, Follows, Fine, Ignored, OutOfSequence;
    var p := PacketAt(us, pieces[k], Advance(s, k));
    NotEmpty(us, pieces[k].u);
    WholeArrives(ps, st, p);
    UnitJoins(ps, us, s, pieces, Arrive(ps, st, p), a, k);
  }

  /** The first fragment of a unit, at the end of what is buffered from unit a on. */
  lemma FirstJoins(ps: Data, us: seq<SentUnit>, s: Seq16, pieces: seq<Piece>, st: State, a: nat, k: nat)
    requires AllSolid(us) && Chained(us, pieces) && k < |pieces| && pieces[k].lo == 0
    requires var u := pieces[k].u; var c := us[u].carried;
             a <= u < |us| && |c.unit| > c.mtu && Ready(st, Advance(s, k))
             && st.buf + Lead(ps, st.buf, c.mtu, c.unit) == Head(ps, us, a, u)
    ensures Fine(ps, us, s, pieces, Arrive(ps, st, PacketAt(us, pieces[k], Advance(s, k))))
  {
    hide Head, Advance, Arrive, Follows, Lead, Ready, Fragment;
    var p, c := PacketAt(us, pieces[k], Advance(s, k)), us[pieces[k].u].carried;
    FirstFragment(ps, st, p, c.mtu, c.unit);
    assert Holding(ps, us, s, pieces, Arrive(ps, st, p).st, a, k);
  }

  /** A later fragment of the unit that is open. */
  lemma LaterJoins(ps: Data, us: seq<SentUnit>, s: Seq16, pieces: seq<Piece>, st: State, a: nat, j: nat)
    requires AllSolid(us) && Chained(us, pieces) && j + 1 < |pieces| && Holding(ps, us, s, pieces, st, a, j)
    requires pieces[j].hi < |us[pieces[j].u].carried.unit|
    ensures Fine(ps, us, s, pieces, Arrive(ps, st, PacketAt(us, pieces[j + 1], Advance(s, j + 1))))
  {
    hide Head, Arrive, Fine, Fragment, Prefixed, Passable;
    var q, c := pieces[j + 1], us[pieces[j].u].carried;
    assert Follows(us, pieces[j], q) && Cut(us[q.u].carried, q) && Cut(c, pieces[j]);
    var n, lo, hi := c.unit, q.lo, q.hi;
    var p, head := PacketAt(us, q, Advance(s, j + 1)), Head(ps, us, a, q.u);
    AdvanceStep(s, j);
    SizeOfSolid(us, q.u);
    LaterFragment(ps, st, p, n[0], n[1], n[lo..hi], hi == |n|, head, n[..lo]);
    assert n[..lo] + n[lo..hi] == n[..hi];
    if hi == |n| {
      assert n[..hi] == n;
      UnitJoins(ps, us, s, pieces, Arrive(ps, st, p), a, j + 1);
    } else {
      FragmentJoined(ps, us, s, pieces, Arrive(ps, st, p), a, j + 1);
    }
  }

  lemma SizeOfSolid(us: seq<SentUnit>, u: nat)
    requires AllSolid(us) && u < |us|
    ensures 3 <= |us[u].carried.unit| < 0x1_0000_0000
  {
    NotEmpty(us, u);
  }

  lemma FragmentJoined(ps: Data, us: seq<SentUnit>, s: Seq16, pieces: seq<Piece>, o: Outcome, a: nat, k: nat)
    requires o.Next? && o.unit.None? && Holding(ps, us, s, pieces, o.st, a, k)
    ensures Fine(ps, us, s, pieces, o)
  {
  }

  /** Without its beginning a fragment is passed over. */
  lemma LaterIsLost(ps: Data, st: State, p: Packet, high: byte, low: byte, last: bool, piece: Data)
    requires st.buf == [] && p.payload == Fragment(high, low, false, last, piece)
    ensures var o := Arrive(ps, st, p);
            o.Next? && o.unit.None? && o.st.buf == []
  {
    FragmentFields(high, low, last, piece);
    hide Fragment, PutU32;
  }

  /** An arrival at an empty buffer. */
  lemma ArrivesEmpty(ps: Data, us: seq<SentUnit>, s: Seq16, pieces: seq<Piece>, st: State, k: nat)
    requires AllSolid(us) && Chained(us, pieces) && k < |pieces| && st.buf == []
    requires !Ignored(PacketAt(us, pieces[k], Advance(s, k)))
    ensures Fine(ps, us, s, pieces, Arrive(ps, st, PacketAt(us, pieces[k], Advance(s, k))))
  {
    hide Head, Advance, Arrive, Follows, Ignored, Fragment, Lead;
    var q := pieces[k];
    var c, p := us[q.u].carried, PacketAt(us, q, Advance(s, k));
    HeadStarts(ps, us, q.u);
    if |c.unit| <= c.mtu {
      WholeJoins(ps, us, s, pieces, st, q.u, k);
    } else if q.lo == 0 {
      assert [] + Lead(ps, [], c.mtu, c.unit) == Lead(ps, [], c.mtu, c.unit);
      FirstJoins(ps, us, s, pieces, st, q.u, k);
    } else {
      LaterIsLost(ps, st, p, c.unit[0], c.unit[1], q.hi == |c.unit|, c.unit[q.lo..q.hi]);
    }
  }

  /** The packet after the last one of a unit. */
  lemma NextUnitArrives(ps: Data, us: seq<SentUnit>, s: Seq16, pieces: seq<Piece>, st: State, a: nat, j: nat)
    requires AllSolid(us) && Chained(us, pieces) && j + 1 < |pieces| && Holding(ps, us, s, pieces, st, a, j)
    requires pieces[j].hi == |us[pieces[j].u].carried.unit|
    requires !Ignored(PacketAt(us, pieces[j + 1], Advance(s, j + 1)))
    ensures Fine(ps, us, s, pieces, Arrive(ps, st, PacketAt(us, pieces[j + 1], Advance(s, j + 1))))
  {
    hide Head, Advance, Arrive, Fine, Ignored, Fragment, Prefixed, Lead;
    var q, u := pieces[j + 1], pieces[j].u;
    var c := us[q.u].carried;
    assert Follows(us, pieces[j], q) && q.u == u + 1;
    NotEmpty(us, u);
    HeadGrows(ps, us, a, u);
    AdvanceStep(s, j);
    if |c.unit| <= c.mtu {
      WholeJoins(ps, us, s, pieces, st, a, j + 1);
    } else {
      NoLead(ps, st.buf, c.mtu, c.unit, us[u].carried.unit, Head(ps, us, a, u));
      FirstJoins(ps, us, s, pieces, st, a, j + 1);
    }
  }

  lemma NoLead(ps: Data, buf: Data, mtu: nat, n: Data, before: Data, head: Data)
    requires buf == head + Prefixed(before)
    ensures buf != [] && buf + Lead(ps, buf, mtu, n) == buf
  {
  }

  /** Numbers in one window tell packets apart. */
  lemma NextInWindow(s: Seq16, j: nat, k: nat, n: nat)
    requires j < n && k < n < 0x1_0000 && Advance(s, k) == Succ(Advance(s, j))
    ensures k == j + 1
  {
    AdvanceStep(s, j);
    SameNumber(s, k, j + 1);
  }

  lemma SameNumber(s: Seq16, j: nat, k: nat)
    requires j < 0x1_0000 && k < 0x1_0000 && Advance(s, j) == Advance(s, k)
    ensures j == k
  {
  }

  /** Any packet of the window at any moment. */
  lemma AnyArrives(ps: Data, us: seq<SentUnit>, s: Seq16, pieces: seq<Piece>, st: State, k: nat)
    requires AllSolid(us) && Chained(us, pieces) && k < |pieces| < 0x1_0000 && Held(ps, us, s, pieces, st)
    ensures Fine(ps, us, s, pieces, Arrive(ps, st, PacketAt(us, pieces[k], Advance(s, k))))
  {
    var p := PacketAt(us, pieces[k], Advance(s, k));
    if Ignored(p) || OutOfSequence(st, p) {
      hide PacketAt, Holding;
    } else {
      hide Arrive, Fine, Ignored, Chained, AllSolid;
      if st.buf == [] {
        ArrivesEmpty(ps, us, s, pieces, st, k);
      } else {
        var a: nat, j: nat :| Holding(ps, us, s, pieces, st, a, j);
        ContinuesHeld(ps, us, s, pieces, st, a, j, k);
      }
    }
  }

  lemma ContinuesHeld(ps: Data, us: seq<SentUnit>, s: Seq16, pieces: seq<Piece>, st: State, a: nat, j: nat, k: nat)
    requires AllSolid(us) && Chained(us, pieces) && k < |pieces| < 0x1_0000 && Holding(ps, us, s, pieces, st, a, j)
    requires st.buf != []
    requires var p := PacketAt(us, pieces[k], Advance(s, k));
             !Ignored(p) && !OutOfSequence(st, p)
    ensures Fine(ps, us, s, pieces, Arrive(ps, st, PacketAt(us, pieces[k], Advance(s, k))))
  {
    hide Head, Advance, Arrive, Fine, Ignored, PayloadAt, AllSolid, Follows, Cut;
    NextInWindow(s, j, k, |pieces|);
    if pieces[j].hi < |us[pieces[j].u].carried.unit| {
      LaterJoins(ps, us, s, pieces, st, a, j);
    } else {
      NextUnitArrives(ps, us, s, pieces, st, a, j);
    }
  }

  // Whole runs.

  /** Packets of the wire, by their places in it. */
  function Picked(wire: seq<Packet>, places: seq<nat>): (r: seq<Packet>)
    requires forall i :: 0 <= i < |places| ==> places[i] < |wire|
  {
    seq(|places|, i requires 0 <= i < |places| => wire[places[i]])
  }

  ghost predicate AllStretches(ps: Data, us: seq<SentUnit>, units: seq<Data>) {
    forall i :: 0 <= i < |units| ==> Stretch(ps, us, units[i])
  }

  lemma {:induction false} PickedArrive(ps: Data, us: seq<SentUnit>, s: Seq16, st: State, places: seq<nat>)
    requires AllSolid(us) && |Wire(s, us, 0)| < 0x1_0000 && Held(ps, us, s, Pieces(us, 0), st)
    requires forall i :: 0 <= i < |places| ==> places[i] < |Wire(s, us, 0)|
    ensures var r := Feed(ps, st, Picked(Wire(s, us, 0), places));
            !r.panicked && AllStretches(ps, us, r.units)
    decreases |places|
  {
    hide Wire, Pieces, Arrive, Held, Stretch, PacketAt, Chained, AllSolid;
    if places != [] {
      var wire, pieces, k := Wire(s, us, 0), Pieces(us, 0), places[0];
      PiecesChained(us, 0);
      WireAt(s, us, 0, k);
      AnyArrives(ps, us, s, pieces, st, k);
      var o := Arrive(ps, st, wire[k]);
      PickedArrive(ps, us, s, o.st, places[1..]);
      assert Picked(wire, places) == [wire[k]] + Picked(wire, places[1..]);
      FeedFirst(ps, st, wire[k], Picked(wire, places[1..]));
    }
  }

  // The units of a stream of access units.

  /** The units of one access unit as they are sent. */
  function Marked(cs: seq<Carried>): (us: seq<SentUnit>)
    ensures |us| == |cs|
  {
    seq(|cs|, i requires 0 <= i < |cs| => SentUnit(cs[i], i == |cs| - 1))
  }

  function AllMarked(mtu: Room, skip: bool, units: seq<seq<Data>>): (us: seq<SentUnit>)
  {
    if units == [] then [] else Marked(Carriage(mtu, skip, units[0])) + AllMarked(mtu, skip, units[1..])
  }

  /** An access unit's units stand at an index of the list. */
  ghost predicate MarkedAt(us: seq<SentUnit>, from: nat, cs: seq<Carried>) {
    from + |cs| <= |us| && forall i :: 0 <= i < |cs| ==> us[from + i] == SentUnit(cs[i], i == |cs| - 1)
  }

  lemma MarkedNext(us: seq<SentUnit>, from: nat, cs: seq<Carried>)
    requires MarkedAt(us, from, cs) && cs != []
    ensures us[from] == SentUnit(cs[0], |cs| == 1) && MarkedAt(us, from + 1, cs[1..])
  {
    forall i | 0 <= i < |cs| - 1 ensures us[from + 1 + i] == SentUnit(cs[1..][i], i == |cs| - 2) {
      assert us[from + (i + 1)] == SentUnit(cs[i + 1], i + 1 == |cs| - 1);
    }
    assert us[from + 0] == us[from];
  }

  lemma WireStep(s: Seq16, us: seq<SentUnit>, from: nat, c: Carried, last: bool)
    requires from < |us| && us[from] == SentUnit(c, last)
    ensures var now := Packetize(s, PayloadsOf(c.mtu, c.unit), last);
            Wire(s, us, from) == now + Wire(Advance(s, |now|), us, from + 1)
  {
    hide Packetize, PayloadsOf, Advance;
  }

  lemma {:induction false} WireOfAccessUnit(s: Seq16, us: seq<SentUnit>, from: nat, cs: seq<Carried>)
    requires MarkedAt(us, from, cs) && cs != [] && AllCarriable(cs)
    ensures var now := Packetize(s, PayloadsOfAll(cs), true);
            Wire(s, us, from) == now + Wire(Advance(s, |now|), us, from + |cs|)
    decreases |cs|
  {
    hide Packetize, PayloadsOf, Advance, Passable, Wire, MarkedAt;
    var c, rest := cs[0], cs[1..];
    MarkedNext(us, from, cs);
    var head, tail := PayloadsOf(c.mtu, c.unit), PayloadsOfAll(rest);
    WireStep(s, us, from, c, |cs| == 1);
    if rest == [] {
      assert head + tail == head;
    } else {
      UnitsNotEmpty(cs);
      WireOfAccessUnit(Advance(s, |head|), us, from + 1, rest);
      PacketizeConcat(s, head, tail, true);
      AdvanceTwice(s, |head|, |tail|);
      var one, more := Packetize(s, head, false), Packetize(Advance(s, |head|), tail, true);
      Regroup(one, more, Wire(Advance(s, |head| + |tail|), us, from + |cs|));
      hide PayloadsOfAll;
    }
  }

  ghost predicate Streamable(mtu: Room, skip: bool, units: seq<seq<Data>>) {
    forall i :: 0 <= i < |units| ==> units[i] != [] && Carriable(mtu, skip, units[i])
  }

  ghost predicate Tail(us: seq<SentUnit>, from: nat, rest: seq<SentUnit>) {
    from <= |us| && us[from..] == rest
  }

  lemma TailSplit(us: seq<SentUnit>, from: nat, cs: seq<Carried>, rest: seq<SentUnit>)
    requires Tail(us, from, Marked(cs) + rest)
    ensures MarkedAt(us, from, cs) && Tail(us, from + |cs|, rest)
  {
    forall i | 0 <= i < |cs| ensures us[from + i] == SentUnit(cs[i], i == |cs| - 1) {
      assert us[from..][i] == Marked(cs)[i];
    }
    assert us[from..][|cs|..] == us[from + |cs|..];
  }

  lemma {:induction false} WireOfStream(s: Seq16, mtu: Room, skip: bool, units: seq<seq<Data>>, us: seq<SentUnit>, from: nat)
    requires Streamable(mtu, skip, units) && Tail(us, from, AllMarked(mtu, skip, units))
    ensures Wire(s, us, from) == PacketizeUnits(s, mtu, skip, units)
    decreases |units|
  {
    hide Packetize, Payloads, Advance, Carriable, Carriage;
    if units == [] {
      assert from == |us|;
    } else {
      hide Wire, Marked, Join, Tail;
      StreamableRest(mtu, skip, units);
      hide Streamable;
      var now := Packetize(s, Payloads(mtu, skip, Join(units[0])), true);
      assert PacketizeUnits(s, mtu, skip, units) == now + PacketizeUnits(Advance(s, |now|), mtu, skip, units[1..]);
      hide PacketizeUnits;
      AccessUnitOnWire(s, mtu, skip, units[0], us, from, AllMarked(mtu, skip, units[1..]));
      hide AllMarked;
      WireOfStream(Advance(s, |now|), mtu, skip, units[1..], us, from + |Carriage(mtu, skip, units[0])|);
    }
  }

  lemma StreamableRest(mtu: Room, skip: bool, units: seq<seq<Data>>)
    requires Streamable(mtu, skip, units) && units != []
    ensures units[0] != [] && Carriable(mtu, skip, units[0]) && Streamable(mtu, skip, units[1..])
  {
    hide Carriable;
  }

  lemma AccessUnitOnWire(s: Seq16, mtu: Room, skip: bool, nals: seq<Data>, us: seq<SentUnit>, from: nat,
                         rest: seq<SentUnit>)
    requires nals != [] && Carriable(mtu, skip, nals)
    requires Tail(us, from, Marked(Carriage(mtu, skip, nals)) + rest)
    ensures var now := Packetize(s, Payloads(mtu, skip, Join(nals)), true);
            var next := from + |Carriage(mtu, skip, nals)|;
            Tail(us, next, rest) && Wire(s, us, from) == now + Wire(Advance(s, |now|), us, next)
  {
    hide Packetize, PayloadsOfAll, Payloads, Advance, Carriable, Carriage, AllCarriable, Indexable, Closing, Wire, Marked;
    hide MarkedAt, Tail, Join, AvcNals, Lead, Walkable;
    var cs := Carriage(mtu, skip, nals);
    PayloadsOfAccessUnit(mtu, skip, nals);
    CarriageCarriable(mtu, skip, nals);
    CarriageEnds([], mtu, skip, nals);
    TailSplit(us, from, cs, rest);
    WireOfAccessUnit(s, us, from, cs);
  }

  lemma {:induction false} StreamIsSolid(mtu: Room, skip: bool, units: seq<seq<Data>>)
    requires Streamable(mtu, skip, units)
    ensures AllSolid(AllMarked(mtu, skip, units))
  {
    hide Carriable, Carriage, Passable;
    if units != [] {
      CarriageCarriable(mtu, skip, units[0]);
      StreamIsSolid(mtu, skip, units[1..]);
    }
  }

  /**
   A stream of access units in fewer than 2^16 packets, of which any arrive, in any order and as often as they like: the
   reassembler never panics, and each unit it hands on consists of units sent in a row, joined, up to the end of an
   access unit; nothing is mixed up, cut short or patched wrongly.
   */
  lemma StreamUnderLoss(ps: Data, st: State, s: Seq16, mtu: Room, skip: bool, units: seq<seq<Data>>, places: seq<nat>)
    requires st.buf == [] && Streamable(mtu, skip, units)
    requires |PacketizeUnits(s, mtu, skip, units)| < 0x1_0000
    requires forall i :: 0 <= i < |places| ==> places[i] < |PacketizeUnits(s, mtu, skip, units)|
    ensures var r := Feed(ps, st, Picked(PacketizeUnits(s, mtu, skip, units), places));
            !r.panicked && AllStretches(ps, AllMarked(mtu, skip, units), r.units)
  {
    hide Wire, PacketizeUnits, Streamable, AllSolid, Pieces, Feed, AllStretches, AllMarked;
    var us := AllMarked(mtu, skip, units);
    assert us[0..] == us;
    WireOfStream(s, mtu, skip, units, us, 0);
    StreamIsSolid(mtu, skip, units);
    PickedArrive(ps, us, s, st, places);
  }

  function AllNals(units: seq<seq<Data>>): (nals: seq<Data>)
  {
    if units == [] then [] else units[0] + AllNals(units[1..])
  }

  /** The units sent are the NAL units of the stream when nothing is aggregated. */
  lemma {:induction false} SentAsTheyAre(mtu: Room, skip: bool, units: seq<seq<Data>>)
    requires Streamable(mtu, skip, units)
    requires forall i :: 0 <= i < |units| ==> skip || Apart(mtu, units[i])
    ensures var us := AllMarked(mtu, skip, units);
            Nals(us, 0, |us|) == AllNals(units)
  {
    hide Carriable, Carriage, Apart;
    if units != [] {
      var cs, rest := Carriage(mtu, skip, units[0]), AllMarked(mtu, skip, units[1..]);
      CarriedAsTheyAre(mtu, skip, units[0]);
      SentAsTheyAre(mtu, skip, units[1..]);
      NalsConcat(Marked(cs), rest);
      MarkedNals(cs);
    }
  }

  lemma NalsConcat(a: seq<SentUnit>, b: seq<SentUnit>)
    ensures Nals(a + b, 0, |a + b|) == Nals(a, 0, |a|) + Nals(b, 0, |b|)
  {
  }

  lemma MarkedNals(cs: seq<Carried>)
    ensures Nals(Marked(cs), 0, |cs|) == UnitsOf(cs)
  {
  }
}
