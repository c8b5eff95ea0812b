/**
 The DVRIP client's reading side (pkg/dvrip/client.go): chunks with a 20-byte header carry pieces of a stream of
 packets, cut anywhere.
 */
module Dvrip {
  import opened Bytes

  datatype Error = Closed | ReadError | WrongPacket | UnknownType

  /** One chunk off the connection: its session, its body and what follows; a failure says what is left, too. */
  datatype ChunkResult = Chunk(session: nat, body: Data, rest: Data) | Failure(error: Error, session: nat, rest: Data)

  function TakeChunk(session: nat, input: Data): (r: ChunkResult)
    ensures r.Chunk? ==> |r.rest| < |input|
  {
    if |input| < 20 then Failure(Closed, session, [])
    else if input[0] != 255 then Failure(ReadError, session, input[20..])
    else
      var size := LeU32(input[16..]);
      if |input| < 20 + size then Failure(Closed, LeU32(input[4..]), [])
      else Chunk(LeU32(input[4..]), input[20..20 + size], input[20 + size..])
  }

  /** The bodies of the chunks up to the first failure. */
  function Bodies(input: Data): (b: Data)
    decreases |input|
  {
    match TakeChunk(0, input)
    case Chunk(_, body, rest) => body + Bodies(rest)
    case Failure(_, _, _) => []
  }

  /** The failure that ends the chunks. */
  function Ending(input: Data): (e: Error)
    decreases |input|
  {
    match TakeChunk(0, input)
    case Chunk(_, _, rest) => Ending(rest)
    case Failure(error, _, _) => error
  }

  lemma SessionIsOutput(session: nat, input: Data)
    ensures match TakeChunk(session, input)
            case Chunk(_, body, rest) => Bodies(input) == body + Bodies(rest) && Ending(input) == Ending(rest)
            case Failure(error, _, _) => Bodies(input) == [] && Ending(input) == error
  {
  }

  /** What a stream of packets begins with: a whole packet, less than one, or something else. */
  datatype Front = Packet(pType: byte, size: nat) | Short | Bad(error: Error)

  function SizeOf(b: Data): (size: nat)
    requires |b| >= 16 && b[3] in {0xFC, 0xFE, 0xFD, 0xFA, 0xF9}
    ensures size >= 8
  {
    if b[3] == 0xFC || b[3] == 0xFE then LeU32(b[12..]) + 16
    else if b[3] == 0xFD then LeU32(b[4..]) + 8
    else LeU16(b[6..]) + 8
  }

  function FrontOf(b: Data): (f: Front)
    ensures f.Packet? ==> 8 <= f.size <= |b|
  {
    if |b| < 16 then Short
    else if b[..3] != [0, 0, 1] then Bad(WrongPacket)
    else if b[3] !in {0xFC, 0xFE, 0xFD, 0xFA, 0xF9} then Bad(UnknownType)
    else if |b| < SizeOf(b) then Short
    else Packet(b[3], SizeOf(b))
  }

  /** The first sixteen bytes decide the size and the errors. */
  lemma FrontLocal(b: Data, more: Data)
    requires |b| >= 16
    ensures FrontOf(b).Bad? <==> FrontOf(b + more).Bad?
    ensures FrontOf(b).Bad? ==> FrontOf(b) == FrontOf(b + more)
    ensures !FrontOf(b).Bad? ==> b[3] in {0xFC, 0xFE, 0xFD, 0xFA, 0xF9} && SizeOf(b) == SizeOf(b + more)
  {
    assert (b + more)[..3] == b[..3];
  }

  datatype Result = Read(pType: byte, payload: Data) | Error(error: Error)

  class Client {
    var buf: Data
    var session: nat
    var input: Data

    constructor (input: Data)
      ensures buf == [] && session == 0 && this.input == input
    {
      buf, session, this.input := [], 0, input;
    }

    /** The stream of packets: what is buffered and the bodies to come. */
    ghost function Stream(): (s: Data)
      reads this
    {
      buf + Bodies(input)
    }

    method ReadChunk() returns (b: Data, ok: bool, error: Error)
      modifies this`session, this`input
      ensures match TakeChunk(old(session), old(input))
              case Chunk(s, body, rest) => ok && b == body && session == s && input == rest
              case Failure(e, s, rest) => !ok && error == e && session == s && input == rest
    {
      b, error := [], Closed;
      if |input| < 20 {
        input := [];
        return b, false, Closed;
      }
      var head := input[..20];
      input := input[20..];
      if head[0] != 255 {
        return b, false, ReadError;
      }
      session := LeU32(head[4..]);
      var size := LeU32(head[16..]);
      if |input| < size {
        input := [];
        return b, false, Closed;
      }
      b := input[..size];
      input := input[size..];
      ok := true;
    }

    /** Appends chunks until the buffer has n bytes. */
    method Fill(n: nat) returns (ok: bool, error: Error)
      modifies this
      ensures ok ==> |buf| >= n && Stream() == old(Stream()) && old(buf) <= buf
      ensures !ok ==> buf == old(Stream()) && |buf| < n && error == Ending(old(input))
      ensures |old(buf)| >= n ==> buf == old(buf)
      ensures ok ==> Ending(input) == Ending(old(input))
    {
      hide TakeChunk, Bodies, Ending;
      error := Closed;
      while |buf| < n
        invariant Stream() == old(Stream()) && old(buf) <= buf
        invariant Ending(input) == Ending(old(input))
        invariant |old(buf)| >= n ==> buf == old(buf)
        decreases |input|
      {
        SessionIsOutput(session, input);
        var b;
        b, ok, error := ReadChunk();
        if !ok {
          return;
        }
        buf := buf + b;
      }
      ok := true;
    }

    /** The packet at the front of the stream, wherever the chunks were cut. */
    method ReadPacket() returns (r: Result)
      modifies this
      ensures match FrontOf(old(Stream()))
              case Packet(pType, n) =>
                && r == Read(pType, old(Stream())[..n]) && Stream() == old(Stream())[n..]
                && Ending(input) == Ending(old(input))
              case Bad(error) =>
                r == Error(error) && Stream() == old(Stream()) && Ending(input) == Ending(old(input))
              case Short => r == Error(Ending(old(input))) && buf == old(Stream())
    {
      hide Bodies, Ending, TakeChunk, LeU32, LeU16;
      ghost var stream := Stream();
      var ok, error := Fill(16);
      if !ok {
        return Error(error);
      }
      FrontLocal(buf, Bodies(input));
      if buf[..3] != [0, 0, 1] {
        return Error(WrongPacket);
      }
      var pType := buf[3];
      var size;
      if pType == 0xFC || pType == 0xFE {
        size := LeU32(buf[12..]) + 16;
      } else if pType == 0xFD {
        size := LeU32(buf[4..]) + 8;
      } else if pType == 0xFA || pType == 0xF9 {
        size := LeU16(buf[6..]) + 8;
      } else {
        return Error(UnknownType);
      }
      assert size == SizeOf(stream) && !FrontOf(stream).Bad?;
      ok, error := Fill(size);
      if !ok {
        return Error(error);
      }
      assert buf + Bodies(input) == stream;
      var payload := buf[..size];
      assert payload == stream[..size];
      buf := buf[size..];
      assert buf + Bodies(input) == stream[size..];
      r := Read(pType, payload);
    }

    /** ReadPacket until it fails. */
    method ReadPackets() returns (packets: seq<Data>, error: Error)
      modifies this
      ensures packets == PacketsOf(old(Stream()))
      ensures error == if StopOf(old(Stream())).Bad? then StopOf(old(Stream())).error else Ending(old(input))
      ensures Flat(packets) + (if StopOf(old(Stream())).Short? then buf else Stream()) == old(Stream())
    {
      hide Bodies, Ending, FrontOf, Flat, PacketsOf, StopOf;
      packets := [];
      FlatNone();
      while true
        invariant packets + PacketsOf(Stream()) == PacketsOf(old(Stream()))
        invariant StopOf(Stream()) == StopOf(old(Stream())) && Ending(input) == Ending(old(input))
        invariant Flat(packets) + Stream() == old(Stream())
        decreases |Stream()|
      {
        ghost var stream := Stream();
        PacketsStep(stream);
        var r := ReadPacket();
        if r.Error? {
          return packets, r.error;
        }
        assert packets + [r.payload] + PacketsOf(Stream()) == packets + ([r.payload] + PacketsOf(Stream()));
        FlatConcat(packets, [r.payload]);
        FlatOne(r.payload);
        assert stream == r.payload + Stream();
        packets := packets + [r.payload];
      }
    }
  }

  lemma PacketsStep(b: Data)
    ensures FrontOf(b).Packet? ==>
              var n := FrontOf(b).size;
              PacketsOf(b) == [b[..n]] + PacketsOf(b[n..]) && StopOf(b) == StopOf(b[n..])
    ensures !FrontOf(b).Packet? ==> PacketsOf(b) == [] && StopOf(b) == FrontOf(b)
  {
    hide FrontOf;
  }

  lemma FlatNone()
    ensures Flat([]) == []
  {
  }

  /** The packets at the front of a stream, and what comes after them. */
  function PacketsOf(b: Data): (packets: seq<Data>)
    decreases |b|
  {
    match FrontOf(b)
    case Packet(_, n) => [b[..n]] + PacketsOf(b[n..])
    case _ => []
  }

  function StopOf(b: Data): (f: Front)
    ensures !f.Packet?
    decreases |b|
  {
    match FrontOf(b)
    case Packet(_, n) => StopOf(b[n..])
    case other => other
  }

  // Chunks as WriteCmd frames them.

  datatype Piece = Piece(session: nat, number: nat, cmd: nat, body: Data)

  function Head(p: Piece): (head: Data)
    ensures |head| == 20
  {
    [255, 0, 0, 0] + PutLeU32(p.session) + PutLeU32(p.number) + [0, 0] + PutLeU16(p.cmd) + PutLeU32(|p.body|)
  }

  function Wire(pieces: seq<Piece>): (wire: Data)
  {
    if pieces == [] then [] else Head(pieces[0]) + pieces[0].body + Wire(pieces[1..])
  }

  function BodiesOf(pieces: seq<Piece>): (bodies: seq<Data>)
  {
    if pieces == [] then [] else [pieces[0].body] + BodiesOf(pieces[1..])
  }

  lemma TakesPiece(p: Piece, rest: Data)
    requires |p.body| < 0x1_0000_0000
    ensures TakeChunk(0, Head(p) + p.body + rest) == Chunk(p.session % 0x1_0000_0000, p.body, rest)
  {
    hide LeU32, PutLeU32;
    var size := PutLeU32(|p.body|);
    var input := Head(p) + p.body + rest;
    assert input[16..] == size + (p.body + rest);
    LeU32OfPut(|p.body|, p.body + rest);
    assert input[4..] == PutLeU32(p.session) + input[8..];
    LeU32OfPut(p.session, input[8..]);
    assert input[20..20 + |p.body|] == p.body && input[20 + |p.body|..] == rest;
  }

  /** Whatever was framed is read back: its bodies, and then the end of the connection. */
  lemma {:induction false} BodiesOfWire(pieces: seq<Piece>)
    requires forall k :: 0 <= k < |pieces| ==> |pieces[k].body| < 0x1_0000_0000
    ensures Bodies(Wire(pieces)) == Flat(BodiesOf(pieces)) && Ending(Wire(pieces)) == Closed
  {
    hide TakeChunk, Head;
    if pieces == [] {
      NothingToTake();
    } else {
      TakesPiece(pieces[0], Wire(pieces[1..]));
      BodiesOfWire(pieces[1..]);
      assert BodiesOf(pieces)[1..] == BodiesOf(pieces[1..]);
    }
  }

  lemma NothingToTake()
    ensures TakeChunk(0, []) == Failure(Closed, 0, [])
  {
  }

  /** A packet that says its own size; where its type keeps the size decides how short it can be. */
  predicate Framed(p: Data) {
    && |p| >= 8 && p[..3] == [0, 0, 1]
    && if p[3] == 0xFC || p[3] == 0xFE then |p| >= 16 && |p| == LeU32(p[12..]) + 16
       else if p[3] == 0xFD then |p| == LeU32(p[4..]) + 8
       else (p[3] == 0xFA || p[3] == 0xF9) && |p| == LeU16(p[6..]) + 8
  }

  /** It is found at the front of a stream as soon as sixteen bytes are there. */
  lemma FramedInFront(p: Data, rest: Data)
    requires Framed(p)
    ensures FrontOf(p + rest) == if |p| + |rest| < 16 then Short else Packet(p[3], |p|)
    ensures (p + rest)[..|p|] == p && (p + rest)[|p|..] == rest
  {
    var b := p + rest;
    assert b[..3] == p[..3];
    if |b| >= 16 {
      assert SizeOf(b) == |p|;
    }
  }

  /** All of them, but for a last one of fewer than sixteen bytes. */
  function Whole(ps: seq<Data>): (r: seq<Data>)
  {
    if ps == [] || |ps[|ps| - 1]| >= 16 then ps else ps[..|ps| - 1]
  }

  lemma {:induction false} PacketsOfFlat(ps: seq<Data>)
    requires forall k :: 0 <= k < |ps| ==> Framed(ps[k])
    ensures PacketsOf(Flat(ps)) == Whole(ps) && StopOf(Flat(ps)) == Short
    ensures |Flat(ps)| >= 8 * |ps|
  {
    hide FrontOf, Framed;
    if ps == [] {
      assert FrontOf([]) == Short by {
        NothingInFront();
      }
    } else {
      var p, rest := ps[0], ps[1..];
      FramedInFront(p, Flat(rest));
      FramedSize(p);
      PacketsOfFlat(rest);
      if rest == [] {
        assert Flat(ps) == p + [] == p;
      } else {
        assert rest[|rest| - 1] == ps[|ps| - 1];
        assert [p] + rest == ps && [p] + rest[..|rest| - 1] == ps[..|ps| - 1];
      }
    }
  }

  lemma NothingInFront()
    ensures FrontOf([]) == Short
  {
  }

  lemma FramedSize(p: Data)
    requires Framed(p)
    ensures |p| >= 8
  {
  }

  /** The shortest packet, whole and alone, is not returned. */
  lemma ShortPacketWaits()
    ensures var p: Data := [0, 0, 1, 0xFD, 0, 0, 0, 0];
            Framed(p) && PacketsOf(p) == []
  {
    var p: Data := [0, 0, 1, 0xFD, 0, 0, 0, 0];
    assert p[..3] == [0, 0, 1] && LeU32(p[4..]) == 0;
  }

  /**
   Packets cut into chunks anywhere, many to a chunk or many chunks to one, come back as they were, if and only if the
   last one has sixteen bytes; a shorter last one is the only thing that stays behind.
   */
  lemma CutsDoNotMatter(ps: seq<Data>, pieces: seq<Piece>)
    requires forall k :: 0 <= k < |ps| ==> Framed(ps[k])
    requires forall k :: 0 <= k < |pieces| ==> |pieces[k].body| < 0x1_0000_0000
    requires Flat(BodiesOf(pieces)) == Flat(ps)
    ensures PacketsOf(Bodies(Wire(pieces))) == Whole(ps)
    ensures PacketsOf(Bodies(Wire(pieces))) == ps <==> ps == [] || |ps[|ps| - 1]| >= 16
    ensures StopOf(Bodies(Wire(pieces))) == Short && Ending(Wire(pieces)) == Closed
  {
    hide Flat, Bodies, PacketsOf, Framed;
    BodiesOfWire(pieces);
    PacketsOfFlat(ps);
    assert |Whole(ps)| == |ps| <==> ps == [] || |ps[|ps| - 1]| >= 16;
  }

  /** However a stream of any bytes is cut, its packets are the same. */
  lemma OnlyTheStreamMatters(a: seq<Piece>, b: seq<Piece>)
    requires forall k :: 0 <= k < |a| ==> |a[k].body| < 0x1_0000_0000
    requires forall k :: 0 <= k < |b| ==> |b[k].body| < 0x1_0000_0000
    requires Flat(BodiesOf(a)) == Flat(BodiesOf(b))
    ensures PacketsOf(Bodies(Wire(a))) == PacketsOf(Bodies(Wire(b)))
    ensures StopOf(Bodies(Wire(a))) == StopOf(Bodies(Wire(b))) && Ending(Wire(a)) == Ending(Wire(b))
  {
    hide Flat, Bodies, PacketsOf;
    BodiesOfWire(a);
    BodiesOfWire(b);
  }
}
