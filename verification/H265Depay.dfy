/** The H.265 RTP reassembler (RTPDepay in pkg/h265/rtp.go) as a state machine over arriving packets. */
module H265Depay {
  import opened Bytes
  import opened Wrappers
  import opened Avcc
  import opened H265Payloader

  type Seq16 = n: nat | n < 0x1_0000

  /** The parts of an RTP packet the reassembler looks at. */
  datatype Packet = Packet(seqNum: Seq16, marker: bool, payload: Data)

  /** The variables the handler closure captures. */
  datatype State = State(buf: Data, nuStart: nat, seqNum: Seq16)

  /** What one packet leads to: an index out of range, or a new state and perhaps an access unit handed on. */
  datatype Outcome = Panicked | Next(st: State, unit: Option<Data>)

  const PS_MAX_SIZE := 128

  function Succ(s: Seq16): (r: Seq16)
  {
    (s + 1) % 0x1_0000
  }

  predicate IsParameterSet(t: nat) { t == 32 || t == 33 || t == 34 }

  predicate IsSei(t: nat) { t == 39 || t == 40 }

  predicate IsKeyframe(t: nat) { 19 <= t <= 21 }

  /** The packets the handler returns from before looking at the sequence number. */
  predicate Ignored(p: Packet)
  {
    |p.payload| < 3 || (p.marker && |p.payload| < PS_MAX_SIZE && IsSei(TypeOf(p.payload)))
  }

  /** The marker bit after the fix for servers that mark parameter sets. */
  predicate Marks(p: Packet)
    requires p.payload != []
  {
    p.marker && !(|p.payload| < PS_MAX_SIZE && IsParameterSet(TypeOf(p.payload)))
  }

  /** The buffer after a packet: Waiting returns at once, Whole goes on to the marker test. */
  datatype Growth = Broken | Waiting(st: State) | Whole(st: State)

  function RestoredHeader(first: byte, t: nat): (b: byte)
    requires t < 0x40
  {
    first / 0x80 * 0x80 + first % 2 + t * 2
  }

  function Grow(ps: Data, st: State, data: Data): (g: Growth)
    requires |data| >= 3
  {
    if TypeOf(data) != FU then Whole(st.(buf := st.buf + Prefixed(data)))
    else
      var flags := data[2] / 0x40;
      var t := data[2] as nat % 0x40;
      if flags == 2 then
        var head := if st.buf == [] && IsKeyframe(t) then ps else st.buf;
        Waiting(st.(nuStart := |head|, buf := head + [0, 0, 0, 0] + [RestoredHeader(data[0], t), data[1]] + data[3..]))
      else if flags == 0 then
        Waiting(if st.buf == [] then st else st.(buf := st.buf + data[3..]))
      else if flags == 1 then
        if st.buf == [] then Waiting(st)
        else
          var b := st.buf + data[3..];
          if st.nuStart > |b| + 4 then Waiting(st.(buf := []))
          else if st.nuStart + 4 > |b| then Broken
          else Whole(st.(buf := b[..st.nuStart] + PutU32(|b| - st.nuStart - 4) + b[st.nuStart + 4..]))
      else
        Whole(st.(buf := st.buf + PutU32(|data| - 1) + [RestoredHeader(data[0], t), data[1]] + data[3..]))
  }

  /** A packet that cannot continue what is buffered. */
  predicate OutOfSequence(st: State, p: Packet)
  {
    st.buf != [] && p.seqNum != Succ(st.seqNum)
  }

  function Arrive(ps: Data, st: State, p: Packet): (o: Outcome)
  {
    if Ignored(p) then Next(st, None)
    else if OutOfSequence(st, p) then Next(st.(buf := []), None)
    else
      match Grow(ps, st.(seqNum := p.seqNum), p.payload)
      case Broken => Panicked
      case Waiting(s) => Next(s, None)
      case Whole(s) => if Marks(p) then Next(s.(buf := []), Some(s.buf)) else Next(s, None)
  }

  class Depay {
    const ps: Data
    var buf: Data
    var nuStart: nat
    var seqNum: Seq16

    function Now(): State
      reads this
    {
      State(buf, nuStart, seqNum)
    }

    constructor (ps: Data)
      ensures this.ps == ps && Now().buf == []
    {
      this.ps := ps;
      buf, nuStart, seqNum := [], 0, 0;
    }

    /** The fragmentation unit cases of the handler: `done` when the handler returns from inside them. */
    method HandleFragment(data: Data) returns (panicked: bool, done: bool)
      requires |data| >= 3 && TypeOf(data) == FU
      modifies `buf, `nuStart
      ensures panicked == Grow(ps, old(Now()), data).Broken?
      ensures !panicked ==> (if done then Waiting(Now()) else Whole(Now())) == Grow(ps, old(Now()), data)
    {
      panicked, done := false, false;
      var flags := data[2] / 0x40;
      if flags == 2 {
        var nuType := data[2] as nat % 0x40;
        if |buf| == 0 && 19 <= nuType <= 21 {
          buf := buf + ps;
        }
        nuStart := |buf|;
        buf := buf + [0, 0, 0, 0];
        buf := buf + [data[0] / 0x80 * 0x80 + data[0] % 2 + nuType * 2, data[1]];
        buf := buf + data[3..];
        return false, true;
      } else if flags == 0 {
        if |buf| == 0 {
          return false, true;
        }
        buf := buf + data[3..];
        return false, true;
      } else if flags == 1 {
        if |buf| == 0 {
          return false, true;
        }
        buf := buf + data[3..];
        if nuStart > |buf| + 4 {
          buf := [];
          return false, true;
        }
        if nuStart + 4 > |buf| {
          return true, true;
        }
        buf := buf[..nuStart] + PutU32(|buf| - nuStart - 4) + buf[nuStart + 4..];
      } else {
        var nuType := data[2] as nat % 0x40;
        buf := buf + PutU32(|data| - 1);
        buf := buf + [data[0] / 0x80 * 0x80 + data[0] % 2 + nuType * 2, data[1]];
        buf := buf + data[3..];
      }
    }

    /** The handler closure; `panicked` stands for the slice index out of range it can run into. */
    method Handle(packet: Packet) returns (panicked: bool, unit: Option<Data>)
      modifies this
      ensures panicked == Arrive(ps, old(Now()), packet).Panicked?
      ensures !panicked ==> Next(Now(), unit) == Arrive(ps, old(Now()), packet)
    {
      panicked, unit := false, None;
      var data := packet.payload;
      if |data| < 3 {
        return;
      }
      var nuType: nat := data[0] as nat / 2 % 0x40;
      var marker := packet.marker;
      if marker && |data| < PS_MAX_SIZE {
        if nuType == 32 || nuType == 33 || nuType == 34 {
          marker := false;
        } else if nuType == 39 || nuType == 40 {
          return;
        }
      }
      if |buf| > 0 && (packet.seqNum as int - seqNum) % 0x1_0000 != 1 {
        buf := [];
        return;
      }
      seqNum := packet.seqNum;
      if nuType == 49 {
        var done: bool;
        panicked, done := HandleFragment(data);
        if panicked || done {
          return;
        }
      } else {
        assert buf + Prefixed(data) == buf + PutU32(|data|) + data;
        buf := buf + PutU32(|data|);
        buf := buf + data;
      }
      if !marker {
        return;
      }
      unit := Some(buf);
      buf := [];
    }
  }

  /** A whole run: the final state, the units handed on, and whether the handler panicked on the way. */
  datatype Run = Run(st: State, units: seq<Data>, panicked: bool)

  function Handed(u: Option<Data>): (r: seq<Data>)
  {
    match u case None => [] case Some(v) => [v]
  }

  function Feed(ps: Data, st: State, packets: seq<Packet>): (r: Run)
    decreases |packets|
  {
    if packets == [] then Run(st, [], false)
    else
      match Arrive(ps, st, packets[0])
      case Panicked => Run(st, [], true)
      case Next(s, unit) =>
        var r := Feed(ps, s, packets[1..]);
        r.(units := Handed(unit) + r.units)
  }

  lemma {:induction false} FeedConcat(ps: Data, st: State, a: seq<Packet>, b: seq<Packet>)
    ensures var r := Feed(ps, st, a);
            Feed(ps, st, a + b) == (if r.panicked then r
                                    else Feed(ps, r.st, b).(units := r.units + Feed(ps, r.st, b).units))
    decreases |a|
  {
    if a == [] {
      assert a + b == b;
    } else {
      assert (a + b)[0] == a[0] && (a + b)[1..] == a[1..] + b;
      match Arrive(ps, st, a[0])
      case Panicked =>
      case Next(s, unit) => FeedConcat(ps, s, a[1..], b);
    }
  }

  lemma FeedOne(ps: Data, st: State, p: Packet)
    ensures Feed(ps, st, [p]) == match Arrive(ps, st, p)
                                 case Panicked => Run(st, [], true)
                                 case Next(s, unit) => Run(s, Handed(unit), false)
  {
    assert [p][1..] == [];
  }
}
