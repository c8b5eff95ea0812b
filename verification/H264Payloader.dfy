/** The H.264 RTP packetiser in AVC mode (pkg/h264/payloader.go). */
module H264Payloader {
  import opened Bytes
  import opened Wrappers
  import opened Avcc

  const STAP_A := 24
  const FU_A := 28
  const STAP_A_HEADER: byte := 0x78

  /** `nalu[0] & 0x1F`. */
  function TypeOf(nal: Data): (t: nat)
    requires nal != []
    ensures t < 0x20
  {
    nal[0] as nat % 0x20
  }

  predicate IsParameterSet(t: nat) { t == 7 || t == 8 }

  /** Access unit delimiters and filler data. */
  predicate IsSkipped(t: nat) { t == 9 || t == 12 }

  /** One FU-A packet: FU indicator with the NRI bits, FU header with S or E, and a piece of the NAL unit. */
  function Fragment(header: byte, first: bool, last: bool, piece: Data): (r: Data)
  {
    [FU_A + header / 0x20 % 4 * 0x20, header % 0x20 + if first then 0x80 else if last then 0x40 else 0] + piece
  }

  function Fragments(header: byte, body: Data, room: nat, full: nat): (r: seq<Data>)
    requires room > 0
    decreases |body|
  {
    if body == [] then []
    else
      var size := Min(room, |body|);
      [Fragment(header, |body| == full, |body| == size, body[..size])] + Fragments(header, body[size..], room, full)
  }

  lemma NoFragments(header: byte, body: Data, room: nat, full: nat)
    requires room > 0 && body == []
    ensures Fragments(header, body, room, full) == []
  {
  }

  lemma FragmentsStep(header: byte, nalu: Data, at: nat, room: nat, full: nat)
    requires room > 0 && at < |nalu|
    ensures var size := Min(room, |nalu| - at);
            Fragments(header, nalu[at..], room, full) ==
            [Fragment(header, |nalu| - at == full, |nalu| - at == size, nalu[at..at + size])]
            + Fragments(header, nalu[at + size..], room, full)
  {
    hide Fragment;
    var body, size := nalu[at..], Min(room, |nalu| - at);
    assert nalu[at..at + size] == body[..size] && nalu[at + size..] == body[size..];
  }

  /** A NAL unit that is not held back: whole, in fragments, or dropped when a fragment would have no room. */
  function Carry(mtu: nat, n: Data): (r: seq<Data>)
    requires n != []
  {
    if |n| <= mtu then [n]
    else if Min(mtu - 2, |n| - 1) <= 0 then []
    else Fragments(n[0], n[1..], mtu - 2, |n| - 1)
  }

  /** What one call of the EmitNalus callback appends to the payloads, and stapANalu afterwards (None is nil). */
  function Step(mtu: nat, held: Option<Data>, n: Data): (r: (seq<Data>, Option<Data>))
  {
    if n == [] || IsSkipped(TypeOf(n)) then ([], held)
    else if IsParameterSet(TypeOf(n)) then
      ([], Some((if held.Some? then held.value else [STAP_A_HEADER]) + PutU16(|n|) + n))
    else
      ((if held.Some? && |held.value| <= mtu then [held.value] else []) + Carry(mtu, n), None)
  }

  function Emit(mtu: nat, held: Option<Data>, nals: seq<Data>): (r: (seq<Data>, Option<Data>))
    decreases |nals|
  {
    if nals == [] then ([], held)
    else
      var (out, next) := Step(mtu, held, nals[0]);
      var (rest, last) := Emit(mtu, next, nals[1..]);
      (out + rest, last)
  }

  class Payloader {
    var stapANalu: Option<Data>

    constructor ()
      ensures stapANalu == None
    {
      stapANalu := None;
    }

    /** The FU indicator and FU header. */
    static method FuBytes(first: byte, starts: bool, ends: bool) returns (indicator: byte, header: byte)
      ensures forall piece :: [indicator, header] + piece == Fragment(first, starts, ends, piece)
    {
      var naluType := first % 0x20;
      var naluRefIdc := first / 0x20 % 4 * 0x20;
      indicator := FU_A + naluRefIdc;
      header := naluType;
      if starts {
        header := header + 0x80;
      } else if ends {
        header := header + 0x40;
      }
    }

    /** The fragmenting loop. */
    static method FragmentNalu(mtu: nat, nalu: Data) returns (payloads: seq<Data>)
      requires |nalu| > mtu > 2
      ensures payloads == Fragments(nalu[0], nalu[1..], mtu - 2, |nalu| - 1)
    {
      hide Fragments, Fragment;
      var maxFragmentSize := mtu - 2;
      var naluDataIndex := 1;
      var naluDataLength := |nalu| - naluDataIndex;
      var naluDataRemaining := naluDataLength;
      payloads := [];
      while naluDataRemaining > 0
        invariant naluDataIndex == |nalu| - naluDataRemaining && 0 <= naluDataRemaining < |nalu|
        invariant payloads + Fragments(nalu[0], nalu[naluDataIndex..], mtu - 2, |nalu| - 1)
               == Fragments(nalu[0], nalu[1..], mtu - 2, |nalu| - 1)
        decreases naluDataRemaining
      {
        var currentFragmentSize := Min(maxFragmentSize, naluDataRemaining);
        var indicator, header := FuBytes(nalu[0], naluDataRemaining == naluDataLength,
                                         naluDataRemaining - currentFragmentSize == 0);
        var out := [indicator, header] + nalu[naluDataIndex..naluDataIndex + currentFragmentSize];
        FragmentsStep(nalu[0], nalu, naluDataIndex, mtu - 2, |nalu| - 1);
        ghost var tail := Fragments(nalu[0], nalu[naluDataIndex + currentFragmentSize..], mtu - 2, |nalu| - 1);
        assert payloads + ([out] + tail) == (payloads + [out]) + tail;
        payloads := payloads + [out];
        naluDataRemaining := naluDataRemaining - currentFragmentSize;
        naluDataIndex := naluDataIndex + currentFragmentSize;
      }
      NoFragments(nalu[0], nalu[naluDataIndex..], mtu - 2, |nalu| - 1);
    }

    /** The callback Payload passes to EmitNalus: what it appends. */
    method OnNalu(mtu: nat, nalu: Data) returns (payloads: seq<Data>)
      modifies this
      ensures payloads == Step(mtu, old(stapANalu), nalu).0 && stapANalu == Step(mtu, old(stapANalu), nalu).1
    {
      payloads := [];
      if |nalu| == 0 {
        return;
      }
      var naluType := nalu[0] % 0x20;
      if naluType == 9 || naluType == 12 {
        return;
      }
      if naluType == 7 || naluType == 8 {
        if stapANalu.None? {
          stapANalu := Some([STAP_A_HEADER]);
        }
        stapANalu := Some(stapANalu.value + PutU16(|nalu|));
        stapANalu := Some(stapANalu.value + nalu);
        return;
      }
      if stapANalu.Some? {
        if |stapANalu.value| <= mtu {
          payloads := payloads + [stapANalu.value];
        }
        stapANalu := None;
      }
      ghost var flushed := if old(stapANalu).Some? && |old(stapANalu).value| <= mtu then [old(stapANalu).value] else [];
      assert payloads == flushed;
      if |nalu| <= mtu {
        payloads := payloads + [nalu];
        return;
      }
      if Min(mtu - 2, |nalu| - 1) <= 0 {
        return;
      }
      var fragments := FragmentNalu(mtu, nalu);
      payloads := payloads + fragments;
    }

    /** One call; a length that makes EmitNalus panic is met after the units before it have had their effect. */
    method Payload(mtu: nat, payload: Data) returns (payloads: seq<Data>, panicked: bool)
      requires |payload| < 0x1_0000_0000
      modifies this
      ensures panicked <==> !Walkable(payload)
      ensures payloads == Emit(mtu, old(stapANalu), AvcNals(payload)).0
      ensures stapANalu == Emit(mtu, old(stapANalu), AvcNals(payload)).1
    {
      payloads, panicked := [], false;
      if |payload| == 0 {
        return;
      }
      var nals;
      nals, panicked := EmitNalus(payload);
      ghost var whole := Emit(mtu, stapANalu, nals);
      for k := 0 to |nals|
        invariant whole.0 == payloads + Emit(mtu, stapANalu, nals[k..]).0
        invariant whole.1 == Emit(mtu, stapANalu, nals[k..]).1
      {
        assert nals[k..][0] == nals[k] && nals[k..][1..] == nals[k + 1..];
        ghost var held := stapANalu;
        var out := OnNalu(mtu, nals[k]);
        EmitStep(payloads, mtu, held, nals[k..]);
        payloads := payloads + out;
      }
    }
  }

  lemma EmitStep(done: seq<Data>, mtu: nat, held: Option<Data>, nals: seq<Data>)
    requires nals != []
    ensures var s := Step(mtu, held, nals[0]);
            && done + Emit(mtu, held, nals).0 == (done + s.0) + Emit(mtu, s.1, nals[1..]).0
            && Emit(mtu, held, nals).1 == Emit(mtu, s.1, nals[1..]).1
  {
  }

  /** One call of Payload: the mtu it is given and the bytes of its access unit. */
  datatype Call = Call(mtu: nat, payload: Data)

  function EmitCalls(held: Option<Data>, calls: seq<Call>): (r: (seq<Data>, Option<Data>))
    decreases |calls|
  {
    if calls == [] then ([], held)
    else
      var (out, next) := Emit(calls[0].mtu, held, AvcNals(calls[0].payload));
      var (rest, last) := EmitCalls(next, calls[1..]);
      (out + rest, last)
  }
}
