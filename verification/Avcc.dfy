/** Length-prefixed NAL units (pkg/h264/avcc.go and the AVC branch of EmitNalus in pkg/h264/payloader.go). */
module Avcc {
  import opened Bytes
  import opened Wrappers

  /** One NAL unit with its four length bytes in front. */
  function Prefixed(nal: Data): (r: Data)
  {
    PutU32(|nal|) + nal
  }

  function PrefixedAll(nals: seq<Data>): (r: seq<Data>)
    ensures |r| == |nals| && forall i :: 0 <= i < |r| ==> r[i] == Prefixed(nals[i])
  {
    seq(|nals|, i requires 0 <= i < |nals| => Prefixed(nals[i]))
  }

  function NonEmpty(nals: seq<Data>): (r: seq<Data>)
    ensures forall i :: 0 <= i < |r| ==> r[i] in nals && r[i] != []
  {
    if nals == [] then [] else (if nals[0] == [] then [] else [nals[0]]) + NonEmpty(nals[1..])
  }

  /** What JoinNALU builds: every non-empty NAL unit, prefixed, in order. */
  function Join(nals: seq<Data>): (r: Data)
  {
    if nals == [] then [] else (if nals[0] == [] then [] else Prefixed(nals[0])) + Join(nals[1..])
  }

  ghost predicate Short(nals: seq<Data>) {
    forall i :: 0 <= i < |nals| ==> |nals[i]| < 0x1_0000_0000
  }

  ghost predicate Solid(nals: seq<Data>) {
    forall i :: 0 <= i < |nals| ==> nals[i] != []
  }

  lemma {:induction false} JoinConcat(a: seq<Data>, b: seq<Data>)
    ensures Join(a + b) == Join(a) + Join(b)
  {
    if a == [] {
      assert a + b == b;
    } else {
      assert (a + b)[1..] == a[1..] + b;
      JoinConcat(a[1..], b);
    }
  }

  lemma JoinOne(n: Data)
    ensures Join([n]) == if n == [] then [] else Prefixed(n)
  {
  }

  lemma {:induction false} JoinOfNonEmpty(nals: seq<Data>)
    ensures Join(NonEmpty(nals)) == Join(nals)
  {
    if nals != [] {
      JoinOfNonEmpty(nals[1..]);
      if nals[0] == [] {
        assert NonEmpty(nals) == NonEmpty(nals[1..]);
      } else {
        JoinConcat([nals[0]], NonEmpty(nals[1..]));
      }
    }
  }

  /** The NAL units EmitNalus hands to its callback: it stops at the first incomplete one. */
  function AvcNals(b: Data): (nals: seq<Data>)
    decreases |b|
  {
    if |b| < 4 || |b| < 4 + U32(b) then []
    else [b[4..4 + U32(b)]] + AvcNals(b[4 + U32(b)..])
  }

  lemma PrefixedFront(n: Data, rest: Data)
    requires |n| < 0x1_0000_0000
    ensures |Prefixed(n) + rest| >= 4 + |n|
    ensures U32(Prefixed(n) + rest) == |n|
    ensures (Prefixed(n) + rest)[4..4 + |n|] == n
    ensures (Prefixed(n) + rest)[4 + |n|..] == rest
    ensures (Prefixed(n) + rest)[..4 + |n|] == Prefixed(n)
  {
    assert Prefixed(n) + rest == PutU32(|n|) + (n + rest);
    U32OfPut(|n|, n + rest);
  }

  lemma AvcNalsStep(n: Data, rest: Data)
    requires |n| < 0x1_0000_0000
    ensures AvcNals(Prefixed(n) + rest) == [n] + AvcNals(rest)
  {
    PrefixedFront(n, rest);
  }

  /** Splitting undoes joining: the empty NAL units are the only ones lost. */
  lemma {:induction false} AvcNalsOfJoin(nals: seq<Data>)
    requires Short(nals)
    ensures AvcNals(Join(nals)) == NonEmpty(nals)
  {
    if nals != [] {
      AvcNalsOfJoin(nals[1..]);
      if nals[0] == [] {
        assert Join(nals) == Join(nals[1..]);
      } else {
        AvcNalsStep(nals[0], Join(nals[1..]));
      }
    }
  }

  lemma {:induction false} NonEmptyIsIdentity(nals: seq<Data>)
    requires Solid(nals)
    ensures NonEmpty(nals) == nals
  {
    if nals != [] {
      NonEmptyIsIdentity(nals[1..]);
    }
  }

  lemma JoinInjective(a: seq<Data>, b: seq<Data>)
    requires Short(a) && Short(b) && Solid(a) && Solid(b)
    requires Join(a) == Join(b)
    ensures a == b
  {
    AvcNalsOfJoin(a);
    AvcNalsOfJoin(b);
    NonEmptyIsIdentity(a);
    NonEmptyIsIdentity(b);
  }

  /** Joining undoes splitting: the emitted units are a prefix of the input, and no complete unit follows it. */
  lemma {:induction false} AvcNalsCover(b: Data)
    ensures Flat(PrefixedAll(AvcNals(b))) <= b
    ensures AvcNals(b[|Flat(PrefixedAll(AvcNals(b)))|..]) == []
    decreases |b|
  {
    hide PutU32, U32;
    if |b| < 4 || |b| < 4 + U32(b) {
      assert PrefixedAll([]) == [];
      assert b[0..] == b;
    } else {
      var size := 4 + U32(b);
      var rest := b[size..];
      AvcNalsCover(rest);
      PrefixedAllStep(b[4..size], AvcNals(rest));
      PrefixOfItself(b);
      var n := |Flat(PrefixedAll(AvcNals(rest)))|;
      assert b == b[..size] + rest;
      assert rest[n..] == b[size + n..];
    }
  }

  lemma PrefixedAllStep(n: Data, nals: seq<Data>)
    ensures Flat(PrefixedAll([n] + nals)) == Prefixed(n) + Flat(PrefixedAll(nals))
  {
    assert PrefixedAll([n] + nals)[1..] == PrefixedAll(nals);
  }

  lemma PrefixOfItself(b: Data)
    requires |b| >= 4 && |b| >= 4 + U32(b)
    ensures Prefixed(b[4..4 + U32(b)]) == b[..4 + U32(b)]
  {
    PutOfU32(b[..4]);
    assert b[..4 + U32(b)] == b[..4] + b[4..4 + U32(b)];
  }

  /**
   The lists that EmitNalus walks without a panic: 4 plus a length is computed in 32 bits, so a length within four of
   2^32 that is reached makes it slice backwards.
   */
  predicate Walkable(b: Data)
    decreases |b|
  {
    |b| < 4 || (U32(b) < 0xFFFF_FFFC && (|b| < 4 + U32(b) || Walkable(b[4 + U32(b)..])))
  }

  predicate Emittable(b: Data) {
    |b| < 0x1_0000_0000 && Walkable(b)
  }

  /** A joined list of less than 2^32 bytes can be walked. */
  lemma {:induction false} JoinWalkable(nals: seq<Data>)
    requires |Join(nals)| < 0x1_0000_0000
    ensures Emittable(Join(nals))
  {
    if nals != [] {
      JoinWalkable(nals[1..]);
      if nals[0] == [] {
        assert Join(nals) == Join(nals[1..]);
      } else {
        PrefixedFront(nals[0], Join(nals[1..]));
      }
    }
  }

  /** `4 + v` as a uint32. */
  lemma EndOfUnit(v: nat)
    requires v < 0x1_0000_0000
    ensures (4 + v) % 0x1_0000_0000 == if v < 0xFFFF_FFFC then 4 + v else 4 + v - 0x1_0000_0000
  {
  }

  lemma WalkStep(b: Data, end: int)
    requires 4 <= |b| < 0x1_0000_0000
    requires end == if U32(b) < 0xFFFF_FFFC then 4 + U32(b) else 4 + U32(b) - 0x1_0000_0000
    ensures |b| < end ==> AvcNals(b) == [] && Walkable(b)
    ensures |b| >= end && end < 4 ==> AvcNals(b) == [] && !Walkable(b)
    ensures |b| >= end >= 4 ==>
              AvcNals(b) == [b[4..end]] + AvcNals(b[end..]) && Walkable(b) == Walkable(b[end..])
  {
    hide U32;
  }

  lemma TooShort(b: Data)
    requires |b| < 4
    ensures AvcNals(b) == [] && Walkable(b)
  {
  }

  /** The smallest length that wraps, with nothing behind it. */
  lemma LargeLengthPanics()
    ensures !Walkable([0xFF, 0xFF, 0xFF, 0xFC])
  {
    assert U32([0xFF, 0xFF, 0xFF, 0xFC]) == 0xFFFF_FFFC;
  }

  /** EmitNalus(nals, true, emit): the emitted units in call order, up to the panic if there is one. */
  method EmitNalus(b: Data) returns (emitted: seq<Data>, panicked: bool)
    requires |b| < 0x1_0000_0000
    ensures emitted == AvcNals(b)
    ensures panicked <==> !Walkable(b)
  {
    hide U32, AvcNals, Walkable;
    emitted, panicked := [], false;
    var nals := b;
    while true
      invariant |nals| <= |b| && Walkable(nals) == Walkable(b)
      invariant AvcNals(b) == emitted + AvcNals(nals)
      decreases |nals|
    {
      var n := |nals|;
      if n < 4 {
        TooShort(nals);
        break;
      }
      var end := (4 + U32(nals)) % 0x1_0000_0000;
      EndOfUnit(U32(nals));
      WalkStep(nals, end);
      if n < end {
        break;
      }
      if end < 4 {
        return emitted, true;
      }
      emitted := emitted + [nals[4..end]];
      nals := nals[end..];
    }
  }

  /** Go's `copy(a[at:], src)` when src fits. */
  method Fill(a: array<byte>, at: nat, src: Data)
    requires at + |src| <= a.Length
    modifies a
    ensures a[..at] == old(a[..at])
    ensures a[at..at + |src|] == src
    ensures a[at + |src|..] == old(a[at + |src|..])
  {
    forall i | 0 <= i < |src| {
      a[at + i] := src[i];
    }
  }

  lemma JoinTake(nals: seq<Data>, k: nat)
    requires k < |nals|
    ensures Join(nals[..k + 1]) == Join(nals[..k]) + if nals[k] == [] then [] else Prefixed(nals[k])
    ensures |Join(nals[..k + 1])| <= |Join(nals)|
  {
    assert nals[..k + 1] == nals[..k] + [nals[k]];
    JoinConcat(nals[..k], [nals[k]]);
    JoinOne(nals[k]);
    assert nals == nals[..k + 1] + nals[k + 1..];
    JoinConcat(nals[..k + 1], nals[k + 1..]);
  }

  /** The body of JoinNALU's second loop. */
  method FillPrefixed(a: array<byte>, at: nat, nal: Data)
    requires at + 4 + |nal| <= a.Length
    modifies a
    ensures a[..at + 4 + |nal|] == old(a[..at]) + Prefixed(nal)
  {
    var prefix := PutU32(|nal|);
    Fill(a, at, prefix);
    assert a[..at + 4] == a[..at] + a[at..at + 4];
    Fill(a, at + 4, nal);
    assert a[..at + 4 + |nal|] == a[..at + 4] + a[at + 4..at + 4 + |nal|];
  }

  /** JoinNALU: first measures, then fills one buffer. */
  method JoinNALU(nalus: seq<Data>) returns (avcc: array<byte>)
    ensures fresh(avcc)
    ensures avcc[..] == Join(nalus)
  {
    var n := 0;
    for k := 0 to |nalus|
      invariant n == |Join(nalus[..k])|
    {
      JoinTake(nalus, k);
      if |nalus[k]| > 0 {
        n := n + 4 + |nalus[k]|;
      }
    }
    assert nalus[..|nalus|] == nalus;
    avcc := new byte[n];
    n := 0;
    for k := 0 to |nalus|
      invariant n == |Join(nalus[..k])| <= avcc.Length == |Join(nalus)|
      invariant avcc[..n] == Join(nalus[..k])
    {
      JoinTake(nalus, k);
      if |nalus[k]| > 0 {
        FillPrefixed(avcc, n, nalus[k]);
        n := n + 4 + |nalus[k]|;
      }
    }
    assert avcc[..] == avcc[..n];
  }

  /** What SplitNALU returns; None is the panic of reading a length from fewer than four bytes. */
  function Split(avcc: Data): (nals: Option<seq<Data>>)
    decreases |avcc|
  {
    if |avcc| < 4 then None
    else
      var size := U32(avcc) + 4;
      if size < |avcc| then
        match Split(avcc[size..])
        case None => None
        case Some(rest) => Some([avcc[..size]] + rest)
      else
        Some([avcc])
  }

  /** Nothing is lost or moved by splitting. */
  lemma {:induction false} SplitConcatenates(avcc: Data)
    requires Split(avcc).Some?
    ensures Flat(Split(avcc).value) == avcc
    decreases |avcc|
  {
    var size := U32(avcc) + 4;
    if size < |avcc| {
      SplitConcatenates(avcc[size..]);
      assert avcc == avcc[..size] + avcc[size..];
    }
  }

  /** SplitNALU recovers the joined units, each still carrying its prefix. */
  lemma {:induction false} SplitOfJoin(nals: seq<Data>)
    requires nals != [] && Short(nals)
    requires Solid(nals)
    ensures Split(Join(nals)) == Some(PrefixedAll(nals))
  {
    hide U32, PutU32;
    var rest := nals[1..];
    PrefixedFront(nals[0], Join(rest));
    assert Join(nals) == Prefixed(nals[0]) + Join(rest);
    if rest == [] {
      assert Join(nals) == Prefixed(nals[0]);
      assert PrefixedAll(nals) == [Prefixed(nals[0])];
    } else {
      assert rest[0] != [];
      assert |Join(rest)| >= |Prefixed(rest[0])| > 0;
      SplitOfJoin(rest);
      assert PrefixedAll(nals) == [Prefixed(nals[0])] + PrefixedAll(rest);
    }
  }

  method SplitNALU(avcc: Data) returns (nals: Option<seq<Data>>)
    ensures nals == Split(avcc)
  {
    hide U32;
    var done: seq<Data> := [];
    var left := avcc;
    while true
      invariant Split(avcc).None? <==> Split(left).None?
      invariant Split(left).Some? ==> Split(avcc).value == done + Split(left).value
      decreases |left|
    {
      if |left| < 4 {
        return None;
      }
      var size := U32(left) + 4;
      if size < |left| {
        done := done + [left[..size]];
        left := left[size..];
      } else {
        done := done + [left];
        break;
      }
    }
    nals := Some(done);
  }
}
