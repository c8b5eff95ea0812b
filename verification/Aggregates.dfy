/** The size-prefixed units of an aggregation packet, the same in RFC 6184 (STAP-A) and RFC 7798 (AP). */
module Aggregates {
  import opened Bytes
  import opened Wrappers

  function Units(nals: seq<Data>): (r: Data)
  {
    if nals == [] then [] else PutU16(|nals[0]|) + nals[0] + Units(nals[1..])
  }

  /** The aggregation units of a packet: 16-bit sizes, each followed by that many bytes, with nothing left over. */
  function SplitUnits(b: Data): (r: Option<seq<Data>>)
    decreases |b|
  {
    if b == [] then Some([])
    else if |b| < 2 || U16(b) == 0 || |b| < 2 + U16(b) then None
    else
      match SplitUnits(b[2 + U16(b)..])
      case None => None
      case Some(rest) => Some([b[2..2 + U16(b)]] + rest)
  }

  lemma SplitUnitsStep(n: Data, rest: Data)
    requires 1 <= |n| < 0x1_0000
    ensures SplitUnits(PutU16(|n|) + n + rest)
         == match SplitUnits(rest) case None => None case Some(units) => Some([n] + units)
  {
    var b := PutU16(|n|) + n + rest;
    assert b == PutU16(|n|) + (n + rest);
    U16OfPut(|n|, n + rest);
    assert b[2..2 + |n|] == n && b[2 + |n|..] == rest;
  }

  lemma {:induction false} UnitsSplit(nals: seq<Data>)
    requires forall i :: 0 <= i < |nals| ==> 1 <= |nals[i]| < 0x1_0000
    ensures SplitUnits(Units(nals)) == Some(nals)
  {
    if nals != [] {
      UnitsSplit(nals[1..]);
      SplitUnitsStep(nals[0], Units(nals[1..]));
      assert [nals[0]] + nals[1..] == nals;
    }
  }

  lemma {:induction false} UnitsAppend(nals: seq<Data>, n: Data)
    ensures Units(nals + [n]) == Units(nals) + PutU16(|n|) + n
  {
    if nals != [] {
      UnitsAppend(nals[1..], n);
      assert (nals + [n])[1..] == nals[1..] + [n];
    }
  }

  /** The size of a unit is in network byte order, in front of it. */
  lemma UnitsInOrder(b: byte)
    ensures Units([[7, b, 9], [8]]) == [0, 3, 7, b, 9, 0, 1, 8]
    ensures U16([1, 2]) == 0x102
  {
    assert PutU16(3) == [0, 3] && PutU16(1) == [0, 1];
    assert [[7, b, 9], [8]][1..] == [[8]] && Units([[8]]) == PutU16(1) + [8] + Units([]);
  }
}
