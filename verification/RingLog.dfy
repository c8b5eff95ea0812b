/**
 The log's ring of chunks (internal/app/log.go): writes go to the current chunk while they fit and start the next one
 when they do not, over the oldest chunk once all sixteen are in use.
 */
module RingLog {
  import opened Bytes

  const CHUNK_COUNT := 16
  const CHUNK_SIZE := 0x1_0000

  datatype Ring = Ring(chunks: seq<Data>, r: nat, w: nat)

  const NEW := Ring([[]], 0, 0)

  function NextIndex(i: nat): (n: nat)
  {
    if i + 1 == CHUNK_COUNT then 0 else i + 1
  }

  /** The write index moves on, pushing the read index ahead of itself, to an empty chunk. */
  function Advanced(b: Ring): (c: Ring)
    requires NextIndex(b.w) <= |b.chunks|
  {
    var w := NextIndex(b.w);
    Ring(
      if w == |b.chunks| then b.chunks + [[]] else b.chunks[w := []],
      if b.r == w then NextIndex(b.r) else b.r,
      w)
  }

  ghost predicate InRange(b: Ring) {
    b.w < |b.chunks| <= CHUNK_COUNT && b.r < CHUNK_COUNT
  }

  function AfterWrite(b: Ring, p: Data): (c: Ring)
    requires InRange(b)
  {
    var c := if |b.chunks[b.w]| + |p| > CHUNK_SIZE then Advanced(b) else b;
    c.(chunks := c.chunks[c.w := c.chunks[c.w] + p])
  }

  function AfterReset(b: Ring): (c: Ring)
    requires InRange(b)
  {
    Ring(b.chunks[0 := []], 0, 0)
  }

  class CircularBuffer {
    var chunks: seq<Data>
    var r: nat
    var w: nat

    ghost function Now(): Ring
      reads this
    {
      Ring(chunks, r, w)
    }

    constructor ()
      ensures Now() == NEW
    {
      chunks, r, w := [[]], 0, 0;
    }

    method Write(p: Data) returns (n: nat)
      requires InRange(Now())
      modifies this
      ensures n == |p|
      ensures Now() == AfterWrite(old(Now()), p)
    {
      n := |p|;
      if |chunks[w]| + n > CHUNK_SIZE {
        w := w + 1;
        if w == CHUNK_COUNT {
          w := 0;
        }
        if r == w {
          r := r + 1;
          if r == CHUNK_COUNT {
            r := 0;
          }
        }
        if w == |chunks| {
          chunks := chunks + [[]];
        } else {
          chunks := chunks[w := []];
        }
      }
      chunks := chunks[w := chunks[w] + p];
    }

    method WriteTo(ghost kept: seq<seq<Data>>) returns (buf: Data)
      requires Holds(Now(), kept)
      ensures buf == Flat(Concat(kept))
    {
      hide Flat, At, Concat;
      buf := [];
      var i := r;
      ghost var j := 0;
      WindowStarts(Now(), kept);
      while true
        invariant j < |kept| && i == At(Now(), j)
        invariant buf == Flat(Concat(kept[..j]))
        decreases |kept| - j
      {
        ConcatTake(kept, j);
        WindowEnds(Now(), kept, j);
        buf := buf + chunks[i];
        if i == w {
          assert kept[..j + 1] == kept;
          break;
        }
        i := i + 1;
        if i == CHUNK_COUNT {
          i := 0;
        }
        j := j + 1;
      }
    }

    method Reset()
      requires InRange(Now())
      modifies this
      ensures Now() == AfterReset(old(Now()))
    {
      chunks := chunks[0 := []];
      r := 0;
      w := 0;
    }
  }

  // What the ring stands for: for each chunk from the read index to the write index, the writes in it.

  function Concat(kept: seq<seq<Data>>): (writes: seq<Data>)
  {
    if kept == [] then [] else kept[0] + Concat(kept[1..])
  }

  lemma {:induction false} ConcatAppend(kept: seq<seq<Data>>, last: seq<Data>)
    ensures Concat(kept + [last]) == Concat(kept) + last
  {
    if kept == [] {
      assert [last][1..] == [];
      assert kept + [last] == [last];
    } else {
      assert (kept + [last])[1..] == kept[1..] + [last];
      ConcatAppend(kept[1..], last);
    }
  }

  lemma ConcatTake(kept: seq<seq<Data>>, j: nat)
    requires j < |kept|
    ensures Flat(Concat(kept[..j + 1])) == Flat(Concat(kept[..j])) + Flat(kept[j])
  {
    assert kept[..j + 1] == kept[..j] + [kept[j]];
    ConcatAppend(kept[..j], kept[j]);
    FlatConcat(Concat(kept[..j]), kept[j]);
  }

  /** The index of the j-th chunk of the window. */
  function At(b: Ring, j: nat): (i: nat)
  {
    if b.r + j < CHUNK_COUNT then b.r + j else b.r + j - CHUNK_COUNT
  }

  ghost predicate Holds(b: Ring, kept: seq<seq<Data>>) {
    && InRange(b)
    && 1 <= |kept| <= CHUNK_COUNT
    && b.w == At(b, |kept| - 1)
    && (|kept| < CHUNK_COUNT ==> b.r == 0)
    && (b.r > 0 ==> |b.chunks| == CHUNK_COUNT)
    && (forall j :: 0 <= j < |kept| ==> At(b, j) < |b.chunks| && b.chunks[At(b, j)] == Flat(kept[j]))
    && (forall j :: 0 < j < |kept| ==> |Flat(kept[j - 1])| + |Flat(kept[j])| > CHUNK_SIZE)
  }

  lemma WindowStarts(b: Ring, kept: seq<seq<Data>>)
    requires Holds(b, kept)
    ensures At(b, 0) == b.r && Flat(Concat(kept[..0])) == []
  {
  }

  /** The write index is the index of the window's last chunk and of no other. */
  lemma WindowEnds(b: Ring, kept: seq<seq<Data>>, j: nat)
    requires Holds(b, kept) && j < |kept|
    ensures At(b, j) == b.w <==> j == |kept| - 1
    ensures At(b, j + 1) == NextIndex(At(b, j))
  {
    hide Flat;
  }

  /** A write joins the last chunk, or starts one and, with sixteen in the window, pushes out the oldest. */
  function Keep(kept: seq<seq<Data>>, p: Data): (r: seq<seq<Data>>)
    requires kept != []
  {
    var last := kept[|kept| - 1];
    if |Flat(last)| + |p| > CHUNK_SIZE then (if |kept| == CHUNK_COUNT then kept[1..] else kept) + [[p]]
    else kept[..|kept| - 1] + [last + [p]]
  }

  lemma FitsHolds(b: Ring, kept: seq<seq<Data>>, p: Data)
    requires Holds(b, kept) && |b.chunks[b.w]| + |p| <= CHUNK_SIZE
    ensures Holds(AfterWrite(b, p), Keep(kept, p))
  {
    hide Flat;
    var last := kept[|kept| - 1];
    assert At(b, |kept| - 1) == b.w;
    FlatConcat(last, [p]);
    FlatOne(p);
    var c, more := AfterWrite(b, p), Keep(kept, p);
    forall j | 0 <= j < |more| ensures At(c, j) < |c.chunks| && c.chunks[At(c, j)] == Flat(more[j]) {
      if j < |kept| - 1 {
        assert At(b, j) != b.w;
      }
    }
  }

  lemma Advances(b: Ring, kept: seq<seq<Data>>, p: Data)
    requires Holds(b, kept) && |b.chunks[b.w]| + |p| > CHUNK_SIZE && |kept| < CHUNK_COUNT
    ensures var c := AfterWrite(b, p);
            && b.r == c.r == 0 && b.w + 1 == c.w == |kept| < |c.chunks| <= CHUNK_COUNT
            && c.chunks[c.w] == p && forall j :: 0 <= j < |kept| ==> j < |b.chunks| && c.chunks[j] == b.chunks[j]
  {
    hide Flat;
    var none: Data := [];
    assert none + p == p;
  }

  lemma AdvancesHolds(b: Ring, kept: seq<seq<Data>>, p: Data)
    requires Holds(b, kept) && |b.chunks[b.w]| + |p| > CHUNK_SIZE && |kept| < CHUNK_COUNT
    ensures Holds(AfterWrite(b, p), Keep(kept, p))
  {
    hide Flat, AfterWrite;
    Advances(b, kept, p);
    FlatOne(p);
    var c, more := AfterWrite(b, p), Keep(kept, p);
    assert more == kept + [[p]];
    forall j | 0 <= j < |more| ensures At(c, j) < |c.chunks| && c.chunks[At(c, j)] == Flat(more[j]) {
      if j < |kept| {
        assert At(b, j) == At(c, j) == j;
      }
    }
  }

  /** The window turned by one chunk. */
  lemma Turned(b: Ring, c: Ring, j: nat)
    requires b.r < CHUNK_COUNT && c.r == NextIndex(b.r) && j < CHUNK_COUNT - 1
    ensures At(c, j) == At(b, j + 1) != b.r
  {
  }

  lemma Overwritten(b: Ring, kept: seq<seq<Data>>, p: Data)
    requires Holds(b, kept) && |b.chunks[b.w]| + |p| > CHUNK_SIZE && |kept| == CHUNK_COUNT
    ensures |b.chunks| == CHUNK_COUNT
    ensures AfterWrite(b, p) == Ring(b.chunks[b.r := p], NextIndex(b.r), b.r)
  {
    hide Flat;
    assert NextIndex(b.w) == b.r;
    var none: Data := [];
    assert none + p == p;
    assert b.chunks[b.r := none][b.r := none + p] == b.chunks[b.r := p];
  }

  lemma OverwritesHolds(b: Ring, kept: seq<seq<Data>>, p: Data)
    requires Holds(b, kept) && |b.chunks[b.w]| + |p| > CHUNK_SIZE && |kept| == CHUNK_COUNT
    ensures Holds(AfterWrite(b, p), Keep(kept, p))
  {
    hide Flat, AfterWrite, At;
    Overwritten(b, kept, p);
    WriteIndex(b, kept);
    FlatOne(p);
    var c, more := AfterWrite(b, p), Keep(kept, p);
    assert more == kept[1..] + [[p]];
    forall j | 0 <= j < |more| ensures At(c, j) < |c.chunks| && c.chunks[At(c, j)] == Flat(more[j]) {
      if j < |kept| - 1 {
        Turned(b, c, j);
      } else {
        TurnedLast(b, c);
      }
    }
    TurnedLast(b, c);
    forall j | 0 < j < |more| ensures |Flat(more[j - 1])| + |Flat(more[j])| > CHUNK_SIZE {
      assert more[j - 1] == kept[j];
    }
  }

  lemma TurnedLast(b: Ring, c: Ring)
    requires b.r < CHUNK_COUNT && c.r == NextIndex(b.r)
    ensures At(c, CHUNK_COUNT - 1) == b.r
  {
  }

  lemma WriteIndex(b: Ring, kept: seq<seq<Data>>)
    requires Holds(b, kept)
    ensures At(b, |kept| - 1) == b.w
  {
  }

  // Any run of writes and resets.

  datatype Event = Write(p: Data) | Reset

  function Run(es: seq<Event>): (b: Ring)
    ensures InRange(b)
    decreases |es|
  {
    if es == [] then NEW
    else
      var b := Run(es[..|es| - 1]);
      match es[|es| - 1]
      case Write(p) => AfterWrite(b, p)
      case Reset => AfterReset(b)
  }

  /** The writes since the last reset. */
  function Since(es: seq<Event>): (writes: seq<Data>)
    decreases |es|
  {
    if es == [] then []
    else
      match es[|es| - 1]
      case Write(p) => Since(es[..|es| - 1]) + [p]
      case Reset => []
  }

  function Kept(es: seq<Event>): (kept: seq<seq<Data>>)
    ensures kept != []
    decreases |es|
  {
    if es == [] then [[]]
    else
      match es[|es| - 1]
      case Write(p) => Keep(Kept(es[..|es| - 1]), p)
      case Reset => [[]]
  }

  lemma WriteHolds(b: Ring, kept: seq<seq<Data>>, p: Data)
    requires Holds(b, kept)
    ensures Holds(AfterWrite(b, p), Keep(kept, p))
  {
    hide Holds, AfterWrite, Keep;
    assert InRange(b) && 1 <= |kept| <= CHUNK_COUNT by {
      HoldsRange(b, kept);
    }
    if |b.chunks[b.w]| + |p| <= CHUNK_SIZE {
      FitsHolds(b, kept, p);
    } else if |kept| < CHUNK_COUNT {
      AdvancesHolds(b, kept, p);
    } else {
      OverwritesHolds(b, kept, p);
    }
  }

  lemma HoldsRange(b: Ring, kept: seq<seq<Data>>)
    requires Holds(b, kept)
    ensures InRange(b) && 1 <= |kept| <= CHUNK_COUNT
  {
  }

  /** A reset shows nothing, whatever the other chunks still hold. */
  lemma ResetHolds(b: Ring)
    requires InRange(b)
    ensures Holds(AfterReset(b), [[]])
  {
    assert At(AfterReset(b), 0) == 0;
  }

  lemma {:induction false} RunHolds(es: seq<Event>)
    ensures Holds(Run(es), Kept(es))
    decreases |es|
  {
    hide Holds, AfterWrite, AfterReset, Keep;
    if es == [] {
      ResetHolds(NEW);
      assert AfterReset(NEW) == NEW by {
        SameNew();
      }
    } else {
      var init := es[..|es| - 1];
      RunHolds(init);
      match es[|es| - 1]
      case Write(p) => WriteHolds(Run(init), Kept(init), p);
      case Reset => ResetHolds(Run(init));
    }
  }

  lemma SameNew()
    ensures AfterReset(NEW) == NEW
  {
    assert NEW.chunks[0 := []] == NEW.chunks;
  }

  /** What is kept after a write is a suffix of what was kept and the write, shorter only once the window is full. */
  lemma KeepIsSuffix(kept: seq<seq<Data>>, p: Data) returns (lost: nat)
    requires kept != []
    ensures lost <= |Concat(kept)|
    ensures Concat(Keep(kept, p)) == Concat(kept)[lost..] + [p]
    ensures lost > 0 ==> |Keep(kept, p)| == CHUNK_COUNT
  {
    hide Flat;
    var n := |kept| - 1;
    var last := kept[n];
    if |Flat(last)| + |p| > CHUNK_SIZE {
      if |kept| == CHUNK_COUNT {
        lost := |kept[0]|;
        ConcatAppend(kept[1..], [p]);
        assert Concat(kept)[lost..] == Concat(kept[1..]);
      } else {
        lost := 0;
        ConcatAppend(kept, [p]);
      }
    } else {
      lost := 0;
      assert kept == kept[..n] + [last];
      ConcatAppend(kept[..n], last);
      ConcatAppend(kept[..n], last + [p]);
    }
  }

  lemma KeepStaysFull(kept: seq<seq<Data>>, p: Data)
    requires |kept| == CHUNK_COUNT
    ensures |Keep(kept, p)| == CHUNK_COUNT
  {
  }

  /** The writes kept are the last ones since the reset; fewer than all only in a full window. */
  lemma {:induction false} KeptIsSuffix(es: seq<Event>) returns (lost: nat)
    ensures lost <= |Since(es)| && Concat(Kept(es)) == Since(es)[lost..]
    ensures lost > 0 ==> |Kept(es)| == CHUNK_COUNT
    decreases |es|
  {
    hide Keep;
    lost := 0;
    if es != [] && es[|es| - 1].Write? {
      var init, p := es[..|es| - 1], es[|es| - 1].p;
      lost := KeptIsSuffix(init);
      var more := KeepIsSuffix(Kept(init), p);
      assert Since(init)[lost..][more..] == Since(init)[lost + more..];
      assert Since(es)[lost + more..] == Since(init)[lost + more..] + [p];
      if lost > 0 {
        KeepStaysFull(Kept(init), p);
      }
      lost := lost + more;
    } else {
      assert Concat([[]]) == [] by {
        ConcatAppend([], []);
      }
    }
  }

  function Sizes(kept: seq<seq<Data>>): (n: nat)
    ensures n == |Flat(Concat(kept))|
  {
    if kept == [] then 0
    else
      FlatConcat(kept[0], Concat(kept[1..]));
      |Flat(kept[0])| + Sizes(kept[1..])
  }

  /** Neighbouring chunks hold more than one chunk's worth together. */
  lemma {:induction false} PairsAreLarge(kept: seq<seq<Data>>, pairs: nat)
    requires |kept| == 2 * pairs
    requires forall j :: 0 < j < |kept| ==> |Flat(kept[j - 1])| + |Flat(kept[j])| > CHUNK_SIZE
    ensures pairs > 0 ==> Sizes(kept) > pairs * CHUNK_SIZE
    decreases pairs
  {
    hide Flat, Concat;
    if pairs > 0 {
      var rest := kept[2..];
      assert kept[1..][1..] == rest && kept[1..][0] == kept[1];
      forall j | 0 < j < |rest| ensures |Flat(rest[j - 1])| + |Flat(rest[j])| > CHUNK_SIZE {
        assert rest[j] == kept[j + 2] && rest[j - 1] == kept[j + 1];
      }
      PairsAreLarge(rest, pairs - 1);
    }
  }

  /** With no write larger than a chunk, no chunk is larger either. */
  ghost predicate Small(kept: seq<seq<Data>>) {
    forall j :: 0 <= j < |kept| ==> |Flat(kept[j])| <= CHUNK_SIZE
  }

  lemma KeepSmall(kept: seq<seq<Data>>, p: Data)
    requires kept != [] && Small(kept) && |p| <= CHUNK_SIZE
    ensures Small(Keep(kept, p))
  {
    hide Flat;
    FlatOne(p);
    FlatConcat(kept[|kept| - 1], [p]);
  }

  lemma {:induction false} KeptSmall(es: seq<Event>)
    requires forall j :: 0 <= j < |Since(es)| ==> |Since(es)[j]| <= CHUNK_SIZE
    ensures Small(Kept(es))
    decreases |es|
  {
    hide Keep, Flat, Small;
    if es != [] && es[|es| - 1].Write? {
      var init, p := es[..|es| - 1], es[|es| - 1].p;
      assert Since(es)[|Since(init)|] == p;
      forall j | 0 <= j < |Since(init)| ensures |Since(init)[j]| <= CHUNK_SIZE {
        assert Since(es)[j] == Since(init)[j];
      }
      KeptSmall(init);
      KeepSmall(Kept(init), p);
    } else {
      NoneSmall();
    }
  }

  lemma NoneSmall()
    ensures Small([[]])
  {
  }

  lemma {:induction false} SmallSizes(kept: seq<seq<Data>>)
    requires Small(kept)
    ensures Sizes(kept) <= |kept| * CHUNK_SIZE
  {
    hide Flat, Concat;
    if kept != [] {
      SmallSizes(kept[1..]);
    }
  }

  /**
   In every run, what the log shows is a suffix of the whole writes since the last reset.  Either nothing was lost or
   more than half of the chunks' total size is retained, and if no write was larger than a chunk it is at most the
   total size.
   */
  lemma EveryRun(es: seq<Event>) returns (lost: nat)
    ensures Holds(Run(es), Kept(es))
    ensures lost <= |Since(es)| && Concat(Kept(es)) == Since(es)[lost..]
    ensures lost == 0 || |Flat(Since(es)[lost..])| > 8 * 0x1_0000
    ensures (forall j :: 0 <= j < |Since(es)| ==> |Since(es)[j]| <= 0x1_0000) ==>
              |Flat(Since(es)[lost..])| <= 16 * 0x1_0000
  {
    hide Flat, Keep, Run, At;
    RunHolds(es);
    lost := KeptIsSuffix(es);
    if lost > 0 {
      PairsAreLarge(Kept(es), 8);
    }
    if forall j :: 0 <= j < |Since(es)| ==> |Since(es)[j]| <= CHUNK_SIZE {
      KeptSmall(es);
      SmallSizes(Kept(es));
    }
  }

  /** A log that has been reset shows what a new one would. */
  lemma {:induction false} ResetForgets(before: seq<Event>, after: seq<Event>)
    ensures Kept(before + [Reset] + after) == Kept(after)
    ensures Since(before + [Reset] + after) == Since(after)
    decreases |after|
  {
    hide Keep;
    var es := before + [Reset] + after;
    if after == [] {
      assert es[|es| - 1] == Reset;
    } else {
      var init := after[..|after| - 1];
      assert es[..|es| - 1] == before + [Reset] + init;
      assert es[|es| - 1] == after[|after| - 1];
      ResetForgets(before, init);
    }
  }
}
