/**
 The probing reader (pkg/core/readbuffer.go): while its buffer size is positive it keeps what it reads, so that a Reset
 or a Seek can replay it; with a negative size it drains the buffer and drops it.
 */
module ReadBuffer {
  import opened Bytes

  const BUFFER_DISABLE := 0
  const BUFFER_DRAIN_AND_CLEAR := -1

  /** `rest` is what the underlying reader has yet to return. */
  datatype State = State(bufferSize: int, buf: Data, pos: nat, rest: Data)

  datatype Error = None | Underlying | Overflow

  ghost predicate Valid(s: State) {
    s.pos <= |s.buf|
  }

  /** The bytes that later Reads return, buffering or not. */
  function Remaining(s: State): (b: Data)
    requires Valid(s)
  {
    if s.bufferSize == BUFFER_DISABLE then s.rest else s.buf[s.pos..] + s.rest
  }

  /** The bytes from the point where the buffer begins. */
  function Whole(s: State): (b: Data)
  {
    s.buf + s.rest
  }

  /** A Read of up to n bytes, in which the underlying reader, if it is asked, returns k bytes and perhaps an error. */
  datatype Outcome = Outcome(s: State, p: Data, error: Error)

  function Failing(err: bool): (e: Error)
  {
    if err then Underlying else None
  }

  function AfterRead(s: State, n: nat, k: nat, err: bool): (o: Outcome)
    requires Valid(s) && k <= Min(n, |s.rest|)
    ensures Valid(o.s)
  {
    if s.bufferSize == BUFFER_DISABLE then Outcome(s.(rest := s.rest[k..]), s.rest[..k], Failing(err))
    else if s.pos < |s.buf| then
      var m := Min(n, |s.buf| - s.pos);
      Outcome(s.(pos := s.pos + m), s.buf[s.pos..s.pos + m], None)
    else if s.bufferSize < 0 then
      Outcome(State(BUFFER_DISABLE, [], 0, s.rest[k..]), s.rest[..k], Failing(err))
    else if |s.buf| + k > s.bufferSize then Outcome(s.(rest := s.rest[k..]), [], Overflow)
    else Outcome(State(s.bufferSize, s.buf + s.rest[..k], s.pos + k, s.rest[k..]), s.rest[..k], Failing(err))
  }

  /** A Read that does not overflow returns the next bytes, and while it buffers it loses none of them. */
  ghost predicate Follows(s: State, o: Outcome)
    requires Valid(s) && Valid(o.s)
  {
    && (if o.error == Overflow then o.p == [] else Remaining(s) == o.p + Remaining(o.s))
    && (s.bufferSize > 0 && o.error != Overflow ==> Whole(o.s) == Whole(s) && o.s.bufferSize == s.bufferSize)
    && (s.bufferSize <= 0 ==> o.s.bufferSize <= 0)
  }

  lemma ReadFollows(s: State, n: nat, k: nat, err: bool)
    requires Valid(s) && k <= Min(n, |s.rest|)
    ensures var o := AfterRead(s, n, k, err);
            && |o.p| <= n && Follows(s, o)
            && (o.error == Overflow <==> s.bufferSize > 0 && s.pos == |s.buf| && |s.buf| + k > s.bufferSize)
  {
    if s.bufferSize != BUFFER_DISABLE && s.pos < |s.buf| {
      BufferedFollows(s, n, k, err);
    } else if s.bufferSize <= 0 {
      DirectFollows(s, n, k, err);
    } else {
      FillingFollows(s, n, k, err);
    }
  }

  lemma BufferedFollows(s: State, n: nat, k: nat, err: bool)
    requires Valid(s) && k <= Min(n, |s.rest|) && s.bufferSize != BUFFER_DISABLE && s.pos < |s.buf|
    ensures Follows(s, AfterRead(s, n, k, err))
  {
    var m := Min(n, |s.buf| - s.pos);
    hide Min;
    assert s.buf[s.pos..] == s.buf[s.pos..s.pos + m] + s.buf[s.pos + m..];
    Regroup(s.buf[s.pos..s.pos + m], s.buf[s.pos + m..], s.rest);
  }

  lemma DirectFollows(s: State, n: nat, k: nat, err: bool)
    requires Valid(s) && k <= Min(n, |s.rest|)
    requires s.bufferSize == BUFFER_DISABLE || (s.bufferSize < 0 && s.pos == |s.buf|)
    ensures Follows(s, AfterRead(s, n, k, err))
  {
    assert s.bufferSize < 0 ==> s.buf[s.pos..] == [];
    assert s.rest == s.rest[..k] + s.rest[k..];
  }

  lemma FillingFollows(s: State, n: nat, k: nat, err: bool)
    requires Valid(s) && k <= Min(n, |s.rest|) && s.bufferSize > 0 && s.pos == |s.buf|
    ensures Follows(s, AfterRead(s, n, k, err))
  {
    var o := AfterRead(s, n, k, err);
    hide Min;
    if o.error != Overflow {
      assert s.rest == s.rest[..k] + s.rest[k..];
      assert s.buf[s.pos..] == [] && o.s.buf[o.s.pos..] == [];
      Regroup(s.buf, s.rest[..k], s.rest[k..]);
    }
  }

  /** An overflow, though, loses what the underlying reader gave. */
  lemma OverflowLoses(s: State, n: nat, k: nat, err: bool)
    requires Valid(s) && k <= Min(n, |s.rest|)
    ensures var o := AfterRead(s, n, k, err);
            o.error == Overflow ==> Whole(o.s) == s.buf + s.rest[k..] && (k > 0 ==> Whole(o.s) != Whole(s))
  {
    var o := AfterRead(s, n, k, err);
    if o.error == Overflow {
      assert |Whole(o.s)| == |Whole(s)| - k;
    }
  }

  datatype Whence = SeekStart | SeekCurrent | SeekEnd

  function AfterSeek(s: State, offset: int, whence: Whence): (t: State)
    requires Valid(s)
    ensures Valid(t)
  {
    var pos := match whence
      case SeekStart => offset
      case SeekCurrent => s.pos + offset
      case SeekEnd => |s.buf| + offset;
    if pos < 0 then s.(buf := [], pos := 0)
    else if pos >= |s.buf| then s.(pos := |s.buf|)
    else s.(pos := pos)
  }

  function AfterReset(s: State): (t: State)
  {
    s.(bufferSize := BUFFER_DRAIN_AND_CLEAR, pos := 0)
  }

  /** All that Peek read from `was` on is before `s`; and then the position goes back. */
  lemma PeekSees(was: State, s: State, b: Data)
    requires Valid(was) && Valid(s) && was.bufferSize == |b|
    requires b + Remaining(s) == Remaining(was) && Whole(s) == Whole(was)
    ensures var drain := was.(bufferSize := BUFFER_DRAIN_AND_CLEAR);
            && |b| <= |Remaining(drain)| && b == Remaining(drain)[..|b|]
            && Remaining(AfterReset(s)) == Whole(drain)
  {
  }

  class Reader {
    var bufferSize: int
    var buf: Data
    var pos: nat
    var rest: Data

    ghost function Now(): State
      reads this
    {
      State(bufferSize, buf, pos, rest)
    }

    constructor (rest: Data)
      ensures Now() == State(BUFFER_DISABLE, [], 0, rest)
    {
      bufferSize, buf, pos, this.rest := BUFFER_DISABLE, [], 0, rest;
    }

    /** The underlying reader: short reads, and errors with or without bytes; but never nothing at all. */
    method ReadUnderlying(n: nat) returns (p: Data, err: bool)
      modifies this`rest
      ensures |p| <= Min(n, |old(rest)|) && p == old(rest)[..|p|] && rest == old(rest)[|p|..]
      ensures n > 0 ==> p != [] || err
    {
      var most := Min(n, |rest|);
      var k :| 0 <= k <= most;
      p := rest[..k];
      rest := rest[k..];
      err := *;
      if k == 0 {
        err := true;
      }
    }

    method Read(n: nat) returns (p: Data, error: Error, ghost k: nat, ghost err: bool)
      requires Valid(Now())
      modifies this
      ensures k <= Min(n, |old(rest)|) && (n > 0 ==> p != [] || error != None)
      ensures Outcome(Now(), p, error) == AfterRead(old(Now()), n, k, err)
    {
      k, err := 0, false;
      var failed;
      if bufferSize == BUFFER_DISABLE {
        p, failed := ReadUnderlying(n);
        k, err := |p|, failed;
        return p, Failing(failed), k, err;
      }
      if pos < |buf| {
        p := buf[pos..pos + Min(n, |buf| - pos)];
        pos := pos + |p|;
        return p, None, k, err;
      }
      if bufferSize < 0 {
        bufferSize := BUFFER_DISABLE;
        buf := [];
        pos := 0;
        p, failed := ReadUnderlying(n);
        k, err := |p|, failed;
        return p, Failing(failed), k, err;
      }
      p, failed := ReadUnderlying(n);
      k, err := |p|, failed;
      if |buf| + |p| > bufferSize {
        return [], Overflow, k, err;
      }
      buf := buf + p;
      pos := pos + |p|;
      error := Failing(failed);
    }

    method Seek(offset: int, whence: Whence) returns (at: nat)
      requires Valid(Now())
      modifies this`buf, this`pos
      ensures Now() == AfterSeek(old(Now()), offset, whence) && at == pos
    {
      var to := match whence
        case SeekStart => offset
        case SeekCurrent => pos + offset
        case SeekEnd => |buf| + offset;
      if to < 0 {
        buf := [];
        pos := 0;
      } else if to >= |buf| {
        pos := |buf|;
      } else {
        pos := to;
      }
      at := pos;
    }

    method Reset()
      modifies this`bufferSize, this`pos
      ensures Now() == AfterReset(old(Now()))
    {
      bufferSize := BUFFER_DRAIN_AND_CLEAR;
      pos := 0;
    }

    /**
     What Peek gives are the next n bytes.  It leaves before them whatever the buffer held before the position, so at
     position 0 it leaves the stream as it was.
     */
    method Peek(n: nat) returns (b: Data, ok: bool)
      requires Valid(Now())
      modifies this
      ensures Valid(Now())
      ensures ok ==> var was := old(Now()).(bufferSize := BUFFER_DRAIN_AND_CLEAR);
                     |b| == n <= |Remaining(was)| && b == Remaining(was)[..n] && Remaining(Now()) == Whole(was)
    {
      hide AfterRead, Remaining, Whole;
      bufferSize := n;
      ghost var was := Now();
      b := [];
      assert b + Remaining(was) == Remaining(was);
      while |b| < n
        invariant bufferSize == n && Valid(Now()) && |b| <= n
        invariant b + Remaining(Now()) == Remaining(was)
        invariant Whole(Now()) == Whole(was)
        decreases n - |b|
      {
        ghost var before := Now();
        var p, error, k, err := Read(n - |b|);
        ReadFollows(before, n - |b|, k, err);
        if error != None && |b| + |p| < n {
          return b, false;
        }
        b := b + p;
      }
      PeekSees(was, Now(), b);
      Reset();
      ok := true;
    }
  }

  // Runs of Reads.

  datatype Call = Call(n: nat, k: nat, err: bool)

  datatype Run = Run(s: State, got: Data, overflow: bool)

  /** The bytes that a run of Reads returns, and whether one of them overflowed. */
  function Reads(s: State, calls: seq<Call>): (r: Run)
    requires Valid(s)
    ensures Valid(r.s)
    decreases |calls|
  {
    if calls == [] then Run(s, [], false)
    else
      var c := calls[0];
      var o := AfterRead(s, c.n, Min(c.k, Min(c.n, |s.rest|)), c.err);
      var r := Reads(o.s, calls[1..]);
      Run(r.s, o.p + r.got, o.error == Overflow || r.overflow)
  }

  /** Reads return the stream with no gap and no repeat; while they buffer, the buffer's stream stays whole. */
  lemma {:induction false} ReadsFollow(s: State, calls: seq<Call>)
    requires Valid(s) && !Reads(s, calls).overflow
    ensures var r := Reads(s, calls);
            && r.got + Remaining(r.s) == Remaining(s)
            && (s.bufferSize > 0 ==> Whole(r.s) == Whole(s) && r.s.bufferSize == s.bufferSize)
    decreases |calls|
  {
    hide AfterRead, Remaining, Whole;
    if calls != [] {
      var c := calls[0];
      var k := Min(c.k, Min(c.n, |s.rest|));
      ReadFollows(s, c.n, k, c.err);
      var o := AfterRead(s, c.n, k, c.err);
      ReadsFollow(o.s, calls[1..]);
    }
  }

  /**
   Probe and replay: after Reads with a positive buffer size, none of which overflowed, a Reset makes later Reads
   return the stream from where the buffer began.
   */
  lemma ProbeReplays(s: State, probe: seq<Call>, replay: seq<Call>)
    requires Valid(s) && s.bufferSize > 0 && !Reads(s, probe).overflow
    ensures var after := AfterReset(Reads(s, probe).s);
            var r := Reads(after, replay);
            && !r.overflow
            && r.got + Remaining(r.s) == Whole(s)
            && Reads(s, probe).got <= s.buf[s.pos..] + s.rest
  {
    hide Reads, Whole;
    ReadsFollow(s, probe);
    var after := AfterReset(Reads(s, probe).s);
    NoOverflow(after, replay);
    ReadsFollow(after, replay);
    ResetRewinds(Reads(s, probe).s);
  }

  lemma ResetRewinds(s: State)
    ensures Remaining(AfterReset(s)) == Whole(s)
  {
  }

  /** Without a positive buffer size nothing overflows. */
  lemma {:induction false} NoOverflow(s: State, calls: seq<Call>)
    requires Valid(s) && s.bufferSize <= 0
    ensures !Reads(s, calls).overflow
    decreases |calls|
  {
    hide AfterRead;
    if calls != [] {
      var c := calls[0];
      var k := Min(c.k, Min(c.n, |s.rest|));
      ReadFollows(s, c.n, k, c.err);
      NoOverflow(AfterRead(s, c.n, k, c.err).s, calls[1..]);
    }
  }

  /** A Seek to a position in the buffer rewinds to it; beyond it, to its end; before it, the buffer is forgotten. */
  lemma SeekRewinds(s: State, offset: int)
    requires Valid(s) && s.bufferSize != BUFFER_DISABLE
    ensures var t := AfterSeek(s, offset, SeekStart);
            Remaining(t) == if offset < 0 then s.rest else Whole(s)[Min(offset, |s.buf|)..]
  {
    if offset >= 0 {
      var m := Min(offset, |s.buf|);
      assert Whole(s)[m..] == s.buf[m..] + s.rest;
    }
  }

  /** A Seek from the position passes over what comes next, or brings back what came last. */
  lemma SeekFromHere(s: State, offset: int)
    requires Valid(s) && s.bufferSize != BUFFER_DISABLE && 0 <= s.pos + offset <= |s.buf|
    ensures var before, after := Remaining(s), Remaining(AfterSeek(s, offset, SeekCurrent));
            if offset >= 0 then offset <= |before| && after == before[offset..]
            else -offset <= |after| && before == after[-offset..]
  {
    var t := AfterSeek(s, offset, SeekCurrent);
    AfterSeekFromHere(s, offset);
    hide AfterSeek;
    if offset >= 0 {
      DropTwice(s.buf, s.pos, offset, s.rest);
    } else {
      DropTwice(s.buf, t.pos, -offset, s.rest);
    }
  }

  lemma AfterSeekFromHere(s: State, offset: int)
    requires Valid(s) && 0 <= s.pos + offset <= |s.buf|
    ensures AfterSeek(s, offset, SeekCurrent) == s.(pos := s.pos + offset)
  {
  }

  lemma DropTwice(b: Data, i: nat, j: nat, rest: Data)
    requires i + j <= |b|
    ensures (b[i..] + rest)[j..] == b[i + j..] + rest
  {
    assert b[i..][j..] == b[i + j..];
  }

  /** A Seek from the end leaves that many buffered bytes in front of what the underlying reader has yet to return. */
  lemma SeekFromEnd(s: State, offset: int)
    requires Valid(s) && s.bufferSize != BUFFER_DISABLE && 0 <= |s.buf| + offset
    ensures var n, after := if offset < 0 then -offset else 0, Remaining(AfterSeek(s, offset, SeekEnd));
            n <= |after| && after[n..] == s.rest && after[..n] == s.buf[|s.buf| - n..]
  {
  }

  /** From either, a Seek to before the buffer forgets it, and one to behind it goes to its end. */
  lemma SeekOutside(s: State, offset: int, whence: Whence)
    requires Valid(s) && s.bufferSize != BUFFER_DISABLE
    ensures var from := if whence == SeekCurrent then s.pos else if whence == SeekEnd then |s.buf| else 0;
            var t := AfterSeek(s, offset, whence);
            && (from + offset < 0 ==> Remaining(t) == s.rest && t.buf == [])
            && (from + offset >= |s.buf| ==> Remaining(t) == s.rest && Whole(t) == Whole(s))
  {
  }

  /** Once a draining reader has passed its buffer it is a plain reader, with nothing left to replay. */
  lemma DrainEnds(s: State, n: nat, k: nat, err: bool)
    requires Valid(s) && s.bufferSize < 0 && s.pos == |s.buf| && k <= Min(n, |s.rest|)
    ensures var o := AfterRead(s, n, k, err);
            o.s == State(0, [], 0, s.rest[k..]) && o.p == s.rest[..k] && Whole(o.s) == Remaining(o.s)
  {
  }
}
