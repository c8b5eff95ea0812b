/**
 A sender's bounded queue (pkg/core/track.go): Input from the receiver's goroutine, Start and Close from others, and the
 goroutine that drains the channel.  Each critical section under s.mu and each channel operation of the goroutine is a
 step.
 */
module Sender {
  import opened Bytes

  /** The goroutine of Start: waiting on the channel, inside Output with a packet, or gone. */
  datatype Drainer = Waiting | Holding(packet: Data) | Ended

  /**
   `buf` is whether s.buf is not nil, `done` whether s.done is not nil; `closed` is the state of the channel itself,
   which its drainer still sees when s.buf no longer does.  Sending on a closed channel and closing it twice panic.
   The last four are histories.
   */
  datatype State = State(
    cap: nat,
    buf: bool,
    done: bool,
    closed: bool,
    queue: seq<Data>,
    drainers: seq<Drainer>,
    bytes: nat,
    packets: nat,
    drops: nat,
    inputs: nat,
    accepted: seq<Data>,
    delivered: seq<Data>,
    panicked: bool)

  /** The size of the channel: raw video packets are whole frames, RTP packets are slices of them. */
  function BufSize(video: bool, rtp: bool): (size: nat)
    ensures size in {4096, 64, 128}
  {
    if video then if rtp then 4096 else 64 else 128
  }

  function New(cap: nat): (s: State)
  {
    State(cap, true, false, false, [], [], 0, 0, 0, 0, [], [], false)
  }

  function AfterInput(s: State, packet: Data): (t: State)
  {
    if s.buf && s.closed then s.(panicked := true, inputs := s.inputs + 1)
    else if s.buf && |s.queue| < s.cap then
      s.(queue := s.queue + [packet], bytes := s.bytes + |packet|, packets := s.packets + 1,
         inputs := s.inputs + 1, accepted := s.accepted + [packet])
    else s.(drops := s.drops + 1, inputs := s.inputs + 1)
  }

  function AfterStart(s: State): (t: State)
  {
    if !s.buf || s.done then s else s.(done := true, drainers := s.drainers + [Waiting])
  }

  function AfterClose(s: State): (t: State)
  {
    if !s.buf then s
    else if s.closed then s.(panicked := true)
    else s.(buf := false, closed := true)
  }

  /** Drainer d goes on: to its next packet, through Output, or out of the loop when the channel is closed and empty. */
  function AfterDrain(s: State, d: nat): (t: State)
    requires d < |s.drainers|
  {
    match s.drainers[d]
    case Waiting =>
      if s.queue != [] then s.(queue := s.queue[1..], drainers := s.drainers[d := Holding(s.queue[0])])
      else if s.closed then s.(drainers := s.drainers[d := Ended])
      else s
    case Holding(packet) => s.(delivered := s.delivered + [packet], drainers := s.drainers[d := Waiting])
    case Ended => s
  }

  class Object {
    const cap: nat
    var buf: bool
    var done: bool
    var closed: bool
    var queue: seq<Data>
    var drainers: seq<Drainer>
    var bytes: nat
    var packets: nat
    var drops: nat
    ghost var inputs: nat
    ghost var accepted: seq<Data>
    ghost var delivered: seq<Data>

    ghost function Now(): State
      reads this
    {
      State(cap, buf, done, closed, queue, drainers, bytes, packets, drops, inputs, accepted, delivered, false)
    }

    constructor (video: bool, rtp: bool)
      ensures Now() == New(BufSize(video, rtp))
      ensures cap == if video && rtp then 4096 else if video then 64 else 128
    {
      var size := 128;
      if video {
        if rtp {
          size := 4096;
        } else {
          size := 64;
        }
      }
      cap, buf, done, closed, queue, drainers := size, true, false, false, [], [];
      bytes, packets, drops, inputs, accepted, delivered := 0, 0, 0, 0, [], [];
    }

    method Input(packet: Data)
      requires buf ==> !closed
      modifies this
      ensures Now() == AfterInput(old(Now()), packet)
      ensures if old(buf) && |old(queue)| < cap
              then queue == old(queue) + [packet] && accepted == old(accepted) + [packet] && drops == old(drops)
              else queue == old(queue) && accepted == old(accepted) && drops == old(drops) + 1
    {
      inputs := inputs + 1;
      if buf && |queue| < cap {
        queue := queue + [packet];
        accepted := accepted + [packet];
        bytes := bytes + |packet|;
        packets := packets + 1;
      } else {
        drops := drops + 1;
      }
    }

    method Start()
      modifies this
      ensures Now() == AfterStart(old(Now()))
      ensures old(buf) ==> done
      ensures drainers == if old(buf) && !old(done) then old(drainers) + [Waiting] else old(drainers)
    {
      if !buf || done {
        return;
      }
      done := true;
      drainers := drainers + [Waiting];
    }

    method Close()
      requires buf ==> !closed
      modifies this
      ensures Now() == AfterClose(old(Now()))
      ensures !buf && (old(buf) ==> closed) && queue == old(queue)
    {
      if buf {
        closed := true;
        buf := false;
      }
    }

    /** The goroutine's loop over a closed channel, with nobody else at work. */
    method Drain(d: nat)
      requires d < |drainers| && drainers[d] == Waiting && closed
      modifies this
      ensures Now() == Drained(old(Now()), d)
    {
      while queue != []
        invariant d < |drainers| && drainers[d] == Waiting && closed
        invariant Drained(Now(), d) == Drained(old(Now()), d)
        decreases |queue|
      {
        ghost var was := Now();
        var packet := queue[0];
        queue := queue[1..];
        delivered := delivered + [packet];
        DrainedStep(was, d, Now());
      }
      drainers := drainers[d := Ended];
    }
  }

  /** Everything that drainer d delivers from a closed channel. */
  function Drained(s: State, d: nat): (t: State)
    requires d < |s.drainers| && s.closed
    decreases |s.queue|, if s.drainers[d].Holding? then 1 else 0
  {
    if s.drainers[d].Ended? then s
    else if s.drainers[d].Waiting? && s.queue == [] then AfterDrain(s, d)
    else if s.drainers[d].Waiting? then Drained(AfterDrain(AfterDrain(s, d), d), d)
    else Drained(AfterDrain(s, d), d)
  }

  lemma DrainedStep(s: State, d: nat, t: State)
    requires d < |s.drainers| && s.drainers[d] == Waiting && s.closed && s.queue != []
    requires t == s.(queue := s.queue[1..], delivered := s.delivered + [s.queue[0]])
    ensures Drained(t, d) == Drained(s, d)
  {
    assert AfterDrain(AfterDrain(s, d), d) == t by {
      assert s.drainers[d := Holding(s.queue[0])][d := Waiting] == s.drainers;
    }
  }

  // Any interleaving.

  datatype Event = Input(packet: Data) | Start | Close | Drain(d: nat)

  function Apply(s: State, e: Event): (t: State)
  {
    match e
    case Input(packet) => AfterInput(s, packet)
    case Start => AfterStart(s)
    case Close => AfterClose(s)
    case Drain(d) => if d < |s.drainers| then AfterDrain(s, d) else s
  }

  function Run(s: State, es: seq<Event>): (t: State)
    decreases |es|
  {
    if es == [] then s else Run(Apply(s, es[0]), es[1..])
  }

  function Inputs(es: seq<Event>): (packets: seq<Data>)
  {
    if es == [] then []
    else (if es[0].Input? then [es[0].packet] else []) + Inputs(es[1..])
  }

  function InHand(ds: seq<Drainer>): (packets: seq<Data>)
  {
    if ds == [] then []
    else (if ds[0].Holding? then [ds[0].packet] else []) + InHand(ds[1..])
  }

  ghost predicate Valid(s: State) {
    && s.packets + s.drops == s.inputs
    && s.packets == |s.accepted|
    && s.bytes == |Flat(s.accepted)|
    && s.accepted == s.delivered + InHand(s.drainers) + s.queue
    && |s.queue| <= s.cap
    && s.buf == !s.closed
    && !s.panicked
    && |s.drainers| == (if s.done then 1 else 0)
    && (s.drainers == [Ended] ==> s.closed && s.queue == [])
  }

  lemma ApplyKeeps(s: State, e: Event)
    requires Valid(s)
    ensures Valid(Apply(s, e))
  {
    hide Flat;
    match e
    case Input(packet) =>
      FlatConcat(s.accepted, [packet]);
      FlatOne(packet);
    case Start =>
      OneInHand(Waiting);
      if !s.done {
        assert s.drainers == [];
        assert s.drainers + [Waiting] == [Waiting];
      }
    case Close =>
    case Drain(d) =>
      if d < |s.drainers| {
        DrainKeeps(s, d);
      }
  }

  lemma DrainKeeps(s: State, d: nat)
    requires Valid(s) && d < |s.drainers|
    ensures Valid(AfterDrain(s, d))
  {
    hide Flat, InHand;
    assert s.drainers == [s.drainers[0]];
    OneInHand(s.drainers[0]);
    var t := AfterDrain(s, d);
    assert t.drainers == [t.drainers[0]];
    OneInHand(t.drainers[0]);
  }

  lemma OneInHand(d: Drainer)
    ensures InHand([d]) == if d.Holding? then [d.packet] else []
  {
    var one := [d];
    assert one[1..] == [];
  }

  lemma {:induction false} RunKeeps(s: State, es: seq<Event>)
    requires Valid(s)
    ensures Valid(Run(s, es))
    decreases |es|
  {
    hide Valid, Apply;
    if es != [] {
      ApplyKeeps(s, es[0]);
      RunKeeps(Apply(s, es[0]), es[1..]);
    }
  }

  lemma {:induction false} InputsCounted(s: State, es: seq<Event>)
    ensures Run(s, es).inputs == s.inputs + |Inputs(es)|
    decreases |es|
  {
    if es != [] {
      InputsCounted(Apply(s, es[0]), es[1..]);
    }
  }

  /** What is accepted is a sub-list of the inputs. */
  lemma {:induction false} AcceptedAreInputs(s: State, es: seq<Event>) returns (more: seq<Data>)
    ensures Run(s, es).accepted == s.accepted + more && SubList(more, Inputs(es))
    decreases |es|
  {
    if es == [] {
      more := [];
    } else {
      hide SubList;
      var t := Apply(s, es[0]);
      var rest := AcceptedAreInputs(t, es[1..]);
      if t.accepted == s.accepted {
        SubListSkip(rest, es[0], Inputs(es[1..]));
        more := rest;
      } else {
        more := [es[0].packet] + rest;
        assert t.accepted + rest == s.accepted + more;
        SubListTake(es[0].packet, rest, Inputs(es[1..]));
      }
    }
  }

  /** `a` is `b` with some elements left out. */
  predicate SubList(a: seq<Data>, b: seq<Data>)
    decreases |b|
  {
    a == [] || (b != [] && (SubList(a, b[1..]) || (a[0] == b[0] && SubList(a[1..], b[1..]))))
  }

  lemma SubListSkip(a: seq<Data>, e: Event, b: seq<Data>)
    requires SubList(a, b)
    ensures SubList(a, (if e.Input? then [e.packet] else []) + b)
  {
    if e.Input? {
      assert ([e.packet] + b)[1..] == b;
    } else {
      assert [] + b == b;
    }
  }

  lemma SubListTake(x: Data, a: seq<Data>, b: seq<Data>)
    requires SubList(a, b)
    ensures SubList([x] + a, [x] + b)
  {
    assert ([x] + a)[1..] == a && ([x] + b)[1..] == b;
  }

  /**
   In every interleaving: every input is counted once, as a packet or as a drop; what was delivered is a prefix of what
   was accepted, and the rest is in the one drainer's hand or queued, within the capacity; no panic; and a drainer that
   ended has delivered everything.
   */
  lemma EveryRun(video: bool, rtp: bool, es: seq<Event>)
    ensures var s := Run(New(BufSize(video, rtp)), es);
            && s.packets + s.drops == |Inputs(es)|
            && s.packets == |s.accepted| && s.bytes == |Flat(s.accepted)|
            && SubList(s.accepted, Inputs(es))
            && s.delivered <= s.accepted == s.delivered + InHand(s.drainers) + s.queue
            && |s.queue| <= s.cap && |s.drainers| <= 1 && !s.panicked
            && (s.drainers == [Ended] ==> s.delivered == s.accepted)
  {
    hide Apply, Run;
    var start := New(BufSize(video, rtp));
    RunKeeps(start, es);
    InputsCounted(start, es);
    var more := AcceptedAreInputs(start, es);
    assert [] + more == more;
    assert InHand([]) == [];
    OneInHand(Ended);
  }

  /** A closed sender accepts nothing more, and its drainer, left to itself, delivers all that it had accepted. */
  lemma {:induction false} DrainedDelivers(s: State, d: nat)
    requires Valid(s) && s.closed && d < |s.drainers|
    ensures var t := Drained(s, d);
            && Valid(t) && t.drainers == [Ended]
            && t.delivered == s.accepted == t.accepted
    decreases |s.queue|, if s.drainers[d].Holding? then 1 else 0
  {
    hide Valid;
    DrainKeepsClosed(s, d);
    if s.drainers[d].Ended? || (s.drainers[d].Waiting? && s.queue == []) {
      EndedDelivered(s);
      EndedDelivered(AfterDrain(s, d));
    } else if s.drainers[d].Waiting? {
      var t := AfterDrain(s, d);
      DrainKeepsClosed(t, d);
      DrainedDelivers(AfterDrain(t, d), d);
    } else {
      DrainedDelivers(AfterDrain(s, d), d);
    }
  }

  lemma DrainKeepsClosed(s: State, d: nat)
    requires Valid(s) && s.closed && d < |s.drainers|
    ensures var t := AfterDrain(s, d);
            Valid(t) && t.closed && |t.drainers| == |s.drainers| == 1 && d == 0 && t.accepted == s.accepted
  {
    ApplyKeeps(s, Drain(d));
  }

  lemma EndedDelivered(s: State)
    requires Valid(s)
    ensures s.drainers == [Ended] ==> s.delivered == s.accepted
  {
    OneInHand(Ended);
  }

  lemma {:induction false} ClosedAcceptsNothing(s: State, es: seq<Event>)
    requires Valid(s) && s.closed
    ensures Run(s, es).accepted == s.accepted && Run(s, es).closed
    decreases |es|
  {
    if es != [] {
      ApplyKeeps(s, es[0]);
      ClosedAcceptsNothing(Apply(s, es[0]), es[1..]);
    }
  }

  /** What has been delivered, and in which order, is never taken back. */
  lemma {:induction false} DeliveriesStay(s: State, es: seq<Event>)
    ensures s.delivered <= Run(s, es).delivered && s.accepted <= Run(s, es).accepted
    decreases |es|
  {
    if es != [] {
      DeliveriesStay(Apply(s, es[0]), es[1..]);
    }
  }
}
