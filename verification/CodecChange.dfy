/**
 A run that leaves a producer idle (internal/streams/producer.go): a consumer listens to a track, and the camera comes
 back with another codec.  No media of the new connection matches, so the receiver is kept, and the stop of the old
 connection closes it, which takes the consumer off.
 */
module CodecChange {
  import opened Wrappers
  import opened Producer
  import opened Streams

  const TRACK := Track(0, 0, 0)
  const VIEWER := Cons(7, [false], {})
  const LISTENS := Sender(TRACK, 7)

  /** The producer once its track was handed out. */
  const TRACKED := Prod(StateTracks, 0, Some(0), [TRACK], [], map[], 0, 1, multiset{})

  /** The consumer's call: dial, one media, its track, and the end of the loops. */
  const MATCHING := [
    Begin(1, VIEWER, true), Act(1, Dialled(true)), Act(1, Medias(1)), Act(1, Recv(Fresh(TRACK))), Act(1, Attach(true)),
    Act(1, Next)]

  /** It sees its own sender, lists itself and starts the producer. */
  const STARTING := [Act(1, Next), Act(1, See(true)), Act(1, Next), Act(1, Next), Act(1, Next), Act(1, Next)]

  /** The connection breaks, and the worker swaps it for one on which no media matches. */
  const SWAPPING := [
    Work(0, Exit(0, true), {}, {}), Work(0, Reconnect(0, DialOk([TRACK])), {LISTENS}, {})]

  const CHECKED := State([TRACKED], {LISTENS}, [], 0, map[1 := Call(VIEWER, true, Checking, {}, [0])])

  const RUNNING := TRACKED.(state := StateStart, workerID := 1, tasks := map[0 := Running(1, Some(0))], nextTask := 1)

  const LISTENED := State([RUNNING], {LISTENS}, [7], 0, map[])

  /** Runs put after one another. */
  lemma {:induction false} StepsConcat(s: State, one: seq<Action>, two: seq<Action>)
    ensures Steps(s, one + two) == Steps(Steps(s, one), two)
    decreases |one|
  {
    hide Step;
    if one == [] {
      assert one + two == two;
    } else {
      assert (one + two)[1..] == one[1..] + two;
      StepsConcat(Step(s, one[0]), one[1..], two);
    }
  }

  lemma Ahead(s: State, actions: seq<Action>)
    requires actions != []
    ensures Steps(s, actions) == Steps(Step(s, actions[0]), actions[1..])
    ensures |actions| == 1 ==> Steps(s, actions) == Step(s, actions[0])
  {
    hide Step;
    if |actions| == 1 {
      assert actions[1..] == [];
    }
  }

  const CALL := Call(VIEWER, true, AtProducer(0, 0), {}, [])
  const DIALLED := NEW.(conn := Some(0), connections := 1, state := StateMedias)

  /** The states of the first call on its way through the loops. */
  const TRYING := State([DIALLED], {}, [], 1, map[1 := CALL.(place := AtMedia(0, 0, 1))])
  const HOLDING := State([TRACKED], {}, [], 1, map[1 := CALL.(place := HasTrack(0, 0, 0, TRACK))])

  lemma Dials()
    ensures Steps(NewStream(1), MATCHING) == Steps(TRYING, MATCHING[3..])
  {
    hide Steps;
    var begun := State([NEW], {}, [], 1, map[1 := CALL]);
    var connected := State([DIALLED], {}, [], 1, map[1 := CALL.(place := Connected(0, 0))]);
    assert Step(NewStream(1), MATCHING[0]) == begun;
    assert Step(begun, MATCHING[1]) == connected;
    assert Step(connected, MATCHING[2]) == TRYING;
    Ahead(NewStream(1), MATCHING);
    Ahead(begun, MATCHING[1..]);
    Ahead(connected, MATCHING[2..]);
    assert MATCHING[1..][1..] == MATCHING[2..] && MATCHING[2..][1..] == MATCHING[3..];
  }

  lemma GetsTrack()
    ensures Step(TRYING, MATCHING[3]) == HOLDING
  {
    assert DIALLED.receivers + [TRACK] == [TRACK];
    assert AfterGetTrack(DIALLED, Fresh(TRACK)) == (TRACKED, Some(TRACK));
    assert TRYING.prods[0 := TRACKED] == HOLDING.prods;
    assert TRYING.calls[1 := HOLDING.calls[1]] == HOLDING.calls;
  }

  lemma Matches()
    ensures Steps(NewStream(1), MATCHING) == CHECKED
  {
    hide Steps;
    var joined := State([TRACKED], {LISTENS}, [], 1, map[1 := CALL.(place := AtProducer(1, 0), starts := [0])]);
    Dials();
    GetsTrack();
    assert Step(HOLDING, MATCHING[4]) == joined by {
      assert CALL.starts + [0] == [0];
      assert HOLDING.attached + {LISTENS} == joined.attached;
      assert HOLDING.calls[1 := joined.calls[1]] == joined.calls;
    }
    assert Step(joined, MATCHING[5]) == CHECKED;
    Ahead(TRYING, MATCHING[3..]);
    Ahead(HOLDING, MATCHING[4..]);
    Ahead(joined, MATCHING[5..]);
    assert MATCHING[3..][1..] == MATCHING[4..] && MATCHING[4..][1..] == MATCHING[5..];
  }

  /** The call after its loops, with the producer as it then is. */
  function At(place: Place, p: Prod, consumers: seq<nat>): (s: State)
  {
    State([p], {LISTENS}, consumers, 0, map[1 := Call(VIEWER, true, place, {}, [0])])
  }

  lemma Sees()
    ensures Steps(CHECKED, STARTING) == Steps(At(Swept, TRACKED, []), STARTING[3..])
  {
    hide Steps;
    assert Step(CHECKED, STARTING[0]) == At(Looking(0), TRACKED, []);
    assert Step(At(Looking(0), TRACKED, []), STARTING[1]) == At(Looking(1), TRACKED, []) by {
      assert LISTENS in CHECKED.attached && TRACKED.receivers[0] == TRACK;
      assert HasSender(At(Looking(0), TRACKED, []), 0);
    }
    assert Step(At(Looking(1), TRACKED, []), STARTING[2]) == At(Swept, TRACKED, []);
    Ahead(CHECKED, STARTING);
    Ahead(At(Looking(0), TRACKED, []), STARTING[1..]);
    Ahead(At(Looking(1), TRACKED, []), STARTING[2..]);
    assert STARTING[1..][1..] == STARTING[2..] && STARTING[2..][1..] == STARTING[3..];
  }

  lemma Starts()
    ensures Steps(CHECKED, STARTING) == LISTENED
  {
    hide Steps;
    Sees();
    assert Step(At(Swept, TRACKED, []), STARTING[3]) == At(Starting(0), TRACKED, [7]);
    assert AfterStart(TRACKED) == RUNNING;
    assert Step(At(Starting(0), TRACKED, [7]), STARTING[4]) == At(Starting(1), RUNNING, [7]);
    assert Step(At(Starting(1), RUNNING, [7]), STARTING[5]) == LISTENED;
    Ahead(At(Swept, TRACKED, []), STARTING[3..]);
    Ahead(At(Starting(0), TRACKED, [7]), STARTING[4..]);
    Ahead(At(Starting(1), RUNNING, [7]), STARTING[5..]);
    assert STARTING[3..][1..] == STARTING[4..] && STARTING[4..][1..] == STARTING[5..];
  }

  const LEFT := RUNNING.(tasks := map[0 := Reconnecting(1, 0)])

  lemma Leaves()
    ensures Step(LISTENED, SWAPPING[0]) == LISTENED.(prods := [LEFT])
  {
    assert RUNNING.tasks[0 := Reconnecting(1, 0)] == LEFT.tasks;
    assert AfterExit(RUNNING, 0, true) == LEFT;
    assert LISTENED.prods[0 := LEFT] == [LEFT];
  }

  /** The receiver stays, so its sender is not moved, and the stop of the old connection takes it off. */
  lemma TakesOff()
    ensures var s := Step(LISTENED.(prods := [LEFT]), SWAPPING[1]);
            && s.calls == map[] && s.consumers == [7] && s.attached == {}
            && |s.prods| == 1 && s.prods[0].state == StateStart
  {
    var s := LISTENED.(prods := [LEFT]);
    var e := Event.Reconnect(0, DialOk([TRACK]));
    assert WorkPossible(LEFT, 0, s.attached, e, {LISTENS}, {}) && Swaps(LEFT, e);
    assert Moved([TRACK], [TRACK], TRACK) == TRACK;
    assert MoveAll({LISTENS}, [TRACK], [TRACK]) == {LISTENS};
    assert ConnStop(LEFT, 0, {LISTENS}, {LISTENS}) == {} && Joins(0, {}) == {};
  }

  /**
   From a new stream of one source, the three runs end at rest, with the consumer listed, the producer in state Start,
   and nobody listening to it: the last action deafens it.
   */
  lemma CodecChangeIdles()
    ensures var run := MATCHING + STARTING + SWAPPING;
            var s := Steps(NewStream(1), run);
            && s.calls == map[] && s.consumers == [7]
            && |s.prods| == 1 && s.prods[0].state == StateStart && !HasSender(s, 0)
            && !NeverDeafens(NewStream(1), run)
  {
    hide Steps, NeverDeafens;
    StepsConcat(NewStream(1), MATCHING + STARTING, SWAPPING);
    StepsConcat(NewStream(1), MATCHING, STARTING);
    Matches();
    Starts();
    Leaves();
    TakesOff();
    Ahead(LISTENED, SWAPPING);
    Ahead(LISTENED.(prods := [LEFT]), SWAPPING[1..]);
    NoIdleProducer(1, MATCHING + STARTING + SWAPPING);
    assert Idle(Steps(NewStream(1), MATCHING + STARTING + SWAPPING), 0);
  }
}
