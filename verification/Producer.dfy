/**
 A stream's producer (internal/streams/producer.go): its states, its connection, and the worker goroutines and retry
 timers that outlive a stop and must then do nothing.  Each critical section under p.mu is one function here.
 */
module Producer {
  import opened Wrappers

  datatype Status = StateNone | StateMedias | StateTracks | StateStart | StateExternal | StateInternal

  /** A receiver: track n of a connection of a producer, or of a consumer's backchannel. */
  datatype Track = Track(owner: nat, conn: nat, n: nat) | Back(owner: nat, n: nat)

  /** A goroutine or timer: inside conn.Start, about to call reconnect, or waiting to. */
  datatype Task =
    | Running(worker: nat, conn: Option<nat>)
    | Reconnecting(worker: nat, retry: nat)
    | Waiting(worker: nat, retry: nat, seconds: nat)

  /**
   The fields of the source's Producer, the tasks it has spawned, and the connections GetProducer has opened for it:
   numbers below `connections`, each counted in `stopped` as often as its Stop was called.
   */
  datatype Prod = Prod(
    state: Status,
    workerID: nat,
    conn: Option<nat>,
    receivers: seq<Track>,
    senders: seq<Track>,
    tasks: map<nat, Task>,
    nextTask: nat,
    connections: nat,
    stopped: multiset<nat>)

  const NEW := Prod(StateNone, 0, None, [], [], map[], 0, 0, multiset{})

  /** How GetTrack ends when it gets past the state test: a listed receiver, a new one, or an error. */
  datatype Found = Listed(i: nat) | Fresh(track: Track) | Failed

  /** How GetProducer ends inside reconnect; on success, the receivers after the loop over the new medias. */
  datatype Redial = DialFailed | DialOk(receivers: seq<Track>)

  function AfterDial(p: Prod, ok: bool): (r: Prod)
  {
    if p.state == StateNone && ok then
      p.(conn := Some(p.connections), connections := p.connections + 1, state := StateMedias)
    else p
  }

  function HasTracks(s: Status): (r: Status)
  {
    if s == StateMedias then StateTracks else s
  }

  function AfterGetTrack(p: Prod, found: Found): (r: (Prod, Option<Track>))
  {
    if p.state == StateNone then (p, None)
    else
      match found
      case Listed(i) => if i < |p.receivers| then (p, Some(p.receivers[i])) else (p, None)
      case Fresh(track) => (p.(receivers := p.receivers + [track], state := HasTracks(p.state)), Some(track))
      case Failed => (p, None)
  }

  function AfterAddTrack(p: Prod, track: Track, ok: bool): (r: (Prod, bool))
  {
    if p.state == StateNone || !ok then (p, false)
    else (p.(senders := p.senders + [track], state := HasTracks(p.state)), true)
  }

  function Spawn(p: Prod, t: Task): (r: Prod)
  {
    p.(tasks := p.tasks[p.nextTask := t], nextTask := p.nextTask + 1)
  }

  function AfterStart(p: Prod): (r: Prod)
  {
    if p.state != StateTracks then p
    else Spawn(p.(state := StateStart, workerID := p.workerID + 1), Running(p.workerID + 1, p.conn))
  }

  function AfterStop(p: Prod): (r: Prod)
  {
    if p.state == StateExternal || p.state == StateNone then p
    else
      p.(workerID := if p.state == StateStart then p.workerID + 1 else p.workerID,
         stopped := if p.conn.Some? then p.stopped + multiset{p.conn.value} else p.stopped,
         conn := None, state := StateNone, receivers := [], senders := [])
  }

  /** conn.Start has returned: after an error the worker first tests whether it was closed. */
  function AfterExit(p: Prod, t: nat, failed: bool): (r: Prod)
    requires t in p.tasks && p.tasks[t].Running?
  {
    var id := p.tasks[t].worker;
    if failed && p.workerID != id then p.(tasks := p.tasks - {t})
    else p.(tasks := p.tasks[t := Reconnecting(id, 0)])
  }

  function AfterTimer(p: Prod, t: nat): (r: Prod)
    requires t in p.tasks && p.tasks[t].Waiting?
  {
    p.(tasks := p.tasks[t := Reconnecting(p.tasks[t].worker, p.tasks[t].retry)])
  }

  function Timeout(retry: nat): (seconds: nat)
  {
    if retry < 5 then 1 else if retry < 10 then 5 else if retry < 20 then 10 else 60
  }

  function AfterReconnect(p: Prod, t: nat, redial: Redial): (r: Prod)
    requires t in p.tasks && p.tasks[t].Reconnecting?
  {
    var Reconnecting(id, retry) := p.tasks[t];
    if p.workerID != id then p.(tasks := p.tasks - {t})
    else
      match redial
      case DialFailed => p.(tasks := p.tasks[t := Waiting(id, retry + 1, Timeout(retry))])
      case DialOk(receivers) =>
        p.(receivers := receivers,
           stopped := if p.conn.Some? then p.stopped + multiset{p.conn.value} else p.stopped,
           conn := Some(p.connections), connections := p.connections + 1,
           tasks := p.tasks[t := Running(id, Some(p.connections))])
  }

  /** The source's object; the tasks and the connection counts are what its goroutines and GetProducer keep. */
  class Object {
    var state: Status
    var workerID: nat
    var conn: Option<nat>
    var receivers: seq<Track>
    var senders: seq<Track>
    var tasks: map<nat, Task>
    var nextTask: nat
    var connections: nat
    var stopped: multiset<nat>

    ghost function Now(): Prod
      reads this
    {
      Prod(state, workerID, conn, receivers, senders, tasks, nextTask, connections, stopped)
    }

    constructor ()
      ensures Now() == NEW
    {
      state, workerID, conn, receivers, senders := StateNone, 0, None, [], [];
      tasks, nextTask, connections, stopped := map[], 0, 0, multiset{};
    }

    method Dial(ok: bool) returns (err: bool)
      modifies this
      ensures Now() == AfterDial(old(Now()), ok)
      ensures err <==> old(state) == StateNone && !ok
      ensures if old(state) == StateNone && ok then conn == Some(old(connections)) && state == StateMedias
              else Now() == old(Now())
    {
      if state == StateNone {
        if !ok {
          return true;
        }
        conn := Some(connections);
        connections := connections + 1;
        state := StateMedias;
      }
      err := false;
    }

    /** `answer` is what the connection's own GetTrack would give. */
    method GetTrack(codec: nat, codecOf: Track -> nat, answer: Option<Track>)
      returns (track: Option<Track>, ghost found: Found)
      modifies this
      ensures (Now(), track) == AfterGetTrack(old(Now()), found)
      ensures old(state) != StateNone && (exists r :: r in old(receivers) && codecOf(r) == codec) ==>
                && Now() == old(Now()) && track.Some? && track.value in receivers && codecOf(track.value) == codec
                && found.Listed? && found.i < |receivers| && receivers[found.i] == track.value
                && (forall k :: 0 <= k < found.i ==> codecOf(receivers[k]) != codec)
      ensures old(state) != StateNone && (forall r :: r in old(receivers) ==> codecOf(r) != codec) ==>
                && track == answer
                && receivers == (if answer.Some? then old(receivers) + [answer.value] else old(receivers))
                && state == (if answer.Some? && old(state) == StateMedias then StateTracks else old(state))
      ensures old(state) == StateNone ==> track == None && Now() == old(Now())
    {
      if state == StateNone {
        return None, Failed;
      }
      for i := 0 to |receivers|
        invariant Now() == old(Now())
        invariant forall k :: 0 <= k < i ==> codecOf(receivers[k]) != codec
      {
        if codecOf(receivers[i]) == codec {
          return Some(receivers[i]), Listed(i);
        }
      }
      if answer == None {
        return None, Failed;
      }
      receivers := receivers + [answer.value];
      if state == StateMedias {
        state := StateTracks;
      }
      track, found := answer, Fresh(answer.value);
    }

    method AddTrack(track: Track, ok: bool) returns (added: bool)
      modifies this
      ensures (Now(), added) == AfterAddTrack(old(Now()), track, ok)
      ensures added <==> old(state) != StateNone && ok
      ensures senders == if added then old(senders) + [track] else old(senders)
      ensures state == if added && old(state) == StateMedias then StateTracks else old(state)
    {
      if state == StateNone {
        return false;
      }
      if !ok {
        return false;
      }
      senders := senders + [track];
      if state == StateMedias {
        state := StateTracks;
      }
      added := true;
    }

    method Start()
      modifies this
      ensures Now() == AfterStart(old(Now()))
      ensures if old(state) != StateTracks then Now() == old(Now())
              else
                && state == StateStart && workerID == old(workerID) + 1 && conn == old(conn)
                && tasks == old(tasks)[old(nextTask) := Running(workerID, conn)]
    {
      if state != StateTracks {
        return;
      }
      state := StateStart;
      workerID := workerID + 1;
      tasks := tasks[nextTask := Running(workerID, conn)];
      nextTask := nextTask + 1;
    }

    method WorkerExit(t: nat, failed: bool)
      requires t in tasks && tasks[t].Running?
      modifies this
      ensures Now() == AfterExit(old(Now()), t, failed)
      ensures failed && old(tasks)[t].worker != workerID ==> tasks == old(tasks) - {t}
      ensures !failed || old(tasks)[t].worker == workerID ==>
                tasks == old(tasks)[t := Task.Reconnecting(old(tasks)[t].worker, 0)]
    {
      var id := tasks[t].worker;
      if failed {
        var closed := workerID != id;
        if closed {
          tasks := tasks - {t};
          return;
        }
      }
      tasks := tasks[t := Reconnecting(id, 0)];
    }

    method Reconnect(t: nat, redial: Redial)
      requires t in tasks && tasks[t].Reconnecting?
      modifies this
      ensures Now() == AfterReconnect(old(Now()), t, redial)
      ensures old(tasks)[t].worker == workerID && redial.DialOk? ==>
                && conn == Some(old(connections)) && receivers == redial.receivers && senders == old(senders)
                && tasks == old(tasks)[t := Running(workerID, conn)]
                && (old(conn).Some? ==> stopped == old(stopped) + multiset{old(conn).value})
      ensures old(tasks)[t].worker != workerID ==> tasks == old(tasks) - {t} && conn == old(conn) && stopped == old(stopped)
    {
      var Reconnecting(id, retry) := tasks[t];
      if workerID != id {
        tasks := tasks - {t};
        return;
      }
      if redial.DialFailed? {
        var timeout := 60;
        if retry < 5 {
          timeout := 1;
        } else if retry < 10 {
          timeout := 5;
        } else if retry < 20 {
          timeout := 10;
        }
        tasks := tasks[t := Waiting(id, retry + 1, timeout)];
        return;
      }
      receivers := redial.receivers;
      if conn.Some? {
        stopped := stopped + multiset{conn.value};
      }
      conn := Some(connections);
      connections := connections + 1;
      tasks := tasks[t := Running(id, conn)];
    }

    method Stop()
      modifies this
      ensures Now() == AfterStop(old(Now()))
      ensures old(state) == StateExternal || old(state) == StateNone ==> Now() == old(Now())
      ensures old(state) != StateExternal ==> state == StateNone
      ensures state == StateNone && old(state) != StateNone ==>
                && conn == None && receivers == [] && senders == [] && tasks == old(tasks)
                && workerID == (if old(state) == StateStart then old(workerID) + 1 else old(workerID))
                && (old(conn).Some? ==> stopped == old(stopped) + multiset{old(conn).value})
    {
      if state == StateExternal || state == StateNone {
        return;
      }
      if state == StateStart {
        workerID := workerID + 1;
      }
      if conn.Some? {
        stopped := stopped + multiset{conn.value};
        conn := None;
      }
      state := StateNone;
      receivers := [];
      senders := [];
    }
  }

  // Any interleaving of the critical sections.

  datatype Event =
    | Dial(ok: bool)
    | GetTrack(found: Found)
    | AddTrack(track: Track, added: bool)
    | Start
    | Stop
    | Exit(t: nat, failed: bool)
    | Timer(t: nat)
    | Reconnect(t: nat, redial: Redial)

  /** Events of tasks that are not in the right place to have them change nothing. */
  function Apply(p: Prod, e: Event): (r: Prod)
  {
    match e
    case Dial(ok) => AfterDial(p, ok)
    case GetTrack(found) => AfterGetTrack(p, found).0
    case AddTrack(track, added) => AfterAddTrack(p, track, added).0
    case Start => AfterStart(p)
    case Stop => AfterStop(p)
    case Exit(t, failed) => if t in p.tasks && p.tasks[t].Running? then AfterExit(p, t, failed) else p
    case Timer(t) => if t in p.tasks && p.tasks[t].Waiting? then AfterTimer(p, t) else p
    case Reconnect(t, redial) => if t in p.tasks && p.tasks[t].Reconnecting? then AfterReconnect(p, t, redial) else p
  }

  function Run(p: Prod, es: seq<Event>): (r: Prod)
    decreases |es|
  {
    if es == [] then p else Run(Apply(p, es[0]), es[1..])
  }

  /** The tasks that carry the current worker id. */
  function Current(p: Prod): (ts: set<nat>)
  {
    set t | t in p.tasks && p.tasks[t].worker == p.workerID
  }

  /** The connections opened and not stopped. */
  function Live(p: Prod): (cs: set<nat>)
  {
    set c | 0 <= c < p.connections && p.stopped[c] == 0
  }

  /** Worker fencing. */
  ghost predicate Fenced(p: Prod) {
    && (forall t :: t in p.tasks ==> p.tasks[t].worker <= p.workerID && t < p.nextTask)
    && (p.state == StateStart <==> exists t :: Current(p) == {t})
    && (p.state != StateStart ==> Current(p) == {})
  }

  /** Connection ownership. */
  ghost predicate Owned(p: Prod) {
    && (p.state == StateNone <==> p.conn == None)
    && Live(p) == (if p.conn.Some? then {p.conn.value} else {})
    && (forall c :: p.stopped[c] <= 1)
    && (forall c :: c in p.stopped ==> c < p.connections)
    && (forall t :: t in Current(p) && p.tasks[t].Running? ==> p.tasks[t].conn == p.conn)
  }

  ghost predicate Dialled(p: Prod) {
    p.state != StateExternal && p.state != StateInternal
  }

  /** Only a producer in state Tracks or Start lists tracks. */
  predicate Listing(p: Prod) {
    p.receivers != [] || p.senders != [] ==> p.state == StateTracks || p.state == StateStart
  }

  ghost predicate Inv(p: Prod) {
    Dialled(p) && Fenced(p) && Owned(p) && Listing(p)
  }

  lemma NewHolds()
    ensures Inv(NEW)
  {
    assert Current(NEW) == {} && Live(NEW) == {};
  }

  lemma ConnStopped(p: Prod, q: Prod)
    requires Owned(p) && p.conn.Some?
    requires q.stopped == p.stopped + multiset{p.conn.value} && q.connections == p.connections
    ensures Live(q) == {}
    ensures forall c :: q.stopped[c] <= 1
    ensures forall c :: c in q.stopped ==> c < q.connections
  {
    var c := p.conn.value;
    assert c in Live(p);
    assert Live(q) <= Live(p) && c !in Live(q);
  }

  lemma ConnOpened(p: Prod, q: Prod)
    requires Live(p) == {} && q.connections == p.connections + 1 && q.stopped == p.stopped
    requires forall c :: c in p.stopped ==> c < p.connections
    ensures Live(q) == {p.connections}
  {
    assert p.connections in Live(q);
    assert Live(q) <= Live(p) + {p.connections};
  }

  lemma DialKeeps(p: Prod, ok: bool)
    requires Inv(p)
    ensures Inv(AfterDial(p, ok))
  {
    var q := AfterDial(p, ok);
    if q != p {
      ConnOpened(p, q);
      assert Current(q) == Current(p);
    }
  }

  lemma StartKeeps(p: Prod)
    requires Inv(p)
    ensures Inv(AfterStart(p))
  {
    var q := AfterStart(p);
    if q != p {
      assert Current(q) == {p.nextTask};
      assert Live(q) == Live(p);
    }
  }

  lemma StopKeeps(p: Prod)
    requires Inv(p)
    ensures Inv(AfterStop(p))
  {
    var q := AfterStop(p);
    if q != p {
      ConnStopped(p, q);
      assert Current(q) == {};
    }
  }

  lemma SameTaskKeeps(p: Prod, q: Prod, t: nat)
    requires Inv(p) && t in p.tasks && q == p.(tasks := q.tasks)
    requires q.tasks.Keys == p.tasks.Keys
    requires forall u :: u in p.tasks && u != t ==> q.tasks[u] == p.tasks[u]
    requires q.tasks[t].worker == p.tasks[t].worker && !q.tasks[t].Running?
    ensures Inv(q)
  {
    assert Current(q) == Current(p);
    assert Live(q) == Live(p);
  }

  lemma StaleTaskEnds(p: Prod, t: nat)
    requires Inv(p) && t in p.tasks && p.tasks[t].worker != p.workerID
    ensures Inv(p.(tasks := p.tasks - {t}))
  {
    var q := p.(tasks := p.tasks - {t});
    assert Current(q) == Current(p);
    assert Live(q) == Live(p);
  }

  lemma ReconnectKeeps(p: Prod, t: nat, redial: Redial)
    requires Inv(p) && t in p.tasks && p.tasks[t].Reconnecting?
    ensures Inv(AfterReconnect(p, t, redial))
  {
    var q := AfterReconnect(p, t, redial);
    if p.workerID != p.tasks[t].worker {
      StaleTaskEnds(p, t);
    } else if redial.DialFailed? {
      SameTaskKeeps(p, q, t);
    } else {
      assert t in Current(p);
      var mid := p.(stopped := q.stopped);
      ConnStopped(p, mid);
      ConnOpened(mid, q);
      assert Current(q) == Current(p);
    }
  }

  lemma TrackKeeps(p: Prod, q: Prod)
    requires Inv(p) && p.state != StateNone
    requires q == p.(receivers := q.receivers, senders := q.senders, state := HasTracks(p.state))
    ensures Inv(q)
  {
    assert Current(q) == Current(p);
    assert Live(q) == Live(p);
  }

  lemma ApplyKeeps(p: Prod, e: Event)
    requires Inv(p)
    ensures Inv(Apply(p, e))
  {
    hide Inv, AfterDial, AfterStart, AfterStop;
    var q := Apply(p, e);
    match e
    case Dial(ok) => DialKeeps(p, ok);
    case GetTrack(found) =>
      if q != p {
        TrackKeeps(p, q);
      }
    case AddTrack(track, added) =>
      if q != p {
        TrackKeeps(p, q);
      }
    case Start => StartKeeps(p);
    case Stop => StopKeeps(p);
    case Exit(t, failed) =>
      if q != p {
        if failed && p.workerID != p.tasks[t].worker {
          StaleTaskEnds(p, t);
        } else {
          SameTaskKeeps(p, q, t);
        }
      }
    case Timer(t) =>
      if q != p {
        SameTaskKeeps(p, q, t);
      }
    case Reconnect(t, redial) =>
      if q != p {
        ReconnectKeeps(p, t, redial);
      }
  }

  /**
   In every interleaving on a dialled producer: task ids never exceed workerID, exactly one task carries the current
   one just when the state is Start, and the connections opened but not stopped are exactly p.conn, each stopped at
   most once.
   */
  lemma {:induction false} RunKeeps(p: Prod, es: seq<Event>)
    requires Inv(p)
    ensures Inv(Run(p, es))
    decreases |es|
  {
    hide Inv, Apply;
    if es != [] {
      ApplyKeeps(p, es[0]);
      RunKeeps(Apply(p, es[0]), es[1..]);
    }
  }

  lemma EveryRun(es: seq<Event>)
    ensures Inv(Run(NEW, es))
  {
    hide Inv, Run;
    NewHolds();
    RunKeeps(NEW, es);
  }

  /** A stale task, whatever it does, changes nothing but itself, and from reconnect on it is gone. */
  lemma StaleTasksChangeNothing(p: Prod, e: Event, t: nat)
    requires t in p.tasks && p.tasks[t].worker != p.workerID
    requires e == Timer(t) || (e.Exit? && e.t == t) || (e.Reconnect? && e.t == t)
    ensures var q := Apply(p, e);
            && q == p.(tasks := q.tasks)
            && q.tasks - {t} == p.tasks - {t}
            && (t in q.tasks ==> q.tasks[t].worker == p.tasks[t].worker)
            && (e.Reconnect? && p.tasks[t].Reconnecting? ==> t !in q.tasks)
  {
  }

  lemma {:induction false} StaleForever(p: Prod, t: nat, es: seq<Event>)
    requires Inv(p) && t in p.tasks && p.tasks[t].worker < p.workerID
    ensures var q := Run(p, es);
            t in q.tasks ==> q.tasks[t].worker < q.workerID
    decreases |es|
  {
    hide Inv;
    if es != [] {
      var next := Apply(p, es[0]);
      ApplyKeeps(p, es[0]);
      StaleStays(p, t, es[0]);
      if t in next.tasks {
        StaleForever(next, t, es[1..]);
      } else {
        GoneStaysGone(next, t, es[1..]);
      }
    }
  }

  lemma StaleStays(p: Prod, t: nat, e: Event)
    requires Inv(p) && t in p.tasks && p.tasks[t].worker < p.workerID
    ensures var q := Apply(p, e);
            && (t in q.tasks ==> q.tasks[t].worker < q.workerID) && t < q.nextTask
  {
  }

  lemma {:induction false} GoneStaysGone(p: Prod, t: nat, es: seq<Event>)
    requires t !in p.tasks && t < p.nextTask
    ensures t !in Run(p, es).tasks
    decreases |es|
  {
    if es != [] {
      GoneStaysGone(Apply(p, es[0]), t, es[1..]);
    }
  }

  /** Once a producer is stopped every task there was is stale, and stays so for as long as it lives. */
  lemma StopFencesOff(p: Prod, t: nat, es: seq<Event>)
    requires Inv(p) && t in p.tasks
    ensures var q := Run(AfterStop(p), es);
            t in q.tasks ==> q.tasks[t].worker < q.workerID
  {
    hide Run;
    var next := AfterStop(p);
    StopKeeps(p);
    assert t !in Current(next) && t in next.tasks;
    StaleForever(next, t, es);
  }

  /** Nobody dereferences a missing connection: a worker starts on one, and reconnect stops one. */
  lemma ConnectionIsThere(p: Prod)
    requires Inv(p)
    ensures p.state == StateTracks ==> p.conn.Some?
    ensures forall t :: t in Current(p) ==> p.conn.Some?
  {
  }

  /** k failed redials of a task, each with its timer. */
  function Fails(t: nat, k: nat): (es: seq<Event>)
  {
    if k == 0 then [] else [Reconnect(t, DialFailed), Timer(t)] + Fails(t, k - 1)
  }

  /** The pauses between redials: five of a second, five of five, ten of ten, and a minute from then on. */
  lemma {:induction false} Backoff(p: Prod, t: nat, retry: nat, k: nat)
    requires t in p.tasks && p.tasks[t] == Reconnecting(p.workerID, retry)
    ensures var q := Run(p, Fails(t, k));
            var n := retry + k;
            && q == p.(tasks := p.tasks[t := Reconnecting(p.workerID, n)])
            && Apply(q, Reconnect(t, DialFailed))
            == p.(tasks := p.tasks[t := Waiting(p.workerID, n + 1,
                                                if n < 5 then 1 else if n < 10 then 5 else if n < 20 then 10 else 60)])
    decreases k
  {
    if k == 0 {
      assert p.tasks[t := Reconnecting(p.workerID, retry)] == p.tasks;
    } else {
      var e, f := Reconnect(t, DialFailed), Timer(t);
      var once := Apply(p, e);
      var twice := Apply(once, f);
      assert twice == p.(tasks := p.tasks[t := Reconnecting(p.workerID, retry + 1)]);
      assert Fails(t, k)[1..][1..] == Fails(t, k - 1);
      assert Run(p, Fails(t, k)) == Run(once, Fails(t, k)[1..]) == Run(twice, Fails(t, k - 1));
      Backoff(twice, t, retry + 1, k - 1);
      assert twice.tasks[t := Reconnecting(p.workerID, retry + k)] == p.tasks[t := Reconnecting(p.workerID, retry + k)];
    }
  }

  lemma ConnIsOlder(p: Prod)
    requires Inv(p) && p.conn.Some?
    ensures p.conn.value < p.connections
  {
    assert p.conn.value in Live(p);
  }
}
