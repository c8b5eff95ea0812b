/**
 One stream's consumers and producers (internal/streams/add_consumer.go, internal/streams/stream.go): overlapping
 AddConsumer and RemoveConsumer calls, the pending counter they share, the sweep that stops producers nobody listens
 to, and the workers and timers of the producers.  Every access to shared state is a step of its own, so the test of
 the counter, the look at a producer and its stop can each be separated by steps of other calls.
 */
module Streams {
  import opened Wrappers
  import opened Lists
  import opened Producer

  /** A child hanging off a track: a consumer's sender, or a producer's on a backchannel track. */
  datatype Sender = Sender(track: Track, holder: nat)

  /** A consumer: for each of its medias, whether it matches all; and the producers its own source must skip. */
  datatype Cons = Cons(id: nat, medias: seq<bool>, own: set<nat>)

  /** Where a call stands: in the matching loops (first five), detaching, in stopProducers, or past it. */
  datatype Place =
    | AtProducer(media: nat, prod: nat)
    | Connected(media: nat, prod: nat)
    | AtMedia(media: nat, prod: nat, left: nat)
    | HasTrack(media: nat, prod: nat, left: nat, track: Track)
    | HasBack(media: nat, prod: nat, left: nat, track: Track)
    | Detaching
    | Checking
    | Looking(prod: nat)
    | Stopping(prod: nat)
    | Swept
    | Starting(next: nat)

  datatype Call = Call(cons: Cons, adds: bool, place: Place, errors: set<nat>, starts: seq<nat>)

  datatype State = State(
    prods: seq<Prod>,
    attached: set<Sender>,
    consumers: seq<nat>,
    pending: int,
    calls: map<nat, Call>)

  /** What a step cannot compute from the state: answers of connections, matches of codecs, what a look saw. */
  datatype Choice =
    | Next
    | Dialled(ok: bool)
    | Medias(n: nat)
    | NoMatch
    | Recv(found: Found)
    | Send(track: Option<nat>)
    | Other
    | Attach(ok: bool)
    | Detach(gone: set<Sender>)
    | See(sees: bool)
    | Closing(closed: set<Sender>)

  datatype Action =
    | Begin(id: nat, cons: Cons, adds: bool)
    | Act(id: nat, choice: Choice)
    | Work(prod: nat, event: Event, closed: set<Sender>, joined: set<Track>)

  /** Some listed track of producer i has a sender. */
  predicate HasSender(s: State, i: nat)
    requires i < |s.prods|
  {
    exists x :: x in s.attached && (x.track in s.prods[i].receivers || x.track in s.prods[i].senders)
  }

  predicate Active(p: Prod) {
    p.state == StateMedias || p.state == StateTracks || p.state == StateStart
  }

  predicate Idle(s: State, i: nat)
    requires i < |s.prods|
  {
    Active(s.prods[i]) && !HasSender(s, i)
  }

  function To(s: State, id: nat, call: Call, place: Place): (t: State)
  {
    s.(calls := s.calls[id := call.(place := place)])
  }

  function End(s: State, id: nat): (t: State)
  {
    s.(calls := s.calls - {id})
  }

  function SetProd(s: State, i: nat, p: Prod): (t: State)
    requires i < |s.prods|
  {
    s.(prods := s.prods[i := p])
  }

  /** After a match: the next media of the consumer, unless this one matches all. */
  function AfterMatch(call: Call, media: nat, prod: nat, left: nat): (place: Place)
    requires media < |call.cons.medias|
  {
    if call.cons.medias[media] then AtMedia(media, prod, left) else AtProducer(media + 1, 0)
  }

  function Matched(s: State, id: nat, call: Call, media: nat, prod: nat, left: nat): (t: State)
    requires media < |call.cons.medias|
  {
    To(s, id, call.(starts := call.starts + [prod]), AfterMatch(call, media, prod, left))
  }

  function Failed(s: State, id: nat, call: Call, prod: nat, place: Place): (t: State)
  {
    To(s, id, call.(errors := call.errors + {prod}), place)
  }

  /** The calls between pending.Add(1) and pending.Add(-1). */
  predicate InLoop(call: Call) {
    call.place.AtProducer? || call.place.Connected? || call.place.AtMedia? || call.place.HasTrack? || call.place.HasBack?
  }

  /** Places point at producers and medias that exist. */
  predicate InRange(call: Call, n: nat) {
    && (call.place.Connected? || call.place.AtMedia? || call.place.HasTrack? || call.place.HasBack? ==>
          call.place.media < |call.cons.medias| && call.place.prod < n)
    && (call.place.HasTrack? ==> call.place.track.Track? && call.place.track.owner == call.place.prod)
    && (call.place.HasBack? ==> call.place.track.Back?)
    && (call.place.Stopping? ==> call.place.prod < n)
    && (forall k :: 0 <= k < |call.starts| ==> call.starts[k] < n)
  }

  function AtProducerStep(s: State, id: nat, call: Call, choice: Choice): (t: State)
    requires call.place.AtProducer?
  {
    var AtProducer(m, p) := call.place;
    if m >= |call.cons.medias| then
      To(s.(pending := s.pending - 1), id, call, if s.pending - 1 == 0 then Checking else Swept)
    else if p >= |s.prods| then To(s, id, call, AtProducer(m + 1, 0))
    else if p in call.cons.own || p in call.errors then To(s, id, call, AtProducer(m, p + 1))
    else if !choice.Dialled? then s
    else if s.prods[p].state == StateNone && !choice.ok then Failed(s, id, call, p, AtProducer(m, p + 1))
    else To(SetProd(s, p, AfterDial(s.prods[p], choice.ok)), id, call, Connected(m, p))
  }

  /** A connection hands out tracks of its own producer, or one the producer lists. */
  predicate Possible(p: Prod, i: nat, found: Found) {
    match found
    case Listed(k) => k < |p.receivers|
    case Fresh(track) => track.Track? && track.owner == i && p.conn == Some(track.conn)
    case Failed => true
  }

  function AtMediaStep(s: State, id: nat, call: Call, choice: Choice): (t: State)
    requires call.place.AtMedia? && InRange(call, |s.prods|)
  {
    var AtMedia(m, p, left) := call.place;
    if left == 0 then To(s, id, call, AtProducer(m, p + 1))
    else
      match choice
      case NoMatch => To(s, id, call, AtMedia(m, p, left - 1))
      case Recv(found) =>
        if !Possible(s.prods[p], p, found) then s
        else
          var r := AfterGetTrack(s.prods[p], found);
          (match r.1
           case None => Failed(s, id, call, p, AtMedia(m, p, left - 1))
           case Some(track) => To(SetProd(s, p, r.0), id, call, HasTrack(m, p, left - 1, track)))
      case Send(None) => To(s, id, call, AtMedia(m, p, left - 1))
      case Send(Some(n)) => To(s, id, call, HasBack(m, p, left - 1, Back(call.cons.id, n)))
      case Other => Matched(s, id, call, m, p, left - 1)
      case _ => s
  }

  function HasTrackStep(s: State, id: nat, call: Call, ok: bool): (t: State)
    requires call.place.HasTrack? && InRange(call, |s.prods|)
  {
    var HasTrack(m, p, left, track) := call.place;
    if ok then Matched(s.(attached := s.attached + {Sender(track, call.cons.id)}), id, call, m, p, left)
    else To(s, id, call, AtMedia(m, p, left))
  }

  function HasBackStep(s: State, id: nat, call: Call, ok: bool): (t: State)
    requires call.place.HasBack? && InRange(call, |s.prods|)
  {
    var HasBack(m, p, left, track) := call.place;
    var r := AfterAddTrack(s.prods[p], track, ok);
    if r.1 then
      Matched(SetProd(s, p, r.0).(attached := s.attached + {Sender(track, p)}), id, call, m, p, left)
    else Failed(s, id, call, p, AtMedia(m, p, left))
  }

  /** stopProducers returns: to the rest of AddConsumer, or to the end of RemoveConsumer. */
  function AfterSweep(s: State, id: nat, call: Call): (t: State)
  {
    if call.adds then To(s, id, call, Swept) else End(s, id)
  }

  /**
   A look at a producer's tracks takes no lock of the producer, so it may miss a sender that a reconnect is moving;
   but a sender that it sees was there.
   */
  function LookingStep(s: State, id: nat, call: Call, choice: Choice): (t: State)
    requires call.place.Looking?
  {
    var p := call.place.prod;
    if p >= |s.prods| then AfterSweep(s, id, call)
    else if !choice.See? then s
    else if !choice.sees then To(s, id, call, Stopping(p))
    else if HasSender(s, p) then To(s, id, call, Looking(p + 1))
    else s
  }

  /** A sender that hangs off a track of the producer's connection. */
  predicate Owns(p: Prod, i: nat, x: Sender) {
    x.track.Track? && x.track.owner == i && p.conn == Some(x.track.conn)
  }

  /** A sender of the producer's connection, on a backchannel track. */
  predicate Held(i: nat, x: Sender) {
    x.track.Back? && x.holder == i
  }

  /**
   conn.Stop() closes the connection's receivers, which takes `closed` off them (all that hangs there, or less when
   there are many), and its own senders.
   */
  function ConnStop(p: Prod, i: nat, attached: set<Sender>, closed: set<Sender>): (r: set<Sender>)
  {
    if p.conn == None then attached else set x | x in attached && x !in closed && !Held(i, x)
  }

  function StoppingStep(s: State, id: nat, call: Call, closed: set<Sender>): (t: State)
    requires call.place.Stopping? && InRange(call, |s.prods|)
  {
    var p := call.place.prod;
    if forall x :: x in closed ==> Owns(s.prods[p], p, x) then
      To(SetProd(s, p, AfterStop(s.prods[p])).(attached := ConnStop(s.prods[p], p, s.attached, closed)), id, call,
         Looking(p + 1))
    else s
  }

  function SweptStep(s: State, id: nat, call: Call): (t: State)
  {
    if call.starts == [] then End(s, id)
    else To(s.(consumers := s.consumers + [call.cons.id]), id, call, Starting(0))
  }

  function StartingStep(s: State, id: nat, call: Call): (t: State)
    requires call.place.Starting? && InRange(call, |s.prods|)
  {
    var k := call.place.next;
    if k >= |call.starts| then End(s, id)
    else
      var p := call.starts[k];
      To(SetProd(s, p, AfterStart(s.prods[p])), id, call, Starting(k + 1))
  }

  /** One step of a call; a choice that does not fit its place changes nothing. */
  function CallStep(s: State, id: nat, call: Call, choice: Choice): (t: State)
    requires InRange(call, |s.prods|)
  {
    match call.place
    case AtProducer(_, _) => AtProducerStep(s, id, call, choice)
    case Connected(m, p) =>
      if choice.Medias? && (s.prods[p].conn == None ==> choice.n == 0) then To(s, id, call, AtMedia(m, p, choice.n)) else s
    case AtMedia(_, _, _) => AtMediaStep(s, id, call, choice)
    case HasTrack(_, _, _, _) => if choice.Attach? then HasTrackStep(s, id, call, choice.ok) else s
    case HasBack(_, _, _, _) => if choice.Attach? then HasBackStep(s, id, call, choice.ok) else s
    case Detaching =>
      if choice.Detach? then s.(attached := s.attached - choice.gone)
      else if choice.Next? then To(s.(consumers := RemoveFirst(s.consumers, call.cons.id)), id, call, Checking)
      else s
    case Checking => if s.pending > 0 then AfterSweep(s, id, call) else To(s, id, call, Looking(0))
    case Looking(_) => LookingStep(s, id, call, choice)
    case Stopping(_) => if choice.Closing? then StoppingStep(s, id, call, choice.closed) else s
    case Swept => SweptStep(s, id, call)
    case Starting(_) => StartingStep(s, id, call)
  }

  /** The track that a sender of `track` hangs off once `before` became `after` position by position. */
  function Moved(before: seq<Track>, after: seq<Track>, track: Track): (r: Track)
    requires |before| == |after|
  {
    if before == [] then track
    else if before[0] == track && after[0] != track then after[0]
    else Moved(before[1..], after[1..], track)
  }

  function MoveAll(attached: set<Sender>, before: seq<Track>, after: seq<Track>): (r: set<Sender>)
    requires |before| == |after|
  {
    set x | x in attached :: Sender(Moved(before, after, x.track), x.holder)
  }

  /**
   A reconnect keeps a producer's receivers or replaces them, position by position, by new ones of the new connection,
   which have no senders yet.
   */
  predicate Replaces(p: Prod, i: nat, attached: set<Sender>, redial: Redial) {
    redial.DialOk? ==>
      && |redial.receivers| == |p.receivers|
      && forall k :: 0 <= k < |p.receivers| ==>
           redial.receivers[k] == p.receivers[k] || IsNew(p, i, attached, redial.receivers[k])
  }

  predicate IsNew(p: Prod, i: nat, attached: set<Sender>, track: Track) {
    && track.Track? && track.owner == i && track.conn == p.connections
    && forall x :: x in attached ==> x.track != track
  }

  /** The event swaps the connection: a current task that gets through to a new one. */
  predicate Swaps(p: Prod, e: Event) {
    e.Reconnect? && e.t in p.tasks && p.tasks[e.t].Reconnecting? && p.tasks[e.t].worker == p.workerID && e.redial.DialOk?
  }

  predicate WorkPossible(p: Prod, i: nat, attached: set<Sender>, e: Event, closed: set<Sender>, joined: set<Track>) {
    && (e.Exit? || e.Timer? || (e.Reconnect? && Replaces(p, i, attached, e.redial)))
    && (forall x :: x in closed ==> Owns(p, i, x))
    && (forall track :: track in joined ==> track in p.senders)
  }

  function Joins(i: nat, joined: set<Track>): (r: set<Sender>)
  {
    set track | track in joined :: Sender(track, i)
  }

  /**
   An event of a worker or timer.  When it swaps the connection, replaced receivers pass their senders on, the new
   connection joins backchannel tracks it agrees to, and then the old connection is stopped, which takes `closed` off
   the tracks of its own that were not replaced.
   */
  function WorkStep(s: State, i: nat, e: Event, closed: set<Sender>, joined: set<Track>): (t: State)
    requires i < |s.prods| && WorkPossible(s.prods[i], i, s.attached, e, closed, joined)
  {
    var p := s.prods[i];
    var q := Apply(p, e);
    if Swaps(p, e) then
      var moved := MoveAll(s.attached, p.receivers, q.receivers);
      SetProd(s, i, q).(attached := ConnStop(p, i, moved, closed) + Joins(i, joined))
    else SetProd(s, i, q)
  }

  function BeginStep(s: State, id: nat, cons: Cons, adds: bool): (t: State)
  {
    if adds then
      s.(pending := s.pending + 1, calls := s.calls[id := Call(cons, true, AtProducer(0, 0), {}, [])])
    else s.(calls := s.calls[id := Call(cons, false, Detaching, {}, [])])
  }

  /** One step of the stream; a step that is not possible changes nothing. */
  function Step(s: State, a: Action): (t: State)
  {
    match a
    case Begin(id, cons, adds) => if id in s.calls then s else BeginStep(s, id, cons, adds)
    case Act(id, choice) =>
      if id in s.calls && InRange(s.calls[id], |s.prods|) then CallStep(s, id, s.calls[id], choice) else s
    case Work(i, e, closed, joined) =>
      if i < |s.prods| && WorkPossible(s.prods[i], i, s.attached, e, closed, joined) then WorkStep(s, i, e, closed, joined)
      else s
  }

  function Steps(s: State, actions: seq<Action>): (t: State)
    decreases |actions|
  {
    if actions == [] then s else Steps(Step(s, actions[0]), actions[1..])
  }

  /** A stream of n sources. */
  function NewStream(n: nat): (s: State)
  {
    State(seq(n, _ => NEW), {}, [], 0, map[])
  }

  // The invariant.

  /** A call that has yet to sweep past producer i. */
  predicate Owes(call: Call, i: nat) {
    || InLoop(call)
    || call.place.Detaching?
    || call.place.Checking?
    || (call.place.Looking? && call.place.prod <= i)
    || (call.place.Stopping? && call.place.prod <= i)
  }

  ghost predicate Owed(s: State, i: nat) {
    exists id :: id in s.calls && Owes(s.calls[id], i)
  }

  ghost predicate EveryIdleOwed(s: State) {
    forall i :: 0 <= i < |s.prods| && Idle(s, i) ==> Owed(s, i)
  }

  function Pending(s: State): (ids: set<nat>)
  {
    set id | id in s.calls && InLoop(s.calls[id])
  }

  /** The tracks a producer lists: its own, and consumers' backchannels. */
  predicate OwnTracks(p: Prod, i: nat) {
    && (forall k :: 0 <= k < |p.receivers| ==> p.receivers[k].Track? && p.receivers[k].owner == i)
    && (forall k :: 0 <= k < |p.senders| ==> p.senders[k].Back?)
  }

  ghost predicate ProdsHold(s: State) {
    forall i :: 0 <= i < |s.prods| ==> Inv(s.prods[i]) && OwnTracks(s.prods[i], i)
  }

  ghost predicate CallsInRange(s: State) {
    forall id :: id in s.calls ==> InRange(s.calls[id], |s.prods|)
  }

  /** A connection's sender on a backchannel track is one that its producer lists. */
  ghost predicate BacksListed(s: State) {
    forall x :: x in s.attached && x.track.Back? ==> x.holder < |s.prods| && x.track in s.prods[x.holder].senders
  }

  /** What every step keeps. */
  ghost predicate Tidy(s: State) {
    ProdsHold(s) && CallsInRange(s) && s.pending == |Pending(s)| && BacksListed(s)
  }

  ghost predicate Holds(s: State) {
    Tidy(s) && EveryIdleOwed(s)
  }

  lemma NewHolds(n: nat)
    ensures Holds(NewStream(n))
  {
    Producer.NewHolds();
    assert Pending(NewStream(n)) == {};
  }

  // Each producer goes through its own events only, so it keeps its own invariant.

  lemma ProdsAfter(s: State, t: State, i: nat, e: Event)
    requires ProdsHold(s) && i < |s.prods|
    requires t.prods == s.prods[i := Apply(s.prods[i], e)]
    requires OwnTracks(t.prods[i], i)
    ensures ProdsHold(t)
  {
    hide Inv, Apply, OwnTracks;
    ApplyKeeps(s.prods[i], e);
  }

  lemma MatchingKeepsProds(s: State, id: nat, choice: Choice)
    requires ProdsHold(s) && CallsInRange(s) && id in s.calls && InLoop(s.calls[id])
    ensures ProdsHold(Step(s, Act(id, choice)))
  {
    hide Inv;
    var call := s.calls[id];
    var t := Step(s, Act(id, choice));
    if t.prods != s.prods {
      var p := call.place.prod;
      match call.place
      case AtProducer(_, _) => ProdsAfter(s, t, p, Dial(choice.ok));
      case AtMedia(_, _, _) => ProdsAfter(s, t, p, GetTrack(choice.found));
      case HasBack(_, _, _, track) => ProdsAfter(s, t, p, AddTrack(track, choice.ok));
    }
  }

  lemma SweepingKeepsProds(s: State, id: nat, choice: Choice)
    requires ProdsHold(s) && CallsInRange(s) && id in s.calls && !InLoop(s.calls[id])
    ensures ProdsHold(Step(s, Act(id, choice)))
  {
    hide Inv;
    var call := s.calls[id];
    var t := Step(s, Act(id, choice));
    if t.prods != s.prods {
      if call.place.Stopping? {
        ProdsAfter(s, t, call.place.prod, Stop);
      } else {
        ProdsAfter(s, t, call.starts[call.place.next], Start);
      }
    }
  }

  lemma WorkKeepsProds(s: State, i: nat, e: Event, closed: set<Sender>, joined: set<Track>)
    requires ProdsHold(s) && i < |s.prods| && WorkPossible(s.prods[i], i, s.attached, e, closed, joined)
    ensures ProdsHold(WorkStep(s, i, e, closed, joined))
  {
    hide Inv, MoveAll, ConnStop, Joins;
    ProdsAfter(s, WorkStep(s, i, e, closed, joined), i, e);
  }

  lemma StepKeepsProds(s: State, a: Action)
    requires ProdsHold(s) && CallsInRange(s)
    ensures ProdsHold(Step(s, a))
  {
    match a
    case Begin(_, _, _) =>
    case Work(i, e, closed, joined) =>
      if i < |s.prods| && WorkPossible(s.prods[i], i, s.attached, e, closed, joined) {
        WorkKeepsProds(s, i, e, closed, joined);
      }
    case Act(id, choice) =>
      if id in s.calls {
        if InLoop(s.calls[id]) {
          MatchingKeepsProds(s, id, choice);
        } else {
          SweepingKeepsProds(s, id, choice);
        }
      }
  }

  // Places stay in range.

  lemma OnlyCall(s: State, a: Action)
    ensures var t := Step(s, a);
            && |t.prods| == |s.prods|
            && forall id :: (a.Work? || id != a.id) ==>
                 (id in t.calls <==> id in s.calls) && (id in s.calls ==> t.calls[id] == s.calls[id])
  {
    hide HasSender, MoveAll, ConnStop, Joins, AfterDial, AfterGetTrack, AfterAddTrack, AfterStop, AfterStart, Apply;
    hide Possible, WorkPossible, Swaps;
    if a.Act? && a.id in s.calls && InRange(s.calls[a.id], |s.prods|) {
      OnlyCallMoves(s, a.id, s.calls[a.id], a.choice);
    }
    hide CallStep;
  }

  lemma OnlyCallMoves(s: State, id: nat, call: Call, choice: Choice)
    requires InRange(call, |s.prods|)
    ensures var t := CallStep(s, id, call, choice);
            && |t.prods| == |s.prods|
            && forall k :: k != id ==> (k in t.calls <==> k in s.calls) && (k in s.calls ==> t.calls[k] == s.calls[k])
  {
    hide HasSender, ConnStop, AfterDial, AfterGetTrack, AfterAddTrack, AfterStop, AfterStart, Possible;
    if InLoop(call) {
      OnlyCallMatches(s, id, call, choice);
      hide CallStep;
    } else {
      hide AtProducerStep, AtMediaStep, HasTrackStep, HasBackStep;
    }
  }

  lemma OnlyCallMatches(s: State, id: nat, call: Call, choice: Choice)
    requires InRange(call, |s.prods|) && InLoop(call)
    ensures var t := CallStep(s, id, call, choice);
            && |t.prods| == |s.prods|
            && forall k :: k != id ==> (k in t.calls <==> k in s.calls) && (k in s.calls ==> t.calls[k] == s.calls[k])
  {
    hide HasSender, AfterDial, AfterGetTrack, AfterAddTrack, Possible;
    hide LookingStep, StoppingStep, SweptStep, StartingStep;
  }

  lemma GotIsOwn(p: Prod, i: nat, found: Found)
    requires OwnTracks(p, i) && Possible(p, i, found)
    ensures var track := AfterGetTrack(p, found).1;
            track.Some? ==> track.value.Track? && track.value.owner == i
  {
  }

  lemma MediaKeepsRange(s: State, id: nat, choice: Choice)
    requires ProdsHold(s) && CallsInRange(s) && id in s.calls && s.calls[id].place.AtMedia?
    ensures var t := Step(s, Act(id, choice));
            id in t.calls && InRange(t.calls[id], |s.prods|)
  {
    hide Inv, AfterGetTrack, OwnTracks, Possible;
    var p := s.calls[id].place.prod;
    if choice.Recv? && Possible(s.prods[p], p, choice.found) {
      GotIsOwn(s.prods[p], p, choice.found);
    }
  }

  lemma MatchingKeepsRange(s: State, id: nat, choice: Choice)
    requires ProdsHold(s) && CallsInRange(s) && id in s.calls && InLoop(s.calls[id])
    ensures var t := Step(s, Act(id, choice));
            id in t.calls && InRange(t.calls[id], |s.prods|)
  {
    if s.calls[id].place.AtMedia? {
      MediaKeepsRange(s, id, choice);
    } else {
      hide Inv, AfterDial, AfterAddTrack, ProdsHold, AtMediaStep;
    }
  }

  lemma SweepingKeepsRange(s: State, id: nat, choice: Choice)
    requires CallsInRange(s) && id in s.calls && !InLoop(s.calls[id])
    ensures var t := Step(s, Act(id, choice));
            id in t.calls ==> InRange(t.calls[id], |s.prods|)
  {
    hide Inv, HasSender, AfterStop, AfterStart;
  }

  lemma StepKeepsRange(s: State, a: Action)
    requires ProdsHold(s) && CallsInRange(s)
    ensures CallsInRange(Step(s, a))
  {
    hide Inv, CallStep, WorkStep;
    OnlyCall(s, a);
    match a
    case Begin(_, _, _) =>
    case Work(_, _, _, _) =>
    case Act(id, choice) =>
      if id in s.calls {
        if InLoop(s.calls[id]) {
          MatchingKeepsRange(s, id, choice);
        } else {
          SweepingKeepsRange(s, id, choice);
        }
      }
  }

  // The counter counts the calls in the matching loops.

  /** A step in the loops stays in them, or decrements the counter and goes on to the sweep. */
  lemma LoopStep(s: State, id: nat, choice: Choice)
    requires CallsInRange(s) && id in s.calls && InLoop(s.calls[id])
    ensures var t := Step(s, Act(id, choice));
            && id in t.calls
            && if InLoop(t.calls[id]) then t.pending == s.pending
               else
                 && t == To(s.(pending := s.pending - 1), id, s.calls[id], t.calls[id].place)
                 && t.calls[id].place == if t.pending == 0 then Checking else Swept
  {
    hide HasSender, AfterDial, AfterGetTrack, AfterAddTrack, Possible;
  }

  lemma SweepStep(s: State, id: nat, choice: Choice)
    requires CallsInRange(s) && id in s.calls && !InLoop(s.calls[id])
    ensures var t := Step(s, Act(id, choice));
            t.pending == s.pending && (id in t.calls ==> !InLoop(t.calls[id]))
  {
    hide HasSender, AfterStop, AfterStart;
  }

  lemma PendingAfter(s: State, t: State, id: nat)
    requires forall k :: k != id ==> (k in t.calls <==> k in s.calls) && (k in s.calls ==> t.calls[k] == s.calls[k])
    ensures Pending(t) - {id} == Pending(s) - {id}
    ensures id in Pending(t) ==> Pending(t) == (Pending(t) - {id}) + {id}
    ensures id in Pending(s) ==> Pending(s) == (Pending(s) - {id}) + {id}
    ensures id !in Pending(t) ==> Pending(t) == Pending(t) - {id}
    ensures id !in Pending(s) ==> Pending(s) == Pending(s) - {id}
  {
    hide InLoop;
  }

  lemma StepKeepsCount(s: State, a: Action)
    requires CallsInRange(s) && s.pending == |Pending(s)|
    ensures var t := Step(s, a);
            t.pending == |Pending(t)|
  {
    hide InLoop, CallStep, WorkStep, InRange;
    var t := Step(s, a);
    OnlyCall(s, a);
    match a
    case Begin(id, _, adds) =>
      if id !in s.calls {
        Outside(t.calls[id]);
        PendingAfter(s, t, id);
      }
    case Work(_, _, _, _) =>
      KeepsCalls(s, a);
      assert Pending(t) == Pending(s);
    case Act(id, choice) =>
      if id in s.calls {
        PendingAfter(s, t, id);
        if InLoop(s.calls[id]) {
          LoopStep(s, id, choice);
        } else {
          SweepStep(s, id, choice);
        }
      }
  }

  lemma Outside(call: Call)
    ensures call.place.Detaching? ==> !InLoop(call)
    ensures call.place.AtProducer? ==> InLoop(call)
  {
  }

  lemma KeepsCalls(s: State, a: Action)
    requires a.Work?
    ensures Step(s, a).calls == s.calls && Step(s, a).pending == s.pending
  {
  }

  // Every idle producer has a call that owes it a sweep.

  /** A call that owes every producer settles the question. */
  lemma OwesAll(t: State, id: nat)
    requires id in t.calls && (InLoop(t.calls[id]) || t.calls[id].place.Detaching? || t.calls[id].place.Checking?)
    ensures EveryIdleOwed(t)
  {
    hide Idle;
    forall i | 0 <= i < |t.prods| ensures Owed(t, i) {
      assert Owes(t.calls[id], i);
    }
  }

  /** With the counter above zero, a call in the loops owes every producer. */
  lemma PendingOwesAll(t: State)
    requires t.pending == |Pending(t)| && t.pending > 0
    ensures EveryIdleOwed(t)
  {
    var id :| id in Pending(t);
    OwesAll(t, id);
  }

  /** Other calls keep their debts; the one that moved keeps its own, up to producers that are no longer idle. */
  lemma DebtsMove(s: State, t: State, id: nat)
    requires EveryIdleOwed(s) && |t.prods| == |s.prods|
    requires forall k :: k != id && k in s.calls ==> k in t.calls && t.calls[k] == s.calls[k]
    requires forall i :: 0 <= i < |t.prods| && Idle(t, i) ==> Idle(s, i)
    requires forall i :: 0 <= i < |t.prods| && Idle(t, i) && id in s.calls && Owes(s.calls[id], i) ==>
                           id in t.calls && Owes(t.calls[id], i)
    ensures EveryIdleOwed(t)
  {
    hide Idle, Owes;
    forall i | 0 <= i < |t.prods| && Idle(t, i) ensures Owed(t, i) {
      var k :| k in s.calls && Owes(s.calls[k], i);
      assert k in t.calls && Owes(t.calls[k], i);
    }
  }

  lemma SameIdle(s: State, t: State, i: nat)
    requires i < |s.prods| && |t.prods| == |s.prods|
    requires t.prods[i] == s.prods[i] && t.attached == s.attached
    ensures Idle(t, i) <==> Idle(s, i)
  {
  }

  lemma LoopKeepsOwed(s: State, id: nat, choice: Choice)
    requires CallsInRange(s) && id in s.calls && InLoop(s.calls[id])
    requires var t := Step(s, Act(id, choice));
             t.pending == |Pending(t)|
    ensures EveryIdleOwed(Step(s, Act(id, choice)))
  {
    hide EveryIdleOwed, Step;
    var t := Step(s, Act(id, choice));
    LoopStep(s, id, choice);
    if InLoop(t.calls[id]) || t.pending == 0 {
      OwesAll(t, id);
    } else {
      PendingOwesAll(t);
    }
  }

  lemma CheckingKeepsOwed(s: State, id: nat, choice: Choice)
    requires CallsInRange(s) && EveryIdleOwed(s) && id in s.calls && s.calls[id].place.Checking?
    requires var t := Step(s, Act(id, choice));
             t.pending == |Pending(t)|
    ensures EveryIdleOwed(Step(s, Act(id, choice)))
  {
    hide EveryIdleOwed, Idle, Pending;
    var t := Step(s, Act(id, choice));
    if s.pending > 0 {
      PendingOwesAll(t);
    } else {
      forall i | 0 <= i < |t.prods| ensures Idle(t, i) <==> Idle(s, i) {
        SameIdle(s, t, i);
      }
      DebtsMove(s, t, id);
    }
  }

  /** A step of a call that changes neither producers nor senders, and gives up no debt to an idle producer. */
  lemma MoveKeepsOwed(s: State, t: State, id: nat)
    requires EveryIdleOwed(s) && t.prods == s.prods && t.attached == s.attached
    requires forall k :: k != id && k in s.calls ==> k in t.calls && t.calls[k] == s.calls[k]
    requires forall i :: 0 <= i < |s.prods| && Idle(s, i) && id in s.calls && Owes(s.calls[id], i) ==>
                           id in t.calls && Owes(t.calls[id], i)
    ensures EveryIdleOwed(t)
  {
    hide EveryIdleOwed, Idle, Owes;
    forall i | 0 <= i < |t.prods| ensures Idle(t, i) <==> Idle(s, i) {
      SameIdle(s, t, i);
    }
    DebtsMove(s, t, id);
  }

  lemma LookingKeepsOwed(s: State, id: nat, choice: Choice)
    requires CallsInRange(s) && EveryIdleOwed(s) && id in s.calls && s.calls[id].place.Looking?
    ensures EveryIdleOwed(Step(s, Act(id, choice)))
  {
    hide EveryIdleOwed, HasSender;
    MoveKeepsOwed(s, Step(s, Act(id, choice)), id);
  }

  lemma SweptKeepsOwed(s: State, id: nat, choice: Choice)
    requires CallsInRange(s) && EveryIdleOwed(s) && id in s.calls && s.calls[id].place.Swept?
    ensures EveryIdleOwed(Step(s, Act(id, choice)))
  {
    hide EveryIdleOwed, Idle;
    MoveKeepsOwed(s, Step(s, Act(id, choice)), id);
  }

  // What the stop of a connection leaves: on the tracks of other producers, all but its own backchannel senders.

  predicate HasListed(p: Prod, track: Track) {
    track in p.receivers || track in p.senders
  }

  /** Producer i keeps a sender when the connection of producer p is stopped. */
  predicate LeftByStop(s: State, p: nat, i: nat)
    requires p < |s.prods| && i < |s.prods|
  {
    exists x :: x in s.attached && HasListed(s.prods[i], x.track) && (s.prods[p].conn == None || !Held(p, x))
  }

  lemma StopLeaves(s: State, t: State, p: nat, closed: set<Sender>, i: nat)
    requires ProdsHold(s) && i < |s.prods| && p < |s.prods| && i != p
    requires forall x :: x in closed ==> Owns(s.prods[p], p, x)
    requires |t.prods| == |s.prods| && t.prods[i] == s.prods[i]
    requires t.attached == ConnStop(s.prods[p], p, s.attached, closed)
    ensures HasSender(t, i) <==> LeftByStop(s, p, i)
  {
    hide Inv;
    assert OwnTracks(s.prods[i], i);
    if HasSender(t, i) {
      var x :| x in t.attached && (x.track in t.prods[i].receivers || x.track in t.prods[i].senders);
      assert x in s.attached && HasListed(s.prods[i], x.track);
    }
    if LeftByStop(s, p, i) {
      var x :| x in s.attached && HasListed(s.prods[i], x.track) && (s.prods[p].conn == None || !Held(p, x));
      assert x !in closed;
      assert x in t.attached;
    }
  }

  /**
   The stops that take the last sender off another producer which nobody owes a sweep any more: all of its senders are
   the stopped connection's own, on backchannels that both use.
   */
  ghost predicate StopDeafens(s: State, id: nat, call: Call, choice: Choice, i: nat)
    requires i < |s.prods| && InRange(call, |s.prods|)
  {
    && call.place.Stopping? && choice.Closing?
    && var p := call.place.prod;
       && (forall x :: x in choice.closed ==> Owns(s.prods[p], p, x))
       && i < p && Active(s.prods[i]) && HasSender(s, i) && !LeftByStop(s, p, i)
       && forall k :: k in s.calls && k != id ==> !Owes(s.calls[k], i)
  }

  lemma StoppedIsNotActive(s: State, t: State, p: nat)
    requires ProdsHold(s) && p < |s.prods| && |t.prods| == |s.prods| && t.prods[p] == AfterStop(s.prods[p])
    ensures !Active(t.prods[p])
  {
    hide Fenced, Owned;
  }

  lemma StoppingKeepsOwed(s: State, id: nat, choice: Choice)
    requires ProdsHold(s) && CallsInRange(s) && EveryIdleOwed(s) && id in s.calls && s.calls[id].place.Stopping?
    requires forall i :: 0 <= i < |s.prods| ==> !StopDeafens(s, id, s.calls[id], choice, i)
    ensures EveryIdleOwed(Step(s, Act(id, choice)))
  {
    hide HasSender, Inv, AfterStop, ProdsHold, ConnStop, LeftByStop, Active;
    var t := Step(s, Act(id, choice));
    if t != s {
      var p := s.calls[id].place.prod;
      OnlyCall(s, Act(id, choice));
      forall i | 0 <= i < |t.prods| && Idle(t, i) ensures Owed(t, i) {
        StoppedIsNotActive(s, t, p);
        StopLeaves(s, t, p, choice.closed, i);
        if p < i {
          assert Owes(t.calls[id], i);
        } else if HasSender(s, i) {
          assert !StopDeafens(s, id, s.calls[id], choice, i);
          var k :| k in s.calls && k != id && Owes(s.calls[k], i);
          assert k in t.calls && Owes(t.calls[k], i);
        } else {
          assert t.prods[i] == s.prods[i] && Idle(s, i);
          var k :| k in s.calls && Owes(s.calls[k], i);
          assert k in t.calls && Owes(t.calls[k], i);
        }
      }
    }
  }

  /** A stop that deafens leaves a producer idle with nobody to sweep it. */
  lemma StopDeafensIdle(s: State, id: nat, choice: Choice, i: nat)
    requires ProdsHold(s) && CallsInRange(s) && id in s.calls && i < |s.prods|
    requires StopDeafens(s, id, s.calls[id], choice, i)
    ensures !EveryIdleOwed(Step(s, Act(id, choice)))
  {
    hide HasSender, Inv, AfterStop, ProdsHold, ConnStop, LeftByStop, Active;
    var t := Step(s, Act(id, choice));
    OnlyCall(s, Act(id, choice));
    StopLeaves(s, t, s.calls[id].place.prod, choice.closed, i);
    assert Idle(t, i);
    forall k | k in t.calls ensures !Owes(t.calls[k], i) {
      assert k != id ==> t.calls[k] == s.calls[k];
    }
  }

  lemma StartKeepsIdle(s: State, t: State, p: nat, i: nat)
    requires p < |s.prods| && i < |s.prods|
    requires t.prods == s.prods[p := AfterStart(s.prods[p])] && t.attached == s.attached
    requires Idle(t, i)
    ensures Idle(s, i)
  {
  }

  lemma StartingKeepsOwed(s: State, id: nat, choice: Choice)
    requires CallsInRange(s) && EveryIdleOwed(s) && id in s.calls && s.calls[id].place.Starting?
    ensures EveryIdleOwed(Step(s, Act(id, choice)))
  {
    hide EveryIdleOwed, Idle, AfterStart;
    var t := Step(s, Act(id, choice));
    var call := s.calls[id];
    if call.place.next >= |call.starts| {
      MoveKeepsOwed(s, t, id);
    } else {
      var p := call.starts[call.place.next];
      forall i | 0 <= i < |t.prods| && Idle(t, i) ensures Idle(s, i) {
        StartKeepsIdle(s, t, p, i);
      }
      DebtsMove(s, t, id);
    }
  }

  lemma SweepKeepsOwed(s: State, id: nat, choice: Choice)
    requires ProdsHold(s) && CallsInRange(s) && EveryIdleOwed(s) && id in s.calls && !InLoop(s.calls[id])
    requires forall i :: 0 <= i < |s.prods| ==> !StopDeafens(s, id, s.calls[id], choice, i)
    requires var t := Step(s, Act(id, choice));
             t.pending == |Pending(t)|
    ensures EveryIdleOwed(Step(s, Act(id, choice)))
  {
    hide EveryIdleOwed, Pending, ProdsHold, StopDeafens;
    match s.calls[id].place
    case Detaching =>
      DetachingStays(s, id, choice);
      OwesAll(Step(s, Act(id, choice)), id);
    case Checking => CheckingKeepsOwed(s, id, choice);
    case Looking(_) => LookingKeepsOwed(s, id, choice);
    case Stopping(_) => StoppingKeepsOwed(s, id, choice);
    case Swept => SweptKeepsOwed(s, id, choice);
    case Starting(_) => StartingKeepsOwed(s, id, choice);
  }

  lemma DetachingStays(s: State, id: nat, choice: Choice)
    requires CallsInRange(s) && id in s.calls && s.calls[id].place.Detaching?
    ensures var t := Step(s, Act(id, choice));
            id in t.calls && (t.calls[id].place.Detaching? || t.calls[id].place.Checking?)
  {
  }

  lemma {:induction false} MovedListed(before: seq<Track>, after: seq<Track>, track: Track)
    requires |before| == |after|
    ensures track in before ==> Moved(before, after, track) in after
    ensures track !in before ==> Moved(before, after, track) == track
  {
    if before != [] {
      MovedListed(before[1..], after[1..], track);
    }
  }

  lemma {:induction false} MovedSame(before: seq<Track>, after: seq<Track>, track: Track, k: nat)
    requires |before| == |after| && k < |before| && before[k] == track
    ensures Moved(before, after, track) == track ==> after[k] == track
  {
    if k > 0 {
      MovedSame(before[1..], after[1..], track, k - 1);
    }
  }

  // What a swap of connections leaves.

  /** The sender survives the swap of producer p's connection to one with these receivers. */
  predicate Survives(s: State, p: nat, receivers: seq<Track>, closed: set<Sender>, x: Sender)
    requires p < |s.prods| && |receivers| == |s.prods[p].receivers|
  {
    if x.track.Track? then x !in closed || Moved(s.prods[p].receivers, receivers, x.track) != x.track
    else s.prods[p].conn == None || !Held(p, x)
  }

  /**
   Producer i keeps a sender: one on a replaced track, on one that the old connection does not own or did not close,
   or on a backchannel of another connection; or the new connection joins one of its backchannels.
   */
  predicate LeftBySwap(s: State, p: nat, receivers: seq<Track>, closed: set<Sender>, joined: set<Track>, i: nat)
    requires p < |s.prods| && |receivers| == |s.prods[p].receivers| && i < |s.prods|
  {
    || (exists x :: x in s.attached && HasListed(s.prods[i], x.track) && Survives(s, p, receivers, closed, x))
    || (exists track :: track in joined && track in s.prods[i].senders)
  }

  lemma SwapKeepsLists(p: Prod, e: Event)
    requires Swaps(p, e)
    ensures Apply(p, e).receivers == e.redial.receivers && Apply(p, e).senders == p.senders
    ensures Apply(p, e).state == p.state
  {
  }

  /** Whoever has a sender afterwards had one that survived, or was joined. */
  lemma SwapLeavesNoMore(s: State, p: nat, e: Event, closed: set<Sender>, joined: set<Track>, i: nat)
    requires ProdsHold(s) && p < |s.prods| && i < |s.prods| && Swaps(s.prods[p], e)
    requires WorkPossible(s.prods[p], p, s.attached, e, closed, joined)
    requires HasSender(WorkStep(s, p, e, closed, joined), i)
    ensures LeftBySwap(s, p, e.redial.receivers, closed, joined, i)
  {
    hide Inv, Apply;
    SwapKeepsLists(s.prods[p], e);
    var t := WorkStep(s, p, e, closed, joined);
    var before, after := s.prods[p].receivers, e.redial.receivers;
    assert OwnTracks(s.prods[i], i) && OwnTracks(s.prods[p], p);
    var y :| y in t.attached && (y.track in t.prods[i].receivers || y.track in t.prods[i].senders);
    if y in Joins(p, joined) {
      assert y.track in joined;
    } else {
      assert y in ConnStop(s.prods[p], p, MoveAll(s.attached, before, after), closed);
      var x :| x in s.attached && y == Sender(Moved(before, after, x.track), x.holder);
      MovedListed(before, after, x.track);
      if y.track == x.track {
        ListedBefore(s.prods[p], p, s.attached, e.redial, x);
        assert HasListed(s.prods[i], x.track) && Survives(s, p, after, closed, x);
      } else {
        NewIsOwn(s.prods[p], p, s.attached, e.redial, y.track, x.track);
        assert HasListed(s.prods[i], x.track) && Survives(s, p, after, closed, x);
      }
    }
  }

  /** New tracks have no senders yet. */
  lemma ListedBefore(p: Prod, i: nat, attached: set<Sender>, redial: Redial, x: Sender)
    requires redial.DialOk? && Replaces(p, i, attached, redial) && x in attached
    ensures x.track in redial.receivers ==> x.track in p.receivers
  {
  }

  /** A track that a sender was moved to is a new one of the producer. */
  lemma NewIsOwn(p: Prod, i: nat, attached: set<Sender>, redial: Redial, after: Track, track: Track)
    requires redial.DialOk? && Replaces(p, i, attached, redial)
    requires after == Moved(p.receivers, redial.receivers, track) != track
    ensures IsNew(p, i, attached, after) && track in p.receivers
  {
    hide IsNew;
    var k := MovedAt(p.receivers, redial.receivers, track);
  }

  lemma {:induction false} MovedAt(before: seq<Track>, after: seq<Track>, track: Track) returns (k: nat)
    requires |before| == |after| && Moved(before, after, track) != track
    ensures k < |before| && before[k] == track && after[k] == Moved(before, after, track) != before[k]
  {
    if before[0] == track && after[0] != track {
      k := 0;
    } else {
      k := MovedAt(before[1..], after[1..], track);
      k := k + 1;
    }
  }

  lemma SwapLeavesOne(s: State, p: nat, e: Event, closed: set<Sender>, joined: set<Track>, x: Sender, i: nat)
    requires ProdsHold(s) && p < |s.prods| && i < |s.prods| && Swaps(s.prods[p], e)
    requires WorkPossible(s.prods[p], p, s.attached, e, closed, joined)
    requires x in s.attached && HasListed(s.prods[i], x.track) && Survives(s, p, e.redial.receivers, closed, x)
    ensures HasSender(WorkStep(s, p, e, closed, joined), i)
  {
    hide Apply, Fenced, Live;
    SwapKeepsLists(s.prods[p], e);
    var t := WorkStep(s, p, e, closed, joined);
    var before, after := s.prods[p].receivers, e.redial.receivers;
    assert OwnTracks(s.prods[i], i) && OwnTracks(s.prods[p], p);
    var y := Sender(Moved(before, after, x.track), x.holder);
    assert y in MoveAll(s.attached, before, after);
    MovedListed(before, after, x.track);
    if y.track != x.track {
      NewIsOwn(s.prods[p], p, s.attached, e.redial, y.track, x.track);
      if s.prods[p].conn.Some? {
        ConnIsOlder(s.prods[p]);
      }
      assert y !in closed;
    } else if x.track in before {
      var k :| 0 <= k < |before| && before[k] == x.track;
      MovedSame(before, after, x.track, k);
    }
    assert y in t.attached;
  }

  lemma SwapLeaves(s: State, p: nat, e: Event, closed: set<Sender>, joined: set<Track>, i: nat)
    requires ProdsHold(s) && p < |s.prods| && i < |s.prods| && Swaps(s.prods[p], e)
    requires WorkPossible(s.prods[p], p, s.attached, e, closed, joined)
    ensures HasSender(WorkStep(s, p, e, closed, joined), i) <==>
            LeftBySwap(s, p, e.redial.receivers, closed, joined, i)
  {
    hide Apply, Survives, HasListed, ProdsHold, ConnStop;
    var t := WorkStep(s, p, e, closed, joined);
    if HasSender(t, i) {
      SwapLeavesNoMore(s, p, e, closed, joined, i);
    } else if exists x :: x in s.attached && HasListed(s.prods[i], x.track) && Survives(s, p, e.redial.receivers, closed, x) {
      var x :| x in s.attached && HasListed(s.prods[i], x.track) && Survives(s, p, e.redial.receivers, closed, x);
      SwapLeavesOne(s, p, e, closed, joined, x, i);
    } else if exists track :: track in joined && track in s.prods[i].senders {
      var track :| track in joined && track in s.prods[i].senders;
      SwapKeepsLists(s.prods[p], e);
      assert Sender(track, p) in Joins(p, joined);
      assert Sender(track, p) in t.attached && track in t.prods[i].senders;
    }
  }

  /** The swaps that take the last sender off a producer which nobody owes a sweep. */
  ghost predicate SwapDeafens(s: State, p: nat, e: Event, closed: set<Sender>, joined: set<Track>, i: nat)
    requires p < |s.prods| && i < |s.prods|
  {
    && WorkPossible(s.prods[p], p, s.attached, e, closed, joined) && Swaps(s.prods[p], e)
    && Active(s.prods[i]) && HasSender(s, i) && !LeftBySwap(s, p, e.redial.receivers, closed, joined, i)
    && !Owed(s, i)
  }

  lemma WorkStays(s: State, p: nat, e: Event, closed: set<Sender>, joined: set<Track>, i: nat)
    requires p < |s.prods| && i < |s.prods| && WorkPossible(s.prods[p], p, s.attached, e, closed, joined)
    ensures var t := WorkStep(s, p, e, closed, joined);
            && t.calls == s.calls && |t.prods| == |s.prods| && (Active(t.prods[i]) <==> Active(s.prods[i]))
            && (!Swaps(s.prods[p], e) ==> (HasSender(t, i) <==> HasSender(s, i)))
  {
    hide MoveAll, ConnStop, Joins;
  }

  lemma WorkKeepsOwed(s: State, p: nat, e: Event, closed: set<Sender>, joined: set<Track>)
    requires ProdsHold(s) && EveryIdleOwed(s) && p < |s.prods|
    requires WorkPossible(s.prods[p], p, s.attached, e, closed, joined)
    requires forall i :: 0 <= i < |s.prods| ==> !SwapDeafens(s, p, e, closed, joined, i)
    ensures EveryIdleOwed(WorkStep(s, p, e, closed, joined))
  {
    hide HasSender, WorkStep, WorkPossible, Owes, ProdsHold, Active, LeftBySwap;
    var t := WorkStep(s, p, e, closed, joined);
    WorkStays(s, p, e, closed, joined, p);
    forall i | 0 <= i < |t.prods| && Idle(t, i) ensures Owed(t, i) {
      WorkStays(s, p, e, closed, joined, i);
      assert !SwapDeafens(s, p, e, closed, joined, i);
      if Swaps(s.prods[p], e) {
        SwapLeaves(s, p, e, closed, joined, i);
      }
      assert Owed(s, i);
      var id :| id in s.calls && Owes(s.calls[id], i);
      assert id in t.calls && Owes(t.calls[id], i);
    }
  }

  lemma SwapDeafensIdle(s: State, p: nat, e: Event, closed: set<Sender>, joined: set<Track>, i: nat)
    requires ProdsHold(s) && p < |s.prods| && i < |s.prods| && SwapDeafens(s, p, e, closed, joined, i)
    ensures !EveryIdleOwed(WorkStep(s, p, e, closed, joined))
  {
    hide HasSender, WorkStep, WorkPossible, Owes, ProdsHold, Active, LeftBySwap;
    var t := WorkStep(s, p, e, closed, joined);
    WorkStays(s, p, e, closed, joined, i);
    SwapLeaves(s, p, e, closed, joined, i);
    assert Idle(t, i);
    assert Owed(t, i) <==> Owed(s, i);
  }

  lemma BeginKeepsOwed(s: State, id: nat, cons: Cons, adds: bool)
    requires EveryIdleOwed(s)
    ensures EveryIdleOwed(Step(s, Begin(id, cons, adds)))
  {
    hide EveryIdleOwed;
    if id !in s.calls {
      OwesAll(Step(s, Begin(id, cons, adds)), id);
    }
  }

  // A connection's backchannel senders are on tracks that its producer lists.

  lemma MatchingKeepsBacks(s: State, id: nat, choice: Choice)
    requires BacksListed(s) && CallsInRange(s) && id in s.calls && InLoop(s.calls[id])
    ensures BacksListed(Step(s, Act(id, choice)))
  {
    hide HasBackStep;
    if s.calls[id].place.HasBack? {
      BackKeepsBacks(s, id, choice);
    }
  }

  lemma BackKeepsBacks(s: State, id: nat, choice: Choice)
    requires BacksListed(s) && CallsInRange(s) && id in s.calls && s.calls[id].place.HasBack?
    ensures BacksListed(Step(s, Act(id, choice)))
  {
    var HasBack(_, p, _, track) := s.calls[id].place;
    if choice.Attach? {
      assert forall t :: t in s.prods[p].senders ==> t in AfterAddTrack(s.prods[p], track, choice.ok).0.senders;
    }
  }

  lemma SweepingKeepsBacks(s: State, id: nat, choice: Choice)
    requires BacksListed(s) && ProdsHold(s) && CallsInRange(s) && id in s.calls && !InLoop(s.calls[id])
    ensures BacksListed(Step(s, Act(id, choice)))
  {
    hide HasSender, Inv, AfterStop, AfterStart;
    var call := s.calls[id];
    var t := Step(s, Act(id, choice));
    if call.place.Stopping? {
      StoppingKeepsBacks(s, id, choice);
    } else if call.place.Starting? {
      if call.place.next < |call.starts| {
        StartKeepsLists(s.prods[call.starts[call.place.next]]);
      }
    }
  }

  lemma StartKeepsLists(p: Prod)
    ensures AfterStart(p).receivers == p.receivers && AfterStart(p).senders == p.senders
  {
  }

  lemma StopEmptiesLists(p: Prod)
    requires Inv(p)
    ensures p.conn == None ==> AfterStop(p) == p
  {
    hide Fenced;
  }

  lemma StoppingKeepsBacks(s: State, id: nat, choice: Choice)
    requires BacksListed(s) && ProdsHold(s) && CallsInRange(s) && id in s.calls && s.calls[id].place.Stopping?
    ensures BacksListed(Step(s, Act(id, choice)))
  {
    hide HasSender, Inv, AfterStop;
    StopEmptiesLists(s.prods[s.calls[id].place.prod]);
  }

  lemma WorkKeepsBacks(s: State, p: nat, e: Event, closed: set<Sender>, joined: set<Track>)
    requires BacksListed(s) && ProdsHold(s) && p < |s.prods|
    requires WorkPossible(s.prods[p], p, s.attached, e, closed, joined)
    ensures BacksListed(WorkStep(s, p, e, closed, joined))
  {
    hide Inv, Apply;
    var t := WorkStep(s, p, e, closed, joined);
    if Swaps(s.prods[p], e) {
      SwapKeepsLists(s.prods[p], e);
      var before, after := s.prods[p].receivers, e.redial.receivers;
      forall y | y in t.attached && y.track.Back? ensures y.holder < |t.prods| && y.track in t.prods[y.holder].senders {
        if y in Joins(p, joined) {
          assert y.track in joined;
        } else {
          var x :| x in s.attached && y == Sender(Moved(before, after, x.track), x.holder);
          if y.track != x.track {
            NewIsOwn(s.prods[p], p, s.attached, e.redial, y.track, x.track);
          }
        }
      }
    } else {
      OtherWorkKeepsLists(s.prods[p], e);
    }
  }

  lemma OtherWorkKeepsLists(p: Prod, e: Event)
    requires (e.Exit? || e.Timer? || e.Reconnect?) && !Swaps(p, e)
    ensures Apply(p, e).receivers == p.receivers && Apply(p, e).senders == p.senders
  {
  }

  lemma StepKeepsBacks(s: State, a: Action)
    requires BacksListed(s) && ProdsHold(s) && CallsInRange(s)
    ensures BacksListed(Step(s, a))
  {
    hide BacksListed, ProdsHold, WorkStep, WorkPossible, CallStep, InLoop;
    match a
    case Begin(_, _, _) => SameBacks(s, Step(s, a));
    case Work(i, e, closed, joined) =>
      if i < |s.prods| && WorkPossible(s.prods[i], i, s.attached, e, closed, joined) {
        WorkKeepsBacks(s, i, e, closed, joined);
      }
    case Act(id, choice) =>
      if id in s.calls {
        if InLoop(s.calls[id]) {
          MatchingKeepsBacks(s, id, choice);
        } else {
          SweepingKeepsBacks(s, id, choice);
        }
      }
  }

  lemma SameBacks(s: State, t: State)
    requires BacksListed(s) && t.prods == s.prods && t.attached == s.attached
    ensures BacksListed(t)
  {
  }

  /** Every step keeps the state tidy. */
  lemma StepKeepsTidy(s: State, a: Action)
    requires Tidy(s)
    ensures Tidy(Step(s, a))
  {
    hide ProdsHold, CallsInRange, Pending, BacksListed, Step;
    StepKeepsProds(s, a);
    StepKeepsRange(s, a);
    StepKeepsCount(s, a);
    StepKeepsBacks(s, a);
  }

  /** The action takes the last sender off a producer that nobody owes a sweep. */
  ghost predicate Deafens(s: State, a: Action, i: nat) {
    && i < |s.prods|
    && match a
       case Begin(_, _, _) => false
       case Work(p, e, closed, joined) => p < |s.prods| && SwapDeafens(s, p, e, closed, joined, i)
       case Act(id, choice) =>
         id in s.calls && InRange(s.calls[id], |s.prods|) && StopDeafens(s, id, s.calls[id], choice, i)
  }

  ghost predicate DeafensNone(s: State, a: Action) {
    forall i :: 0 <= i < |s.prods| ==> !Deafens(s, a, i)
  }

  /** The steps after which every idle producer is still owed a sweep are exactly those that deafen none. */
  lemma StepKeepsOwed(s: State, a: Action)
    requires Holds(s)
    ensures EveryIdleOwed(Step(s, a)) <==> DeafensNone(s, a)
  {
    if DeafensNone(s, a) {
      NoneDeafKeepsOwed(s, a);
    } else {
      hide Step, StopDeafens, SwapDeafens;
      var i :| 0 <= i < |s.prods| && Deafens(s, a, i);
      DeafensIdle(s, a, i);
    }
  }

  lemma DeafensIdle(s: State, a: Action, i: nat)
    requires Tidy(s) && Deafens(s, a, i)
    ensures !EveryIdleOwed(Step(s, a))
  {
    hide EveryIdleOwed, StopDeafens, WorkStep, CallStep, ProdsHold;
    match a
    case Begin(_, _, _) =>
    case Work(p, e, closed, joined) => SwapDeafensIdle(s, p, e, closed, joined, i);
    case Act(id, choice) => StopDeafensIdle(s, id, choice, i);
  }

  lemma NoneDeafKeepsOwed(s: State, a: Action)
    requires Holds(s) && DeafensNone(s, a)
    ensures EveryIdleOwed(Step(s, a))
  {
    hide ProdsHold, EveryIdleOwed, Pending, WorkStep, WorkPossible, CallStep, InLoop, StopDeafens, SwapDeafens, BacksListed;
    StepKeepsTidy(s, a);
    match a
    case Begin(id, cons, adds) => BeginKeepsOwed(s, id, cons, adds);
    case Work(p, e, closed, joined) =>
      if p < |s.prods| && WorkPossible(s.prods[p], p, s.attached, e, closed, joined) {
        forall i | 0 <= i < |s.prods| ensures !SwapDeafens(s, p, e, closed, joined, i) {
          assert !Deafens(s, a, i);
        }
        WorkKeepsOwed(s, p, e, closed, joined);
      }
    case Act(id, choice) =>
      if id in s.calls {
        if InLoop(s.calls[id]) {
          LoopKeepsOwed(s, id, choice);
        } else {
          forall i | 0 <= i < |s.prods| ensures !StopDeafens(s, id, s.calls[id], choice, i) {
            assert !Deafens(s, a, i);
          }
          SweepKeepsOwed(s, id, choice);
        }
      }
  }

  // Whole runs.

  lemma {:induction false} StepsKeepTidy(s: State, actions: seq<Action>)
    requires Tidy(s)
    ensures Tidy(Steps(s, actions))
    decreases |actions|
  {
    hide Tidy, Step;
    if actions != [] {
      StepKeepsTidy(s, actions[0]);
      StepsKeepTidy(Step(s, actions[0]), actions[1..]);
    }
  }

  /** Every state that the run visits. */
  ghost predicate AlwaysOwed(s: State, actions: seq<Action>)
    decreases |actions|
  {
    EveryIdleOwed(s) && (actions != [] ==> AlwaysOwed(Step(s, actions[0]), actions[1..]))
  }

  ghost predicate NeverDeafens(s: State, actions: seq<Action>)
    decreases |actions|
  {
    actions != [] ==> DeafensNone(s, actions[0]) && NeverDeafens(Step(s, actions[0]), actions[1..])
  }

  lemma {:induction false} AlwaysOwedExactly(s: State, actions: seq<Action>)
    requires Holds(s)
    ensures AlwaysOwed(s, actions) <==> NeverDeafens(s, actions)
    ensures NeverDeafens(s, actions) ==> Holds(Steps(s, actions))
    decreases |actions|
  {
    hide Tidy, EveryIdleOwed, Step, DeafensNone;
    if actions != [] {
      StepKeepsTidy(s, actions[0]);
      StepKeepsOwed(s, actions[0]);
      var next := Step(s, actions[0]);
      if DeafensNone(s, actions[0]) {
        AlwaysOwedExactly(next, actions[1..]);
      } else {
        NotOwedNow(next, actions[1..]);
      }
    }
  }

  lemma NotOwedNow(s: State, actions: seq<Action>)
    ensures AlwaysOwed(s, actions) ==> EveryIdleOwed(s)
  {
  }

  /** In every state of every run the counter is the number of AddConsumer calls in their matching loops. */
  lemma PendingCounts(n: nat, actions: seq<Action>)
    ensures var s := Steps(NewStream(n), actions);
            s.pending == |Pending(s)| && ProdsHold(s)
  {
    hide Steps, Pending, ProdsHold;
    NewHolds(n);
    StepsKeepTidy(NewStream(n), actions);
  }

  /** Nobody listens to a producer that runs. */
  ghost predicate SomeIdle(s: State) {
    exists i :: 0 <= i < |s.prods| && Idle(s, i)
  }

  lemma QuietMeansNoneIdle(s: State)
    requires s.calls == map[]
    ensures EveryIdleOwed(s) <==> !SomeIdle(s)
  {
    hide Idle;
    forall i | 0 <= i < |s.prods| && EveryIdleOwed(s) ensures !Idle(s, i) {
      assert Idle(s, i) ==> Owed(s, i);
    }
  }

  /**
   No idle producer.  In a run of overlapping calls, workers and timers every idle producer is always owed a sweep, if
   and only if no action of the run deafens a producer: no swap of connections (and no stop, of a producer that shares
   backchannels) takes the last sender off a producer that nobody owes a sweep.  And then, once no call is in flight,
   every producer in state Medias, Tracks or Start has a listed track with a sender.
   */
  lemma NoIdleProducer(n: nat, actions: seq<Action>)
    ensures AlwaysOwed(NewStream(n), actions) <==> NeverDeafens(NewStream(n), actions)
    ensures NeverDeafens(NewStream(n), actions) ==>
              var s := Steps(NewStream(n), actions);
              s.calls == map[] ==> !SomeIdle(s)
  {
    hide Steps, SomeIdle, Tidy, AlwaysOwed, NeverDeafens;
    NewHolds(n);
    AlwaysOwedExactly(NewStream(n), actions);
    var s := Steps(NewStream(n), actions);
    if s.calls == map[] {
      QuietMeansNoneIdle(s);
    }
  }

  /**
   A call heals a stream, however many producers ran with nobody listening when it began: they are owed its sweep, and
   none of them is left once no call is in flight, if no action in between deafens one.
   */
  lemma CallHeals(s: State, id: nat, cons: Cons, adds: bool, actions: seq<Action>)
    requires Tidy(s) && id !in s.calls
    ensures var next := Step(s, Begin(id, cons, adds));
            && Holds(next)
            && (AlwaysOwed(next, actions) <==> NeverDeafens(next, actions))
            && (NeverDeafens(next, actions) && Steps(next, actions).calls == map[] ==> !SomeIdle(Steps(next, actions)))
  {
    hide Steps, SomeIdle, Tidy, AlwaysOwed, NeverDeafens, EveryIdleOwed;
    var next := Step(s, Begin(id, cons, adds));
    StepKeepsTidy(s, Begin(id, cons, adds));
    OwesAll(next, id);
    AlwaysOwedExactly(next, actions);
    if Steps(next, actions).calls == map[] {
      QuietMeansNoneIdle(Steps(next, actions));
    }
  }

  /** A stream at rest with no idle producer: one action of a worker or timer leaves none if and only if it deafens none. */
  lemma QuietStepExactly(s: State, a: Action)
    requires Tidy(s) && s.calls == map[] && !SomeIdle(s) && a.Work?
    ensures SomeIdle(Step(s, a)) <==> exists i :: 0 <= i < |s.prods| && Deafens(s, a, i)
  {
    hide SomeIdle, Tidy, EveryIdleOwed, Deafens;
    QuietMeansNoneIdle(s);
    StepKeepsOwed(s, a);
    KeepsCalls(s, a);
    QuietMeansNoneIdle(Step(s, a));
  }

  /**
   So a quiet stream spends nothing on a producer nobody listens to: each connection it ever opened is stopped, and
   no worker or timer carries its current id.
   */
  lemma NobodyListensNothingRuns(n: nat, actions: seq<Action>, i: nat)
    requires NeverDeafens(NewStream(n), actions)
    requires var s := Steps(NewStream(n), actions);
             s.calls == map[] && i < |s.prods| && !HasSender(s, i)
    ensures var p := Steps(NewStream(n), actions).prods[i];
            p.state == StateNone && Live(p) == {} && Current(p) == {}
  {
    hide Steps, HasSender, NeverDeafens;
    NoIdleProducer(n, actions);
    NewHolds(n);
    StepsKeepTidy(NewStream(n), actions);
    var s := Steps(NewStream(n), actions);
    assert Inv(s.prods[i]);
    assert !Idle(s, i);
  }
}
