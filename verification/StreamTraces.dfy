/**
 What a call gets done, over whole runs of the stream in which other calls, workers and timers interfere: AddConsumer
 offers every media to every producer, and starts every producer that it matched.
 */
module StreamTraces {
  import opened Wrappers
  import opened Producer
  import opened Streams

  /** The states of a run, one more than its actions. */
  ghost predicate IsTrace(trace: seq<State>, actions: seq<Action>) {
    && |trace| == |actions| + 1 && Tidy(trace[0])
    && forall m :: 0 <= m < |actions| ==> trace[m + 1] == Step(trace[m], actions[m])
  }

  lemma {:induction false} TraceIsTidy(trace: seq<State>, actions: seq<Action>, m: nat)
    requires IsTrace(trace, actions) && m < |trace|
    ensures Tidy(trace[m]) && |trace[m].prods| == |trace[0].prods|
  {
    hide Tidy, Step;
    if m > 0 {
      TraceIsTidy(trace, actions, m - 1);
      StepKeepsTidy(trace[m - 1], actions[m - 1]);
      OnlyCall(trace[m - 1], actions[m - 1]);
    }
  }

  /** The call is in flight from state i on and before state j. */
  ghost predicate InFlight(trace: seq<State>, id: nat, i: nat, j: nat) {
    i <= j <= |trace| && forall m :: i <= m < j ==> id in trace[m].calls
  }

  /** An action of another call, worker or timer leaves the call where it is; its own takes it one step on. */
  lemma OneStep(trace: seq<State>, actions: seq<Action>, id: nat, m: nat)
    requires IsTrace(trace, actions) && m < |actions| && id in trace[m].calls
    ensures InRange(trace[m].calls[id], |trace[m].prods|)
    ensures if actions[m].Act? && actions[m].id == id
            then trace[m + 1] == CallStep(trace[m], id, trace[m].calls[id], actions[m].choice)
            else id in trace[m + 1].calls && trace[m + 1].calls[id] == trace[m].calls[id]
  {
    hide CallStep, WorkStep, ProdsHold, BacksListed, Pending, InRange;
    TraceIsTidy(trace, actions, m);
    if actions[m].Act? && actions[m].id == id {
    } else if actions[m].Begin? && actions[m].id == id {
    } else {
      OnlyCall(trace[m], actions[m]);
    }
  }

  // Every producer that was matched is started.

  /** The call starts producer p: it leaves state Tracks, for Start. */
  ghost predicate StartedAt(trace: seq<State>, actions: seq<Action>, id: nat, m: nat, p: nat) {
    && m + 1 < |trace| && m < |actions| && actions[m].Act? && actions[m].id == id
    && id in trace[m].calls && trace[m].calls[id].place.Starting?
    && p < |trace[m].prods| == |trace[m + 1].prods|
    && trace[m + 1].prods[p].state != StateTracks
    && (trace[m].prods[p].state == StateTracks ==> trace[m + 1].prods[p].state == StateStart)
  }

  ghost predicate StartedIn(trace: seq<State>, actions: seq<Action>, id: nat, i: nat, j: nat, p: nat) {
    exists m: nat :: i <= m < j && StartedAt(trace, actions, id, m, p)
  }

  /** Producers that the call has yet to start. */
  function Ahead(call: Call): (ps: seq<nat>)
  {
    if call.place.Starting? then
      if call.place.next <= |call.starts| then call.starts[call.place.next..] else []
    else call.starts
  }

  /** An AddConsumer that matched producer p still has it ahead, or has started it since state i. */
  ghost predicate WillStart(trace: seq<State>, actions: seq<Action>, id: nat, i: nat, j: nat, p: nat) {
    && j < |trace| && id in trace[j].calls
    && trace[j].calls[id].adds && trace[j].calls[id].starts != []
    && (p in Ahead(trace[j].calls[id]) || StartedIn(trace, actions, id, i, j, p))
  }

  lemma WidenStart(trace: seq<State>, actions: seq<Action>, id: nat, i: nat, j: nat, p: nat)
    requires StartedIn(trace, actions, id, i, j, p)
    ensures StartedIn(trace, actions, id, i, j + 1, p)
  {
    var m: nat :| i <= m < j && StartedAt(trace, actions, id, m, p);
  }

  /** A call that matched something ends only when it has been through its whole list. */
  lemma GoesOn(s: State, id: nat, call: Call, choice: Choice)
    requires InRange(call, |s.prods|) && call.adds && call.starts != [] && id in s.calls && s.calls[id] == call
    ensures var t := CallStep(s, id, call, choice);
            if call.place.Starting? && call.place.next >= |call.starts| then id !in t.calls
            else
              && id in t.calls && t.calls[id].adds && call.starts <= t.calls[id].starts
              && if call.place.Starting? then
                   && t.calls[id] == call.(place := Starting(call.place.next + 1))
                   && t.prods == s.prods[call.starts[call.place.next] := AfterStart(s.prods[call.starts[call.place.next]])]
                 else t.calls[id].place.Starting? ==> t.calls[id].place == Starting(0) && t.calls[id].starts == call.starts
  {
    hide HasSender, ConnStop, AfterDial, AfterGetTrack, AfterAddTrack, AfterStop, AfterStart, Possible;
    if InLoop(call) {
      hide LookingStep, StoppingStep, SweptStep, StartingStep;
    } else {
      hide AtProducerStep, AtMediaStep, HasTrackStep, HasBackStep;
    }
  }

  /** One action later the producer is still ahead, or started. */
  lemma StillWillStart(trace: seq<State>, actions: seq<Action>, id: nat, i: nat, j: nat, p: nat)
    requires IsTrace(trace, actions) && i <= j < |actions| && WillStart(trace, actions, id, i, j, p)
    ensures if id in trace[j + 1].calls then WillStart(trace, actions, id, i, j + 1, p)
            else StartedIn(trace, actions, id, i, j + 1, p)
  {
    hide CallStep, StartedIn, Tidy, Step, AfterStart, InRange;
    var call := trace[j].calls[id];
    OneStep(trace, actions, id, j);
    if StartedIn(trace, actions, id, i, j, p) {
      WidenStart(trace, actions, id, i, j, p);
    }
    if actions[j].Act? && actions[j].id == id {
      GoesOn(trace[j], id, call, actions[j].choice);
      if call.place.Starting? && call.place.next < |call.starts| && p == call.starts[call.place.next] {
        StartsInRange(call, |trace[j].prods|);
        StartsOne(trace, actions, id, i, j, p);
      }
    }
  }

  lemma StartsInRange(call: Call, n: nat)
    requires InRange(call, n)
    ensures forall k :: 0 <= k < |call.starts| ==> call.starts[k] < n
  {
  }

  lemma StartsOne(trace: seq<State>, actions: seq<Action>, id: nat, i: nat, j: nat, p: nat)
    requires i <= j < |actions| && |trace| == |actions| + 1 && actions[j].Act? && actions[j].id == id
    requires id in trace[j].calls && trace[j].calls[id].place.Starting? && p < |trace[j].prods|
    requires trace[j + 1].prods == trace[j].prods[p := AfterStart(trace[j].prods[p])]
    ensures StartedIn(trace, actions, id, i, j + 1, p)
  {
    assert StartedAt(trace, actions, id, j, p);
  }

  lemma {:induction false} WillBeStarted(trace: seq<State>, actions: seq<Action>, id: nat, i: nat, m: nat, j: nat, p: nat)
    requires IsTrace(trace, actions) && i <= m < j < |trace| && WillStart(trace, actions, id, i, m, p)
    requires InFlight(trace, id, m, j) && id !in trace[j].calls
    ensures StartedIn(trace, actions, id, i, j, p)
    decreases j - m
  {
    assert |trace| == |actions| + 1;
    hide IsTrace, WillStart, StartedIn;
    StillWillStart(trace, actions, id, i, m, p);
    if m + 1 < j {
      WillBeStarted(trace, actions, id, i, m + 1, j, p);
    }
  }

  /** Whatever a call of AddConsumer has matched, it starts before it ends. */
  lemma EveryMatchedIsStarted(trace: seq<State>, actions: seq<Action>, id: nat, m: nat, j: nat, p: nat)
    requires IsTrace(trace, actions) && m < j < |trace| && InFlight(trace, id, m, j) && id !in trace[j].calls
    requires trace[m].calls[id].adds && !trace[m].calls[id].place.Starting? && p in trace[m].calls[id].starts
    ensures StartedIn(trace, actions, id, m, j, p)
  {
    hide IsTrace, StartedIn;
    WillBeStarted(trace, actions, id, m, m, j, p);
  }

  /** The producer that a sender takes packets from, or brings a backchannel to. */
  function Feeds(x: Sender): (p: nat)
  {
    if x.track.Track? then x.track.owner else x.holder
  }

  /** A call attaches a sender only as it matches that sender's producer. */
  lemma AttachingMatches(s: State, id: nat, call: Call, choice: Choice, x: Sender)
    requires InRange(call, |s.prods|) && call.adds && id in s.calls && s.calls[id] == call
    requires x !in s.attached && x in CallStep(s, id, call, choice).attached
    ensures var t := CallStep(s, id, call, choice);
            && id in t.calls && t.calls[id].adds && !t.calls[id].place.Starting?
            && t.calls[id].starts == call.starts + [Feeds(x)]
  {
    hide HasSender, AfterDial, AfterGetTrack, AfterAddTrack, AfterStop, AfterStart, Possible, Apply;
    if InLoop(call) {
      hide LookingStep, StoppingStep, SweptStep, StartingStep;
    } else {
      hide AtProducerStep, AtMediaStep, HasTrackStep, HasBackStep;
    }
  }

  /** So every producer that a call attached a sender to, in either direction, is started before the call ends. */
  lemma EveryAttachedIsStarted(trace: seq<State>, actions: seq<Action>, id: nat, m: nat, j: nat, x: Sender)
    requires IsTrace(trace, actions) && m + 1 < j < |trace| && InFlight(trace, id, m, j) && id !in trace[j].calls
    requires trace[m].calls[id].adds && actions[m].Act? && actions[m].id == id
    requires x !in trace[m].attached && x in trace[m + 1].attached
    ensures StartedIn(trace, actions, id, m + 1, j, Feeds(x))
  {
    hide CallStep, StartedIn, InRange;
    OneStep(trace, actions, id, m);
    AttachingMatches(trace[m], id, trace[m].calls[id], actions[m].choice, x);
    hide IsTrace;
    EveryMatchedIsStarted(trace, actions, id, m + 1, j, Feeds(x));
  }

  // Every media is offered to every producer, up to the first one that matches.

  /** The call meets producer p for a media: it skips it as its own or failed, fails to dial it, or is connected to it. */
  ghost predicate MeetsAt(trace: seq<State>, id: nat, v: nat, media: nat, p: nat) {
    && v + 1 < |trace| && id in trace[v].calls && id in trace[v + 1].calls
    && var call := trace[v].calls[id];
       || call.place == Connected(media, p)
       || (call.place == AtProducer(media, p)
           && (p in call.cons.own || p in call.errors || p in trace[v + 1].calls[id].errors))
  }

  ghost predicate Met(trace: seq<State>, id: nat, i: nat, j: nat, media: nat, p: nat) {
    exists v: nat :: i <= v < j && MeetsAt(trace, id, v, media, p)
  }

  /** The call matches producer p for the media, which is enough for it. */
  ghost predicate SettlesAt(trace: seq<State>, id: nat, v: nat, media: nat, p: nat) {
    && v + 1 < |trace| && id in trace[v].calls && id in trace[v + 1].calls
    && var call := trace[v].calls[id];
       && InLoop(call) && !call.place.AtProducer? && call.place.media == media && call.place.prod == p
       && media < |call.cons.medias| && !call.cons.medias[media]
       && trace[v + 1].calls[id].starts == call.starts + [p]
  }

  ghost predicate SettledBelow(trace: seq<State>, id: nat, i: nat, j: nat, media: nat, p: nat) {
    exists v: nat, r: nat :: i <= v < j && r < p && SettlesAt(trace, id, v, media, r)
  }

  /** The media was offered to producer p, unless one before it settled it. */
  ghost predicate Offered(trace: seq<State>, id: nat, i: nat, j: nat, media: nat, p: nat) {
    Met(trace, id, i, j, media, p) || SettledBelow(trace, id, i, j, media, p)
  }

  /** The media was offered to producers 0 to n - 1. */
  ghost predicate OfferedToAll(trace: seq<State>, id: nat, i: nat, j: nat, media: nat, n: nat) {
    forall p: nat :: p < n ==> Offered(trace, id, i, j, media, p)
  }

  /** How far the call has come, n producers there being. */
  ghost predicate Covered(trace: seq<State>, id: nat, i: nat, j: nat, n: nat) {
    && j < |trace| && id in trace[j].calls
    && var call := trace[j].calls[id];
       if InLoop(call) then
         && (forall media: nat :: media < call.place.media ==> OfferedToAll(trace, id, i, j, media, n))
         && OfferedToAll(trace, id, i, j, call.place.media, Least(call.place.prod, n))
         && (call.place.AtMedia? || call.place.HasTrack? || call.place.HasBack? ==>
               Met(trace, id, i, j, call.place.media, call.place.prod))
       else forall media: nat :: media < |call.cons.medias| ==> OfferedToAll(trace, id, i, j, media, n)
  }

  function Least(a: nat, b: nat): (m: nat)
  {
    if a < b then a else b
  }

  lemma Widen(trace: seq<State>, id: nat, i: nat, j: nat, k: nat, media: nat, p: nat)
    requires j <= k
    ensures Met(trace, id, i, j, media, p) ==> Met(trace, id, i, k, media, p)
    ensures Offered(trace, id, i, j, media, p) ==> Offered(trace, id, i, k, media, p)
  {
    hide MeetsAt, SettlesAt;
  }

  lemma WidenAll(trace: seq<State>, id: nat, i: nat, j: nat, k: nat, media: nat, n: nat)
    requires j <= k && OfferedToAll(trace, id, i, j, media, n)
    ensures OfferedToAll(trace, id, i, k, media, n)
  {
    hide Offered;
    forall p: nat | p < n ensures Offered(trace, id, i, k, media, p) {
      Widen(trace, id, i, j, k, media, p);
    }
  }

  /** One step in the loops: to the same producer, the next one, the next media, or out. */
  predicate Moves(call: Call, next: Call, n: nat) {
    var m, p := if InLoop(call) then call.place.media else 0, if InLoop(call) then call.place.prod else 0;
    || next == call
    || (InLoop(next) && !next.place.AtProducer? && next.place.media == m && next.place.prod == p
        && (call.place.AtProducer? <==> next.place.Connected?))
    || (next.place == AtProducer(m, p + 1)
        && (call.place.AtMedia? || (call.place.AtProducer? && (p in call.cons.own || p in call.errors || p in next.errors))))
    || (next.place == AtProducer(m + 1, 0) && call.place.AtProducer? && p >= n)
    || (next.place == AtProducer(m + 1, 0) && !call.place.AtProducer? && m < |call.cons.medias|
        && !call.cons.medias[m] && next.starts == call.starts + [p])
    || (!InLoop(next) && call.place.AtProducer? && m >= |call.cons.medias|)
  }

  lemma LoopMove(s: State, id: nat, call: Call, choice: Choice)
    requires InRange(call, |s.prods|) && InLoop(call) && id in s.calls && s.calls[id] == call
    ensures var t := CallStep(s, id, call, choice);
            id in t.calls && t.calls[id].cons == call.cons && Moves(call, t.calls[id], |s.prods|)
  {
    hide AtProducerStep, AtMediaStep, HasTrackStep, HasBackStep, LookingStep, StoppingStep, SweptStep, StartingStep, InRange;
    match call.place
    case AtProducer(_, _) => ProducerMoves(s, id, call, choice);
    case Connected(_, _) =>
    case AtMedia(_, _, _) => MediaMoves(s, id, call, choice);
    case HasTrack(_, _, _, _) =>
      if choice.Attach? {
        TrackMoves(s, id, call, choice.ok);
      }
    case HasBack(_, _, _, _) =>
      if choice.Attach? {
        BackMoves(s, id, call, choice.ok);
      }
  }

  lemma ProducerMoves(s: State, id: nat, call: Call, choice: Choice)
    requires call.place.AtProducer? && id in s.calls && s.calls[id] == call
    ensures var t := AtProducerStep(s, id, call, choice);
            id in t.calls && t.calls[id].cons == call.cons && Moves(call, t.calls[id], |s.prods|)
  {
    hide AfterDial;
  }

  lemma MediaMoves(s: State, id: nat, call: Call, choice: Choice)
    requires call.place.AtMedia? && InRange(call, |s.prods|) && id in s.calls && s.calls[id] == call
    ensures var t := AtMediaStep(s, id, call, choice);
            id in t.calls && t.calls[id].cons == call.cons && Moves(call, t.calls[id], |s.prods|)
  {
    hide AfterGetTrack, Possible;
  }

  lemma TrackMoves(s: State, id: nat, call: Call, ok: bool)
    requires call.place.HasTrack? && InRange(call, |s.prods|) && id in s.calls && s.calls[id] == call
    ensures var t := HasTrackStep(s, id, call, ok);
            id in t.calls && t.calls[id].cons == call.cons && Moves(call, t.calls[id], |s.prods|)
  {
  }

  lemma BackMoves(s: State, id: nat, call: Call, ok: bool)
    requires call.place.HasBack? && InRange(call, |s.prods|) && id in s.calls && s.calls[id] == call
    ensures var t := HasBackStep(s, id, call, ok);
            id in t.calls && t.calls[id].cons == call.cons && Moves(call, t.calls[id], |s.prods|)
  {
    hide AfterAddTrack;
  }

  lemma OutStaysOut(s: State, id: nat, call: Call, choice: Choice)
    requires InRange(call, |s.prods|) && !InLoop(call) && id in s.calls && s.calls[id] == call
    ensures var t := CallStep(s, id, call, choice);
            id in t.calls ==> t.calls[id].cons == call.cons && !InLoop(t.calls[id])
  {
    hide HasSender, ConnStop, AfterStop, AfterStart;
    hide AtProducerStep, AtMediaStep, HasTrackStep, HasBackStep;
  }

  /** What was covered stays so. */
  lemma CoveredStays(trace: seq<State>, id: nat, i: nat, j: nat, n: nat)
    requires Covered(trace, id, i, j, n) && j + 1 < |trace| && id in trace[j + 1].calls
    requires trace[j + 1].calls[id].cons == trace[j].calls[id].cons
    requires var call, next := trace[j].calls[id], trace[j + 1].calls[id];
             if InLoop(call) then
               && InLoop(next) && next.place.media == call.place.media && next.place.prod == call.place.prod
               && (next.place.AtMedia? || next.place.HasTrack? || next.place.HasBack? ==>
                     Met(trace, id, i, j + 1, call.place.media, call.place.prod))
             else !InLoop(next)
    ensures Covered(trace, id, i, j + 1, n)
  {
    hide Met, OfferedToAll;
    var call, k := trace[j].calls[id], j + 1;
    var below := if InLoop(call) then call.place.media else |call.cons.medias|;
    forall media: nat | media < below ensures OfferedToAll(trace, id, i, k, media, n) {
      WidenAll(trace, id, i, j, k, media, n);
    }
    if InLoop(call) {
      WidenAll(trace, id, i, j, k, call.place.media, Least(call.place.prod, n));
    }
  }

  /** The next producer, this one having been met; or the next media, this one having been offered to all. */
  lemma CoveredNext(trace: seq<State>, id: nat, i: nat, j: nat, n: nat)
    requires Covered(trace, id, i, j, n) && j + 1 < |trace| && id in trace[j + 1].calls && InLoop(trace[j].calls[id])
    requires var call, next := trace[j].calls[id], trace[j + 1].calls[id];
             var m, p := call.place.media, call.place.prod;
             || (next.place == AtProducer(m, p + 1) && Met(trace, id, i, j + 1, m, p))
             || (next.place == AtProducer(m + 1, 0) && OfferedToAll(trace, id, i, j + 1, m, n))
             || (!InLoop(next) && next.cons == call.cons && m >= |call.cons.medias|)
    ensures Covered(trace, id, i, j + 1, n)
  {
    hide Met, OfferedToAll;
    var call, k := trace[j].calls[id], j + 1;
    var m, p := call.place.media, call.place.prod;
    forall media: nat | media < m ensures OfferedToAll(trace, id, i, k, media, n) {
      WidenAll(trace, id, i, j, k, media, n);
    }
    WidenAll(trace, id, i, j, k, m, Least(p, n));
    OfferedUpTo(trace, id, i, k, m, p, n);
  }

  lemma OfferedUpTo(trace: seq<State>, id: nat, i: nat, j: nat, m: nat, p: nat, n: nat)
    requires OfferedToAll(trace, id, i, j, m, Least(p, n))
    ensures OfferedToAll(trace, id, i, j, m + 1, 0)
    ensures Met(trace, id, i, j, m, p) ==> OfferedToAll(trace, id, i, j, m, Least(p + 1, n))
  {
    hide Met, SettledBelow;
  }

  /** The media that a producer settles is offered to all. */
  lemma SettlingOffers(trace: seq<State>, id: nat, i: nat, j: nat, n: nat, m: nat, p: nat)
    requires i <= j && SettlesAt(trace, id, j, m, p) && Met(trace, id, i, j + 1, m, p)
    requires OfferedToAll(trace, id, i, j, m, Least(p, n))
    ensures OfferedToAll(trace, id, i, j + 1, m, n)
  {
    hide Met, SettlesAt;
    var k := j + 1;
    forall q: nat | q < n ensures Offered(trace, id, i, k, m, q) {
      if q < p {
        Widen(trace, id, i, j, k, m, q);
      }
    }
  }

  lemma MeetsNow(trace: seq<State>, id: nat, i: nat, j: nat, m: nat, p: nat)
    requires i <= j && MeetsAt(trace, id, j, m, p)
    ensures Met(trace, id, i, j + 1, m, p)
  {
  }

  /** The producer at hand has been met once the call is past connecting to it. */
  lemma MetByNow(trace: seq<State>, id: nat, i: nat, j: nat, n: nat)
    requires Covered(trace, id, i, j, n) && i <= j && j + 1 < |trace| && id in trace[j + 1].calls
    requires InLoop(trace[j].calls[id]) && !trace[j].calls[id].place.AtProducer?
    ensures Met(trace, id, i, j + 1, trace[j].calls[id].place.media, trace[j].calls[id].place.prod)
  {
    hide OfferedToAll;
    var place := trace[j].calls[id].place;
    if place.Connected? {
      assert MeetsAt(trace, id, j, place.media, place.prod);
      hide Met;
      MeetsNow(trace, id, i, j, place.media, place.prod);
    } else {
      Widen(trace, id, i, j, j + 1, place.media, place.prod);
    }
  }

  lemma NextCovered(trace: seq<State>, actions: seq<Action>, id: nat, i: nat, j: nat)
    requires IsTrace(trace, actions) && i <= j < |actions| && Covered(trace, id, i, j, |trace[0].prods|)
    requires id in trace[j + 1].calls
    ensures Covered(trace, id, i, j + 1, |trace[0].prods|)
  {
    TraceIsTidy(trace, actions, j);
    OneStep(trace, actions, id, j);
    hide IsTrace, CallStep, Step, Tidy, InRange;
    var n := |trace[0].prods|;
    var call, next := trace[j].calls[id], trace[j + 1].calls[id];
    if !InLoop(call) {
      if actions[j].Act? && actions[j].id == id {
        OutStaysOut(trace[j], id, call, actions[j].choice);
      }
      CoveredStays(trace, id, i, j, n);
    } else {
      var m, p := call.place.media, call.place.prod;
      if actions[j].Act? && actions[j].id == id {
        LoopMove(trace[j], id, call, actions[j].choice);
      }
      LoopMoveCovered(trace, id, i, j, n);
    }
  }

  lemma LoopMoveCovered(trace: seq<State>, id: nat, i: nat, j: nat, n: nat)
    requires Covered(trace, id, i, j, n) && i <= j && j + 1 < |trace| && id in trace[j + 1].calls
    requires InLoop(trace[j].calls[id]) && trace[j + 1].calls[id].cons == trace[j].calls[id].cons
    requires Moves(trace[j].calls[id], trace[j + 1].calls[id], n)
    ensures Covered(trace, id, i, j + 1, n)
  {
    var call, next := trace[j].calls[id], trace[j + 1].calls[id];
    var m, p := call.place.media, call.place.prod;
    hide Met, OfferedToAll;
    if !call.place.AtProducer? {
      MetByNow(trace, id, i, j, n);
    }
    if InLoop(next) && next.place.media == m && next.place.prod == p {
      if next == call && (call.place.AtMedia? || call.place.HasTrack? || call.place.HasBack?) {
        Widen(trace, id, i, j, j + 1, m, p);
      }
      CoveredStays(trace, id, i, j, n);
    } else if next.place == AtProducer(m, p + 1) {
      if call.place.AtProducer? {
        assert MeetsAt(trace, id, j, m, p);
        MeetsNow(trace, id, i, j, m, p);
      }
      CoveredNext(trace, id, i, j, n);
    } else if next.place == AtProducer(m + 1, 0) {
      if call.place.AtProducer? {
        WidenAll(trace, id, i, j, j + 1, m, n);
      } else {
        assert SettlesAt(trace, id, j, m, p);
        SettlingOffers(trace, id, i, j, n, m, p);
      }
      CoveredNext(trace, id, i, j, n);
    } else {
      CoveredNext(trace, id, i, j, n);
    }
  }

  lemma TraceLength(trace: seq<State>, actions: seq<Action>)
    requires IsTrace(trace, actions)
    ensures |trace| == |actions| + 1
  {
  }

  lemma BeginsCovered(trace: seq<State>, actions: seq<Action>, id: nat, i: nat)
    requires IsTrace(trace, actions) && i + 1 < |trace| && id in trace[i + 1].calls
    requires id !in trace[i].calls && actions[i].Begin? && actions[i].id == id && actions[i].adds
    ensures Covered(trace, id, i + 1, i + 1, |trace[0].prods|)
  {
    hide Tidy;
    assert trace[i + 1].calls[id].place == AtProducer(0, 0);
  }

  lemma {:induction false} StaysCovered(trace: seq<State>, actions: seq<Action>, id: nat, i: nat, j: nat)
    requires IsTrace(trace, actions) && i < |actions| && i < j < |trace| && InFlight(trace, id, i + 1, j + 1)
    requires id !in trace[i].calls && actions[i].Begin? && actions[i].id == id && actions[i].adds
    ensures Covered(trace, id, i + 1, j, |trace[0].prods|)
  {
    hide IsTrace, Covered, Tidy, Step;
    TraceLength(trace, actions);
    if j == i + 1 {
      BeginsCovered(trace, actions, id, i);
    } else {
      StaysCovered(trace, actions, id, i, j - 1);
      NextCovered(trace, actions, id, i + 1, j - 1);
    }
  }

  /**
   From the state in which AddConsumer began: once it has left its loops, every one of the consumer's medias was
   offered to every producer, unless one before it settled the media.
   */
  lemma EveryMediaIsOffered(trace: seq<State>, actions: seq<Action>, id: nat, i: nat, j: nat, media: nat, p: nat)
    requires IsTrace(trace, actions) && i < j < |trace| && InFlight(trace, id, i + 1, j + 1)
    requires id !in trace[i].calls && actions[i].Begin? && actions[i].id == id && actions[i].adds
    requires !InLoop(trace[j].calls[id]) && media < |trace[j].calls[id].cons.medias| && p < |trace[0].prods|
    ensures Offered(trace, id, i + 1, j, media, p)
  {
    hide Offered, IsTrace;
    TraceLength(trace, actions);
    StaysCovered(trace, actions, id, i, j);
    assert OfferedToAll(trace, id, i + 1, j, media, |trace[0].prods|);
  }

  // And once connected, the consumer's media is compared with every one of the producer's, unless one settles it.

  /** The call is at the medias of a producer, with `left` of them to come or at hand. */
  predicate AtMedias(call: Call, media: nat, p: nat, least: nat) {
    && (call.place.AtMedia? || call.place.HasTrack? || call.place.HasBack?)
    && call.place.media == media && call.place.prod == p && call.place.left >= least
  }

  lemma MediaMove(s: State, id: nat, call: Call, choice: Choice, least: nat)
    requires InRange(call, |s.prods|) && id in s.calls && s.calls[id] == call
    requires call.place.AtMedia? || call.place.HasTrack? || call.place.HasBack?
    requires call.place.left >= least && (call.place.AtMedia? ==> call.place.left > least)
    ensures var t := CallStep(s, id, call, choice);
            && id in t.calls
            && (AtMedias(t.calls[id], call.place.media, call.place.prod, least)
                || t.calls[id].place == AtProducer(call.place.media + 1, 0))
  {
    hide AfterDial, AfterGetTrack, AfterAddTrack, Possible;
    hide LookingStep, StoppingStep, SweptStep, StartingStep, AtProducerStep;
  }

  ghost predicate TriedIn(trace: seq<State>, id: nat, i: nat, j: nat, media: nat, p: nat, left: nat) {
    exists v: nat :: i <= v < j && v < |trace| && id in trace[v].calls && trace[v].calls[id].place == AtMedia(media, p, left)
  }

  lemma {:induction false} EveryMediaIsTried(trace: seq<State>, actions: seq<Action>, id: nat, v: nat, w: nat,
                                             media: nat, p: nat, left: nat)
    requires IsTrace(trace, actions) && v < w < |trace| && InFlight(trace, id, v, w + 1)
    requires AtMedias(trace[v].calls[id], media, p, left) && left > 0
    requires trace[w].calls[id].place == AtProducer(media, p + 1)
    requires forall x :: v <= x < w ==> !trace[x].calls[id].place.AtProducer?
    ensures TriedIn(trace, id, v, w, media, p, left)
    decreases w - v
  {
    var call := trace[v].calls[id];
    if call.place != AtMedia(media, p, left) {
      OneStep(trace, actions, id, v);
      if actions[v].Act? && actions[v].id == id {
        hide CallStep;
        MediaMove(trace[v], id, call, actions[v].choice, left);
      }
      EveryMediaIsTried(trace, actions, id, v + 1, w, media, p, left);
    }
  }
}
