/**
 AddConsumer, RemoveConsumer and stopProducers with the loops the source gives them, each proved to be a run of the
 stream's steps; what other goroutines do is left to the steps.
 */
module StreamCalls {
  import opened Wrappers
  import opened Lists
  import opened Producer
  import opened Streams

  lemma {:induction false} StepsAppend(s: State, run: seq<Action>, a: Action)
    ensures Steps(s, run + [a]) == Step(Steps(s, run), a)
    decreases |run|
  {
    hide Step;
    if run == [] {
      assert run + [a] == [a];
      assert Steps(s, [a]) == Steps(Step(s, a), [a][1..]);
    } else {
      assert (run + [a])[1..] == run[1..] + [a];
      StepsAppend(Step(s, run[0]), run[1..], a);
    }
  }

  /** The run has led to s and to `call`, the other calls in flight being those of s. */
  ghost predicate Reached(from: State, run: seq<Action>, s: State, id: nat, call: Call) {
    && id !in s.calls && Steps(from, run) == s.(calls := s.calls[id := call])
    && Tidy(s.(calls := s.calls[id := call]))
  }

  lemma ReachedInRange(from: State, run: seq<Action>, s: State, id: nat, call: Call)
    requires Reached(from, run, s, id, call)
    ensures InRange(call, |s.prods|)
    ensures Tidy(s.(calls := s.calls[id := call]))
  {
    hide Steps, InRange, ProdsHold, BacksListed, Pending;
    assert id in s.calls[id := call];
  }

  /** One more step. */
  lemma Goes(from: State, run: seq<Action>, s: State, id: nat, call: Call, choice: Choice, t: State, next: Call)
    requires Reached(from, run, s, id, call) && InRange(call, |s.prods|)
    requires t.calls == s.calls
    requires var u := CallStep(s.(calls := s.calls[id := call]), id, call, choice);
             && u.(calls := t.calls) == t
             && id in u.calls && u.calls[id] == next
    ensures Reached(from, run + [Act(id, choice)], t, id, next)
  {
    hide Steps, InRange, Tidy, CallStep;
    var here := s.(calls := s.calls[id := call]);
    StepKeepsTidy(here, Act(id, choice));
    StepsAppend(from, run, Act(id, choice));
    OnlyCall(here, Act(id, choice));
    var u := Step(here, Act(id, choice));
    assert u.calls == t.calls[id := next];
  }

  lemma StepsNone(s: State)
    ensures Steps(s, []) == s
  {
  }

  lemma ReachedByBegin(from: State, run: seq<Action>, s: State, id: nat, cons: Cons)
    requires Tidy(from) && id !in from.calls
    requires s == from.(pending := from.pending + 1)
    requires Steps(from, run) == Step(from, Begin(id, cons, true))
    ensures Reached(from, run, s, id, Call(cons, true, AtProducer(0, 0), {}, []))
  {
    hide Steps, Tidy;
    StepKeepsTidy(from, Begin(id, cons, true));
  }

  lemma SameSender(s: State, t: State, i: nat)
    requires i < |s.prods| && t.prods == s.prods && t.attached == s.attached
    ensures HasSender(t, i) <==> HasSender(s, i)
  {
  }

  /** The last step of a call. */
  lemma Ends(from: State, run: seq<Action>, s: State, id: nat, call: Call, choice: Choice)
    requires Reached(from, run, s, id, call) && InRange(call, |s.prods|)
    requires var here := s.(calls := s.calls[id := call]);
             CallStep(here, id, call, choice) == End(here, id)
    ensures Steps(from, run + [Act(id, choice)]) == s && Tidy(s)
  {
    hide Steps, InRange, Tidy, CallStep;
    StepKeepsTidy(s.(calls := s.calls[id := call]), Act(id, choice));
    StepsAppend(from, run, Act(id, choice));
    assert s.calls[id := call] - {id} == s.calls;
  }

  /** stopProducers' effect: those without a sender are stopped, unless a call is pending. */
  ghost predicate SweptAway(before: State, after: State) {
    && |after.prods| == |before.prods|
    && forall i :: 0 <= i < |before.prods| ==>
         after.prods[i] ==
         if before.pending > 0 || HasSender(before, i) then before.prods[i] else AfterStop(before.prods[i])
  }

  /** A connection holds a sender on no backchannel when its producer has no sender at all. */
  lemma NoneHeld(s: State, p: nat, i: nat)
    requires BacksListed(s) && p < |s.prods| && i < |s.prods| && !HasSender(s, p)
    ensures HasSender(s, i) ==> LeftByStop(s, p, i)
  {
    if HasSender(s, i) {
      var x :| x in s.attached && (x.track in s.prods[i].receivers || x.track in s.prods[i].senders);
      assert HasListed(s.prods[i], x.track) && !Held(p, x);
    }
  }

  lemma LeftHadSender(s: State, p: nat, i: nat)
    requires p < |s.prods| && i < |s.prods| && LeftByStop(s, p, i)
    ensures HasSender(s, i)
  {
    var x :| x in s.attached && HasListed(s.prods[i], x.track) && (s.prods[p].conn == None || !Held(p, x));
  }

  /** So the stop of such a producer changes nothing for the others. */
  lemma UnheardStopKeeps(s: State, t: State, p: nat, closed: set<Sender>, i: nat)
    requires Tidy(s) && p < |s.prods| && i < |s.prods| && i != p && !HasSender(s, p)
    requires forall x :: x in closed ==> Owns(s.prods[p], p, x)
    requires |t.prods| == |s.prods| && t.prods[i] == s.prods[i]
    requires t.attached == ConnStop(s.prods[p], p, s.attached, closed)
    ensures HasSender(t, i) <==> HasSender(s, i)
  {
    hide HasSender, LeftByStop, BacksListed, ProdsHold, Pending, ConnStop, Owns, CallsInRange;
    StopLeaves(s, t, p, closed, i);
    NoneHeld(s, p, i);
    if LeftByStop(s, p, i) {
      LeftHadSender(s, p, i);
    }
  }

  /** Nobody is idle, or a call is pending and owes everybody a sweep. */
  lemma NobodyUnswept(s: State)
    requires Tidy(s) && (s.pending == 0 ==> !SomeIdle(s))
    ensures Holds(s)
  {
    hide Idle, Owed, ProdsHold, CallsInRange, BacksListed, Pending;
    if s.pending > 0 {
      PendingOwesAll(s);
    }
  }

  lemma UnheardStops(s: State, t: State, p: nat)
    requires Tidy(s) && p < |s.prods| && |t.prods| == |s.prods| && t.prods[p] == AfterStop(s.prods[p])
    ensures !Idle(t, p)
  {
    hide BacksListed, ProdsHold, Pending, CallsInRange, AfterStop, HasSender, Active;
    StoppedIsNotActive(s, t, p);
  }

  lemma HeardIsNotIdle(s: State, i: nat)
    requires i < |s.prods|
    ensures HasSender(s, i) ==> !Idle(s, i)
  {
  }

  lemma StopIsStep(s: State, id: nat, call: Call, closed: set<Sender>)
    requires call.place.Stopping? && InRange(call, |s.prods|)
    requires forall x :: x in closed ==> Owns(s.prods[call.place.prod], call.place.prod, x)
    ensures var p := call.place.prod;
            CallStep(s, id, call, Closing(closed)) ==
            To(SetProd(s, p, AfterStop(s.prods[p])).(attached := ConnStop(s.prods[p], p, s.attached, closed)), id, call,
               Looking(p + 1))
  {
    hide AfterStop, ConnStop;
  }

  lemma SweptSize(before: State, after: State)
    requires SweptAway(before, after)
    ensures |after.prods| == |before.prods|
  {
  }

  lemma SweptIgnores(before: State, same: State, after: State)
    requires SweptAway(before, after)
    requires same.prods == before.prods && same.attached == before.attached && same.pending == before.pending
    ensures SweptAway(same, after)
  {
    forall i | 0 <= i < |same.prods| ensures HasSender(same, i) <==> HasSender(before, i) {
      SameSender(same, before, i);
    }
  }

  lemma StartLeavesTracks(p: Prod)
    ensures AfterStart(p).state != StateTracks
    ensures p.state != StateTracks ==> AfterStart(p) == p
  {
  }

  /** A producer with a sender lists a track, so it is in state Start once it has left Tracks. */
  lemma HeardAreStarted(s: State, matched: seq<nat>)
    requires Tidy(s)
    requires forall k :: 0 <= k < |matched| ==> matched[k] < |s.prods| && s.prods[matched[k]].state != StateTracks
    ensures forall k :: 0 <= k < |matched| && HasSender(s, matched[k]) ==> s.prods[matched[k]].state == StateStart
  {
    hide Fenced, Owned, BacksListed, CallsInRange, Pending;
    forall k | 0 <= k < |matched| && HasSender(s, matched[k]) ensures s.prods[matched[k]].state == StateStart {
      assert Inv(s.prods[matched[k]]);
    }
  }

  lemma StartIdlesNone(s: State, t: State, p: nat)
    requires p < |s.prods| && t.prods == s.prods[p := AfterStart(s.prods[p])] && t.attached == s.attached
    ensures SomeIdle(t) ==> SomeIdle(s)
  {
    hide Idle, AfterStart;
    if SomeIdle(t) {
      var i :| 0 <= i < |t.prods| && Idle(t, i);
      StartKeepsIdle(s, t, p, i);
    }
  }

  lemma SameIdles(s: State, t: State)
    requires t.prods == s.prods && t.attached == s.attached
    ensures SomeIdle(t) ==> SomeIdle(s)
  {
    hide Idle;
    if SomeIdle(t) {
      var i :| 0 <= i < |t.prods| && Idle(t, i);
      SameIdle(s, t, i);
    }
  }

  lemma ReachedByRemove(from: State, run: seq<Action>, id: nat, cons: Cons)
    requires Tidy(from) && id !in from.calls
    requires Steps(from, run) == Step(from, Begin(id, cons, false))
    ensures Reached(from, run, from, id, Call(cons, false, Detaching, {}, []))
  {
    hide Steps, Tidy;
    StepKeepsTidy(from, Begin(id, cons, false));
  }

  /** The call has left its matching loops, having matched these producers. */
  ghost predicate MatchedAll(s: State, id: nat, starts: seq<nat>) {
    id in s.calls && (s.calls[id].place.Checking? || s.calls[id].place.Swept?) && s.calls[id].starts == starts
  }

  lemma ReachedMatched(from: State, run: seq<Action>, s: State, id: nat, call: Call)
    requires Reached(from, run, s, id, call) && (call.place.Checking? || call.place.Swept?)
    ensures MatchedAll(Steps(from, run), id, call.starts)
  {
    hide Steps, Tidy;
  }

  class Stream {
    var prods: seq<Prod>
    var attached: set<Sender>
    var consumers: seq<nat>
    var pending: int
    ghost var calls: map<nat, Call>

    ghost function Now(): State
      reads this
    {
      State(prods, attached, consumers, pending, calls)
    }

    constructor (n: nat)
      ensures Now() == NewStream(n)
    {
      prods, attached, consumers, pending, calls := seq(n, _ => NEW), {}, [], 0, map[];
    }

    /** One media of a producer; `matched` when it breaks out to the consumer's next media. */
    method TryMedia(ghost from: State, ghost run0: seq<Action>, id: nat, cons: Cons, m: nat, p: nat, left: nat,
                    errors0: set<nat>, starts0: seq<nat>)
      returns (errors: set<nat>, starts: seq<nat>, matched: bool, ghost run: seq<Action>)
      requires left > 0 && Reached(from, run0, Now(), id, Call(cons, true, AtMedia(m, p, left), errors0, starts0))
      modifies this`prods, this`attached
      ensures |prods| == old(|prods|)
      ensures Reached(from, run, Now(), id,
                      Call(cons, true, if matched then AtProducer(m + 1, 0) else AtMedia(m, p, left - 1), errors, starts))
    {
      hide Reached, AfterDial, AfterGetTrack, AfterAddTrack;
      run, errors, starts, matched := run0, errors0, starts0, false;
      ghost var call := Call(cons, true, AtMedia(m, p, left), errors, starts);
      ghost var skipped := AtMedia(m, p, left - 1);
      ReachedInRange(from, run, Now(), id, call);
      var recvonly: bool, sendonly: bool, matches: bool, ok: bool := *, *, *, *;
      if !matches {
        Goes(from, run, Now(), id, call, NoMatch, Now(), call.(place := skipped));
        run := run + [Act(id, NoMatch)];
        return;
      }
      if recvonly {
        var found: Found := *;
        if !Possible(prods[p], p, found) {
          found := Found.Failed;
        }
        ghost var before := Now();
        var got := AfterGetTrack(prods[p], found);
        if got.1 == None {
          errors := errors + {p};
          Goes(from, run, Now(), id, call, Recv(found), Now(), call.(place := skipped, errors := errors));
          run := run + [Act(id, Recv(found))];
          return;
        }
        prods := prods[p := got.0];
        ghost var has := call.(place := HasTrack(m, p, left - 1, got.1.value));
        Goes(from, run, before, id, call, Recv(found), Now(), has);
        run := run + [Act(id, Recv(found))];
        ReachedInRange(from, run, Now(), id, has);
        if !ok {
          Goes(from, run, Now(), id, has, Attach(ok), Now(), call.(place := skipped));
          run := run + [Act(id, Attach(ok))];
          return;
        }
        before := Now();
        attached := attached + {Sender(got.1.value, cons.id)};
        starts := starts + [p];
        matched := !cons.medias[m];
        Goes(from, run, before, id, has, Attach(ok), Now(),
             call.(place := if matched then AtProducer(m + 1, 0) else skipped, starts := starts));
        run := run + [Act(id, Attach(ok))];
      } else if sendonly {
        var number: Option<nat> := *;
        if number == None {
          Goes(from, run, Now(), id, call, Send(number), Now(), call.(place := skipped));
          run := run + [Act(id, Send(number))];
          return;
        }
        var track := Back(cons.id, number.value);
        ghost var has := call.(place := HasBack(m, p, left - 1, track));
        Goes(from, run, Now(), id, call, Send(number), Now(), has);
        run := run + [Act(id, Send(number))];
        ReachedInRange(from, run, Now(), id, has);
        var added := AfterAddTrack(prods[p], track, ok);
        if !added.1 {
          errors := errors + {p};
          Goes(from, run, Now(), id, has, Attach(ok), Now(), call.(place := skipped, errors := errors));
          run := run + [Act(id, Attach(ok))];
          return;
        }
        ghost var before := Now();
        prods := prods[p := added.0];
        attached := attached + {Sender(track, p)};
        starts := starts + [p];
        matched := !cons.medias[m];
        Goes(from, run, before, id, has, Attach(ok), Now(),
             call.(place := if matched then AtProducer(m + 1, 0) else skipped, starts := starts));
        run := run + [Act(id, Attach(ok))];
      } else {
        starts := starts + [p];
        matched := !cons.medias[m];
        Goes(from, run, Now(), id, call, Other, Now(),
             call.(place := if matched then AtProducer(m + 1, 0) else skipped, starts := starts));
        run := run + [Act(id, Other)];
      }
    }

    /** The loop over one producer's medias; `matched` when it breaks out to the consumer's next media. */
    method TryMedias(ghost from: State, ghost run0: seq<Action>, id: nat, cons: Cons, m: nat, p: nat,
                     errors0: set<nat>, starts0: seq<nat>)
      returns (errors: set<nat>, starts: seq<nat>, matched: bool, ghost run: seq<Action>)
      requires Reached(from, run0, Now(), id, Call(cons, true, Connected(m, p), errors0, starts0))
      modifies this`prods, this`attached
      ensures |prods| == old(|prods|)
      ensures Reached(from, run, Now(), id,
                      Call(cons, true, if matched then AtProducer(m + 1, 0) else AtProducer(m, p + 1), errors, starts))
    {
      hide Reached, AfterDial, AfterGetTrack, AfterAddTrack;
      run, errors, starts := run0, errors0, starts0;
      ghost var call := Call(cons, true, Connected(m, p), errors, starts);
      ReachedInRange(from, run, Now(), id, call);
      var left: nat := *;
      if prods[p].conn == None {
        left := 0;
      }
      Goes(from, run, Now(), id, call, Medias(left), Now(), call.(place := AtMedia(m, p, left)));
      run := run + [Act(id, Medias(left))];
      while left > 0
        invariant |prods| == old(|prods|)
        invariant Reached(from, run, Now(), id, Call(cons, true, AtMedia(m, p, left), errors, starts))
      {
        errors, starts, matched, run := TryMedia(from, run, id, cons, m, p, left, errors, starts);
        if matched {
          return;
        }
        left := left - 1;
      }
      matched := false;
      call := Call(cons, true, AtMedia(m, p, 0), errors, starts);
      ReachedInRange(from, run, Now(), id, call);
      Goes(from, run, Now(), id, call, Next, Now(), call.(place := AtProducer(m, p + 1)));
      run := run + [Act(id, Next)];
    }

    /** The loops of AddConsumer up to pending.Add(-1). */
    method Match(ghost from: State, id: nat, cons: Cons)
      returns (starts: seq<nat>, ghost run: seq<Action>, ghost errors: set<nat>)
      requires Tidy(from) && Now() == from && id !in calls
      modifies this`prods, this`attached, this`pending
      ensures |prods| == old(|prods|) && pending == old(pending)
      ensures Reached(from, run, Now(), id,
                      Call(cons, true, if pending == 0 then Checking else Swept, errors, starts))
    {
      hide Reached, AfterDial, Steps, Tidy;
      run := [];
      assert Steps(from, run) == from by {
        StepsNone(from);
      }
      pending := pending + 1;
      var prodErrors: set<nat> := {};
      starts := [];
      StepsAppend(from, run, Begin(id, cons, true));
      run := run + [Begin(id, cons, true)];
      ReachedByBegin(from, run, Now(), id, cons);
      var m := 0;
      while m < |cons.medias|
        invariant |prods| == old(|prods|) && pending == old(pending) + 1
        invariant Reached(from, run, Now(), id, Call(cons, true, AtProducer(m, 0), prodErrors, starts))
      {
        var p, matched := 0, false;
        while p < |prods| && !matched
          invariant p <= |prods| == old(|prods|) && pending == old(pending) + 1
          invariant Reached(from, run, Now(), id,
                            Call(cons, true, if matched then AtProducer(m + 1, 0) else AtProducer(m, p), prodErrors, starts))
          decreases |prods| - p, !matched
        {
          ghost var call := Call(cons, true, AtProducer(m, p), prodErrors, starts);
          ReachedInRange(from, run, Now(), id, call);
          var ok: bool := *;
          if p in cons.own || p in prodErrors {
            Goes(from, run, Now(), id, call, Next, Now(), call.(place := AtProducer(m, p + 1)));
            run := run + [Act(id, Next)];
          } else if prods[p].state == StateNone && !ok {
            prodErrors := prodErrors + {p};
            Goes(from, run, Now(), id, call, Dialled(ok), Now(), call.(place := AtProducer(m, p + 1), errors := prodErrors));
            run := run + [Act(id, Dialled(ok))];
          } else {
            ghost var before := Now();
            prods := prods[p := AfterDial(prods[p], ok)];
            Goes(from, run, before, id, call, Dialled(ok), Now(), call.(place := Connected(m, p)));
            run := run + [Act(id, Dialled(ok))];
            prodErrors, starts, matched, run := TryMedias(from, run, id, cons, m, p, prodErrors, starts);
          }
          if !matched {
            p := p + 1;
          }
        }
        if !matched {
          ghost var call := Call(cons, true, AtProducer(m, p), prodErrors, starts);
          ReachedInRange(from, run, Now(), id, call);
          Goes(from, run, Now(), id, call, Next, Now(), call.(place := AtProducer(m + 1, 0)));
          run := run + [Act(id, Next)];
        }
        m := m + 1;
      }
      errors := prodErrors;
      ghost var call := Call(cons, true, AtProducer(m, 0), prodErrors, starts);
      ReachedInRange(from, run, Now(), id, call);
      ghost var before := Now();
      pending := pending - 1;
      Goes(from, run, before, id, call, Next, Now(), call.(place := if pending == 0 then Checking else Swept));
      run := run + [Act(id, Next)];
    }

    /** Does some listed track of producer i have a sender? */
    method Listened(i: nat) returns (yes: bool)
      requires i < |prods|
      ensures yes <==> HasSender(Now(), i)
      ensures yes <==> exists x :: x in attached && (x.track in prods[i].receivers || x.track in prods[i].senders)
    {
      for k := 0 to |prods[i].receivers|
        invariant forall j :: 0 <= j < k ==> !Attached(prods[i].receivers[j])
      {
        if Attached(prods[i].receivers[k]) {
          return true;
        }
      }
      for k := 0 to |prods[i].senders|
        invariant forall j :: 0 <= j < k ==> !Attached(prods[i].senders[j])
      {
        if Attached(prods[i].senders[k]) {
          return true;
        }
      }
      yes := false;
    }

    /** len(track.Senders()) > 0 */
    predicate Attached(track: Track)
      reads this
    {
      exists x :: x in attached && x.track == track
    }

    /** stopProducers returns. */
    ghost method Return(from: State, run0: seq<Action>, id: nat, call: Call, choice: Choice) returns (run: seq<Action>)
      requires Reached(from, run0, Now(), id, call) && InRange(call, |prods|)
      requires if call.place.Checking? then pending > 0 else call.place == Looking(|prods|)
      ensures run0 <= run
      ensures if call.adds then Reached(from, run, Now(), id, call.(place := Swept))
              else Steps(from, run) == Now() && Tidy(Now())
    {
      hide Reached, HasSender, Steps, Tidy;
      if call.adds {
        Goes(from, run0, Now(), id, call, choice, Now(), call.(place := Swept));
      } else {
        Ends(from, run0, Now(), id, call, choice);
      }
      run := run0 + [Act(id, choice)];
    }

    /** The look at producer i, which saw what there was. */
    ghost method Look(from: State, run0: seq<Action>, id: nat, call: Call, i: nat, yes: bool) returns (run: seq<Action>)
      requires i < |prods| && Reached(from, run0, Now(), id, call.(place := Looking(i)))
      requires yes <==> HasSender(Now(), i)
      ensures run0 <= run
      ensures Reached(from, run, Now(), id, call.(place := if yes then Looking(i + 1) else Stopping(i)))
    {
      hide Reached, HasSender, Steps;
      var looking := call.(place := Looking(i));
      ReachedInRange(from, run0, Now(), id, looking);
      SameSender(Now(), Now().(calls := calls[id := looking]), i);
      Goes(from, run0, Now(), id, looking, See(yes), Now(), call.(place := if yes then Looking(i + 1) else Stopping(i)));
      run := run0 + [Act(id, See(yes))];
    }

    /** producer.stop(), with whatever its connection takes off its own tracks. */
    method StopOne(ghost from: State, ghost run0: seq<Action>, id: nat, ghost call: Call, i: nat, any: set<Sender>)
      returns (ghost run: seq<Action>)
      requires i < |prods| && Reached(from, run0, Now(), id, call.(place := Stopping(i)))
      requires !HasSender(Now(), i)
      modifies this`prods, this`attached
      ensures prods == old(prods)[i := AfterStop(old(prods)[i])] && !Idle(Now(), i)
      ensures forall j :: 0 <= j < |prods| && j != i ==> (HasSender(old(Now()), j) <==> HasSender(Now(), j))
      ensures forall j :: 0 <= j < |prods| && j != i ==> (Idle(old(Now()), j) <==> Idle(Now(), j))
      ensures run0 <= run && Reached(from, run, Now(), id, call.(place := Looking(i + 1)))
    {
      hide Reached, HasSender, AfterStop, Steps, ConnStop, Tidy, InRange;
      ghost var stopping, before := call.(place := Stopping(i)), Now();
      ghost var here := before.(calls := before.calls[id := stopping]);
      ReachedInRange(from, run0, before, id, stopping);
      SameSender(before, here, i);
      var closed := set x | x in any && Owns(prods[i], i, x);
      attached := ConnStop(prods[i], i, attached, closed);
      prods := prods[i := AfterStop(prods[i])];
      StopIsStep(here, id, stopping, closed);
      UnheardStops(here, Now(), i);
      Goes(from, run0, before, id, stopping, Closing(closed), Now(), call.(place := Looking(i + 1)));
      run := run0 + [Act(id, Closing(closed))];
      forall j | 0 <= j < |prods| && j != i ensures HasSender(before, j) <==> HasSender(Now(), j) {
        UnheardStopKeeps(here, Now(), i, closed, j);
        SameSender(before, here, j);
      }
    }

    /** stopProducers: with no call pending, whatever the stream was like, no producer is idle afterwards. */
    method StopProducers(ghost from: State, ghost run0: seq<Action>, id: nat, ghost call: Call)
      returns (ghost run: seq<Action>)
      requires Reached(from, run0, Now(), id, call) && call.place.Checking?
      modifies this`prods, this`attached
      ensures SweptAway(old(Now()), Now())
      ensures pending == 0 ==> !SomeIdle(Now())
      ensures run0 <= run
      ensures if call.adds then Reached(from, run, Now(), id, call.(place := Swept))
              else Steps(from, run) == Now() && Tidy(Now())
    {
      hide Reached, HasSender, AfterStop, Steps, Idle;
      run := run0;
      ReachedInRange(from, run, Now(), id, call);
      if pending > 0 {
        run := Return(from, run, id, call, Next);
        return;
      }
      Goes(from, run, Now(), id, call, Next, Now(), call.(place := Looking(0)));
      run := run + [Act(id, Next)];
      ghost var was := Now();
      for i := 0 to |prods|
        invariant |prods| == |was.prods| && run0 <= run
        invariant Reached(from, run, Now(), id, call.(place := Looking(i)))
        invariant forall j :: 0 <= j < i ==>
                    prods[j] == if HasSender(was, j) then was.prods[j] else AfterStop(was.prods[j])
        invariant forall j :: 0 <= j < i ==> !Idle(Now(), j)
        invariant forall j :: i <= j < |prods| ==> prods[j] == was.prods[j] && (HasSender(was, j) <==> HasSender(Now(), j))
      {
        var yes := Listened(i);
        run := Look(from, run, id, call, i, yes);
        HeardIsNotIdle(Now(), i);
        if !yes {
          var any: set<Sender> := *;
          run := StopOne(from, run, id, call, i, any);
        }
      }
      ReachedInRange(from, run, Now(), id, call.(place := Looking(|prods|)));
      run := Return(from, run, id, call.(place := Looking(|prods|)), Next);
    }

    /**
     Fails, and leaves the list of consumers alone, just when nothing matched: `starts` are the producers that the
     matching loops, the part `loops` of the run, matched.  Whatever was idle before, nothing is once no call is pending.
     */
    method AddConsumer(id: nat, cons: Cons)
      returns (ok: bool, ghost run: seq<Action>, ghost loops: seq<Action>, ghost starts: seq<nat>)
      requires Tidy(Now()) && id !in calls
      modifies this
      ensures Steps(old(Now()), run) == Now() && Holds(Now())
      ensures pending == 0 ==> !SomeIdle(Now())
      ensures calls == old(calls) && pending == old(pending) && |prods| == old(|prods|)
      ensures consumers == if ok then old(consumers) + [cons.id] else old(consumers)
      ensures loops <= run && MatchedAll(Steps(old(Now()), loops), id, starts)
      ensures ok <==> starts != []
      ensures forall k :: 0 <= k < |starts| ==> starts[k] < |prods| && prods[starts[k]].state != StateTracks
      ensures forall k :: 0 <= k < |starts| && starts[k] < |prods| && HasSender(Now(), starts[k]) ==>
                prods[starts[k]].state == StateStart
    {
      hide Reached, Tidy, Holds, Steps, AfterStart, SweptAway, MatchedAll, SomeIdle;
      ghost var from := Now();
      var matched: seq<nat>;
      ghost var errors;
      matched, run, errors := Match(from, id, cons);
      loops, starts := run, matched;
      ghost var call := Call(cons, true, Swept, errors, matched);
      ReachedMatched(from, run, Now(), id, call.(place := if pending == 0 then Checking else Swept));
      if pending == 0 {
        ghost var before := Now();
        run := StopProducers(from, run, id, call.(place := Checking));
        SweptSize(before, Now());
      }
      ReachedInRange(from, run, Now(), id, call);
      if matched == [] {
        Ends(from, run, Now(), id, call, Next);
        run := run + [Act(id, Next)];
        NobodyUnswept(Now());
        ok := false;
        return;
      }
      ghost var before := Now();
      consumers := consumers + [cons.id];
      SameIdles(before, Now());
      Goes(from, run, before, id, call, Next, Now(), call.(place := Starting(0)));
      run := run + [Act(id, Next)];
      for k := 0 to |matched|
        invariant |prods| == old(|prods|) && calls == old(calls) && pending == old(pending)
        invariant consumers == old(consumers) + [cons.id] && loops <= run
        invariant pending == 0 ==> !SomeIdle(Now())
        invariant forall j :: 0 <= j < |matched| ==> matched[j] < |prods|
        invariant forall j :: 0 <= j < k ==> prods[matched[j]].state != StateTracks
        invariant Reached(from, run, Now(), id, call.(place := Starting(k)))
      {
        before := Now();
        ReachedInRange(from, run, Now(), id, call.(place := Starting(k)));
        prods := prods[matched[k] := AfterStart(prods[matched[k]])];
        StartIdlesNone(before, Now(), matched[k]);
        StartLeavesTracks(before.prods[matched[k]]);
        Goes(from, run, before, id, call.(place := Starting(k)), Next, Now(), call.(place := Starting(k + 1)));
        run := run + [Act(id, Next)];
      }
      ReachedInRange(from, run, Now(), id, call.(place := Starting(|matched|)));
      Ends(from, run, Now(), id, call.(place := Starting(|matched|)), Next);
      run := run + [Act(id, Next)];
      NobodyUnswept(Now());
      HeardAreStarted(Now(), matched);
      ok := true;
    }

    /**
     The consumer's Stop takes `gone` off its tracks; then the first entry of the consumer goes, and the sweep runs, over
     what was idle before as well.
     */
    method RemoveConsumer(id: nat, cons: Cons) returns (ghost run: seq<Action>, gone: set<Sender>)
      requires Tidy(Now()) && id !in calls
      modifies this
      ensures Steps(old(Now()), run) == Now() && Holds(Now())
      ensures pending == 0 ==> !SomeIdle(Now())
      ensures calls == old(calls) && pending == old(pending)
      ensures consumers == RemoveFirst(old(consumers), cons.id)
      ensures SweptAway(old(Now()).(attached := old(attached) - gone), Now())
    {
      hide Reached, Tidy, Holds, Steps, SweptAway, SomeIdle;
      ghost var from := Now();
      run := [];
      StepsNone(from);
      StepsAppend(from, run, Begin(id, cons, false));
      run := run + [Begin(id, cons, false)];
      ghost var call := Call(cons, false, Detaching, {}, []);
      ReachedByRemove(from, run, id, cons);
      var any: set<Sender> := *;
      gone := any;
      attached := attached - gone;
      ReachedInRange(from, run, from, id, call);
      Goes(from, run, from, id, call, Detach(gone), Now(), call);
      run := run + [Act(id, Detach(gone))];
      ghost var before := Now();
      consumers := DropFirst(consumers, cons.id);
      ReachedInRange(from, run, before, id, call);
      Goes(from, run, before, id, call, Next, Now(), call.(place := Checking));
      run := run + [Act(id, Next)];
      before := Now();
      run := StopProducers(from, run, id, call.(place := Checking));
      NobodyUnswept(Now());
      SweptIgnores(before, from.(attached := from.attached - gone), Now());
    }
  }
}
