/**
 The middle of Producer.reconnect (internal/streams/producer.go): the loop that moves the senders of matching receivers
 to the receivers of a new connection, and the stop of the old one after it.
 */
module Reconnect {
  import opened Wrappers
  import opened Nodes

  datatype Media = Media(recvonly: bool, codecs: seq<nat>)

  ghost predicate NoneMatches(codecs: seq<nat>, codec: nat, matches: (nat, nat) -> bool) {
    forall k :: 0 <= k < |codecs| ==> !matches(codecs[k], codec)
  }

  /** The codec `found` is the first in the list that matches. */
  ghost predicate FirstMatches(codecs: seq<nat>, codec: nat, matches: (nat, nat) -> bool, found: nat) {
    exists k :: 0 <= k < |codecs| && codecs[k] == found && matches(found, codec) && NoneMatches(codecs[..k], codec, matches)
  }

  /** The first codec of the media that matches. */
  function MatchCodec(media: Media, codec: nat, matches: (nat, nat) -> bool): (r: Option<nat>)
    ensures r == None ==> NoneMatches(media.codecs, codec, matches)
    ensures r.Some? ==> FirstMatches(media.codecs, codec, matches, r.value)
    decreases |media.codecs|
  {
    if media.codecs == [] then None
    else if matches(media.codecs[0], codec) then
      assert media.codecs[0] in media.codecs && NoneMatches(media.codecs[..0], codec, matches);
      Some(media.codecs[0])
    else
      var rest := MatchCodec(Media(media.recvonly, media.codecs[1..]), codec, matches);
      MatchesLater(media.codecs, codec, matches, rest);
      rest
  }

  lemma MatchesLater(codecs: seq<nat>, codec: nat, matches: (nat, nat) -> bool, rest: Option<nat>)
    requires codecs != [] && !matches(codecs[0], codec)
    requires if rest == None then NoneMatches(codecs[1..], codec, matches)
             else FirstMatches(codecs[1..], codec, matches, rest.value)
    ensures if rest == None then NoneMatches(codecs, codec, matches)
            else FirstMatches(codecs, codec, matches, rest.value)
  {
    if rest == None {
      forall k | 0 <= k < |codecs| ensures !matches(codecs[k], codec) {
        assert k > 0 ==> codecs[1..][k - 1] == codecs[k];
      }
    } else {
      var k :| 0 <= k < |codecs[1..]| && codecs[1..][k] == rest.value && NoneMatches(codecs[1..][..k], codec, matches);
      var front := codecs[..k + 1];
      forall j | 0 <= j < |front| ensures !matches(front[j], codec) {
        assert j > 0 ==> codecs[1..][..k][j - 1] == front[j];
      }
      assert codecs[k + 1] == rest.value && NoneMatches(front, codec, matches);
    }
  }

  /**
   One turn of the loop over medias, said without it: a recvonly media takes over the first receiver that it matches and
   has a track for, with the first of its codecs that matches; when there is none, or for another media, nothing changes.
   */
  ghost predicate Turns(media: Media, before: seq<nat>, after: seq<nat>, taken: Option<nat>,
                        matches: (nat, nat) -> bool, fails: nat -> bool) {
    && |after| == |before|
    && match taken
       case None =>
         && after == before
         && (media.recvonly ==> forall k :: 0 <= k < |before| ==> fails(k) || NoneMatches(media.codecs, before[k], matches))
       case Some(i) =>
         && media.recvonly && i < |before| && !fails(i)
         && FirstMatches(media.codecs, before[i], matches, after[i])
         && (forall k :: 0 <= k < |before| && k != i ==> after[k] == before[k])
         && (forall k :: 0 <= k < i ==> fails(k) || NoneMatches(media.codecs, before[k], matches))
  }

  /** All turns: the codecs of the receivers before, between and after them, and which receiver each took over. */
  ghost predicate AllTurn(medias: seq<Media>, stages: seq<seq<nat>>, taken: seq<Option<nat>>,
                          matches: (nat, nat) -> bool, fails: (nat, nat) -> bool) {
    && |taken| == |medias| && |stages| == |medias| + 1
    && forall m :: 0 <= m < |medias| ==>
         Turns(medias[m], stages[m], stages[m + 1], taken[m], matches, (k: nat) => fails(m, k))
  }

  lemma OneMoreTurn(medias: seq<Media>, stages: seq<seq<nat>>, taken: seq<Option<nat>>,
                    matches: (nat, nat) -> bool, fails: (nat, nat) -> bool, after: seq<nat>, took: Option<nat>)
    requires |taken| < |medias| && AllTurn(medias[..|taken|], stages, taken, matches, fails)
    requires Turns(medias[|taken|], stages[|taken|], after, took, matches, (k: nat) => fails(|taken|, k))
    ensures AllTurn(medias[..|taken| + 1], stages + [after], taken + [took], matches, fails)
  {
    hide Turns;
    var n := |taken|;
    forall m | 0 <= m < n + 1
      ensures Turns(medias[..n + 1][m], (stages + [after])[m], (stages + [after])[m + 1], (taken + [took])[m], matches,
                    (k: nat) => fails(m, k))
    {
      if m < n {
        assert medias[..n + 1][m] == medias[..n][m];
      }
    }
  }

  /** A receiver that no media took keeps its codec. */
  lemma {:induction false} Untaken(medias: seq<Media>, stages: seq<seq<nat>>, taken: seq<Option<nat>>,
                                   matches: (nat, nat) -> bool, fails: (nat, nat) -> bool, m: nat, k: nat)
    requires AllTurn(medias, stages, taken, matches, fails) && m <= |medias| && k < |stages[0]| && Some(k) !in taken
    ensures |stages[m]| == |stages[0]| && stages[m][k] == stages[0][k]
  {
    if m > 0 {
      Untaken(medias, stages, taken, matches, fails, m - 1, k);
      assert Turns(medias[m - 1], stages[m - 1], stages[m], taken[m - 1], matches, (j: nat) => fails(m - 1, j));
      assert taken[m - 1] in taken;
    }
  }

  /**
   A receiver is kept for a reason: each recvonly media lists no codec that matches it, or gives no track for it, or
   took over one before it.
   */
  lemma KeptForAReason(medias: seq<Media>, stages: seq<seq<nat>>, taken: seq<Option<nat>>,
                       matches: (nat, nat) -> bool, fails: (nat, nat) -> bool, m: nat, k: nat)
    requires AllTurn(medias, stages, taken, matches, fails)
    requires m < |medias| && medias[m].recvonly && k < |stages[0]| && Some(k) !in taken
    ensures NoneMatches(medias[m].codecs, stages[0][k], matches) || fails(m, k) || (taken[m].Some? && taken[m].value < k)
  {
    hide NoneMatches, FirstMatches;
    Untaken(medias, stages, taken, matches, fails, m, k);
    assert Turns(medias[m], stages[m], stages[m + 1], taken[m], matches, (j: nat) => fails(m, j));
    assert taken[m] in taken;
  }

  /** A codec that changed is one that some recvonly media lists. */
  lemma {:induction false} ChangedIsListed(medias: seq<Media>, stages: seq<seq<nat>>, taken: seq<Option<nat>>,
                                           matches: (nat, nat) -> bool, fails: (nat, nat) -> bool, m: nat, k: nat)
    requires AllTurn(medias, stages, taken, matches, fails) && m <= |medias| && k < |stages[0]|
    requires exists i :: 0 <= i < m && taken[i] == Some(k)
    ensures |stages[m]| == |stages[0]|
    ensures exists i :: 0 <= i < m && medias[i].recvonly && stages[m][k] in medias[i].codecs
  {
    SameLength(medias, stages, taken, matches, fails, m - 1);
    assert Turns(medias[m - 1], stages[m - 1], stages[m], taken[m - 1], matches, (j: nat) => fails(m - 1, j));
    if taken[m - 1] == Some(k) {
      assert stages[m][k] in medias[m - 1].codecs;
    } else {
      ChangedIsListed(medias, stages, taken, matches, fails, m - 1, k);
    }
  }

  lemma {:induction false} SameLength(medias: seq<Media>, stages: seq<seq<nat>>, taken: seq<Option<nat>>,
                                      matches: (nat, nat) -> bool, fails: (nat, nat) -> bool, m: nat)
    requires AllTurn(medias, stages, taken, matches, fails) && m <= |medias|
    ensures |stages[m]| == |stages[0]|
  {
    if m > 0 {
      SameLength(medias, stages, taken, matches, fails, m - 1);
      assert Turns(medias[m - 1], stages[m - 1], stages[m], taken[m - 1], matches, (j: nat) => fails(m - 1, j));
    }
  }

  /** What TakeOver found is a turn. */
  lemma TakenTurns(media: Media, before: seq<nat>, after: seq<nat>, i: nat, matches: (nat, nat) -> bool, fails: nat -> bool)
    requires media.recvonly && |after| == |before| && i == FirstTaken(media, before, matches, fails, 0)
    requires forall k :: 0 <= k < |before| && k != i ==> after[k] == before[k]
    requires i < |before| ==> MatchCodec(media, before[i], matches) == Some(after[i])
    ensures Turns(media, before, after, if i < |before| then Some(i) else None, matches, fails)
  {
    hide MatchCodec, FirstMatches, NoneMatches;
  }

  /** The first receiver, from i on, that a media matches and has a track for; or their number. */
  function FirstTaken(media: Media, codecs: seq<nat>, matches: (nat, nat) -> bool, fails: nat -> bool, i: nat): (r: nat)
    requires i <= |codecs|
    ensures i <= r <= |codecs|
    ensures forall j :: i <= j < r ==> MatchCodec(media, codecs[j], matches) == None || fails(j)
    ensures r < |codecs| ==> MatchCodec(media, codecs[r], matches).Some? && !fails(r)
    decreases |codecs| - i
  {
    if i == |codecs| then i
    else if MatchCodec(media, codecs[i], matches) == None || fails(i) then FirstTaken(media, codecs, matches, fails, i + 1)
    else i
  }

  /** The codecs of the receivers and which of them are new, as the loop over medias changes them. */
  datatype Slots = Slots(codecs: seq<nat>, replaced: seq<bool>)

  function AfterMedia(media: Media, matches: (nat, nat) -> bool, fails: nat -> bool, s: Slots): (t: Slots)
    requires |s.codecs| == |s.replaced|
    ensures |t.codecs| == |t.replaced| == |s.codecs|
  {
    if !media.recvonly then s
    else
      var i := FirstTaken(media, s.codecs, matches, fails, 0);
      if i == |s.codecs| then s
      else Slots(s.codecs[i := MatchCodec(media, s.codecs[i], matches).value], s.replaced[i := true])
  }

  function AfterMedias(medias: seq<Media>, matches: (nat, nat) -> bool, fails: (nat, nat) -> bool, m: nat, s: Slots)
    : (t: Slots)
    requires m <= |medias| && |s.codecs| == |s.replaced|
    ensures |t.codecs| == |t.replaced| == |s.codecs|
  {
    if m == 0 then s
    else
      AfterMedia(medias[m - 1], matches, (k: nat) => fails(m - 1, k), AfterMedias(medias, matches, fails, m - 1, s))
  }

  lemma NoTurns(medias: seq<Media>, stages: seq<seq<nat>>, matches: (nat, nat) -> bool, fails: (nat, nat) -> bool)
    requires |stages| == 1
    ensures AllTurn(medias[..0], stages, [], matches, fails)
  {
  }

  lemma OtherTurns(media: Media, codecs: seq<nat>, matches: (nat, nat) -> bool, fails: nat -> bool)
    requires !media.recvonly
    ensures Turns(media, codecs, codecs, None, matches, fails)
  {
  }

  lemma AfterOne(medias: seq<Media>, matches: (nat, nat) -> bool, fails: (nat, nat) -> bool, m: nat, s: Slots)
    requires m < |medias| && |s.codecs| == |s.replaced|
    ensures AfterMedias(medias, matches, fails, m + 1, s) ==
            var t := AfterMedias(medias, matches, fails, m, s);
            if !medias[m].recvonly then t
            else
              var i := FirstTaken(medias[m], t.codecs, matches, (k: nat) => fails(m, k), 0);
              if i == |t.codecs| then t
              else Slots(t.codecs[i := MatchCodec(medias[m], t.codecs[i], matches).value], t.replaced[i := true])
  {
    hide FirstTaken, MatchCodec;
  }

  /** The slots before the loop. */
  function SlotsOf(receivers: seq<Node>): (s: Slots)
  {
    Slots(CodecsOf(receivers), seq(|receivers|, _ => false))
  }

  function CodecsOf(receivers: seq<Node>): (codecs: seq<nat>)
  {
    seq(|receivers|, (k: nat) requires k < |receivers| => receivers[k].codec)
  }

  ghost function ListsOf(receivers: seq<Node>): (lists: seq<seq<Node>>)
    reads receivers
  {
    seq(|receivers|, (k: nat) requires k < |receivers| reads receivers => receivers[k].childs)
  }

  ghost function Childs(receivers: seq<Node>): (cs: set<Node>)
    reads receivers
  {
    set r, c | r in receivers && c in r.childs :: c
  }

  /** Receivers as GetTrack hands them out: distinct roots, whose children know them. */
  ghost predicate Roots(receivers: seq<Node>)
    reads receivers, Childs(receivers)
  {
    && Distinct(receivers)
    && (forall r :: r in receivers ==> r.parent == null)
    && (forall r, c :: r in receivers && c in r.childs ==> c in Childs(receivers) && c.parent == r)
  }

  class Producer {
    var receivers: seq<Node>

    /**
     Position by position every receiver keeps its list of senders, in order, whether it was replaced or not; the
     replaced ones are left without children.
     */
    ghost predicate Swapped(was: seq<Node>, lists: seq<seq<Node>>)
      reads this, receivers, was, Childs(receivers)
    {
      && |receivers| == |was| == |lists|
      && Roots(receivers)
      && forall k :: 0 <= k < |was| ==>
           && receivers[k].childs == lists[k] && was[k].parent == null
           && (receivers[k] != was[k] ==> was[k].childs == [] && receivers[k] !in was)
    }

    /** receiver.Replace(track); p.receivers[i] = track */
    method ReplaceAt(i: nat, codec: nat, ghost was: seq<Node>, ghost lists: seq<seq<Node>>)
      requires i < |receivers| && Swapped(was, lists)
      modifies this, receivers, Childs(receivers)
      ensures Swapped(was, lists)
      ensures i < |receivers| && receivers == old(receivers)[i := receivers[i]]
      ensures fresh(receivers[i]) && receivers[i].codec == codec
    {
      assert forall c :: c in receivers[i].childs ==> c in Childs(receivers);
      ghost var before := receivers;
      var track := new Node(codec);
      MoveNode(track, receivers[i]);
      assert forall k :: 0 <= k < |before| && k != i ==> before[k] != before[i];
      receivers := receivers[i := track];
      assert forall k :: 0 <= k < |before| ==> receivers[k].childs == lists[k];
      assert forall k, c :: 0 <= k < |before| && c in lists[k] ==> c.parent == receivers[k];
      StillSwapped(was, lists, before, i);
    }

    lemma StillSwapped(was: seq<Node>, lists: seq<seq<Node>>, before: seq<Node>, i: nat)
      requires |before| == |receivers| == |was| == |lists| && i < |before| && Distinct(before)
      requires receivers == before[i := receivers[i]] && receivers[i] !in before
      requires forall k :: 0 <= k < |before| ==>
                 receivers[k].childs == lists[k] && receivers[k].parent == was[k].parent == null
      requires forall k, c :: 0 <= k < |before| && c in lists[k] ==> c.parent == receivers[k]
      requires forall k :: 0 <= k < |was| && receivers[k] != was[k] ==> was[k].childs == [] && receivers[k] !in was
      ensures Swapped(was, lists)
    {
      assert Distinct(receivers);
      forall r, c | r in receivers && c in r.childs ensures c in Childs(receivers) && c.parent == r {
        var k :| 0 <= k < |receivers| && receivers[k] == r;
        assert c in lists[k];
      }
    }

    /** One media of the new connection; `fails` says for which receivers the connection's GetTrack fails. */
    method TakeOver(media: Media, matches: (nat, nat) -> bool, fails: nat -> bool,
                    ghost was: seq<Node>, ghost lists: seq<seq<Node>>)
      returns (i: nat)
      requires media.recvonly && Swapped(was, lists)
      modifies this, receivers, Childs(receivers)
      ensures Swapped(was, lists) && |receivers| == old(|receivers|)
      ensures i == FirstTaken(media, CodecsOf(old(receivers)), matches, fails, 0)
      ensures if i == |receivers| then receivers == old(receivers)
              else
                && receivers == old(receivers)[i := receivers[i]] && fresh(receivers[i])
                && MatchCodec(media, CodecsOf(old(receivers))[i], matches) == Some(receivers[i].codec)
    {
      i := 0;
      while i < |receivers|
        invariant i <= |receivers| && receivers == old(receivers) && Swapped(was, lists)
        invariant forall r :: r in receivers ==> r.childs == old(r.childs)
        invariant FirstTaken(media, CodecsOf(old(receivers)), matches, fails, 0)
               == FirstTaken(media, CodecsOf(old(receivers)), matches, fails, i)
      {
        hide Swapped;
        var codec := MatchCodec(media, receivers[i].codec, matches);
        if codec == None {
          i := i + 1;
          continue;
        }
        if fails(i) {
          i := i + 1;
          continue;
        }
        ReplaceAt(i, codec.value, was, lists);
        return;
      }
    }

    /** The children of the receivers are those in the lists. */
    lemma SwappedChilds(was: seq<Node>, lists: seq<seq<Node>>)
      requires Swapped(was, lists)
      ensures Childs(receivers) == ListedIn(lists)
    {
      forall c | c in ListedIn(lists) ensures c in Childs(receivers) {
        var k :| 0 <= k < |lists| && c in lists[k];
        assert receivers[k] in receivers;
      }
    }

    /** The slots that the receivers fill, those not in `was` being new. */
    ghost predicate Fills(was: seq<Node>, s: Slots)
      reads this
    {
      && |receivers| == |was| == |s.replaced| && CodecsOf(receivers) == s.codecs
      && forall k :: 0 <= k < |was| ==> (s.replaced[k] <==> receivers[k] != was[k])
    }

    /** The loop over the medias of the new connection. */
    method SwapAll(medias: seq<Media>, matches: (nat, nat) -> bool, fails: (nat, nat) -> bool,
                   ghost lists: seq<seq<Node>>)
      returns (ghost stages: seq<seq<nat>>, ghost taken: seq<Option<nat>>)
      requires Swapped(receivers, lists)
      modifies this, receivers, Childs(receivers)
      ensures Swapped(old(receivers), lists)
      ensures forall k :: 0 <= k < |receivers| ==> receivers[k] == old(receivers)[k] || fresh(receivers[k])
      ensures Fills(old(receivers), AfterMedias(medias, matches, fails, |medias|, SlotsOf(old(receivers))))
      ensures AllTurn(medias, stages, taken, matches, fails)
      ensures stages[0] == CodecsOf(old(receivers)) && stages[|medias|] == CodecsOf(receivers)
      ensures forall k: nat :: k < |receivers| ==> (receivers[k] != old(receivers)[k] <==> Some(k) in taken)
    {
      hide Swapped, Childs, AfterMedia, FirstTaken, MatchCodec, Turns, AllTurn;
      SwappedChilds(receivers, lists);
      stages, taken := [CodecsOf(receivers)], [];
      NoTurns(medias, stages, matches, fails);
      for m: nat := 0 to |medias|
        invariant |receivers| == old(|receivers|) && Swapped(old(receivers), lists)
        invariant forall k :: 0 <= k < |receivers| ==> receivers[k] == old(receivers)[k] || fresh(receivers[k])
        invariant Fills(old(receivers), AfterMedias(medias, matches, fails, m, SlotsOf(old(receivers))))
        invariant |taken| == m && |stages| == m + 1 && AllTurn(medias[..m], stages, taken, matches, fails)
        invariant stages[0] == CodecsOf(old(receivers)) && stages[m] == CodecsOf(receivers)
        invariant forall k: nat :: k < |receivers| ==> (receivers[k] != old(receivers)[k] <==> Some(k) in taken)
      {
        ghost var took: Option<nat> := None;
        ghost var before := CodecsOf(receivers);
        AfterOne(medias, matches, fails, m, SlotsOf(old(receivers)));
        if medias[m].recvonly {
          SwappedChilds(old(receivers), lists);
          var i := TakeOver(medias[m], matches, (k: nat) => fails(m, k), old(receivers), lists);
          TakenTurns(medias[m], before, CodecsOf(receivers), i, matches, (k: nat) => fails(m, k));
          took := if i < |receivers| then Some(i) else None;
        } else {
          OtherTurns(medias[m], before, matches, (k: nat) => fails(m, k));
        }
        OneMoreTurn(medias, stages, taken, matches, fails, CodecsOf(receivers), took);
        stages, taken := stages + [CodecsOf(receivers)], taken + [took];
      }
      assert medias[..|medias|] == medias;
    }

    /** conn.Stop() of a connection with these receivers. */
    method StopConn(theirs: seq<Node>)
      requires forall r :: r in theirs ==> r.parent == null && r.Fostered()
      modifies theirs`childs
    {
      for i := 0 to |theirs|
        invariant forall r :: r in theirs ==> r.parent == null && r.Fostered()
      {
        theirs[i].CloseRoot();
      }
    }

    /**
     The loop, then the stop of the old connection.  Exactly the receivers that the new medias take over are replaced;
     each of those has passed its senders on, all of them and in order, they know their new parent, and the stop has
     not touched them; nor has it touched receivers that the old connection does not own.
     */
    method Swap(medias: seq<Media>, matches: (nat, nat) -> bool, fails: (nat, nat) -> bool, theirs: seq<Node>)
      returns (ghost stages: seq<seq<nat>>, ghost taken: seq<Option<nat>>)
      requires Roots(receivers)
      requires forall r :: r in theirs ==> r.parent == null && r.Fostered()
      modifies this, receivers, Childs(receivers), theirs
      ensures Fills(old(receivers), AfterMedias(medias, matches, fails, |medias|, SlotsOf(old(receivers))))
      ensures AllTurn(medias, stages, taken, matches, fails)
      ensures stages[0] == CodecsOf(old(receivers)) && stages[|medias|] == CodecsOf(receivers)
      ensures forall k: nat :: k < |receivers| ==> (receivers[k] != old(receivers)[k] <==> Some(k) in taken)
      ensures forall k :: 0 <= k < |receivers| ==> receivers[k] == old(receivers)[k] || fresh(receivers[k])
      ensures forall k :: 0 <= k < |receivers| && (receivers[k] != old(receivers)[k] || receivers[k] !in theirs) ==>
                receivers[k].childs == old(receivers[k].childs) && receivers[k].Fostered()
    {
      hide AllTurn, AfterMedias, CodecsOf;
      ghost var was := receivers;
      ghost var lists := ListsOf(receivers);
      stages, taken := SwapAll(medias, matches, fails, lists);
      assert forall r :: r in theirs && r !in was ==> r.parent == null && r.Fostered();
      WasAreFostered(was, lists);
      SwappedAt(was, lists);
      hide Swapped, Fills;
      StopConn(theirs);
    }

    /** The old receivers, replaced or not, are roots that their children know. */
    lemma WasAreFostered(was: seq<Node>, lists: seq<seq<Node>>)
      requires Swapped(was, lists)
      ensures forall r :: r in was ==> r.parent == null && r.Fostered()
    {
      forall r | r in was ensures r.parent == null && r.Fostered() {
        var k :| 0 <= k < |was| && was[k] == r;
        assert receivers[k] in receivers;
      }
    }

    lemma SwappedAt(was: seq<Node>, lists: seq<seq<Node>>)
      requires Swapped(was, lists)
      ensures |receivers| == |was| == |lists|
      ensures forall k :: 0 <= k < |was| ==> receivers[k].childs == lists[k] && receivers[k].Fostered()
    {
      assert forall k :: 0 <= k < |receivers| ==> receivers[k] in receivers;
    }
  }

  ghost function ListedIn(lists: seq<seq<Node>>): (cs: set<Node>)
  {
    set k, c | 0 <= k < |lists| && c in lists[k] :: c
  }
}
