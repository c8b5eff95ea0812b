/**
 The graph of receivers and senders (pkg/core/node.go) and what a reconnect does to it
 (internal/streams/producer.go): each replaced receiver hands its senders to the new connection's receiver, and the old
 connection is then stopped.
 */
module Nodes {
  import opened Lists

  ghost predicate Distinct(s: seq<Node>) {
    forall i, j :: 0 <= i < j < |s| ==> s[i] != s[j]
  }

  class Node {
    const codec: nat
    var childs: seq<Node>
    var parent: Node?

    constructor (codec: nat)
      ensures this.codec == codec && childs == [] && parent == null
    {
      this.codec, childs, parent := codec, [], null;
    }

    /** Every child knows this node as its parent. */
    ghost predicate Fostered()
      reads this, childs
    {
      forall c :: c in childs ==> c.parent == this
    }

    method AppendChild(child: Node)
      modifies this`childs, child`parent
      ensures childs == old(childs) + [child]
      ensures child.parent == this
    {
      childs := childs + [child];
      child.parent := this;
    }

    method RemoveChild(child: Node)
      modifies this`childs
      ensures childs == RemoveFirst(old(childs), child)
    {
      childs := DropFirst(childs, child);
    }

    /** Close of a node whose parent is a root; a root that it leaves without children has nothing to close. */
    method CloseChild()
      requires parent != null && parent.parent == null
      modifies parent`childs
      ensures parent.childs == RemoveFirst(old(parent.childs), this)
    {
      parent.RemoveChild(this);
    }

    /**
     Close of a root.  The range walks over the backing array of childs while every child that closes shifts that
     array in place, so of three or more distinct children every second one is passed over and stays attached.
     */
    method CloseRoot()
      requires parent == null && Fostered()
      modifies this`childs
      ensures forall c :: c in childs ==> c in old(childs)
      ensures |old(childs)| <= 2 ==> childs == []
      ensures Distinct(old(childs)) ==> childs == PassedOver(old(childs))
    {
      hide Ranging, Alternating, PassedOver, Shifted, RemoveFirst, Distinct;
      var slots := childs;
      ghost var was := childs;
      RangingStarts(was);
      AlternatingStarts(was);
      for k := 0 to |slots|
        invariant forall c :: c in was ==> c.parent == this
        invariant |childs| <= |slots| == |was| && childs == slots[..|childs|]
        invariant Ranging(was, slots, |childs|, k)
        invariant Distinct(was) ==> Alternating(was, slots, |childs|, k)
      {
        var child, len := slots[k], |childs|;
        var i := IndexOf(childs, child);
        RangingStep(was, slots, len, k, i);
        if Distinct(was) {
          AlternatingStep(was, slots, len, k, i);
        }
        ShiftedRemoves(slots, len, child, i);
        ghost var left := RemoveFirst(childs, child);
        child.CloseChild();
        assert childs == left;
        if i < len {
          slots := Shifted(slots, len, i);
        }
      }
      RangingEnds(was, slots, |childs|);
      if Distinct(was) {
        AlternatingEnds(was, slots, |childs|);
      }
    }
  }

  /** The array of a slice of the given length after append(s[:i], s[i+1:]...): the last slot keeps its value. */
  function Shifted(slots: seq<Node>, len: nat, i: nat): (r: seq<Node>)
    requires i < len <= |slots|
    ensures |r| == |slots|
  {
    slots[..i] + slots[i + 1..len] + slots[len - 1..]
  }

  /** After k steps of the range over the array of `was`. */
  ghost predicate Ranging(was: seq<Node>, slots: seq<Node>, len: nat, k: nat) {
    && len <= |slots| == |was|
    && (forall j :: 0 <= j < |slots| ==> slots[j] in was)
    && (k == 0 ==> slots == was && len == |was|)
    && (|was| == 2 && k == 1 ==> len == 1 && slots == [was[1], was[1]])
    && (|was| <= 2 && k == |was| ==> len == 0)
  }

  lemma RangingStep(was: seq<Node>, slots: seq<Node>, len: nat, k: nat, i: nat)
    requires Ranging(was, slots, len, k) && k < |was|
    requires i <= len && slots[k] !in slots[..i] && (i < len ==> slots[i] == slots[k])
    ensures slots[k] in was
    ensures i < len ==> Ranging(was, Shifted(slots, len, i), len - 1, k + 1)
    ensures i == len ==> Ranging(was, slots, len, k + 1)
  {
    assert i > 0 ==> slots[k] != slots[0] by {
      assert i > 0 ==> slots[0] in slots[..i];
    }
  }

  lemma ShiftedRemoves(slots: seq<Node>, len: nat, x: Node, i: nat)
    requires i <= len <= |slots| && x !in slots[..i] && (i < len ==> slots[i] == x)
    ensures i < len ==> RemoveFirst(slots[..len], x) == Shifted(slots, len, i)[..len - 1]
    ensures i == len ==> RemoveFirst(slots[..len], x) == slots[..len]
  {
    assert slots[..len][..i] == slots[..i];
    if i < len {
      RemoveFirstAt(slots[..len], x, i);
      assert slots[..len][i + 1..] == slots[i + 1..len];
    } else {
      RemoveFirstAbsent(slots[..len], x);
    }
  }

  lemma RangingStarts(was: seq<Node>)
    ensures Ranging(was, was, |was|, 0)
  {
  }

  /** What is left of the children when the range has ended. */
  lemma RangingEnds(was: seq<Node>, slots: seq<Node>, len: nat)
    requires Ranging(was, slots, len, |was|)
    ensures |was| <= 2 ==> len == 0
    ensures forall x :: x in slots[..len] ==> x in was
  {
  }

  /** The second, the fourth and so on, but never the last. */
  function PassedOver(was: seq<Node>): (left: seq<Node>)
    ensures |left| == if was == [] then 0 else (|was| - 1) / 2
    ensures forall j :: 0 <= j < |left| ==> left[j] == was[2 * j + 1]
  {
    seq(if was == [] then 0 else (|was| - 1) / 2, j requires 0 <= j && 2 * j + 1 < |was| => was[2 * j + 1])
  }

  /**
   After k steps over distinct children: those passed over in front, then the rest, shifted by k, and behind them copies
   of the last; once that is closed only those passed over are left.
   */
  ghost predicate Alternating(was: seq<Node>, slots: seq<Node>, len: nat, k: nat) {
    var n := |was|;
    && |slots| == n && len <= n && k <= n
    && if 2 * k <= n then
         && len == n - k
         && (forall j :: 0 <= j < k ==> slots[j] == was[2 * j + 1])
         && (forall j :: k <= j < n ==> slots[j] == was[if j + k < n then j + k else n - 1])
       else
         && len == (n - 1) / 2
         && (forall j :: 0 <= j < len ==> slots[j] == was[2 * j + 1])
         && (forall j :: k <= j < n ==> slots[j] == was[n - 1])
  }

  lemma AlternatingStarts(was: seq<Node>)
    ensures Alternating(was, was, |was|, 0)
  {
  }

  /** In the first half the child at hand is closed. */
  lemma ClosesNext(was: seq<Node>, slots: seq<Node>, len: nat, k: nat)
    requires Alternating(was, slots, len, k) && 2 * k < |was|
    ensures k < len && Alternating(was, Shifted(slots, len, k), len - 1, k + 1)
  {
    var n, next := |was|, Shifted(slots, len, k);
    assert forall j :: 0 <= j < k ==> next[j] == slots[j];
    assert forall j :: k <= j < len - 1 ==> next[j] == slots[j + 1];
    assert forall j :: len - 1 <= j < n ==> next[j] == slots[j];
  }

  /** Half way through an even number the last one is closed. */
  lemma ClosesLast(was: seq<Node>, slots: seq<Node>, len: nat, k: nat)
    requires Alternating(was, slots, len, k) && 2 * k == |was| && k > 0
    ensures len == k && Alternating(was, Shifted(slots, len, k - 1), len - 1, k + 1)
  {
    var n, next := |was|, Shifted(slots, len, k - 1);
    assert forall j :: 0 <= j < k - 1 ==> next[j] == slots[j];
    assert forall j :: k - 1 <= j < n ==> next[j] == slots[j];
  }

  lemma IndexUnique(slots: seq<Node>, len: nat, x: Node, i: nat, at: nat)
    requires i <= len <= |slots| && x !in slots[..i] && (i < len ==> slots[i] == x)
    requires at < len && slots[at] == x && forall j :: 0 <= j < at ==> slots[j] != x
    ensures i == at
  {
    assert forall j :: 0 <= j < i ==> slots[..i][j] == slots[j];
  }

  lemma AlternatingStep(was: seq<Node>, slots: seq<Node>, len: nat, k: nat, i: nat)
    requires Distinct(was) && Alternating(was, slots, len, k) && k < |was|
    requires i <= len && slots[k] !in slots[..i] && (i < len ==> slots[i] == slots[k])
    ensures i < len ==> Alternating(was, Shifted(slots, len, i), len - 1, k + 1)
    ensures i == len ==> Alternating(was, slots, len, k + 1)
  {
    hide Shifted;
    if 2 * k < |was| {
      ClosesNext(was, slots, len, k);
      assert slots[k] == was[2 * k];
      IndexUnique(slots, len, slots[k], i, k);
    } else if 2 * k == |was| {
      ClosesLast(was, slots, len, k);
      assert slots[k] == was[|was| - 1] == slots[k - 1];
      IndexUnique(slots, len, slots[k], i, k - 1);
    } else {
      assert forall j :: 0 <= j < len ==> slots[j] == was[2 * j + 1] != slots[k];
    }
  }

  lemma AlternatingEnds(was: seq<Node>, slots: seq<Node>, len: nat)
    requires Alternating(was, slots, len, |was|)
    ensures len <= |slots| && slots[..len] == PassedOver(was)
  {
  }

  method IndexOf(s: seq<Node>, x: Node) returns (i: nat)
    ensures i <= |s| && x !in s[..i] && (i < |s| ==> s[i] == x)
  {
    i := 0;
    while i < |s| && s[i] != x
      invariant i <= |s| && x !in s[..i]
    {
      i := i + 1;
    }
  }

  method MoveNode(dst: Node, src: Node)
    modifies src`childs, dst`childs, src.childs`parent
    ensures dst.childs == old(src.childs)
    ensures src != dst ==> src.childs == []
    ensures forall c :: c in old(src.childs) ==> c.parent == dst
    ensures forall c: Node :: allocated(c) && !fresh(c) && c !in old(src.childs) ==> c.parent == old(c.parent)
  {
    var childs := src.childs;
    src.childs := [];
    dst.childs := childs;
    for i := 0 to |childs|
      invariant forall j :: 0 <= j < i ==> childs[j].parent == dst
      invariant dst.childs == childs && (src != dst ==> src.childs == [])
      invariant forall c: Node :: allocated(c) && !fresh(c) && c !in childs ==> c.parent == old(c.parent)
    {
      childs[i].parent := dst;
    }
  }
}
