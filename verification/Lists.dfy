/** Deleting the first occurrence of an element, as the source does with append(s[:i], s[i+1:]...). */
module Lists {
  function RemoveFirst<T(==)>(s: seq<T>, x: T): (r: seq<T>)
    ensures multiset(r) == multiset(s) - multiset{x}
  {
    if s == [] then []
    else
      assert s == [s[0]] + s[1..];
      if s[0] == x then s[1..] else [s[0]] + RemoveFirst(s[1..], x)
  }

  lemma {:induction false} RemoveFirstAt<T>(s: seq<T>, x: T, i: nat)
    requires i < |s| && s[i] == x && x !in s[..i]
    ensures RemoveFirst(s, x) == s[..i] + s[i + 1..]
  {
    if i > 0 {
      assert s[0] == s[..i][0];
      assert s[1..][..i - 1] == s[..i][1..];
      RemoveFirstAt(s[1..], x, i - 1);
    }
  }

  lemma {:induction false} RemoveFirstAbsent<T>(s: seq<T>, x: T)
    requires x !in s
    ensures RemoveFirst(s, x) == s
  {
    if s != [] {
      RemoveFirstAbsent(s[1..], x);
    }
  }

  /** The loop over the list that deletes at the first match. */
  method DropFirst<T(==)>(s: seq<T>, x: T) returns (left: seq<T>)
    ensures left == RemoveFirst(s, x)
  {
    for i := 0 to |s|
      invariant x !in s[..i]
    {
      if s[i] == x {
        RemoveFirstAt(s, x, i);
        return s[..i] + s[i + 1..];
      }
    }
    RemoveFirstAbsent(s, x);
    left := s;
  }
}
