/**
 Non-maximum suppression of detections (backend/pipeline/__init__.py) over the intersection-over-union of their boxes
 (backend/models/detection.py), in real arithmetic.
 */
module Nms {
  datatype Box = Box(x1: real, y1: real, x2: real, y2: real)

  /** `rest` stands for the fields that suppression does not look at. */
  datatype Detection = Detection(kind: nat, confidence: real, box: Box, rest: nat)

  function Max(a: real, b: real): (m: real)
  {
    if a < b then b else a
  }

  function Min(a: real, b: real): (m: real)
  {
    if b < a then b else a
  }

  function Area(a: Box): (area: real)
  {
    (a.x2 - a.x1) * (a.y2 - a.y1)
  }

  function Overlap(a: Box, b: Box): (o: Box)
  {
    Box(Max(a.x1, b.x1), Max(a.y1, b.y1), Min(a.x2, b.x2), Min(a.y2, b.y2))
  }

  function Iou(a: Box, b: Box): (r: real)
  {
    var o := Overlap(a, b);
    if o.x2 < o.x1 || o.y2 < o.y1 then 0.0
    else
      var union := Area(a) + Area(b) - Area(o);
      if union > 0.0 then Area(o) / union else 0.0
  }

  predicate WellFormed(a: Box) {
    a.x1 <= a.x2 && a.y1 <= a.y2
  }

  lemma IouSymmetric(a: Box, b: Box)
    ensures Iou(a, b) == Iou(b, a)
  {
    assert Overlap(a, b) == Overlap(b, a);
  }

  lemma ProductGrows(w: real, h: real, w': real, h': real)
    requires 0.0 <= w <= w' && 0.0 <= h <= h'
    ensures 0.0 <= w * h <= w' * h'
    ensures w * h == w' * h' && w' > 0.0 && h' > 0.0 ==> w == w' && h == h'
  {
    assert w * h <= w' * h;
    assert w' * h <= w' * h';
    if w * h == w' * h' && w' > 0.0 && h' > 0.0 {
      assert w' * (h' - h) == 0.0;
      assert h == h';
      assert (w' - w) * h == 0.0;
    }
  }

  /** The intersection of well-formed boxes is no larger than either of them. */
  lemma OverlapSmaller(a: Box, b: Box)
    requires WellFormed(a) && WellFormed(Overlap(a, b))
    ensures 0.0 <= Area(Overlap(a, b)) <= Area(a)
    ensures Area(a) > 0.0 && Area(Overlap(a, b)) == Area(a) ==> Overlap(a, b) == a
  {
    var o := Overlap(a, b);
    ProductGrows(o.x2 - o.x1, o.y2 - o.y1, a.x2 - a.x1, a.y2 - a.y1);
    if Area(a) > 0.0 {
      ProductSign(a.x2 - a.x1, a.y2 - a.y1);
    }
  }

  lemma ProductSign(w: real, h: real)
    requires w >= 0.0 && h >= 0.0 && w * h > 0.0
    ensures w > 0.0 && h > 0.0
  {
  }

  lemma QuotientRange(x: real, y: real)
    requires 0.0 <= x <= y && y > 0.0
    ensures 0.0 <= x / y <= 1.0
    ensures x / y == 1.0 <==> x == y
  {
    var q := x / y;
    assert q * y == x;
  }

  lemma IouInRange(a: Box, b: Box)
    requires WellFormed(a) && WellFormed(b)
    ensures 0.0 <= Iou(a, b) <= 1.0
  {
    var o := Overlap(a, b);
    if WellFormed(o) {
      OverlapSmaller(a, b);
      OverlapSmaller(b, a);
      assert Overlap(b, a) == o;
      var union := Area(a) + Area(b) - Area(o);
      if union > 0.0 {
        QuotientRange(Area(o), union);
      }
    }
  }

  /** Boxes with an area overlap completely only with themselves. */
  lemma IouOneIsEqual(a: Box, b: Box)
    requires WellFormed(a) && WellFormed(b) && Area(a) > 0.0 && Area(b) > 0.0
    ensures Iou(a, b) == 1.0 <==> a == b
  {
    var o := Overlap(a, b);
    assert Overlap(b, a) == o;
    if WellFormed(o) {
      OverlapSmaller(a, b);
      OverlapSmaller(b, a);
      QuotientRange(Area(o), Area(a) + Area(b) - Area(o));
    }
  }

  // What the quotient measures. Every pair of boxes with rational corners lies on a grid.

  datatype Grid = Grid(x1: int, y1: int, x2: int, y2: int)

  function Place(n: int, unit: real): (x: real)
  {
    n as real * unit
  }

  function CellArea(unit: real): (k: real)
    requires unit > 0.0
    ensures k > 0.0
  {
    SquarePositive(unit, unit * unit);
    unit * unit
  }

  /** The box on a grid of that unit. */
  function BoxOf(g: Grid, unit: real): (b: Box)
  {
    Box(Place(g.x1, unit), Place(g.y1, unit), Place(g.x2, unit), Place(g.y2, unit))
  }

  /** The cells of the grid that lie in the box. */
  function Cells(g: Grid): (s: set<(int, int)>)
  {
    set x: int, y: int | g.x1 <= x < g.x2 && g.y1 <= y < g.y2 :: (x, y)
  }

  function Column(x: int, lo: int, hi: int): (s: set<(int, int)>)
  {
    set y: int | lo <= y < hi :: (x, y)
  }

  lemma {:induction false} ColumnSize(x: int, lo: int, hi: int)
    requires lo <= hi
    ensures |Column(x, lo, hi)| == hi - lo
    decreases hi - lo
  {
    if lo < hi {
      ColumnSize(x, lo, hi - 1);
      assert Column(x, lo, hi) == Column(x, lo, hi - 1) + {(x, hi - 1)};
    }
  }

  lemma {:induction false} CellCount(g: Grid)
    requires g.x1 <= g.x2 && g.y1 <= g.y2
    ensures |Cells(g)| == (g.x2 - g.x1) * (g.y2 - g.y1)
    decreases g.x2 - g.x1
  {
    if g.x1 == g.x2 {
      assert Cells(g) == {};
    } else {
      var left := g.(x2 := g.x2 - 1);
      CellCount(left);
      ColumnSize(g.x2 - 1, g.y1, g.y2);
      LastColumn(g);
      hide Cells, Column;
      OneMore(left.x2 - g.x1, g.y2 - g.y1);
    }
  }

  lemma LastColumn(g: Grid)
    requires g.x1 < g.x2
    ensures var left, column := Cells(g.(x2 := g.x2 - 1)), Column(g.x2 - 1, g.y1, g.y2);
            Cells(g) == left + column && left !! column && |Cells(g)| == |left| + |column|
  {
    var left, column := Cells(g.(x2 := g.x2 - 1)), Column(g.x2 - 1, g.y1, g.y2);
    assert left !! column;
    assert Cells(g) == left + column;
  }

  lemma OneMore(w: int, h: int)
    ensures w * h + h == (w + 1) * h
  {
  }

  function Shared(a: Grid, b: Grid): (o: Grid)
  {
    Grid(if a.x1 < b.x1 then b.x1 else a.x1, if a.y1 < b.y1 then b.y1 else a.y1,
         if b.x2 < a.x2 then b.x2 else a.x2, if b.y2 < a.y2 then b.y2 else a.y2)
  }

  lemma Scales(m: int, n: int, unit: real)
    requires unit > 0.0
    ensures m <= n <==> Place(m, unit) <= Place(n, unit)
    ensures Max(Place(m, unit), Place(n, unit)) == Place(if m < n then n else m, unit)
    ensures Min(Place(m, unit), Place(n, unit)) == Place(if n < m then n else m, unit)
  {
    var d := n - m;
    assert d as real * unit == n as real * unit - m as real * unit;
    assert d >= 0 ==> d as real * unit >= 0.0;
    assert d < 0 ==> d as real * unit < 0.0;
  }

  lemma OverlapIsShared(a: Grid, b: Grid, unit: real)
    requires unit > 0.0
    ensures Overlap(BoxOf(a, unit), BoxOf(b, unit)) == BoxOf(Shared(a, b), unit)
  {
    hide Max, Min, Place;
    Scales(a.x1, b.x1, unit);
    Scales(a.y1, b.y1, unit);
    Scales(a.x2, b.x2, unit);
    Scales(a.y2, b.y2, unit);
  }

  lemma WellFormedOnGrid(g: Grid, unit: real)
    requires unit > 0.0
    ensures WellFormed(BoxOf(g, unit)) <==> g.x1 <= g.x2 && g.y1 <= g.y2
  {
    hide Place;
    Scales(g.x1, g.x2, unit);
    Scales(g.y1, g.y2, unit);
  }

  lemma SideOfGrid(lo: int, hi: int, unit: real)
    ensures Place(hi, unit) - Place(lo, unit) == (hi - lo) as real * unit
  {
  }

  lemma ProductOfSides(w: int, h: int, unit: real)
    ensures (w as real * unit) * (h as real * unit) == (w * h) as real * (unit * unit)
  {
    assert (w * h) as real == w as real * h as real;
    assert (w as real * unit) * (h as real * unit) == (w as real * h as real) * (unit * unit);
  }

  lemma AreaOfGrid(g: Grid, unit: real)
    requires g.x1 <= g.x2 && g.y1 <= g.y2 && unit > 0.0
    ensures Area(BoxOf(g, unit)) == |Cells(g)| as real * CellArea(unit)
  {
    hide Cells, Place;
    CellCount(g);
    SideOfGrid(g.x1, g.x2, unit);
    SideOfGrid(g.y1, g.y2, unit);
    ProductOfSides(g.x2 - g.x1, g.y2 - g.y1, unit);
  }

  lemma Cancel(n: nat, m: nat, k: real)
    requires k > 0.0 && n <= m
    ensures var r := if m as real * k <= 0.0 then 0.0 else (n as real * k) / (m as real * k);
            r * m as real == n as real && (m == 0 ==> r == 0.0)
  {
    if m > 0 {
      MultiplePositive(m as real, k);
      Quotient(n as real, m as real, k);
    } else {
      assert m as real * k == 0.0;
    }
  }

  lemma SquarePositive(x: real, k: real)
    requires x > 0.0 && k == x * x
    ensures k > 0.0
  {
    assert k / x == x;
  }

  lemma MultiplePositive(x: real, y: real)
    requires x > 0.0 && y > 0.0
    ensures x * y > 0.0
  {
  }

  lemma Quotient(n: real, m: real, k: real)
    requires k > 0.0 && m > 0.0 && m * k > 0.0
    ensures (n * k) / (m * k) * m == n
  {
    var q := (n * k) / (m * k);
    assert q * (m * k) == n * k;
    assert (q * m - n) * k == 0.0;
  }

  lemma SumScaled(x: int, y: int, z: int, k: real)
    ensures x as real * k + y as real * k - z as real * k == (x + y - z) as real * k
  {
  }

  lemma IouOf(a: Box, b: Box)
    ensures var o := Overlap(a, b);
            Iou(a, b) == if !WellFormed(o) || Area(a) + Area(b) - Area(o) <= 0.0 then 0.0
                         else Area(o) / (Area(a) + Area(b) - Area(o))
  {
  }

  /** The quotient is the number of cells in both boxes by the number of cells in either of them. */
  lemma IouCountsCells(a: Grid, b: Grid, unit: real)
    requires unit > 0.0 && a.x1 <= a.x2 && a.y1 <= a.y2 && b.x1 <= b.x2 && b.y1 <= b.y2
    ensures var r := Iou(BoxOf(a, unit), BoxOf(b, unit));
            && r * |Cells(a) + Cells(b)| as real == |Cells(a) * Cells(b)| as real
            && (Cells(a) + Cells(b) == {} ==> r == 0.0)
  {
    hide *;
    var o := Shared(a, b);
    IouOf(BoxOf(a, unit), BoxOf(b, unit));
    OverlapIsShared(a, b, unit);
    WellFormedOnGrid(o, unit);
    SharedCells(a, b);
    if o.x1 <= o.x2 && o.y1 <= o.y2 {
      AreaOfGrid(a, unit);
      AreaOfGrid(b, unit);
      AreaOfGrid(o, unit);
      var n, m := |Cells(o)|, |Cells(a) + Cells(b)|;
      Counts(Cells(a), Cells(b));
      SumScaled(|Cells(a)|, |Cells(b)|, n, CellArea(unit));
      Cancel(n, m, CellArea(unit));
    }
  }

  lemma Counts<T>(a: set<T>, b: set<T>)
    ensures |a + b| == |a| + |b| - |a * b| && |a * b| <= |a + b|
  {
    Smaller(a * b, a + b);
  }

  lemma {:induction false} Smaller<T>(a: set<T>, b: set<T>)
    requires a <= b
    ensures |a| <= |b|
  {
    if x :| x in a {
      Smaller(a - {x}, b - {x});
    }
  }

  lemma SharedCells(a: Grid, b: Grid)
    ensures Cells(a) * Cells(b) == Cells(Shared(a, b))
    ensures Shared(a, b).x1 > Shared(a, b).x2 || Shared(a, b).y1 > Shared(a, b).y2 ==> Cells(a) * Cells(b) == {}
  {
  }

  // The stable sort by confidence, descending.

  /** x goes before all that are not more confident. */
  function Insert(x: Detection, s: seq<Detection>): (r: seq<Detection>)
  {
    if s == [] || s[0].confidence <= x.confidence then [x] + s else [s[0]] + Insert(x, s[1..])
  }

  function Sorted(ds: seq<Detection>): (r: seq<Detection>)
  {
    if ds == [] then [] else Insert(ds[0], Sorted(ds[1..]))
  }

  predicate Descending(s: seq<Detection>) {
    forall i, j :: 0 <= i < j < |s| ==> s[i].confidence >= s[j].confidence
  }

  /** Those of one confidence, in order. */
  function Level(s: seq<Detection>, c: real): (r: seq<Detection>)
  {
    if s == [] then [] else (if s[0].confidence == c then [s[0]] else []) + Level(s[1..], c)
  }

  lemma {:induction false} InsertAdds(x: Detection, s: seq<Detection>)
    ensures multiset(Insert(x, s)) == multiset{x} + multiset(s)
    ensures forall j :: 0 <= j < |Insert(x, s)| ==> Insert(x, s)[j] == x || Insert(x, s)[j] in s
  {
    if s != [] && s[0].confidence > x.confidence {
      InsertAdds(x, s[1..]);
      assert s == [s[0]] + s[1..];
    }
  }

  lemma {:induction false} InsertSorts(x: Detection, s: seq<Detection>)
    requires Descending(s)
    ensures Descending(Insert(x, s))
  {
    if s != [] && s[0].confidence > x.confidence {
      InsertSorts(x, s[1..]);
      InsertAdds(x, s[1..]);
      var t := Insert(x, s[1..]);
      assert forall j :: 0 <= j < |t| ==> t[j].confidence <= s[0].confidence;
    }
  }

  lemma LevelCons(x: Detection, s: seq<Detection>, c: real)
    ensures Level([x] + s, c) == if x.confidence == c then [x] + Level(s, c) else Level(s, c)
  {
    assert ([x] + s)[1..] == s;
  }

  lemma {:induction false} InsertLevel(x: Detection, s: seq<Detection>, c: real)
    requires Descending(s)
    ensures Level(Insert(x, s), c) == Level([x] + s, c)
  {
    hide Level;
    if s != [] && s[0].confidence > x.confidence {
      InsertLevel(x, s[1..], c);
      assert s == [s[0]] + s[1..];
      LevelCons(s[0], Insert(x, s[1..]), c);
      LevelCons(s[0], s[1..], c);
      LevelCons(x, s[1..], c);
      LevelCons(x, s, c);
    }
  }

  /** Sorted is a stable descending sort. */
  lemma {:induction false} SortedSorts(ds: seq<Detection>)
    ensures Descending(Sorted(ds)) && multiset(Sorted(ds)) == multiset(ds)
    ensures forall c :: Level(Sorted(ds), c) == Level(ds, c)
  {
    if ds != [] {
      SortedSorts(ds[1..]);
      InsertSorts(ds[0], Sorted(ds[1..]));
      InsertAdds(ds[0], Sorted(ds[1..]));
      assert ds == [ds[0]] + ds[1..];
      forall c ensures Level(Sorted(ds), c) == Level(ds, c) {
        InsertLevel(ds[0], Sorted(ds[1..]), c);
      }
    }
  }

  lemma {:induction false} LevelNone(s: seq<Detection>, c: real)
    requires forall j :: 0 <= j < |s| ==> s[j].confidence < c
    ensures Level(s, c) == []
  {
    if s != [] {
      LevelNone(s[1..], c);
    }
  }

  lemma LowerHead(s: seq<Detection>, t: seq<Detection>)
    requires Descending(t) && s != [] && t != [] && Level(s, s[0].confidence) == Level(t, s[0].confidence)
    ensures t[0].confidence >= s[0].confidence
  {
    hide Level;
    var c := s[0].confidence;
    NonEmptyLevel(s);
    if t[0].confidence < c {
      LevelNone(t, c);
    }
  }

  /** A descending list is determined by its levels, so there is only one stable descending sort. */
  lemma {:induction false} LevelsDetermine(s: seq<Detection>, t: seq<Detection>)
    requires Descending(s) && Descending(t)
    requires forall c :: Level(s, c) == Level(t, c)
    ensures s == t
  {
    hide Level;
    if s == [] && t != [] {
      NoLevel(t[0].confidence);
      NonEmptyLevel(t);
    } else if s != [] && t == [] {
      NoLevel(s[0].confidence);
      NonEmptyLevel(s);
    } else if s != [] {
      LowerHead(s, t);
      LowerHead(t, s);
      NonEmptyLevel(s);
      NonEmptyLevel(t);
      assert s[0] == t[0];
      assert s == [s[0]] + s[1..] && t == [t[0]] + t[1..];
      forall c ensures Level(s[1..], c) == Level(t[1..], c) {
        LevelCons(s[0], s[1..], c);
        LevelCons(t[0], t[1..], c);
        assert s[0].confidence == c ==> Level(s, c)[1..] == Level(s[1..], c) && Level(t, c)[1..] == Level(t[1..], c);
      }
      LevelsDetermine(s[1..], t[1..]);
    }
  }

  lemma NoLevel(c: real)
    ensures Level([], c) == []
  {
  }

  lemma NonEmptyLevel(s: seq<Detection>)
    requires s != []
    ensures Level(s, s[0].confidence) != [] && Level(s, s[0].confidence)[0] == s[0]
  {
    assert s == [s[0]] + s[1..];
    LevelCons(s[0], s[1..], s[0].confidence);
  }

  lemma SortedOfDescending(s: seq<Detection>)
    requires Descending(s)
    ensures Sorted(s) == s
  {
    SortedSorts(s);
    LevelsDetermine(Sorted(s), s);
  }

  // Suppression.

  predicate Suppresses(kept: Detection, det: Detection, threshold: real) {
    det.kind == kept.kind && Iou(det.box, kept.box) > threshold
  }

  /** A detection is kept when none that is kept before it suppresses it. */
  predicate Kept(s: seq<Detection>, i: nat, threshold: real)
    requires i < |s|
    decreases i
  {
    forall j: nat :: j < i && Kept(s, j, threshold) ==> !Suppresses(s[j], s[i], threshold)
  }

  function KeptOf(s: seq<Detection>, n: nat, threshold: real): (r: seq<Detection>)
    requires n <= |s|
  {
    if n == 0 then []
    else KeptOf(s, n - 1, threshold) + if Kept(s, n - 1, threshold) then [s[n - 1]] else []
  }

  function Suppressed(ds: seq<Detection>, threshold: real): (r: seq<Detection>)
  {
    KeptOf(Sorted(ds), |Sorted(ds)|, threshold)
  }

  method ApplyNms(detections: seq<Detection>, threshold: real) returns (keep: seq<Detection>)
    ensures keep == Suppressed(detections, threshold)
  {
    hide Sorted, Kept, Iou;
    keep := [];
    if detections == [] {
      SortedNone();
      return;
    }
    var sorted := Sorted(detections);
    for i := 0 to |sorted|
      invariant keep == KeptOf(sorted, i, threshold)
    {
      var det := sorted[i];
      var overlaps := false;
      for k := 0 to |keep|
        invariant overlaps <==> exists m :: 0 <= m < k && Suppresses(keep[m], det, threshold)
      {
        if det.kind != keep[k].kind {
          continue;
        }
        if Iou(det.box, keep[k].box) > threshold {
          overlaps := true;
          break;
        }
      }
      KeptByList(sorted, i, threshold);
      if !overlaps {
        keep := keep + [det];
      }
    }
  }

  lemma SortedNone()
    ensures Sorted([]) == []
  {
  }

  /** Where a kept detection stands in the list. */
  lemma {:induction false} KeptStands(s: seq<Detection>, n: nat, threshold: real, j: nat) returns (m: nat)
    requires j < n <= |s| && Kept(s, j, threshold)
    ensures m < |KeptOf(s, n, threshold)| && KeptOf(s, n, threshold)[m] == s[j]
  {
    hide Kept;
    if j == n - 1 {
      m := |KeptOf(s, n - 1, threshold)|;
    } else {
      m := KeptStands(s, n - 1, threshold, j);
    }
  }

  /** Where one of the list stood. */
  lemma {:induction false} KeptStood(s: seq<Detection>, n: nat, threshold: real, m: nat) returns (j: nat)
    requires n <= |s| && m < |KeptOf(s, n, threshold)|
    ensures j < n && Kept(s, j, threshold) && s[j] == KeptOf(s, n, threshold)[m]
  {
    hide Kept;
    if m == |KeptOf(s, n - 1, threshold)| {
      j := n - 1;
    } else {
      j := KeptStood(s, n - 1, threshold, m);
    }
  }

  lemma KeptByList(s: seq<Detection>, i: nat, threshold: real)
    requires i < |s|
    ensures Kept(s, i, threshold) <==>
            !exists m :: 0 <= m < |KeptOf(s, i, threshold)| && Suppresses(KeptOf(s, i, threshold)[m], s[i], threshold)
  {
    hide KeptOf, Suppresses;
    var r := KeptOf(s, i, threshold);
    if Kept(s, i, threshold) {
      forall m | 0 <= m < |r| ensures !Suppresses(r[m], s[i], threshold) {
        var j := KeptStood(s, i, threshold, m);
      }
    } else {
      var j: nat :| j < i && Kept(s, j, threshold) && Suppresses(s[j], s[i], threshold);
      var m := KeptStands(s, i, threshold, j);
      assert Suppresses(r[m], s[i], threshold);
    }
  }

  predicate SubList(a: seq<Detection>, b: seq<Detection>)
    decreases |b|
  {
    a == [] || (b != [] && (SubList(a, b[..|b| - 1]) || (a[|a| - 1] == b[|b| - 1] && SubList(a[..|a| - 1], b[..|b| - 1]))))
  }

  lemma {:induction false} KeptIsSubList(s: seq<Detection>, n: nat, threshold: real)
    requires n <= |s|
    ensures SubList(KeptOf(s, n, threshold), s[..n])
  {
    hide Kept;
    if n > 0 {
      KeptIsSubList(s, n - 1, threshold);
      assert s[..n][..n - 1] == s[..n - 1];
      var r := KeptOf(s, n - 1, threshold);
      if Kept(s, n - 1, threshold) {
        assert (r + [s[n - 1]])[..|r|] == r;
      } else {
        assert KeptOf(s, n, threshold) == r;
      }
    }
  }

  /** The kept ones stand in the order of the sort, none of them suppressed by an earlier one. */
  lemma {:induction false} KeptSound(s: seq<Detection>, n: nat, threshold: real)
    requires n <= |s| && Descending(s)
    ensures var r := KeptOf(s, n, threshold);
            && Descending(r)
            && (forall i, j :: 0 <= i < j < |r| ==> !Suppresses(r[i], r[j], threshold))
  {
    hide Kept, Suppresses;
    if n > 0 {
      KeptSound(s, n - 1, threshold);
      KeptByList(s, n - 1, threshold);
      var r := KeptOf(s, n - 1, threshold);
      forall m | 0 <= m < |r| ensures r[m].confidence >= s[n - 1].confidence {
        var j := KeptStood(s, n - 1, threshold, m);
      }
    }
  }

  /** The result: a sub-list of the sort, in which no two boxes of one type overlap above the threshold. */
  lemma SuppressionIsSound(ds: seq<Detection>, threshold: real)
    ensures var r := Suppressed(ds, threshold);
            && SubList(r, Sorted(ds)) && Descending(r)
            && forall i, j :: 0 <= i < |r| && 0 <= j < |r| && i != j && r[i].kind == r[j].kind ==>
                 Iou(r[i].box, r[j].box) <= threshold
  {
    hide KeptOf, Sorted, Kept, Iou;
    var s := Sorted(ds);
    SortedSorts(ds);
    KeptIsSubList(s, |s|, threshold);
    assert s[..|s|] == s;
    KeptSound(s, |s|, threshold);
    var r := Suppressed(ds, threshold);
    forall i, j | 0 <= i < |r| && 0 <= j < |r| && i != j && r[i].kind == r[j].kind
      ensures Iou(r[i].box, r[j].box) <= threshold
    {
      IouSymmetric(r[i].box, r[j].box);
      assert !Suppresses(r[if i < j then i else j], r[if i < j then j else i], threshold);
    }
  }

  /** Every detection is kept, or gave way to a kept one of its type that is no less confident. */
  lemma SuppressionIsMaximal(ds: seq<Detection>, threshold: real, d: Detection)
    requires d in ds
    ensures var r := Suppressed(ds, threshold);
            d in r || exists k :: k in r && k.kind == d.kind && Iou(d.box, k.box) > threshold && k.confidence >= d.confidence
  {
    hide KeptOf, Sorted, Iou;
    var s := Sorted(ds);
    SortedSorts(ds);
    assert d in multiset(s);
    var i: nat :| i < |s| && s[i] == d;
    if Kept(s, i, threshold) {
      var m := KeptStands(s, |s|, threshold, i);
    } else {
      var j: nat :| j < i && Kept(s, j, threshold) && Suppresses(s[j], s[i], threshold);
      var m := KeptStands(s, |s|, threshold, j);
      assert s[j] in Suppressed(ds, threshold);
    }
  }

  lemma {:induction false} KeepsAll(s: seq<Detection>, n: nat, threshold: real)
    requires n <= |s|
    requires forall i, j :: 0 <= i < j < |s| ==> !Suppresses(s[i], s[j], threshold)
    ensures KeptOf(s, n, threshold) == s[..n]
  {
    hide Suppresses;
    if n > 0 {
      KeepsAll(s, n - 1, threshold);
      assert s[..n] == s[..n - 1] + [s[n - 1]];
    }
  }

  lemma SuppressionIsIdempotent(ds: seq<Detection>, threshold: real)
    ensures Suppressed(Suppressed(ds, threshold), threshold) == Suppressed(ds, threshold)
  {
    hide KeptOf, Sorted, Suppresses;
    SortedSorts(ds);
    var s := Sorted(ds);
    KeptSound(s, |s|, threshold);
    var r := Suppressed(ds, threshold);
    SortedOfDescending(r);
    KeepsAll(r, |r|, threshold);
    assert r[..|r|] == r;
  }

  /** There is only one choice that keeps exactly those that no earlier kept one suppresses. */
  lemma {:induction false} ChoiceIsUnique(s: seq<Detection>, flags: seq<bool>, threshold: real, i: nat)
    requires |flags| == |s| && i < |s|
    requires forall k: nat :: k < |s| ==>
               (flags[k] <==> forall j: nat :: j < k && flags[j] && s[j].kind == s[k].kind ==>
                                Iou(s[k].box, s[j].box) <= threshold)
    ensures flags[i] <==> Kept(s, i, threshold)
    decreases i
  {
    hide Iou;
    forall j: nat | j < i ensures flags[j] <==> Kept(s, j, threshold) {
      ChoiceIsUnique(s, flags, threshold, j);
    }
  }
}
