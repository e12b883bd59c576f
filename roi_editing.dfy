/** The region-of-interest polygon of the people-counter page and the edits
    the user makes to it on the video image: the default inset rectangle,
    dragging a vertex, dropping a new vertex from an edge midpoint, and
    deleting a vertex. Coordinates are image pixels. */
module RoiEditing {

  datatype Point = Point(x: real, y: real)

  /** Inset of the default rectangle from the image border. */
  const DefaultPad: real := 50.0

  /** Minimum number of vertices a right-click deletion leaves. */
  const MinVertices: nat := 3

  /** `Math.max(0, Math.min(hi, v))`. */
  function Clamp(v: real, hi: real): (r: real)
    ensures hi >= 0.0 ==> 0.0 <= r <= hi
    ensures 0.0 <= v <= hi ==> r == v
    ensures hi < 0.0 ==> r == 0.0
  {
    if hi <= v then (if hi >= 0.0 then hi else 0.0)
    else if v >= 0.0 then v
    else 0.0
  }

  /** A point moved into the image `[0, w] x [0, h]`. */
  function ClampPoint(p: Point, w: real, h: real): (r: Point)
    ensures w >= 0.0 && h >= 0.0 ==> Inside(r, w, h)
    ensures Inside(p, w, h) ==> r == p
  {
    Point(Clamp(p.x, w), Clamp(p.y, h))
  }

  predicate Inside(p: Point, w: real, h: real)
  {
    0.0 <= p.x <= w && 0.0 <= p.y <= h
  }

  predicate AllInside(pts: seq<Point>, w: real, h: real)
  {
    forall i :: 0 <= i < |pts| ==> Inside(pts[i], w, h)
  }

  /** `getDefaultRoiPoints`: the rectangle inset by 50 pixels, clockwise from
      the top-left corner. */
  function DefaultRoi(w: real, h: real): (r: seq<Point>)
    ensures |r| == 4
    ensures r[0] == Point(DefaultPad, DefaultPad) && r[2] == Point(w - DefaultPad, h - DefaultPad)
    ensures r[1].y == r[0].y && r[1].x == r[2].x
    ensures r[3].x == r[0].x && r[3].y == r[2].y
  {
    [Point(DefaultPad, DefaultPad), Point(w - DefaultPad, DefaultPad),
     Point(w - DefaultPad, h - DefaultPad), Point(DefaultPad, h - DefaultPad)]
  }

  /** The default rectangle lies in the image exactly when both sides are at
      least 50 pixels, and it is a proper clockwise rectangle exactly when
      both sides exceed 100 pixels; in between its corners cross over. */
  lemma DefaultRoiInside(w: real, h: real)
    ensures AllInside(DefaultRoi(w, h), w, h) <==> w >= DefaultPad && h >= DefaultPad
    ensures (DefaultRoi(w, h)[0].x < DefaultRoi(w, h)[1].x && DefaultRoi(w, h)[1].y < DefaultRoi(w, h)[2].y)
              <==> w > 2.0 * DefaultPad && h > 2.0 * DefaultPad
  {
    var r := DefaultRoi(w, h);
    if AllInside(r, w, h) {
      assert Inside(r[0], w, h) && Inside(r[2], w, h);
    } else if w >= DefaultPad && h >= DefaultPad {
      assert Inside(r[0], w, h) && Inside(r[1], w, h) && Inside(r[2], w, h) && Inside(r[3], w, h);
      assert false;
    }
  }

  /** The pointer-move edit: the dragged vertex takes the clamped pointer
      position. An index outside the polygon changes nothing. */
  function MoveVertex(pts: seq<Point>, i: int, p: Point, w: real, h: real): (r: seq<Point>)
    ensures |r| == |pts|
    ensures 0 <= i < |pts| ==> r[i] == ClampPoint(p, w, h)
    ensures forall j :: 0 <= j < |pts| && j != i ==> r[j] == pts[j]
  {
    if 0 <= i < |pts| then pts[i := ClampPoint(p, w, h)] else pts
  }

  /** Where `Array.prototype.splice` inserts for a start index `k >= 0`. */
  function SpliceIndex(pts: seq<Point>, k: nat): (j: nat)
    ensures j <= |pts|
    ensures k <= |pts| ==> j == k
  {
    if k <= |pts| then k else |pts|
  }

  /** The pointer-up edit after dragging the midpoint of edge `k - 1 -> k`:
      one clamped vertex is inserted at `k`, and the others keep their order. */
  function InsertVertex(pts: seq<Point>, k: nat, p: Point, w: real, h: real): (r: seq<Point>)
    ensures |r| == |pts| + 1
    ensures r[SpliceIndex(pts, k)] == ClampPoint(p, w, h)
    ensures r[..SpliceIndex(pts, k)] == pts[..SpliceIndex(pts, k)]
    ensures r[SpliceIndex(pts, k) + 1..] == pts[SpliceIndex(pts, k)..]
  {
    var j := SpliceIndex(pts, k);
    pts[..j] + [ClampPoint(p, w, h)] + pts[j..]
  }

  /** The right-click edit: vertex `idx` is removed only if the polygon has
      more than three vertices and `idx` names one of them. */
  function DeleteVertex(pts: seq<Point>, idx: int): (r: seq<Point>)
    ensures |pts| > MinVertices && 0 <= idx < |pts| ==>
              |r| == |pts| - 1 && r == pts[..idx] + pts[idx + 1..]
    ensures !(|pts| > MinVertices && 0 <= idx < |pts|) ==> r == pts
  {
    if |pts| > MinVertices && 0 <= idx < |pts| then pts[..idx] + pts[idx + 1..] else pts
  }

  /** Deletion never takes a polygon below three vertices, and never shrinks
      one that has at most three. */
  lemma DeleteKeepsTriangle(pts: seq<Point>, idx: int)
    ensures |DeleteVertex(pts, idx)| >= if |pts| < MinVertices then |pts| else MinVertices
    ensures |pts| <= MinVertices ==> DeleteVertex(pts, idx) == pts
  {
  }

  /** Deleting a vertex just inserted from a midpoint restores the polygon. */
  lemma {:induction false} DeleteUndoesInsert(pts: seq<Point>, k: nat, p: Point, w: real, h: real)
    requires |pts| >= MinVertices
    ensures DeleteVertex(InsertVertex(pts, k, p, w, h), SpliceIndex(pts, k)) == pts
  {
    var j := SpliceIndex(pts, k);
    var r := InsertVertex(pts, k, p, w, h);
    assert r[..j] + r[j + 1..] == pts[..j] + pts[j..];
    assert pts[..j] + pts[j..] == pts;
  }

  /** All three edits keep a polygon inside a non-empty image inside it. */
  lemma {:induction false} EditsStayInside(pts: seq<Point>, i: int, k: nat, p: Point, w: real, h: real)
    requires w >= 0.0 && h >= 0.0 && AllInside(pts, w, h)
    ensures AllInside(MoveVertex(pts, i, p, w, h), w, h)
    ensures AllInside(InsertVertex(pts, k, p, w, h), w, h)
    ensures AllInside(DeleteVertex(pts, i), w, h)
  {
    var j := SpliceIndex(pts, k);
    var r := InsertVertex(pts, k, p, w, h);
    forall m | 0 <= m < |r|
      ensures Inside(r[m], w, h)
    {
      if m < j {
        assert r[m] == r[..j][m] == pts[..j][m] == pts[m];
      } else if m > j {
        assert r[m] == r[j + 1..][m - j - 1] == pts[j..][m - j - 1] == pts[m - 1];
      }
    }
    var d := DeleteVertex(pts, i);
    if |pts| > MinVertices && 0 <= i < |pts| {
      forall m | 0 <= m < |d|
        ensures Inside(d[m], w, h)
      {
        if m < i {
          assert d[m] == pts[m];
        } else {
          assert d[m] == pts[m + 1];
        }
      }
    }
  }
}
