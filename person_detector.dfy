/** The integer geometry of the people detector and the in-order release of
    results from its worker pool. Inference, drawing, JPEG encoding and the
    polygon rasterisation behind the overlap percentage are foreign: their
    results (the raw detections, the encoder's success, the number of box
    pixels inside the region) are parameters. */
module PersonDetection {
  import opened Common

  const MinBoxSide: int := 30
  const MaxBoxSide: int := 400
  const OverlapThreshold: real := 70.0
  const PersonClass: int := 0

  /** A region vertex as sent by the page. */
  datatype RealPoint = RealPoint(x: real, y: real)

  datatype IPoint = IPoint(x: int, y: int)

  /** Python's `int()` on a float (and NumPy's cast to int32, ignoring its
      range): truncation toward zero. */
  function Trunc(r: real): (n: int)
    ensures 0.0 <= r ==> 0 <= n && n as real <= r < n as real + 1.0
    ensures r < 0.0 ==> n <= 0 && r <= n as real < r + 1.0
  {
    if r >= 0.0 then r.Floor else -((-r).Floor)
  }

  function ToIPoint(p: RealPoint): IPoint
  {
    IPoint(Trunc(p.x), Trunc(p.y))
  }

  function ToIPoints(roi: seq<RealPoint>): (pts: seq<IPoint>)
    ensures |pts| == |roi|
    ensures forall i :: 0 <= i < |roi| ==> pts[i] == ToIPoint(roi[i])
  {
    seq(|roi|, i requires 0 <= i < |roi| => ToIPoint(roi[i]))
  }

  /** The region used by `detect`: only one with at least three vertices. */
  function RegionOf(roi: Option<seq<RealPoint>>): (pts: Option<seq<IPoint>>)
    ensures pts.Some? <==> roi.Some? && |roi.value| >= 3
    ensures pts.Some? ==> pts.value == ToIPoints(roi.value)
  {
    if roi.Some? && |roi.value| >= 3 then Some(ToIPoints(roi.value)) else None
  }

  function MinOf(s: seq<int>): (m: int)
    requires |s| > 0
    ensures m in s && forall i :: 0 <= i < |s| ==> m <= s[i]
  {
    if |s| == 1 then s[0] else var t := MinOf(s[1..]); if s[0] <= t then s[0] else t
  }

  function MaxOf(s: seq<int>): (m: int)
    requires |s| > 0
    ensures m in s && forall i :: 0 <= i < |s| ==> s[i] <= m
  {
    if |s| == 1 then s[0] else var t := MaxOf(s[1..]); if s[0] >= t then s[0] else t
  }

  function Xs(pts: seq<IPoint>): (xs: seq<int>)
    ensures |xs| == |pts| && forall i :: 0 <= i < |pts| ==> xs[i] == pts[i].x
  {
    seq(|pts|, i requires 0 <= i < |pts| => pts[i].x)
  }

  function Ys(pts: seq<IPoint>): (ys: seq<int>)
    ensures |ys| == |pts| && forall i :: 0 <= i < |pts| ==> ys[i] == pts[i].y
  {
    seq(|pts|, i requires 0 <= i < |pts| => pts[i].y)
  }

  function Max(a: int, b: int): int { if a >= b then a else b }
  function Min(a: int, b: int): int { if a <= b then a else b }

  /** What `detect` analyses: the full frame, the bounding box of the region
      clipped to the frame, or nothing when that box is empty. */
  datatype Crop = Full | Window(xMin: int, xMax: int, yMin: int, yMax: int) | Degenerate

  function CropFor(pts: Option<seq<IPoint>>, w: int, h: int): (c: Crop)
    requires pts.Some? ==> |pts.value| >= 3
    ensures pts.None? <==> c.Full?
    ensures c.Window? ==> 0 <= c.xMin < c.xMax <= w && 0 <= c.yMin < c.yMax <= h
  {
    if pts.None? then Full
    else
      var xMin := Max(0, MinOf(Xs(pts.value)));
      var xMax := Min(w, MaxOf(Xs(pts.value)));
      var yMin := Max(0, MinOf(Ys(pts.value)));
      var yMax := Min(h, MaxOf(Ys(pts.value)));
      if xMax > xMin && yMax > yMin then Window(xMin, xMax, yMin, yMax) else Degenerate
  }

  /** The crop window holds every vertex of the region once the vertex is
      clipped to the frame, and is the smallest box that does: each of its
      sides touches a clipped vertex. */
  lemma {:induction false} CropHoldsRegion(pts: seq<IPoint>, w: int, h: int)
    requires |pts| >= 3
    ensures var c := CropFor(Some(pts), w, h);
      c.Window? ==>
        && (forall i :: 0 <= i < |pts| ==>
              c.xMin <= Max(0, Min(w, pts[i].x)) <= c.xMax && c.yMin <= Max(0, Min(h, pts[i].y)) <= c.yMax)
        && (exists i :: 0 <= i < |pts| && Max(0, Min(w, pts[i].x)) == c.xMin)
        && (exists i :: 0 <= i < |pts| && Max(0, Min(w, pts[i].x)) == c.xMax)
  {
    var c := CropFor(Some(pts), w, h);
    if c.Window? {
      var xs, ys := Xs(pts), Ys(pts);
      var lo, hi := MinOf(xs), MaxOf(xs);
      var ylo, yhi := MinOf(ys), MaxOf(ys);
      assert c == Window(Max(0, lo), Min(w, hi), Max(0, ylo), Min(h, yhi));
      forall k | 0 <= k < |pts|
        ensures c.xMin <= Max(0, Min(w, pts[k].x)) <= c.xMax && c.yMin <= Max(0, Min(h, pts[k].y)) <= c.yMax
      {
        assert lo <= xs[k] <= hi && ylo <= ys[k] <= yhi;
      }
      var i :| 0 <= i < |xs| && xs[i] == lo;
      var j :| 0 <= j < |xs| && xs[j] == hi;
      assert Max(0, Min(w, pts[i].x)) == c.xMin;
      assert Max(0, Min(w, pts[j].x)) == c.xMax;
    }
  }

  /** The size of the analysed image, height first as `detect` returns it. */
  function CropSize(c: Crop, w: int, h: int): (hw: (int, int))
    ensures c.Full? ==> hw == (h, w)
    ensures c.Window? ==> hw == (c.yMax - c.yMin, c.xMax - c.xMin)
  {
    match c
    case Full => (h, w)
    case Window(x0, x1, y0, y1) => (y1 - y0, x1 - x0)
    case Degenerate => (0, 0)
  }

  function Offset(c: Crop): IPoint
  {
    if c.Window? then IPoint(c.xMin, c.yMin) else IPoint(0, 0)
  }

  // ---------------------------------------------------------------------------
  // Inference size
  // ---------------------------------------------------------------------------

  /** The largest inference size allowed for a frame whose longer side is `side`. */
  function SizeTier(side: int): (t: int)
    ensures t in {640, 960, 1280}
    ensures t == 640 <==> side <= 640
    ensures t == 1280 <==> side > 1280
  {
    if side <= 640 then 640 else if side <= 1280 then 960 else 1280
  }

  /** `calculate_adaptive_imgsz`: the crop's longer side, capped by the tier
      of the original frame. */
  function AdaptiveImgsz(cropH: int, cropW: int, originalH: int, originalW: int): (imgsz: int)
    ensures imgsz <= Max(cropW, cropH) && imgsz <= SizeTier(Max(originalW, originalH))
    ensures imgsz == Max(cropW, cropH) || imgsz == SizeTier(Max(originalW, originalH))
  {
    Min(Max(cropW, cropH), SizeTier(Max(originalW, originalH)))
  }

  /** A larger crop never gets a smaller inference size, and a larger frame
      never a smaller cap. */
  lemma {:induction false} AdaptiveImgszMonotone(cropH: int, cropW: int, cropH': int, cropW': int,
                                                 originalH: int, originalW: int, originalH': int, originalW': int)
    requires cropH <= cropH' && cropW <= cropW' && originalH <= originalH' && originalW <= originalW'
    ensures AdaptiveImgsz(cropH, cropW, originalH, originalW) <= AdaptiveImgsz(cropH', cropW', originalH', originalW')
  {
    var t := SizeTier(Max(originalW, originalH));
    var t' := SizeTier(Max(originalW', originalH'));
    assert t <= t' by {
      assert Max(originalW, originalH) <= Max(originalW', originalH');
    }
  }

  // ---------------------------------------------------------------------------
  // Box filter
  // ---------------------------------------------------------------------------

  /** A raw detection on the crop, with the number of its pixels the region
      covers when rasterised. */
  datatype Detection = Detection(x1: real, y1: real, x2: real, y2: real, cls: int, inside: int)

  datatype Box = Box(x1: int, y1: int, x2: int, y2: int)

  /** The detection's box in frame coordinates. */
  function Shifted(d: Detection, off: IPoint): (b: Box)
    ensures b.x2 - b.x1 == Trunc(d.x2) - Trunc(d.x1) && b.y2 - b.y1 == Trunc(d.y2) - Trunc(d.y1)
  {
    Box(Trunc(d.x1) + off.x, Trunc(d.y1) + off.y, Trunc(d.x2) + off.x, Trunc(d.y2) + off.y)
  }

  predicate SizeOk(b: Box)
  {
    MinBoxSide <= b.x2 - b.x1 <= MaxBoxSide && MinBoxSide <= b.y2 - b.y1 <= MaxBoxSide
  }

  /** `calculate_roi_overlap_percentage`: the share of the box the region
      covers, in percent; without a usable region everything counts as
      inside, and an empty box as outside. */
  function Overlap(pts: Option<seq<IPoint>>, b: Box, inside: int): (pct: real)
    ensures pts.None? || |pts.value| < 3 ==> pct == 100.0
    ensures pts.Some? && |pts.value| >= 3 && (b.x2 - b.x1) * (b.y2 - b.y1) <= 0 ==> pct == 0.0
    ensures pts.Some? && |pts.value| >= 3 && 0 <= inside <= (b.x2 - b.x1) * (b.y2 - b.y1) ==> 0.0 <= pct <= 100.0
  {
    if pts.None? || |pts.value| < 3 then 100.0
    else
      var area := (b.x2 - b.x1) * (b.y2 - b.y1);
      if area <= 0 then 0.0 else inside as real / area as real * 100.0
  }

  /** A box of acceptable size is never empty, so with a region its overlap
      is the covered share itself. */
  lemma {:induction false} SizedBoxHasArea(b: Box)
    requires SizeOk(b)
    ensures (b.x2 - b.x1) * (b.y2 - b.y1) >= MinBoxSide * MinBoxSide
  {
    var dx, dy := b.x2 - b.x1, b.y2 - b.y1;
    assert dx * dy >= MinBoxSide * dy;
    assert MinBoxSide * dy >= MinBoxSide * MinBoxSide;
  }

  /** Whether `detect` draws the detection as a person. */
  predicate Counted(d: Detection, off: IPoint, pts: Option<seq<IPoint>>)
  {
    d.cls == PersonClass && SizeOk(Shifted(d, off)) &&
    (pts.Some? ==> Overlap(pts, Shifted(d, off), d.inside) >= OverlapThreshold)
  }

  /** The drawn boxes, in detection order. */
  function Persons(ds: seq<Detection>, off: IPoint, pts: Option<seq<IPoint>>): seq<Box>
  {
    if |ds| == 0 then []
    else Persons(ds[..|ds| - 1], off, pts) + (if Counted(ds[|ds| - 1], off, pts) then [Shifted(ds[|ds| - 1], off)] else [])
  }

  /** Every drawn box has an acceptable size and, with a region, an overlap
      of at least 70 percent; every detection that qualifies is drawn. */
  lemma {:induction false} PersonsAreQualified(ds: seq<Detection>, off: IPoint, pts: Option<seq<IPoint>>)
    ensures |Persons(ds, off, pts)| <= |ds|
    ensures forall b :: b in Persons(ds, off, pts) ==>
              SizeOk(b) && exists d :: d in ds && d.cls == PersonClass && Shifted(d, off) == b &&
                                       (pts.Some? ==> Overlap(pts, b, d.inside) >= OverlapThreshold)
    ensures forall d :: d in ds && Counted(d, off, pts) ==> Shifted(d, off) in Persons(ds, off, pts)
    decreases |ds|
  {
    if |ds| > 0 {
      var init := ds[..|ds| - 1];
      PersonsAreQualified(init, off, pts);
      assert forall x :: x in init ==> x in ds;
      assert forall x :: x in ds ==> x in init || x == ds[|ds| - 1];
    }
  }

  /** `PersonDetector.detect` on a frame of `w` by `h` pixels: the boxes drawn
      on the annotated frame (none when the frame is replaced by a blank
      one) and the crop height, crop width and inference size it reports.
      `raw` is what the model found on the crop, `encodeOk` whether the
      annotated frame could be encoded. */
  method Detect(w: int, h: int, roi: Option<seq<RealPoint>>, raw: seq<Detection>, encodeOk: bool)
    returns (drawn: seq<Box>, cropH: int, cropW: int, imgsz: int)
    ensures var pts := RegionOf(roi); var c := CropFor(pts, w, h);
      && (c.Degenerate? ==> drawn == [] && cropH == 0 && cropW == 0 && imgsz == 0)
      && (!c.Degenerate? ==>
            (cropH, cropW) == CropSize(c, w, h) &&
            imgsz == AdaptiveImgsz(cropH, cropW, h, w) &&
            drawn == (if encodeOk then Persons(raw, Offset(c), pts) else []))
  {
    var pts := RegionOf(roi);
    var crop := CropFor(pts, w, h);
    if crop.Degenerate? {
      return [], 0, 0, 0;
    }
    cropH, cropW := CropSize(crop, w, h).0, CropSize(crop, w, h).1;
    imgsz := AdaptiveImgsz(cropH, cropW, h, w);
    var off := Offset(crop);
    drawn := [];
    var i := 0;
    while i < |raw|
      invariant 0 <= i <= |raw|
      invariant drawn == Persons(raw[..i], off, pts)
    {
      var d := raw[i];
      assert raw[..i + 1][..i] == raw[..i];
      i := i + 1;
      if d.cls != PersonClass {
        continue;
      }
      var b := Shifted(d, off);
      if b.x2 - b.x1 < MinBoxSide || b.y2 - b.y1 < MinBoxSide || b.x2 - b.x1 > MaxBoxSide || b.y2 - b.y1 > MaxBoxSide {
        continue;
      }
      if pts.Some? {
        var overlap := Overlap(pts, b, d.inside);
        if overlap < OverlapThreshold {
          continue;
        }
      }
      drawn := drawn + [b];
    }
    assert raw[..|raw|] == raw;
    if !encodeOk {
      drawn := [];
    }
  }

  // ---------------------------------------------------------------------------
  // In-order release from the worker pool
  // ---------------------------------------------------------------------------

  /** What a worker puts on the output queue: the detector's tuple, or bare
      bytes when detection raised. */
  datatype WorkerResult = Tuple(jpeg: seq<bv8>, cropH: int, cropW: int, imgsz: int) | Bytes(data: seq<bv8>)

  /** The tuple the caller receives. */
  function Normalize(r: WorkerResult): (t: WorkerResult)
    ensures t.Tuple?
    ensures r.Tuple? ==> t == r
    ensures r.Bytes? ==> t == Tuple(r.data, 0, 0, 0)
  {
    if r.Tuple? then r else Tuple(r.data, 0, 0, 0)
  }

  /** A result read from the output queue. */
  datatype Arrival = Arrival(idx: nat, result: WorkerResult)

  /** The buffer after storing each arrival in turn. */
  function Absorb(buffer: map<nat, WorkerResult>, arrivals: seq<Arrival>): map<nat, WorkerResult>
  {
    if |arrivals| == 0 then buffer
    else
      var last := arrivals[|arrivals| - 1];
      Absorb(buffer, arrivals[..|arrivals| - 1])[last.idx := last.result]
  }

  lemma AbsorbStep(buffer: map<nat, WorkerResult>, arrivals: seq<Arrival>, i: nat)
    requires i < |arrivals|
    ensures Absorb(buffer, arrivals[..i + 1]) == Absorb(buffer, arrivals[..i])[arrivals[i].idx := arrivals[i].result]
  {
    assert arrivals[..i + 1][..i] == arrivals[..i];
  }

  /** The arrivals are results of frames that are in flight. */
  predicate FromWorkers(inFlight: set<nat>, arrivals: seq<Arrival>)
  {
    forall i :: 0 <= i < |arrivals| ==> arrivals[i].idx in inFlight
  }

  /** The position of the first arrival for frame `next`. */
  function FirstArrival(arrivals: seq<Arrival>, next: nat): (j: Option<nat>)
    ensures j.Some? ==> j.value < |arrivals| && arrivals[j.value].idx == next &&
                        forall k :: 0 <= k < j.value ==> arrivals[k].idx != next
    ensures j.None? ==> forall k :: 0 <= k < |arrivals| ==> arrivals[k].idx != next
  {
    if |arrivals| == 0 then None
    else if arrivals[0].idx == next then Some(0)
    else
      var j := FirstArrival(arrivals[1..], next);
      if j.Some? then Some(j.value + 1) else None
  }

  /** After how many arrivals the frame `next` is released, if at all: the
      buffer is looked at only after an arrival has been stored. */
  function ReleasePoint(buffer: map<nat, WorkerResult>, next: nat, arrivals: seq<Arrival>): (j: Option<nat>)
    ensures j.Some? ==> j.value < |arrivals| && next in Absorb(buffer, arrivals[..j.value + 1])
  {
    if |arrivals| == 0 then None
    else if next in buffer then Some(0)
    else FirstArrival(arrivals, next)
  }

  class MultiprocessDetector {
    var frameIdx: nat
    var nextSendIdx: nat
    var resultBuffer: map<nat, WorkerResult>
    ghost var inFlight: set<nat>      // queued frames whose result has not been read

    /** Results not yet released and frames still in flight are all at or
        after the next index to release, before the next index to assign,
        and never both. */
    ghost predicate Valid()
      reads this
    {
      && nextSendIdx <= frameIdx
      && (forall i :: i in inFlight ==> nextSendIdx <= i < frameIdx)
      && (forall i :: i in resultBuffer ==> nextSendIdx <= i < frameIdx)
      && (forall i :: i in inFlight ==> i !in resultBuffer)
    }

    /** A frame that was assigned an index and is not yet released, but is
        neither in flight nor buffered: nothing can ever produce it. */
    ghost predicate Lost(i: nat)
      reads this
    {
      nextSendIdx <= i < frameIdx && i !in inFlight && i !in resultBuffer
    }

    /** Every assigned, unreleased frame is in flight or buffered. */
    ghost predicate Complete()
      reads this
    {
      forall i :: nextSendIdx <= i < frameIdx ==> i in inFlight || i in resultBuffer
    }

    constructor ()
      ensures Valid() && Complete() && frameIdx == 0 && nextSendIdx == 0 && resultBuffer == map[]
    {
      frameIdx, nextSendIdx, resultBuffer, inFlight := 0, 0, map[], {};
    }

    /** `MultiprocessPersonDetector.detect` as written. `queueFull` says the
        frame could not be queued; `arrivals` are the results read from the
        output queue before it stays empty for the timeout. `None` is the
        blank frame with zero sizes; the frame this call queues may be among
        the arrivals. A dropped frame is never produced, so once it is the
        next to release, every later call times out. */
    method Detect(queueFull: bool, arrivals: seq<Arrival>) returns (r: Option<WorkerResult>)
      requires Valid() && (!queueFull ==> FromWorkers(inFlight + {frameIdx}, arrivals))
      modifies this
      ensures Valid() && frameIdx == old(frameIdx) + 1
      ensures queueFull ==> r.None? && Lost(old(frameIdx)) && nextSendIdx == old(nextSendIdx) && resultBuffer == old(resultBuffer)
      ensures !queueFull ==> r.Some? == ReleasePoint(old(resultBuffer), old(nextSendIdx), arrivals).Some?
      ensures !queueFull && r.Some? ==>
                var j := ReleasePoint(old(resultBuffer), old(nextSendIdx), arrivals).value;
                && nextSendIdx == old(nextSendIdx) + 1
                && r.value == Normalize(Absorb(old(resultBuffer), arrivals[..j + 1])[old(nextSendIdx)])
                && resultBuffer == Absorb(old(resultBuffer), arrivals[..j + 1]) - {old(nextSendIdx)}
      ensures r.None? ==> nextSendIdx == old(nextSendIdx)
      ensures old(Lost(nextSendIdx)) ==> r.None? && Lost(nextSendIdx)
    {
      var idx := frameIdx;
      frameIdx := frameIdx + 1;
      if queueFull {
        return None;
      }
      inFlight := inFlight + {idx};
      r := Collect(arrivals);
    }

    /** The same call with a dropped frame given a blank result in the
        buffer, so that release passes over it in order. */
    method DetectWithPlaceholder(queueFull: bool, arrivals: seq<Arrival>, blank: seq<bv8>) returns (r: Option<WorkerResult>)
      requires Valid() && (!queueFull ==> FromWorkers(inFlight + {frameIdx}, arrivals))
      modifies this
      ensures Valid() && frameIdx == old(frameIdx) + 1
      ensures old(Complete()) ==> Complete()
      ensures queueFull ==> r.None? && nextSendIdx == old(nextSendIdx) && resultBuffer == old(resultBuffer)[old(frameIdx) := Bytes(blank)]
      ensures !queueFull ==> r.Some? == ReleasePoint(old(resultBuffer), old(nextSendIdx), arrivals).Some?
      ensures r.Some? ==> nextSendIdx == old(nextSendIdx) + 1
      ensures r.None? ==> nextSendIdx == old(nextSendIdx)
    {
      var idx := frameIdx;
      frameIdx := frameIdx + 1;
      if queueFull {
        resultBuffer := resultBuffer[idx := Bytes(blank)];
        return None;
      }
      inFlight := inFlight + {idx};
      ghost var complete, inFlight1, buffer1, next1 := Complete(), inFlight, resultBuffer, nextSendIdx;
      r := Collect(arrivals);
      if complete {
        forall i | nextSendIdx <= i < frameIdx
          ensures i in inFlight || i in resultBuffer
        {
          assert next1 <= i;
          assert i in inFlight1 + buffer1.Keys;
        }
      }
    }

    /** The read loop: buffer each arrival and release the next frame as soon
        as it is buffered. */
    method Collect(arrivals: seq<Arrival>) returns (r: Option<WorkerResult>)
      requires Valid() && FromWorkers(inFlight, arrivals)
      modifies this`resultBuffer, this`nextSendIdx, this`inFlight
      ensures Valid()
      ensures forall i :: i in old(inFlight) + old(resultBuffer).Keys && nextSendIdx <= i ==> i in inFlight + resultBuffer.Keys
      ensures r.Some? == ReleasePoint(old(resultBuffer), old(nextSendIdx), arrivals).Some?
      ensures r.Some? ==>
                var j := ReleasePoint(old(resultBuffer), old(nextSendIdx), arrivals).value;
                && nextSendIdx == old(nextSendIdx) + 1
                && r.value == Normalize(Absorb(old(resultBuffer), arrivals[..j + 1])[old(nextSendIdx)])
                && resultBuffer == Absorb(old(resultBuffer), arrivals[..j + 1]) - {old(nextSendIdx)}
      ensures r.None? ==> nextSendIdx == old(nextSendIdx) && resultBuffer == Absorb(old(resultBuffer), arrivals)
      ensures old(Lost(nextSendIdx)) ==> r.None? && Lost(nextSendIdx)
    {
      ghost var all := inFlight + resultBuffer.Keys;
      var found := Drain(arrivals);
      if found {
        r := Some(Normalize(resultBuffer[nextSendIdx]));
        resultBuffer := resultBuffer - {nextSendIdx};
        nextSendIdx := nextSendIdx + 1;
      } else {
        r := None;
      }
      assert forall i :: i in inFlight + resultBuffer.Keys ==> i in all;
    }

    /** Store arrivals in the buffer until the frame `nextSendIdx` is in it. */
    method Drain(arrivals: seq<Arrival>) returns (found: bool)
      requires FromWorkers(inFlight, arrivals)
      modifies this`resultBuffer, this`inFlight
      ensures inFlight + resultBuffer.Keys == old(inFlight) + old(resultBuffer).Keys
      ensures inFlight <= old(inFlight)
      ensures old(inFlight) !! old(resultBuffer).Keys ==> inFlight !! resultBuffer.Keys
      ensures found == ReleasePoint(old(resultBuffer), nextSendIdx, arrivals).Some?
      ensures found ==>
                && nextSendIdx in resultBuffer
                && resultBuffer == Absorb(old(resultBuffer), arrivals[..ReleasePoint(old(resultBuffer), nextSendIdx, arrivals).value + 1])
      ensures !found ==> resultBuffer == Absorb(old(resultBuffer), arrivals)
      ensures nextSendIdx !in old(inFlight) + old(resultBuffer).Keys ==> nextSendIdx !in resultBuffer
    {
      ghost var buffer0, inFlight0 := resultBuffer, inFlight;
      var i := 0;
      while i < |arrivals|
        invariant 0 <= i <= |arrivals|
        invariant resultBuffer == Absorb(buffer0, arrivals[..i])
        invariant inFlight <= inFlight0
        invariant inFlight + resultBuffer.Keys == inFlight0 + buffer0.Keys
        invariant inFlight0 !! buffer0.Keys ==> inFlight !! resultBuffer.Keys
        invariant i > 0 ==> nextSendIdx !in buffer0 && nextSendIdx !in resultBuffer
        invariant forall k :: 0 <= k < i ==> arrivals[k].idx != nextSendIdx
        invariant nextSendIdx !in inFlight0 + buffer0.Keys ==> nextSendIdx !in resultBuffer
      {
        var a := arrivals[i];
        AbsorbStep(buffer0, arrivals, i);
        resultBuffer := resultBuffer[a.idx := a.result];
        inFlight := inFlight - {a.idx};
        if nextSendIdx in resultBuffer {
          assert ReleasePoint(buffer0, nextSendIdx, arrivals) == Some(i);
          return true;
        }
        i := i + 1;
      }
      assert arrivals[..|arrivals|] == arrivals;
      if |arrivals| > 0 {
        assert ReleasePoint(buffer0, nextSendIdx, arrivals) == FirstArrival(arrivals, nextSendIdx);
      }
      return false;
    }
  }
}
