/**
 * The temporal annotation model of cvat_reader/_base.py: an Annotation is
 * one rectangle observation at one frame, a Track is the list of keyframe
 * observations of one object, and `GetAnnotation` resolves the track at any
 * frame, by exact keyframe hit or by linear interpolation between the two
 * surrounding keyframes.
 *
 * The source computes each interpolated coordinate in floating point as
 * int((end - begin) * t + begin) with t = (f - b) / (e - b). Here the same
 * quantity is computed exactly: it is the rational N / D with
 * D = e - b and N = begin * D + (end - begin) * (f - b), and int() truncates
 * the whole sum toward zero.
 */
module Annotations {
  import opened Wrappers
  import opened CvatRecords

  datatype Point = Point(x: int, y: int)

  /** (top_left, bottom_right); no ordering between the corners is enforced. */
  datatype Box = Box(topLeft: Point, bottomRight: Point)

  datatype Annotation = Annotation(
    frameId: int,
    trackId: int,
    labelName: string,
    boundingBox: Box,
    occluded: bool,
    outside: bool,
    attributes: Attributes,
    interpolated: bool)

  // ---------------------------------------------------------------------
  // Exact interpolation arithmetic
  // ---------------------------------------------------------------------

  /** Python's int() applied to the exact quotient n / d (d > 0): truncation toward zero. */
  function TruncDiv(n: int, d: int): (q: int)
    requires d > 0
    ensures n >= 0 ==> 0 <= q && q * d <= n < q * d + d
    ensures n < 0 ==> q <= 0 && q * d - d < n <= q * d
  {
    if n >= 0 then n / d
    else
      var m := -n;
      assert m == d * (m / d) + m % d;
      -(m / d)
  }

  /**
   * One interpolated coordinate: the value `begin` at frame b moving
   * linearly to `end` at frame e, read at frame f and truncated toward zero.
   */
  function Lerp(begin: int, end: int, b: int, e: int, f: int): int
    requires b != e
  {
    var d := e - b;
    var n := begin * d + (end - begin) * (f - b);
    if d > 0 then TruncDiv(n, d) else TruncDiv(-n, -d)
  }

  lemma MulCancel(a: int, c: int, d: int)
    requires d > 0 && a * d < c * d + d
    ensures a <= c
  {
    if a > c {
      assert (a - c) * d >= d by {
        assert a - c >= 1;
        MulMonotone(1, a - c, d);
      }
    }
  }

  lemma MulMonotone(x: int, y: int, d: int)
    requires d >= 0 && x <= y
    ensures x * d <= y * d
  {
    assert y * d - x * d == (y - x) * d;
  }

  /** The truncated quotient of a value between lo*d and hi*d lies between lo and hi. */
  lemma TruncDivBetween(n: int, d: int, lo: int, hi: int)
    requires d > 0 && lo * d <= n <= hi * d
    ensures lo <= TruncDiv(n, d) <= hi
  {
    var q := TruncDiv(n, d);
    if n >= 0 {
      MulCancel(q, hi, d);
      MulCancel(lo, q, d);
    } else {
      MulCancel(q - 1, hi, d);
      assert (q - 1) * d == q * d - d;
      MulCancel(lo, q, d);
    }
  }

  /** Dividing an exact multiple gives back the factor. */
  lemma TruncDivOfMultiple(k: int, d: int)
    requires d > 0
    ensures TruncDiv(k * d, d) == k
  {
    TruncDivBetween(k * d, d, k, k);
  }

  /** At the begin frame the coordinate is `begin`, at the end frame it is `end`. */
  lemma LerpAtKeyframes(begin: int, end: int, b: int, e: int)
    requires b != e
    ensures Lerp(begin, end, b, e, b) == begin
    ensures Lerp(begin, end, b, e, e) == end
  {
    var d := e - b;
    assert begin * d + (end - begin) * (b - b) == begin * d;
    assert begin * d + (end - begin) * (e - b) == end * d;
    if d > 0 {
      TruncDivOfMultiple(begin, d);
      TruncDivOfMultiple(end, d);
    } else {
      assert -(begin * d) == begin * -d;
      assert -(end * d) == end * -d;
      TruncDivOfMultiple(begin, -d);
      TruncDivOfMultiple(end, -d);
    }
  }

  /** A coordinate both keyframes share is kept unchanged at every frame. */
  lemma LerpConstant(c: int, b: int, e: int, f: int)
    requires b != e
    ensures Lerp(c, c, b, e, f) == c
  {
    var d := e - b;
    assert c * d + (c - c) * (f - b) == c * d;
    if d > 0 {
      TruncDivOfMultiple(c, d);
    } else {
      assert -(c * d) == c * -d;
      TruncDivOfMultiple(c, -d);
    }
  }

  function Min(a: int, b: int): int { if a <= b then a else b }
  function Max(a: int, b: int): int { if a <= b then b else a }

  /** The numerator of an interpolated coordinate lies between the two keyframe values, scaled by d. */
  lemma NumeratorBetween(begin: int, end: int, t: int, d: int)
    requires 0 <= t <= d
    ensures Min(begin, end) * d <= begin * d + (end - begin) * t <= Max(begin, end) * d
  {
    var diff := end - begin;
    assert begin * d + diff * d == end * d;
    if diff >= 0 {
      MulMonotone(0, t, diff);
      MulMonotone(t, d, diff);
      assert diff * t == t * diff && diff * d == d * diff;
    } else {
      MulMonotone(0, t, -diff);
      MulMonotone(t, d, -diff);
      assert diff * t == -(t * -diff) && diff * d == -(d * -diff);
    }
  }

  /** Between its two keyframes, an interpolated coordinate stays within the two keyframe values. */
  lemma LerpBetween(begin: int, end: int, b: int, e: int, f: int)
    requires b < e && b <= f <= e
    ensures Min(begin, end) <= Lerp(begin, end, b, e, f) <= Max(begin, end)
  {
    var d, t := e - b, f - b;
    NumeratorBetween(begin, end, t, d);
    TruncDivBetween(begin * d + (end - begin) * t, d, Min(begin, end), Max(begin, end));
  }

  // ---------------------------------------------------------------------
  // Annotation.from_interpolation
  // ---------------------------------------------------------------------

  function LerpPoint(p: Point, q: Point, b: int, e: int, f: int): Point
    requires b != e
  {
    Point(Lerp(p.x, q.x, b, e, f), Lerp(p.y, q.y, b, e, f))
  }

  /**
   * The annotation synthesised at frame f between `begin` and `end`. Track
   * id, label, flags and attributes are those of `begin`; the box is
   * interpolated corner by corner and coordinate by coordinate. The source
   * divides by end.frameId - begin.frameId, so the two frames must differ.
   */
  function FromInterpolation(begin: Annotation, end: Annotation, f: int): Annotation
    requires begin.frameId != end.frameId
  {
    var b, e := begin.frameId, end.frameId;
    Annotation(
      frameId := f,
      trackId := begin.trackId,
      labelName := begin.labelName,
      boundingBox := Box(
        LerpPoint(begin.boundingBox.topLeft, end.boundingBox.topLeft, b, e, f),
        LerpPoint(begin.boundingBox.bottomRight, end.boundingBox.bottomRight, b, e, f)),
      occluded := begin.occluded,
      outside := begin.outside,
      attributes := begin.attributes,
      interpolated := true)
  }

  predicate Within(v: int, a: int, c: int) { Min(a, c) <= v <= Max(a, c) }

  predicate PointWithin(p: Point, a: Point, c: Point)
  {
    Within(p.x, a.x, c.x) && Within(p.y, a.y, c.y)
  }

  /** Every coordinate of `r` lies between the matching coordinates of `a` and `c`. */
  predicate BoxWithin(r: Box, a: Box, c: Box)
  {
    PointWithin(r.topLeft, a.topLeft, c.topLeft) && PointWithin(r.bottomRight, a.bottomRight, c.bottomRight)
  }

  /**
   * Strictly between its keyframes, the synthesised annotation sits at the
   * queried frame, is marked interpolated, keeps every non-box field of
   * `begin`, and has a box within the two keyframe boxes.
   */
  lemma InterpolationBetweenKeyframes(begin: Annotation, end: Annotation, f: int)
    requires begin.frameId < f < end.frameId
    ensures var r := FromInterpolation(begin, end, f);
      r.frameId == f && r.interpolated &&
      r.trackId == begin.trackId && r.labelName == begin.labelName &&
      r.occluded == begin.occluded && r.outside == begin.outside &&
      r.attributes == begin.attributes &&
      BoxWithin(r.boundingBox, begin.boundingBox, end.boundingBox)
  {
    var b, e := begin.frameId, end.frameId;
    var bb, eb := begin.boundingBox, end.boundingBox;
    LerpBetween(bb.topLeft.x, eb.topLeft.x, b, e, f);
    LerpBetween(bb.topLeft.y, eb.topLeft.y, b, e, f);
    LerpBetween(bb.bottomRight.x, eb.bottomRight.x, b, e, f);
    LerpBetween(bb.bottomRight.y, eb.bottomRight.y, b, e, f);
  }

  /** When both keyframes have the same box, the interpolated box is that box. */
  lemma InterpolationKeepsSharedBox(begin: Annotation, end: Annotation, f: int)
    requires begin.frameId != end.frameId
    requires begin.boundingBox == end.boundingBox
    ensures FromInterpolation(begin, end, f).boundingBox == begin.boundingBox
  {
    var b, e := begin.frameId, end.frameId;
    var bb := begin.boundingBox;
    LerpConstant(bb.topLeft.x, b, e, f);
    LerpConstant(bb.topLeft.y, b, e, f);
    LerpConstant(bb.bottomRight.x, b, e, f);
    LerpConstant(bb.bottomRight.y, b, e, f);
  }

  /**
   * The end keyframe contributes only its frame id and its box: two end
   * keyframes that agree on those give the same synthesised annotation,
   * whatever their label, flags or attributes.
   */
  lemma InterpolationIgnoresEndMetadata(begin: Annotation, end1: Annotation, end2: Annotation, f: int)
    requires begin.frameId != end1.frameId
    requires end1.frameId == end2.frameId && end1.boundingBox == end2.boundingBox
    ensures FromInterpolation(begin, end1, f) == FromInterpolation(begin, end2, f)
  {
  }

  /**
   * The source truncates the whole sum; a formula of the shape
   * begin + trunc((end - begin) * t) gives a different coordinate here
   * (begin 1, end 0, halfway between frames 0 and 2).
   */
  lemma TruncationAppliesToWholeSum()
    ensures Lerp(1, 0, 0, 2, 1) == 0
    ensures 1 + TruncDiv(-1, 2) == 1
  {
  }

  /** Truncation, not rounding: 0 -> 7 over frames 0..3, read at frame 2 (exactly 14/3). */
  lemma TruncationNotRounding()
    ensures Lerp(0, 7, 0, 3, 2) == 4
  {
  }

  // ---------------------------------------------------------------------
  // Track
  // ---------------------------------------------------------------------

  /**
   * The read-only loop of Track.get_annotation, from index i on. It returns
   * the first annotation whose frame is f, or, at the first annotation
   * past f, the interpolation from its predecessor. The precondition is
   * what the range checks before the loop guarantee: annotation 0 is not
   * past f, and the indices already visited are before f. So the branch
   * that reads annotations[i - 1] always has i > 0 (Python's
   * annotations[-1] is never read).
   */
  function ScanFrom(anns: seq<Annotation>, i: nat, f: int): (r: Option<Annotation>)
    requires i <= |anns| && 0 < |anns| && anns[0].frameId <= f
    requires forall k :: 0 <= k < i ==> anns[k].frameId < f
    ensures r.Some? ==> r.value.frameId == f
    ensures r.None? <==> forall k :: i <= k < |anns| ==> anns[k].frameId < f
    decreases |anns| - i
  {
    if i == |anns| then None
    else if anns[i].frameId == f then Some(anns[i])
    else if anns[i].frameId > f then Some(FromInterpolation(anns[i - 1], anns[i], f))
    else ScanFrom(anns, i + 1, f)
  }

  /** The index of the first annotation at or after frame f, from index i on (|anns| if none). */
  function FirstAtLeast(anns: seq<Annotation>, i: nat, f: int): (j: nat)
    requires i <= |anns|
    ensures i <= j <= |anns|
    ensures forall k :: i <= k < j ==> anns[k].frameId < f
    ensures j < |anns| ==> anns[j].frameId >= f
    decreases |anns| - i
  {
    if i == |anns| || anns[i].frameId >= f then i else FirstAtLeast(anns, i + 1, f)
  }

  datatype Track = Track(trackId: int, annotations: seq<Annotation>) {

    /** Tracks are only ever built with at least one annotation. */
    predicate Valid() { |annotations| > 0 }

    function FirstFrameId(): int
      requires Valid()
    {
      annotations[0].frameId
    }

    function LastFrameId(): int
      requires Valid()
    {
      annotations[|annotations| - 1].frameId
    }

    function Label(): string
      requires Valid()
    {
      annotations[0].labelName
    }

    /** Coverage: the frame lies in [first_frame_id, last_frame_id]. */
    predicate Covers(f: int)
      requires Valid()
    {
      FirstFrameId() <= f <= LastFrameId()
    }

    /**
     * Track.get_annotation: nothing outside the track's frame range, and an
     * annotation for that very frame everywhere inside it. The fall-through
     * `return None` after the loop is never reached.
     */
    function GetAnnotation(f: int): (r: Option<Annotation>)
      requires Valid()
      ensures r.None? <==> f < FirstFrameId() || f > LastFrameId()
      ensures r.Some? ==> r.value.frameId == f
    {
      if f < FirstFrameId() then None
      else if f > LastFrameId() then None
      else ScanFrom(annotations, 0, f)
    }
  }

  /** Strictly increasing frame ids, as CVAT exports keyframes (not checked by the source). */
  predicate Sorted(anns: seq<Annotation>)
  {
    forall a, c :: 0 <= a < c < |anns| ==> anns[a].frameId < anns[c].frameId
  }

  /** Every annotation of the track carries the track's id and the track's label. */
  predicate WellFormed(t: Track)
  {
    t.Valid() &&
    forall k :: 0 <= k < |t.annotations| ==>
      t.annotations[k].trackId == t.trackId && t.annotations[k].labelName == t.Label()
  }

  /** Every annotation of the track was read from a keyframe. */
  predicate AllKeyframes(anns: seq<Annotation>)
  {
    forall k :: 0 <= k < |anns| ==> !anns[k].interpolated
  }

  lemma {:induction false} ScanFromAt(anns: seq<Annotation>, i: nat, f: int, j: nat)
    requires i <= j < |anns| && anns[0].frameId <= f
    requires forall k :: 0 <= k < j ==> anns[k].frameId < f
    requires anns[j].frameId >= f
    ensures j == 0 ==> anns[j].frameId == f
    ensures anns[j].frameId == f ==> ScanFrom(anns, i, f) == Some(anns[j])
    ensures anns[j].frameId > f ==>
      0 < j && ScanFrom(anns, i, f) == Some(FromInterpolation(anns[j - 1], anns[j], f))
    decreases j - i
  {
    if i < j {
      ScanFromAt(anns, i + 1, f, j);
    }
  }

  /**
   * What get_annotation returns inside the track's range, given the index j
   * of the first annotation at or after the frame: that annotation itself
   * on an exact hit, otherwise the interpolation from annotation j - 1 to
   * annotation j, whose frames enclose f strictly.
   */
  lemma GetAnnotationAt(t: Track, f: int, j: nat)
    requires t.Valid() && t.Covers(f) && j < |t.annotations|
    requires forall k :: 0 <= k < j ==> t.annotations[k].frameId < f
    requires t.annotations[j].frameId >= f
    ensures t.annotations[j].frameId == f ==> t.GetAnnotation(f) == Some(t.annotations[j])
    ensures t.annotations[j].frameId > f ==>
      0 < j && t.annotations[j - 1].frameId < f &&
      t.GetAnnotation(f) == Some(FromInterpolation(t.annotations[j - 1], t.annotations[j], f))
  {
    ScanFromAt(t.annotations, 0, f, j);
  }

  /** A keyframe query on a sorted track returns the stored annotation unchanged. */
  lemma ExactKeyframeHit(t: Track, j: nat)
    requires t.Valid() && Sorted(t.annotations) && j < |t.annotations|
    ensures t.GetAnnotation(t.annotations[j].frameId) == Some(t.annotations[j])
  {
    var anns := t.annotations;
    var f := anns[j].frameId;
    assert anns[0].frameId <= f <= anns[|anns| - 1].frameId;
    GetAnnotationAt(t, f, j);
  }

  /**
   * On a sorted track, a frame strictly between keyframes j - 1 and j
   * resolves to the interpolation between exactly those two keyframes.
   */
  lemma BetweenKeyframes(t: Track, f: int, j: nat)
    requires t.Valid() && Sorted(t.annotations)
    requires 0 < j < |t.annotations|
    requires t.annotations[j - 1].frameId < f < t.annotations[j].frameId
    ensures t.GetAnnotation(f) == Some(FromInterpolation(t.annotations[j - 1], t.annotations[j], f))
  {
    var anns := t.annotations;
    assert anns[0].frameId <= anns[j - 1].frameId;
    assert anns[j].frameId <= anns[|anns| - 1].frameId;
    forall k | 0 <= k < j ensures anns[k].frameId < f {
      assert anns[k].frameId <= anns[j - 1].frameId;
    }
    GetAnnotationAt(t, f, j);
  }

  /**
   * On a sorted track read from keyframes, a covered frame's annotation is
   * marked interpolated exactly when no keyframe sits at that frame.
   */
  lemma InterpolatedIffNoKeyframe(t: Track, f: int)
    requires t.Valid() && Sorted(t.annotations) && AllKeyframes(t.annotations) && t.Covers(f)
    ensures t.GetAnnotation(f).value.interpolated <==>
      forall k :: 0 <= k < |t.annotations| ==> t.annotations[k].frameId != f
  {
    var anns := t.annotations;
    var j := FirstAtLeast(anns, 0, f);
    assert j < |anns|;
    GetAnnotationAt(t, f, j);
    if anns[j].frameId > f {
      forall k | 0 <= k < |anns| ensures anns[k].frameId != f {
        if k >= j {
          assert anns[j].frameId <= anns[k].frameId;
        }
      }
    }
  }

  /**
   * Whatever get_annotation returns for a well-formed track carries the
   * track's id and label, interpolated or not. Sortedness is not needed.
   */
  lemma GetAnnotationKeepsIdentity(t: Track, f: int)
    requires WellFormed(t) && t.Covers(f)
    ensures t.GetAnnotation(f).value.trackId == t.trackId
    ensures t.GetAnnotation(f).value.labelName == t.Label()
  {
    var anns := t.annotations;
    var j := FirstAtLeast(anns, 0, f);
    assert j < |anns|;
    GetAnnotationAt(t, f, j);
  }

  /** A single-keyframe track answers only at its one frame, and with that keyframe. */
  lemma SingleKeyframe(t: Track, f: int)
    requires |t.annotations| == 1
    ensures t.GetAnnotation(f) == if f == t.annotations[0].frameId then Some(t.annotations[0]) else None
  {
    if f == t.annotations[0].frameId {
      GetAnnotationAt(t, f, 0);
    }
  }
}
