/**
 * Track construction in Dataset.__init__ (cvat_reader/_base.py): every
 * track record is scanned in order, its rectangle shapes become keyframe
 * annotations in input order, other shape types are skipped, and a track
 * left without rectangles is not kept. A kept track's id is the index of
 * its record in the input list, whether or not earlier records were kept.
 */
module TrackBuilding {
  import opened Wrappers
  import opened CvatRecords
  import opened Annotations

  /** `x1, y1, x2, y2 = shape["points"]` raises when a rectangle does not carry exactly four numbers. */
  datatype BuildError = RectanglePointsMismatch(trackIndex: int, frame: int)

  predicate IsRectangle(s: ShapeRecord) { s.kind == Rectangle }

  /** The keyframe annotation read from one rectangle shape of track `trackId`. */
  function Keyframe(trackId: int, labelName: string, s: ShapeRecord): Annotation
    requires |s.points| == 4
  {
    Annotation(
      frameId := s.frame,
      trackId := trackId,
      labelName := labelName,
      boundingBox := Box(Point(s.points[0], s.points[1]), Point(s.points[2], s.points[3])),
      occluded := s.occluded,
      outside := s.outside,
      attributes := s.attributes,
      interpolated := false)
  }

  /**
   * The `annotations` list the inner loop has built after visiting
   * `shapes`, or the error it raised. Defined on prefixes, so that each
   * step is one more append.
   */
  function TrackAnnotations(trackId: int, labelName: string, shapes: seq<ShapeRecord>): Result<seq<Annotation>, BuildError>
  {
    if shapes == [] then Ok([])
    else
      var s := shapes[|shapes| - 1];
      match TrackAnnotations(trackId, labelName, shapes[..|shapes| - 1])
      case Err(e) => Err(e)
      case Ok(anns) =>
        if !IsRectangle(s) then Ok(anns)
        else if |s.points| != 4 then Err(RectanglePointsMismatch(trackId, s.frame))
        else Ok(anns + [Keyframe(trackId, labelName, s)])
  }

  /** The `self.tracks` list the outer loop has built after visiting `records`, or the error raised. */
  function KeptTracks(records: seq<TrackRecord>): Result<seq<Track>, BuildError>
  {
    if records == [] then Ok([])
    else
      var i := |records| - 1;
      match KeptTracks(records[..i])
      case Err(e) => Err(e)
      case Ok(tracks) =>
        match TrackAnnotations(i, records[i].labelName, records[i].shapes)
        case Err(e) => Err(e)
        case Ok(anns) => if anns == [] then Ok(tracks) else Ok(tracks + [Track(i, anns)])
  }

  /** The nested loops of Dataset.__init__ that fill `self.tracks`. */
  method BuildTracks(records: seq<TrackRecord>) returns (r: Result<seq<Track>, BuildError>)
    ensures r == KeptTracks(records)
  {
    var tracks: seq<Track> := [];
    var i := 0;
    while i < |records|
      invariant 0 <= i <= |records|
      invariant KeptTracks(records[..i]) == Ok(tracks)
    {
      var rec := records[i];
      var annotations: seq<Annotation> := [];
      var j := 0;
      while j < |rec.shapes|
        invariant 0 <= j <= |rec.shapes|
        invariant TrackAnnotations(i, rec.labelName, rec.shapes[..j]) == Ok(annotations)
      {
        var shape := rec.shapes[j];
        assert rec.shapes[..j + 1][..j] == rec.shapes[..j];
        if shape.kind == Rectangle {
          if |shape.points| != 4 {
            TrackAnnotationsErrorPersists(i, rec.labelName, rec.shapes, j + 1);
            assert records[..i + 1][..i] == records[..i];
            KeptTracksErrorPersists(records, i + 1);
            return Err(RectanglePointsMismatch(i, shape.frame));
          }
          annotations := annotations + [Keyframe(i, rec.labelName, shape)];
        }
        j := j + 1;
      }
      assert rec.shapes[..j] == rec.shapes;
      assert records[..i + 1][..i] == records[..i];
      if |annotations| > 0 {
        tracks := tracks + [Track(i, annotations)];
      }
      i := i + 1;
    }
    assert records[..i] == records;
    r := Ok(tracks);
  }

  /** A raised error ends the inner loop: no later shape changes it. */
  lemma {:induction false} TrackAnnotationsErrorPersists(trackId: int, labelName: string, shapes: seq<ShapeRecord>, n: nat)
    requires n <= |shapes| && TrackAnnotations(trackId, labelName, shapes[..n]).Err?
    ensures TrackAnnotations(trackId, labelName, shapes) == TrackAnnotations(trackId, labelName, shapes[..n])
    decreases |shapes|
  {
    if n < |shapes| {
      var p := shapes[..|shapes| - 1];
      assert p[..n] == shapes[..n];
      TrackAnnotationsErrorPersists(trackId, labelName, p, n);
    } else {
      assert shapes[..n] == shapes;
    }
  }

  /** A raised error ends the outer loop: no later record changes it. */
  lemma {:induction false} KeptTracksErrorPersists(records: seq<TrackRecord>, n: nat)
    requires n <= |records| && KeptTracks(records[..n]).Err?
    ensures KeptTracks(records) == KeptTracks(records[..n])
    decreases |records|
  {
    if n < |records| {
      var p := records[..|records| - 1];
      assert p[..n] == records[..n];
      KeptTracksErrorPersists(p, n);
    } else {
      assert records[..n] == records;
    }
  }

  // ---------------------------------------------------------------------
  // What the built tracks are, stated without the loops
  // ---------------------------------------------------------------------

  /** The rectangle shapes of a list, in input order. */
  function Rectangles(shapes: seq<ShapeRecord>): (r: seq<ShapeRecord>)
    ensures forall k :: 0 <= k < |r| ==> IsRectangle(r[k]) && r[k] in shapes
  {
    if shapes == [] then []
    else (if IsRectangle(shapes[0]) then [shapes[0]] else []) + Rectangles(shapes[1..])
  }

  /** Every rectangle carries four numbers (otherwise unpacking raises). */
  predicate RectanglesWellShaped(shapes: seq<ShapeRecord>)
  {
    forall s :: s in shapes && IsRectangle(s) ==> |s.points| == 4
  }

  predicate AllWellShaped(records: seq<TrackRecord>)
  {
    forall i :: 0 <= i < |records| ==> RectanglesWellShaped(records[i].shapes)
  }

  /** The keyframes read from a list of well-shaped rectangles, one per rectangle, in order. */
  function Keyframes(trackId: int, labelName: string, rects: seq<ShapeRecord>): (r: seq<Annotation>)
    requires forall s :: s in rects ==> |s.points| == 4
    ensures |r| == |rects|
  {
    seq(|rects|, k requires 0 <= k < |rects| => Keyframe(trackId, labelName, rects[k]))
  }

  lemma {:induction false} RectanglesAppend(shapes: seq<ShapeRecord>, s: ShapeRecord)
    ensures Rectangles(shapes + [s]) == Rectangles(shapes) + (if IsRectangle(s) then [s] else [])
  {
    if shapes != [] {
      assert (shapes + [s])[1..] == shapes[1..] + [s];
      RectanglesAppend(shapes[1..], s);
    } else {
      assert Rectangles([s][1..]) == [];
    }
  }

  /**
   * The inner loop succeeds exactly when every rectangle has four numbers,
   * and then yields one keyframe per rectangle shape, in input order, with
   * the box read from the points and `interpolated` false.
   */
  lemma {:induction false} TrackAnnotationsAreRectangles(trackId: int, labelName: string, shapes: seq<ShapeRecord>)
    ensures TrackAnnotations(trackId, labelName, shapes).Ok? <==> RectanglesWellShaped(shapes)
    ensures RectanglesWellShaped(shapes) ==>
      TrackAnnotations(trackId, labelName, shapes) == Ok(Keyframes(trackId, labelName, Rectangles(shapes)))
    decreases |shapes|
  {
    if shapes != [] {
      var p, s := shapes[..|shapes| - 1], shapes[|shapes| - 1];
      assert shapes == p + [s];
      TrackAnnotationsAreRectangles(trackId, labelName, p);
      RectanglesAppend(p, s);
      assert RectanglesWellShaped(shapes) <==> RectanglesWellShaped(p) && (IsRectangle(s) ==> |s.points| == 4);
      if RectanglesWellShaped(shapes) {
        var rp := Rectangles(p);
        if IsRectangle(s) {
          assert Keyframes(trackId, labelName, rp + [s]) == Keyframes(trackId, labelName, rp) + [Keyframe(trackId, labelName, s)];
        } else {
          assert rp + [] == rp;
        }
      }
    }
  }

  /** Every annotation of a built track is a keyframe carrying the track's id and label. */
  lemma TrackAnnotationsFields(trackId: int, labelName: string, shapes: seq<ShapeRecord>)
    requires TrackAnnotations(trackId, labelName, shapes).Ok?
    ensures var anns := TrackAnnotations(trackId, labelName, shapes).value;
      AllKeyframes(anns) &&
      forall k :: 0 <= k < |anns| ==> anns[k].trackId == trackId && anns[k].labelName == labelName
  {
    TrackAnnotationsAreRectangles(trackId, labelName, shapes);
  }

  /** Each track is the non-empty keyframe list of the record at its id. */
  predicate TracksMatchRecords(records: seq<TrackRecord>, ts: seq<Track>)
  {
    forall k :: 0 <= k < |ts| ==>
      0 <= ts[k].trackId < |records| && ts[k].annotations != [] &&
      TrackAnnotations(ts[k].trackId, records[ts[k].trackId].labelName, records[ts[k].trackId].shapes)
        == Ok(ts[k].annotations)
  }

  predicate IncreasingIds(ts: seq<Track>)
  {
    forall a, c :: 0 <= a < c < |ts| ==> ts[a].trackId < ts[c].trackId
  }

  /** Every record with at least one rectangle has its track. */
  predicate NoRecordMissing(records: seq<TrackRecord>, ts: seq<Track>)
  {
    forall i :: 0 <= i < |records| && TrackAnnotations(i, records[i].labelName, records[i].shapes) != Ok([]) ==>
      exists k :: 0 <= k < |ts| && ts[k].trackId == i
  }

  /** The outer loop succeeds exactly when every record's rectangles carry four numbers. */
  lemma {:induction false} KeptTracksSucceeds(records: seq<TrackRecord>)
    ensures KeptTracks(records).Ok? <==> AllWellShaped(records)
    decreases |records|
  {
    if records != [] {
      var i := |records| - 1;
      var p := records[..i];
      KeptTracksSucceeds(p);
      TrackAnnotationsAreRectangles(i, records[i].labelName, records[i].shapes);
      assert forall m :: 0 <= m < i ==> p[m] == records[m];
      assert AllWellShaped(records) <==> AllWellShaped(p) && RectanglesWellShaped(records[i].shapes);
    }
  }

  /** One step of the outer loop: the last record adds its track when it has rectangles. */
  lemma KeptTracksLast(records: seq<TrackRecord>)
    requires records != [] && KeptTracks(records).Ok?
    ensures var i := |records| - 1;
      var anns := TrackAnnotations(i, records[i].labelName, records[i].shapes);
      KeptTracks(records[..i]).Ok? && anns.Ok? &&
      KeptTracks(records).value ==
        KeptTracks(records[..i]).value + (if anns.value == [] then [] else [Track(i, anns.value)])
  {
  }

  /**
   * Meaning of the outer loop: each kept track is the non-empty keyframe
   * list of the record whose index is its id, and ids increase along the list.
   */
  lemma {:induction false} KeptTracksContents(records: seq<TrackRecord>)
    requires KeptTracks(records).Ok?
    ensures TracksMatchRecords(records, KeptTracks(records).value)
    ensures IncreasingIds(KeptTracks(records).value)
    decreases |records|
  {
    if records != [] {
      var i := |records| - 1;
      var p := records[..i];
      KeptTracksLast(records);
      KeptTracksContents(p);
      var tp, ts := KeptTracks(p).value, KeptTracks(records).value;
      assert forall m :: 0 <= m < i ==> p[m] == records[m];
      assert forall k :: 0 <= k < |tp| ==> ts[k] == tp[k] && tp[k].trackId < i;
    }
  }

  /** No record with rectangles is dropped: its index is the id of some kept track. */
  lemma {:induction false} KeptTracksComplete(records: seq<TrackRecord>)
    requires KeptTracks(records).Ok?
    ensures NoRecordMissing(records, KeptTracks(records).value)
    decreases |records|
  {
    if records != [] {
      var i := |records| - 1;
      var p := records[..i];
      KeptTracksLast(records);
      KeptTracksComplete(p);
      var tp, ts := KeptTracks(p).value, KeptTracks(records).value;
      forall m | 0 <= m < |records| && TrackAnnotations(m, records[m].labelName, records[m].shapes) != Ok([])
        ensures exists k :: 0 <= k < |ts| && ts[k].trackId == m
      {
        if m < i {
          assert p[m] == records[m];
          var k :| 0 <= k < |tp| && tp[k].trackId == m;
          assert ts[k] == tp[k];
        } else {
          assert ts[|ts| - 1].trackId == m;
        }
      }
    }
  }

  /** Every kept track is non-empty, well formed and made of keyframes labelled by its record. */
  lemma KeptTracksAreKeyframeTracks(records: seq<TrackRecord>)
    requires KeptTracks(records).Ok?
    ensures var ts := KeptTracks(records).value;
      forall k :: 0 <= k < |ts| ==>
        WellFormed(ts[k]) && AllKeyframes(ts[k].annotations) &&
        0 <= ts[k].trackId < |records| && ts[k].Label() == records[ts[k].trackId].labelName
  {
    KeptTracksContents(records);
    var ts := KeptTracks(records).value;
    forall k | 0 <= k < |ts|
      ensures WellFormed(ts[k]) && AllKeyframes(ts[k].annotations)
      ensures 0 <= ts[k].trackId < |records| && ts[k].Label() == records[ts[k].trackId].labelName
    {
      var id := ts[k].trackId;
      TrackAnnotationsFields(id, records[id].labelName, records[id].shapes);
    }
  }
}
