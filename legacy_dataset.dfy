/**
 * The older reader in cvat_reader/__init__.py. It converts every shape
 * into a PointAnnotation or a BBoxAnnotation, groups them in place into a
 * two-level mapping frame -> label -> list, and iterates with a frame
 * cursor that advances by one per step and never stops. The cv2 capture is
 * reduced to whether it is still held.
 *
 * A quirk of the construction loop is kept: for a shape of another type
 * the conversion is skipped but the append after it still runs, with
 * whatever annotation the loop variable last held (possibly from an
 * earlier track, and filed under that annotation's own label), and raises
 * when no annotation was made yet.
 */
module LegacyDatasets {
  import opened Wrappers
  import opened CvatRecords
  import opened Annotations
  import opened VideoReaders

  datatype LegacyAnnotation =
    | PointAnnotation(labelName: string, point: Point)
    | BBoxAnnotation(labelName: string, boundingBox: Box)

  /** One append of the construction loop: the frame key and the annotation appended. */
  datatype Entry = Entry(frame: int, annotation: LegacyAnnotation)

  datatype LegacyError =
    | PointsMismatch(frame: int)        // unpacking `points` into two or four names fails
    | NoPreviousAnnotation(frame: int)  // the append runs before any annotation was made
    | NoAnnotations                     // `min` of an empty key set
    | CaptureReleased                   // a capture call after close

  /** annotations_per_frame: frame -> label -> annotations. */
  type Grouping = map<int, map<string, seq<LegacyAnnotation>>>

  datatype LegacyFrame = LegacyFrame(
    frameId: int,
    image: Option<Image>,
    annotations: map<string, seq<LegacyAnnotation>>)

  // ---------------------------------------------------------------------
  // The construction loop, as functions over the visited shapes
  // ---------------------------------------------------------------------

  /** The shapes of one track, each paired with the track's label. */
  function Labelled(labelName: string, shapes: seq<ShapeRecord>): (r: seq<(string, ShapeRecord)>)
    ensures |r| == |shapes|
  {
    seq(|shapes|, k requires 0 <= k < |shapes| => (labelName, shapes[k]))
  }

  /** Every (label, shape) pair the nested loops visit, in visiting order. */
  function VisitedShapes(tracks: seq<TrackRecord>): seq<(string, ShapeRecord)>
  {
    if tracks == [] then []
    else
      var last := tracks[|tracks| - 1];
      VisitedShapes(tracks[..|tracks| - 1]) + Labelled(last.labelName, last.shapes)
  }

  /** The annotation the loop body appends for one shape, given the one it appended last. */
  function Convert(labelName: string, s: ShapeRecord, previous: Option<LegacyAnnotation>): Result<LegacyAnnotation, LegacyError>
  {
    if s.kind == Points then
      if |s.points| != 2 then Err(PointsMismatch(s.frame))
      else Ok(PointAnnotation(labelName, Point(s.points[0], s.points[1])))
    else if s.kind == Rectangle then
      if |s.points| != 4 then Err(PointsMismatch(s.frame))
      else Ok(BBoxAnnotation(labelName, Box(Point(s.points[0], s.points[1]), Point(s.points[2], s.points[3]))))
    else if previous.None? then Err(NoPreviousAnnotation(s.frame))
    else Ok(previous.value)
  }

  function LastAnnotation(es: seq<Entry>): Option<LegacyAnnotation>
  {
    if es == [] then None else Some(es[|es| - 1].annotation)
  }

  /** The appends made while visiting `items`, or the error raised. */
  function Appended(items: seq<(string, ShapeRecord)>): Result<seq<Entry>, LegacyError>
  {
    if items == [] then Ok([])
    else
      var item := items[|items| - 1];
      match Appended(items[..|items| - 1])
      case Err(e) => Err(e)
      case Ok(es) =>
        match Convert(item.0, item.1, LastAnnotation(es))
        case Err(e) => Err(e)
        case Ok(a) => Ok(es + [Entry(item.1.frame, a)])
  }

  /** The list stored at frame f under label l, or [] when there is none. */
  function ListAt(g: Grouping, f: int, l: string): seq<LegacyAnnotation>
  {
    if f in g && l in g[f] then g[f][l] else []
  }

  /** `annotations_per_frame[frame][label].append(annotation)` on a two-level defaultdict. */
  function Insert(g: Grouping, e: Entry): Grouping
  {
    var perLabel := if e.frame in g then g[e.frame] else map[];
    var l := e.annotation.labelName;
    g[e.frame := perLabel[l := ListAt(g, e.frame, l) + [e.annotation]]]
  }

  /**
   * The append on a defaultdict of lists: the entry's list gains the
   * annotation at its end, the frame becomes a key, and every other list
   * stays as it was.
   */
  lemma InsertAppends(g: Grouping, e: Entry)
    ensures Insert(g, e).Keys == g.Keys + {e.frame}
    ensures ListAt(Insert(g, e), e.frame, e.annotation.labelName) == ListAt(g, e.frame, e.annotation.labelName) + [e.annotation]
    ensures forall f, l :: f != e.frame || l != e.annotation.labelName ==> ListAt(Insert(g, e), f, l) == ListAt(g, f, l)
  {
  }

  /** The grouping after the appends `es`, in order. */
  function Group(es: seq<Entry>): Grouping
  {
    if es == [] then map[] else Insert(Group(es[..|es| - 1]), es[|es| - 1])
  }

  /** The annotations_per_frame that construction builds from the track records, or the error raised. */
  function Grouped(tracks: seq<TrackRecord>): Result<Grouping, LegacyError>
  {
    match Appended(VisitedShapes(tracks))
    case Err(e) => Err(e)
    case Ok(es) => Ok(Group(es))
  }

  /** The nested loops of Dataset.__init__ that fill annotations_per_frame in place. */
  method GroupAnnotations(tracks: seq<TrackRecord>) returns (r: Result<Grouping, LegacyError>)
    ensures r == Grouped(tracks)
  {
    var perFrame: Grouping := map[];
    ghost var entries: seq<Entry> := [];
    var annotation: Option<LegacyAnnotation> := None;  // the loop variable; unbound until first assigned
    var i := 0;
    while i < |tracks|
      invariant 0 <= i <= |tracks|
      invariant Appended(VisitedShapes(tracks[..i])) == Ok(entries)
      invariant perFrame == Group(entries)
      invariant annotation == LastAnnotation(entries)
    {
      var track := tracks[i];
      assert tracks[..i + 1][..i] == tracks[..i];
      ghost var before := VisitedShapes(tracks[..i]);
      assert before + Labelled(track.labelName, track.shapes[..0]) == before;
      var j := 0;
      while j < |track.shapes|
        invariant 0 <= j <= |track.shapes|
        invariant Appended(before + Labelled(track.labelName, track.shapes[..j])) == Ok(entries)
        invariant perFrame == Group(entries)
        invariant annotation == LastAnnotation(entries)
      {
        var shape := track.shapes[j];
        var frameId := shape.frame;
        AppendedStep(before, track.labelName, track.shapes, j);
        if shape.kind == Points {
          if |shape.points| != 2 {
            ErrorEndsConstruction(tracks, i, j);
            return Err(PointsMismatch(frameId));
          }
          annotation := Some(PointAnnotation(track.labelName, Point(shape.points[0], shape.points[1])));
        } else if shape.kind == Rectangle {
          if |shape.points| != 4 {
            ErrorEndsConstruction(tracks, i, j);
            return Err(PointsMismatch(frameId));
          }
          annotation := Some(BBoxAnnotation(track.labelName,
            Box(Point(shape.points[0], shape.points[1]), Point(shape.points[2], shape.points[3]))));
        } else if annotation.None? {
          // the shape is logged as skipped, but the append below still runs
          ErrorEndsConstruction(tracks, i, j);
          return Err(NoPreviousAnnotation(frameId));
        }
        var a := annotation.value;
        var perLabel := if frameId in perFrame then perFrame[frameId] else map[];
        var list := if a.labelName in perLabel then perLabel[a.labelName] else [];
        perFrame := perFrame[frameId := perLabel[a.labelName := list + [a]]];
        GroupStep(entries, Entry(frameId, a));
        entries := entries + [Entry(frameId, a)];
        j := j + 1;
      }
      assert track.shapes[..j] == track.shapes;
      i := i + 1;
    }
    assert tracks[..i] == tracks;
    return Ok(perFrame);
  }

  /** The visited shapes of the first m tracks come first among those of all tracks. */
  lemma {:induction false} VisitedShapesPrefix(tracks: seq<TrackRecord>, m: nat)
    requires m <= |tracks|
    ensures |VisitedShapes(tracks[..m])| <= |VisitedShapes(tracks)|
    ensures VisitedShapes(tracks)[..|VisitedShapes(tracks[..m])|] == VisitedShapes(tracks[..m])
    decreases |tracks|
  {
    if m < |tracks| {
      var p := tracks[..|tracks| - 1];
      assert p[..m] == tracks[..m];
      VisitedShapesPrefix(p, m);
    } else {
      assert tracks[..m] == tracks;
    }
  }

  /** A raised error ends the loops: no later shape changes it. */
  lemma {:induction false} AppendedErrorPersists(items: seq<(string, ShapeRecord)>, n: nat)
    requires n <= |items| && Appended(items[..n]).Err?
    ensures Appended(items) == Appended(items[..n])
    decreases |items|
  {
    if n < |items| {
      var p := items[..|items| - 1];
      assert p[..n] == items[..n];
      AppendedErrorPersists(p, n);
    } else {
      assert items[..n] == items;
    }
  }

  /** An error raised at shape j of track i is the result of the whole construction. */
  lemma ErrorEndsConstruction(tracks: seq<TrackRecord>, i: nat, j: nat)
    requires i < |tracks| && j < |tracks[i].shapes|
    requires Appended(VisitedShapes(tracks[..i]) + Labelled(tracks[i].labelName, tracks[i].shapes[..j + 1])).Err?
    ensures Grouped(tracks) ==
      Err(Appended(VisitedShapes(tracks[..i]) + Labelled(tracks[i].labelName, tracks[i].shapes[..j + 1])).error)
  {
    var t := tracks[i];
    var before := VisitedShapes(tracks[..i]);
    var upTo := before + Labelled(t.labelName, t.shapes[..j + 1]);
    var whole := VisitedShapes(tracks);
    assert tracks[..i + 1][..i] == tracks[..i];
    var next := VisitedShapes(tracks[..i + 1]);
    assert next == before + Labelled(t.labelName, t.shapes);
    VisitedShapesPrefix(tracks, i + 1);
    assert next[..|upTo|] == upTo;
    assert whole[..|upTo|] == upTo;
    AppendedErrorPersists(whole, |upTo|);
  }

  /** One more visited shape: the construction takes one more step from where it was. */
  lemma AppendedStep(before: seq<(string, ShapeRecord)>, labelName: string, shapes: seq<ShapeRecord>, j: nat)
    requires j < |shapes|
    ensures Appended(before + Labelled(labelName, shapes[..j + 1])) ==
      match Appended(before + Labelled(labelName, shapes[..j]))
      case Err(e) => Err(e)
      case Ok(es) =>
        match Convert(labelName, shapes[j], LastAnnotation(es))
        case Err(e) => Err(e)
        case Ok(a) => Ok(es + [Entry(shapes[j].frame, a)])
  {
    var visited := before + Labelled(labelName, shapes[..j + 1]);
    assert visited[..|visited| - 1] == before + Labelled(labelName, shapes[..j]);
    assert visited[|visited| - 1] == (labelName, shapes[j]);
  }

  lemma GroupStep(es: seq<Entry>, e: Entry)
    ensures Group(es + [e]) == Insert(Group(es), e)
    ensures LastAnnotation(es + [e]) == Some(e.annotation)
  {
    assert (es + [e])[..|es|] == es;
  }

  // ---------------------------------------------------------------------
  // What the grouping holds, stated without the loops
  // ---------------------------------------------------------------------

  /** A shape the loop converts: two numbers for "points", four for "rectangle". */
  predicate Recognised(s: ShapeRecord)
  {
    (s.kind == Points && |s.points| == 2) || (s.kind == Rectangle && |s.points| == 4)
  }

  /** The annotation a recognised shape of a track labelled `labelName` becomes. */
  function Annotate(labelName: string, s: ShapeRecord): LegacyAnnotation
    requires Recognised(s)
  {
    if s.kind == Points then PointAnnotation(labelName, Point(s.points[0], s.points[1]))
    else BBoxAnnotation(labelName, Box(Point(s.points[0], s.points[1]), Point(s.points[2], s.points[3])))
  }

  /** Every visited shape appends exactly one entry, filed under that shape's own frame. */
  lemma {:induction false} AppendedOnePerShape(items: seq<(string, ShapeRecord)>)
    requires Appended(items).Ok?
    ensures var es := Appended(items).value;
      |es| == |items| && forall k :: 0 <= k < |es| ==> es[k].frame == items[k].1.frame
  {
    if items != [] {
      AppendedOnePerShape(items[..|items| - 1]);
    }
  }

  /**
   * When every shape is a well-formed "points" or "rectangle" shape, the
   * construction succeeds and appends, in visiting order, each shape's own
   * conversion labelled with its own track's label.
   */
  lemma {:induction false} AppendedRecognised(items: seq<(string, ShapeRecord)>)
    requires forall k :: 0 <= k < |items| ==> Recognised(items[k].1)
    ensures Appended(items).Ok?
    ensures var es := Appended(items).value;
      |es| == |items| &&
      forall k :: 0 <= k < |es| ==> es[k] == Entry(items[k].1.frame, Annotate(items[k].0, items[k].1))
  {
    if items != [] {
      var p := items[..|items| - 1];
      AppendedRecognised(p);
      var item := items[|items| - 1];
      var ep := Appended(p).value;
      assert Convert(item.0, item.1, LastAnnotation(ep)) == Ok(Annotate(item.0, item.1));
      assert forall k :: 0 <= k < |p| ==> p[k] == items[k];
    }
  }

  /**
   * A shape of any other type is not skipped: it appends the annotation
   * appended last, under its own frame, and raises when there is none.
   */
  lemma UnknownShapeRepeatsPrevious(items: seq<(string, ShapeRecord)>, labelName: string, s: ShapeRecord)
    requires Appended(items).Ok?
    requires s.kind != Points && s.kind != Rectangle
    ensures var es := Appended(items).value;
      Appended(items + [(labelName, s)]) ==
        if es == [] then Err(NoPreviousAnnotation(s.frame))
        else Ok(es + [Entry(s.frame, es[|es| - 1].annotation)])
  {
    assert (items + [(labelName, s)])[..|items|] == items;
  }

  /** The annotations among `es` filed at frame f under label l, in order. */
  function Select(es: seq<Entry>, f: int, l: string): seq<LegacyAnnotation>
  {
    if es == [] then []
    else
      (if es[0].frame == f && es[0].annotation.labelName == l then [es[0].annotation] else [])
      + Select(es[1..], f, l)
  }

  lemma {:induction false} SelectAppend(es: seq<Entry>, e: Entry, f: int, l: string)
    ensures Select(es + [e], f, l) ==
      Select(es, f, l) + (if e.frame == f && e.annotation.labelName == l then [e.annotation] else [])
  {
    if es != [] {
      assert (es + [e])[1..] == es[1..] + [e];
      SelectAppend(es[1..], e, f, l);
    } else {
      assert Select([e][1..], f, l) == [];
    }
  }

  /**
   * annotations_per_frame[f][l] lists every appended annotation with frame
   * f and label l, in append order; a frame or a label is a key exactly
   * when something was appended under it.
   */
  lemma {:induction false} GroupIsSelection(es: seq<Entry>, f: int, l: string)
    ensures ListAt(Group(es), f, l) == Select(es, f, l)
    ensures f in Group(es) <==> exists k :: 0 <= k < |es| && es[k].frame == f
    ensures f in Group(es) ==>
      (l in Group(es)[f] <==> exists k :: 0 <= k < |es| && es[k].frame == f && es[k].annotation.labelName == l)
  {
    if es != [] {
      var p, e := es[..|es| - 1], es[|es| - 1];
      assert es == p + [e];
      GroupIsSelection(p, f, l);
      SelectAppend(p, e, f, l);
      assert forall k :: 0 <= k < |p| ==> es[k] == p[k];
    }
  }

  lemma HasElement(s: set<int>)
    requires s != {}
    ensures exists x :: x in s
  {
    if forall y :: y !in s {
      assert false;
    }
  }

  /** Python's `min` over the keys of annotations_per_frame. */
  method MinKey(keys: set<int>) returns (m: int)
    requires keys != {}
    ensures m in keys && forall k :: k in keys ==> m <= k
  {
    HasElement(keys);
    m :| m in keys;
    var rest := keys - {m};
    while rest != {}
      invariant m in keys && rest <= keys
      invariant forall k :: k in keys && k !in rest ==> m <= k
      decreases rest
    {
      HasElement(rest);
      var k :| k in rest;
      if k < m {
        m := k;
      }
      rest := rest - {k};
    }
  }

  class LegacyDataset {
    const labels: seq<LabelRecord>
    const annotationsPerFrame: Grouping
    var currentFrameId: int
    /** Whether `self.capture` still holds the video capture (it is set to None by close). */
    var captureOpen: bool

    constructor (labels: seq<LabelRecord>, annotationsPerFrame: Grouping)
      ensures this.labels == labels && this.annotationsPerFrame == annotationsPerFrame
      ensures currentFrameId == 0 && captureOpen
    {
      this.labels := labels;
      this.annotationsPerFrame := annotationsPerFrame;
      currentFrameId := 0;
      captureOpen := true;
    }

    /** Dataset.__init__ from the parsed records; opening the capture always yields a capture object. */
    static method Open(labels: seq<LabelRecord>, tracks: seq<TrackRecord>) returns (r: Result<LegacyDataset, LegacyError>)
      ensures Grouped(tracks).Err? ==> r == Err(Grouped(tracks).error)
      ensures Grouped(tracks).Ok? ==>
        r.Ok? && fresh(r.value) && r.value.labels == labels &&
        r.value.annotationsPerFrame == Grouped(tracks).value &&
        r.value.currentFrameId == 0 && r.value.captureOpen
    {
      var grouped := GroupAnnotations(tracks);
      if grouped.Err? {
        return Err(grouped.error);
      }
      var d := new LegacyDataset(labels, grouped.value);
      return Ok(d);
    }

    /** `annotations_per_frame.get(f, [])`: the frame's groups, or nothing; no key is inserted. */
    function FrameAnnotations(f: int): map<string, seq<LegacyAnnotation>>
    {
      if f in annotationsPerFrame then annotationsPerFrame[f] else map[]
    }

    /** seek: the cursor is set first; the capture call then raises if the capture was released. */
    method Seek(k: int) returns (o: Outcome<LegacyError>)
      modifies this`currentFrameId
      ensures currentFrameId == k
      ensures o == if captureOpen then Pass else Fail(CaptureReleased)
    {
      currentFrameId := k;
      if !captureOpen {
        return Fail(CaptureReleased);
      }
      return Pass;
    }

    /** seek_first_annotation: to the smallest frame that has an annotation; raises when there is none. */
    method SeekFirstAnnotation() returns (o: Outcome<LegacyError>)
      modifies this`currentFrameId
      ensures annotationsPerFrame == map[] ==>
        o == Fail(NoAnnotations) && currentFrameId == old(currentFrameId)
      ensures annotationsPerFrame != map[] ==>
        currentFrameId in annotationsPerFrame &&
        (forall f :: f in annotationsPerFrame ==> currentFrameId <= f) &&
        o == if captureOpen then Pass else Fail(CaptureReleased)
    {
      if annotationsPerFrame.Keys == {} {
        assert annotationsPerFrame == map[];
        return Fail(NoAnnotations);
      }
      var first := MinKey(annotationsPerFrame.Keys);
      o := Seek(first);
    }

    /**
     * __next__: the frame at the cursor with its groups, then the cursor
     * moves on by one; it never stops. With the capture released, the
     * read raises before the cursor moves. `decoded` stands for what the
     * capture's read returns.
     */
    method Next(decoded: Option<Image>) returns (r: Result<LegacyFrame, LegacyError>)
      modifies this`currentFrameId
      ensures captureOpen ==>
        r == Ok(LegacyFrame(old(currentFrameId), decoded, FrameAnnotations(old(currentFrameId)))) &&
        currentFrameId == old(currentFrameId) + 1
      ensures !captureOpen ==> r == Err(CaptureReleased) && currentFrameId == old(currentFrameId)
    {
      var frameId := currentFrameId;
      if !captureOpen {
        return Err(CaptureReleased);
      }
      currentFrameId := currentFrameId + 1;
      return Ok(LegacyFrame(frameId, decoded, FrameAnnotations(frameId)));
    }

    /** close: releases the capture once; later calls find it released and do nothing. */
    method Close()
      modifies this`captureOpen
      ensures !captureOpen
    {
      if captureOpen {
        captureOpen := false;
      }
    }
  }
}
