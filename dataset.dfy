/**
 * Dataset (cvat_reader/_base.py): the kept tracks, a video reader, and
 * iteration that pairs each frame the reader produces with the annotations
 * of every track covering that frame, until the reader's frame id passes
 * the last annotated frame.
 */
module Datasets {
  import opened Wrappers
  import opened CvatRecords
  import opened Annotations
  import opened TrackBuilding
  import opened VideoReaders

  /** One element of the iteration: a frame id, its image, and the resolved annotations. */
  datatype Frame = Frame(frameId: int, image: Option<Image>, annotations: seq<Annotation>)

  /** Why constructing a Dataset raises. */
  datatype DatasetError =
    | Build(cause: BuildError)   // a malformed rectangle while building the tracks
    | NoTracks                   // `max` of an empty sequence when computing last_frame_id

  predicate AllValid(tracks: seq<Track>)
  {
    forall k :: 0 <= k < |tracks| ==> tracks[k].Valid()
  }

  /** Dataset.last_frame_id: the largest last frame over all tracks. */
  function MaxLastFrame(tracks: seq<Track>): (m: int)
    requires |tracks| > 0 && AllValid(tracks)
    ensures exists k :: 0 <= k < |tracks| && m == tracks[k].LastFrameId()
    ensures forall k :: 0 <= k < |tracks| ==> tracks[k].LastFrameId() <= m
  {
    if |tracks| == 1 then tracks[0].LastFrameId()
    else
      var rest := MaxLastFrame(tracks[1..]);
      assert forall k :: 1 <= k < |tracks| ==> tracks[k] == tracks[1..][k - 1];
      Max(tracks[0].LastFrameId(), rest)
  }

  /** The frame seek_first_annotation goes to: the smallest first frame over all tracks. */
  function MinFirstFrame(tracks: seq<Track>): (m: int)
    requires |tracks| > 0 && AllValid(tracks)
    ensures exists k :: 0 <= k < |tracks| && m == tracks[k].FirstFrameId()
    ensures forall k :: 0 <= k < |tracks| ==> m <= tracks[k].FirstFrameId()
  {
    if |tracks| == 1 then tracks[0].FirstFrameId()
    else
      var rest := MinFirstFrame(tracks[1..]);
      assert forall k :: 1 <= k < |tracks| ==> tracks[k] == tracks[1..][k - 1];
      Min(tracks[0].FirstFrameId(), rest)
  }

  /**
   * The annotations of a frame: get_annotation(f) of every track, in track
   * order, with the `None` results dropped.
   */
  function ActiveAnnotations(tracks: seq<Track>, f: int): (r: seq<Annotation>)
    requires AllValid(tracks)
    ensures |r| <= |tracks|
    ensures forall k :: 0 <= k < |r| ==> r[k].frameId == f
  {
    if tracks == [] then []
    else
      var head := match tracks[0].GetAnnotation(f)
        case Some(a) => [a]
        case None => [];
      head + ActiveAnnotations(tracks[1..], f)
  }

  /** The tracks covering frame f, in order. */
  function Covering(tracks: seq<Track>, f: int): (r: seq<Track>)
    requires AllValid(tracks)
    ensures forall t :: t in r <==> t in tracks && t.Valid() && t.Covers(f)
  {
    if tracks == [] then []
    else (if tracks[0].Covers(f) then [tracks[0]] else []) + Covering(tracks[1..], f)
  }

  function TrackIds(anns: seq<Annotation>): seq<int>
  {
    seq(|anns|, k requires 0 <= k < |anns| => anns[k].trackId)
  }

  function CoveringIds(tracks: seq<Track>): seq<int>
  {
    seq(|tracks|, k requires 0 <= k < |tracks| => tracks[k].trackId)
  }

  /**
   * A frame's annotations are exactly one per covering track, in track
   * order: the k-th is the k-th covering track's annotation at that frame.
   */
  lemma {:induction false} ActiveAnnotationsOfCovering(tracks: seq<Track>, f: int)
    requires AllValid(tracks)
    ensures var r, c := ActiveAnnotations(tracks, f), Covering(tracks, f);
      |r| == |c| && forall k :: 0 <= k < |r| ==> Some(r[k]) == c[k].GetAnnotation(f)
  {
    if tracks != [] {
      ActiveAnnotationsOfCovering(tracks[1..], f);
    }
  }

  /**
   * For well-formed tracks, the track ids of a frame's annotations are the
   * ids of the covering tracks, in order; with increasing track ids (as
   * built) no track contributes twice.
   */
  lemma FrameTrackIds(tracks: seq<Track>, f: int)
    requires AllValid(tracks)
    requires forall k :: 0 <= k < |tracks| ==> WellFormed(tracks[k])
    ensures TrackIds(ActiveAnnotations(tracks, f)) == CoveringIds(Covering(tracks, f))
    ensures IncreasingIds(tracks) ==> IncreasingIds(Covering(tracks, f))
  {
    var r, c := ActiveAnnotations(tracks, f), Covering(tracks, f);
    ActiveAnnotationsOfCovering(tracks, f);
    forall k | 0 <= k < |r| ensures r[k].trackId == c[k].trackId {
      assert c[k] in tracks;
      GetAnnotationKeepsIdentity(c[k], f);
    }
    if IncreasingIds(tracks) {
      CoveringKeepsOrder(tracks, f);
    }
  }

  lemma {:induction false} CoveringKeepsOrder(tracks: seq<Track>, f: int)
    requires AllValid(tracks) && IncreasingIds(tracks)
    ensures IncreasingIds(Covering(tracks, f))
  {
    if tracks != [] {
      var tail := tracks[1..];
      CoveringKeepsOrder(tail, f);
      var rest := Covering(tail, f);
      var head: seq<Track> := if tracks[0].Covers(f) then [tracks[0]] else [];
      var all := head + rest;
      forall k | 0 <= k < |rest| ensures tracks[0].trackId < rest[k].trackId {
        assert rest[k] in tail;
        var m :| 0 <= m < |tail| && rest[k] == tail[m];
        assert tail[m] == tracks[m + 1];
      }
      forall a, c | 0 <= a < c < |all| ensures all[a].trackId < all[c].trackId {
        if a < |head| {
          assert all[c] == rest[c - |head|];
        } else {
          assert all[a] == rest[a - |head|] && all[c] == rest[c - |head|];
        }
      }
    }
  }

  /**
   * On sorted tracks the frame seek_first_annotation goes to is not past
   * the last annotated frame, and at least one track has an annotation there.
   */
  lemma FirstAnnotatedFrameHasAnnotations(tracks: seq<Track>)
    requires |tracks| > 0 && AllValid(tracks)
    requires forall k :: 0 <= k < |tracks| ==> Sorted(tracks[k].annotations)
    ensures MinFirstFrame(tracks) <= MaxLastFrame(tracks)
    ensures |ActiveAnnotations(tracks, MinFirstFrame(tracks))| > 0
  {
    var f := MinFirstFrame(tracks);
    var k :| 0 <= k < |tracks| && f == tracks[k].FirstFrameId();
    var anns := tracks[k].annotations;
    assert anns[0].frameId <= anns[|anns| - 1].frameId;
    assert tracks[k] in Covering(tracks, f);
    ActiveAnnotationsOfCovering(tracks, f);
  }

  class Dataset {
    const labels: seq<LabelRecord>
    const tracks: seq<Track>
    const videoFile: string
    const lastFrameId: int
    const reader: DummyVideoReader

    ghost predicate Valid()
    {
      |tracks| > 0 && AllValid(tracks) && lastFrameId == MaxLastFrame(tracks)
    }

    constructor (labels: seq<LabelRecord>, tracks: seq<Track>, videoFile: string)
      requires |tracks| > 0 && AllValid(tracks)
      ensures Valid()
      ensures this.labels == labels && this.tracks == tracks && this.videoFile == videoFile
      ensures fresh(reader) && reader.frameId == 0
    {
      this.labels := labels;
      this.tracks := tracks;
      this.videoFile := videoFile;
      reader := new DummyVideoReader();
      lastFrameId := MaxLastFrame(tracks);
    }

    /**
     * Dataset.__init__ from the parsed records: builds the tracks, opens
     * the reader and computes last_frame_id, which raises when no track
     * was kept.
     */
    static method Open(labels: seq<LabelRecord>, records: seq<TrackRecord>, videoFile: string)
      returns (r: Result<Dataset, DatasetError>)
      ensures KeptTracks(records).Err? ==> r == Err(Build(KeptTracks(records).error))
      ensures KeptTracks(records) == Ok([]) ==> r == Err(NoTracks)
      ensures r.Ok? <==> KeptTracks(records).Ok? && KeptTracks(records).value != []
      ensures r.Ok? ==>
        fresh(r.value) && fresh(r.value.reader) && r.value.Valid() &&
        KeptTracks(records) == Ok(r.value.tracks) &&
        r.value.labels == labels && r.value.videoFile == videoFile &&
        r.value.reader.frameId == 0
    {
      var built := BuildTracks(records);
      if built.Err? {
        return Err(Build(built.error));
      }
      var tracks := built.value;
      if tracks == [] {
        return Err(NoTracks);
      }
      KeptTracksAreKeyframeTracks(records);
      var d := new Dataset(labels, tracks, videoFile);
      return Ok(d);
    }

    /** seek: delegates to the reader. */
    method Seek(k: int)
      modifies reader
      ensures reader.frameId == k
    {
      reader.Seek(k);
    }

    /** seek_first_annotation: the next frame read is the smallest first frame of any track. */
    method SeekFirstAnnotation()
      requires Valid()
      modifies reader
      ensures reader.frameId == MinFirstFrame(tracks)
    {
      Seek(MinFirstFrame(tracks));
    }

    /**
     * __next__: reads a frame (the reader advances in every case) and stops
     * exactly when its id is past last_frame_id; otherwise the frame carries
     * the annotations of every covering track at that id. End of stream is
     * not checked: only the frame id ends the iteration.
     */
    method Next() returns (r: Option<Frame>)
      requires Valid()
      modifies reader
      ensures reader.frameId == old(reader.frameId) + 1
      ensures r.None? <==> old(reader.frameId) > lastFrameId
      ensures r.Some? ==>
        r.value == Frame(old(reader.frameId), None, ActiveAnnotations(tracks, old(reader.frameId)))
    {
      var frameId, image := reader.ReadFrame();
      if frameId > lastFrameId {
        return None;
      }
      return Some(Frame(frameId, image, ActiveAnnotations(tracks, frameId)));
    }

    /** close: closes the reader, which for the dummy reader changes nothing; safe to repeat. */
    method Close()
      ensures reader.frameId == old(reader.frameId)
    {
      reader.Close();
    }
  }

  // ---------------------------------------------------------------------
  // is_video_file
  // ---------------------------------------------------------------------

  const VideoExtensions: seq<string> := [".mp4", ".mpeg", ".mov", ".avi"]

  /** The index of the last `c` in `s`, or -1 when there is none. */
  function LastIndexOf(s: string, c: char): (i: int)
    ensures -1 <= i < |s|
    ensures i >= 0 ==> s[i] == c
    ensures forall k :: i < k < |s| ==> s[k] != c
  {
    if s == [] then -1
    else if s[|s| - 1] == c then |s| - 1
    else LastIndexOf(s[..|s| - 1], c)
  }

  /**
   * The extension os.path.splitext returns on POSIX: from the last dot of
   * the last path component to the end, unless only dots precede that dot
   * in the component (then there is none).
   */
  function Extension(p: string): string
  {
    var sep := LastIndexOf(p, '/');
    var dot := LastIndexOf(p, '.');
    if dot > sep && exists k :: sep < k < dot && p[k] != '.' then p[dot..] else ""
  }

  /** is_video_file: a case-sensitive test of the extension against the four accepted ones. */
  predicate IsVideoFile(p: string)
  {
    Extension(p) in VideoExtensions
  }

  /** A non-empty extension is a dot-led suffix of the path with no further dot or slash. */
  lemma ExtensionIsSuffix(p: string)
    ensures var ext := Extension(p);
      ext == [] ||
      (|ext| <= |p| && ext == p[|p| - |ext|..] && ext[0] == '.' &&
       forall k :: 0 < k < |ext| ==> ext[k] != '.' && ext[k] != '/')
  {
    var sep := LastIndexOf(p, '/');
    var dot := LastIndexOf(p, '.');
    if dot > sep {
      var ext := p[dot..];
      forall k | 0 < k < |ext| ensures ext[k] != '.' && ext[k] != '/' {
        assert ext[k] == p[dot + k];
      }
    }
  }

  lemma {:induction false} LastIndexOfSkip(s: string, t: string, c: char)
    requires c !in t
    ensures LastIndexOf(s + t, c) == LastIndexOf(s, c)
    decreases |t|
  {
    if t != [] {
      var u := t[..|t| - 1];
      assert (s + t)[..|s + t| - 1] == s + u;
      LastIndexOfSkip(s, u, c);
    } else {
      assert s + t == s;
    }
  }

  /**
   * For a file `stem.ext` in any directory, with a stem of at least one
   * character and neither stem nor ext holding a dot or a slash, the file
   * is a video file exactly when ".ext" is one of the four extensions.
   */
  lemma VideoFileByExtension(dir: string, stem: string, ext: string)
    requires |stem| > 0 && '.' !in stem && '/' !in stem
    requires '.' !in ext && '/' !in ext
    ensures IsVideoFile(dir + "/" + stem + "." + ext) <==> "." + ext in VideoExtensions
  {
    var p := dir + "/" + stem + "." + ext;
    var head := dir + "/" + stem;
    assert p == (head + ".") + ext;
    LastIndexOfSkip(head + ".", ext, '.');
    assert (head + ".")[|head|] == '.';
    var dot := |head|;
    assert LastIndexOf(p, '.') == dot;
    LastIndexOfSkip(dir + "/", stem + "." + ext, '/');
    assert p == (dir + "/") + (stem + "." + ext);
    assert (dir + "/")[|dir|] == '/';
    var sep := |dir|;
    assert LastIndexOf(p, '/') == sep;
    assert p[sep + 1] == stem[0] != '.';
    assert p[dot..] == "." + ext;
  }
}
