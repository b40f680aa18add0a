# cvat_reader in Dafny

A model of the core of `cvat_reader`, a reader for video annotation exports of the CVAT tool.
It covers:

- **Interpolation and lookup.** An export stores each tracked object as a track. A track keeps
  rectangle observations (annotations) only at keyframes. `Track.get_annotation` resolves a
  track at any frame in one of three ways:
  - nothing outside the track's frame range;
  - the stored keyframe on an exact hit;
  - otherwise, an annotation interpolated between the two surrounding keyframes.
- **Track building.** The tracks are built from the parsed shape records.
- **Iteration.** The `Dataset` pairs each frame id of its video reader with the annotations of
  every track covering that frame. Iteration stops once the frame id passes the last annotated
  frame. It runs over the no-op video reader, which only counts frames.
- **The older reader** in `cvat_reader/__init__.py`. It groups converted point and box
  annotations by frame and label. A cursor advances one frame per step.

Modules, one per source component:

| file | module | models |
|---|---|---|
| `wrappers.dfy` | `Wrappers` | `Option`, `Result` and `Outcome`, used for `None` returns and raised exceptions |
| `cvat_records.dfy` | `CvatRecords` | the parsed JSON records (labels, tracks, shapes) the constructors receive |
| `annotations.dfy` | `Annotations` | `Annotation`, `Annotation.from_interpolation`, `Track` and `get_annotation` |
| `track_building.dfy` | `TrackBuilding` | the track-building loops of `Dataset.__init__` |
| `dummy_reader.dfy` | `VideoReaders` | `DummyVideoReader` |
| `dataset.dfy` | `Datasets` | `Dataset`: `last_frame_id`, `seek`, `seek_first_annotation`, `__next__`, `close`; `is_video_file` |
| `legacy_dataset.dfy` | `LegacyDatasets` | the older `Dataset` of `cvat_reader/__init__.py` |

**Interpolation arithmetic.** The source interpolates in floating point: it computes
`int((end - begin) * t + begin)` with `t = (f - b) / (e - b)`. The model uses the exact rational
value of that expression, `N / D`, where `D = e - b` and `N = begin * D + (end - begin) * (f - b)`.
It truncates `N / D` toward zero, as Python's `int()` does. The truncation applies to the whole
sum. Floating-point rounding is not modelled.

**Lookup.** `get_annotation` is the pure recursive `ScanFrom`, and its properties are lemmas. For
every frame in `[first_frame_id, last_frame_id]` it returns an annotation, so the final
`return None` (line 125) is never reached. This needs only a non-empty track, not sorted keyframes.
In the interpolation branch `i > 0` always holds, so Python's `annotations[-1]` is never read. The
two surrounding keyframes strictly enclose the queried frame, so the divisor is never zero. The
source does not check that keyframes are sorted. Lemmas that need sorted keyframes take that as a
hypothesis.

**Object state.** The video reader and both datasets are classes:

- The dummy reader's counter is a mutable field.
- A `Dataset`'s tracks, last frame and reader are fixed when it is built (`const`).
- The older reader's cursor and capture flag are mutable fields. Its capture is reduced to a flag
  saying whether it is still held.

Both constructors get their input as parsed records. Each is reached through a static `Open`
method that returns an error where the source raises.

**Where the model follows the code closely:**

- **Interpolation formula.** The code truncates the whole sum `(end - begin) * t + begin`, not just
  the offset. A per-coordinate formula `begin + trunc((end - begin) * t)` would give a different
  result. For example, with begin 1 and end 0, halfway between frames 0 and 2, the code gives 0 and
  that formula gives 1. `TruncationAppliesToWholeSum` shows this case.
- **End of stream.** `__next__` has no end-of-stream check. It compares only the frame id with
  `last_frame_id` (line 207). The dummy reader never ends.
- **Sorted keyframes.** Nothing in the code checks that a track's keyframes are sorted by frame.

**Older construction loop.** The model keeps one behaviour of this loop exactly as the code has
it. A shape that is neither `"points"` nor `"rectangle"` is logged as skipped. The append on
line 88 still runs for it:

- It re-appends the annotation the loop variable last held, under the current shape's frame.
- That annotation may come from an earlier track, and it is filed under its own label.
- When no annotation was made yet, the append raises.

## Model

| member | source | states |
|---|---|---|
| `Annotations.TruncDiv` | cvat_reader/_base.py:48-55 | `int()` of the exact quotient truncates toward zero: for n >= 0 the result q is non-negative with q*d <= n < q*d + d; for n < 0 it is non-positive with q*d - d < n <= q*d |
| `Annotations.Lerp` | cvat_reader/_base.py:48-55 | one coordinate of the box, the truncated value of `(end - begin) * t + begin`. It has no contract of its own: `LerpAtKeyframes`, `LerpConstant` and `LerpBetween` state what it means |
| `Annotations.FromInterpolation` | cvat_reader/_base.py:31-84 | `Annotation.from_interpolation`. It has no contract of its own: `InterpolationBetweenKeyframes`, `InterpolationKeepsSharedBox` and `InterpolationIgnoresEndMetadata` state what it means |
| `Annotations.LerpAtKeyframes` | cvat_reader/_base.py:34-83 | an interpolated coordinate equals the begin value at the begin frame and the end value at the end frame |
| `Annotations.LerpConstant` | cvat_reader/_base.py:46-83 | a coordinate both keyframes share keeps that value at every frame |
| `Annotations.LerpBetween` | cvat_reader/_base.py:46-83 | between the keyframes, each interpolated coordinate lies between the begin and end coordinates inclusive |
| `Annotations.InterpolationBetweenKeyframes` | cvat_reader/_base.py:31-84 | strictly between its keyframes, the synthesised annotation is at the queried frame and marked interpolated. Its track id, label, occluded, outside and attributes are the begin keyframe's. Its box lies within the two keyframe boxes, coordinate by coordinate |
| `Annotations.InterpolationKeepsSharedBox` | cvat_reader/_base.py:46-83 | when both keyframes have the same box, the interpolated box is that box |
| `Annotations.InterpolationIgnoresEndMetadata` | cvat_reader/_base.py:38-45 | the end keyframe contributes only its frame id and box: its label, flags and attributes never reach the result |
| `Annotations.TruncationAppliesToWholeSum` | cvat_reader/_base.py:48-55 | worked example: going from 1 to 0 over frames 0..2, frame 1 gives 0, while begin + trunc(diff * t) would give 1 |
| `Annotations.TruncationNotRounding` | cvat_reader/_base.py:48-55 | worked example: going from 0 to 7 over frames 0..3, frame 2 gives 4 (14/3 truncated, not rounded to 5) |
| `Annotations.ScanFrom` | cvat_reader/_base.py:111-125 | the search loop returns nothing exactly when every remaining keyframe is before the frame; whatever it returns is at the queried frame |
| `Annotations.Track.FirstFrameId` | cvat_reader/_base.py:92-94 | the frame of the first annotation. It has no contract of its own: `Track.GetAnnotation` and `SingleKeyframe` state how it bounds the frames a track answers |
| `Annotations.Track.LastFrameId` | cvat_reader/_base.py:96-98 | the frame of the last annotation. It has no contract of its own: `Track.GetAnnotation` states how it bounds the frames a track answers |
| `Annotations.Track.Label` | cvat_reader/_base.py:100-102 | the label of the first annotation. It has no contract of its own: `GetAnnotationKeepsIdentity` and `KeptTracksAreKeyframeTracks` state that it is the label of every annotation of a built track |
| `Annotations.Track.GetAnnotation` | cvat_reader/_base.py:104-125 | `get_annotation(f)` is None exactly when f < first_frame_id or f > last_frame_id, so the fall-through after the loop is unreachable; any result has frame_id f |
| `Annotations.GetAnnotationAt` | cvat_reader/_base.py:111-122 | let j be the first keyframe at or after f. On an exact hit the result is keyframe j itself. Otherwise j > 0, keyframe j-1 is strictly before f, and the result interpolates from keyframe j-1 to keyframe j |
| `Annotations.ExactKeyframeHit` | cvat_reader/_base.py:111-113 | on a sorted track, querying a keyframe's frame returns that stored keyframe unchanged |
| `Annotations.BetweenKeyframes` | cvat_reader/_base.py:115-122 | on a sorted track, a frame strictly between keyframes j-1 and j gives the interpolation between exactly those two |
| `Annotations.InterpolatedIffNoKeyframe` | cvat_reader/_base.py:111-122 | on a sorted track of keyframes, a covered frame's annotation is marked interpolated exactly when no keyframe has that frame |
| `Annotations.GetAnnotationKeepsIdentity` | cvat_reader/_base.py:104-122 | for a track whose keyframes all carry its id and label, every resolved annotation carries that id and label; no sortedness needed |
| `Annotations.SingleKeyframe` | cvat_reader/_base.py:104-125 | a one-keyframe track answers only at its frame, with that keyframe; the interpolation branch is never reached |
| `TrackBuilding.BuildTracks` | cvat_reader/_base.py:155-181 | the nested loops yield exactly the kept tracks, or the unpacking error of the first rectangle that does not have four numbers |
| `TrackBuilding.Keyframe` | cvat_reader/_base.py:162-173 | the annotation read from one rectangle shape. It has no contract of its own: `TrackAnnotationsFields` and `TrackAnnotationsAreRectangles` state its fields and where it is used |
| `TrackBuilding.TrackAnnotationsAreRectangles` | cvat_reader/_base.py:158-176 | a track's loop succeeds exactly when each of its rectangles has four numbers. Its annotations are then one keyframe per rectangle shape, in input order, with the box read from the points. Other shape types are skipped |
| `TrackBuilding.TrackAnnotationsFields` | cvat_reader/_base.py:164-173 | every built annotation has interpolated false and carries the track's index as track_id and the record's label |
| `TrackBuilding.KeptTracksSucceeds` | cvat_reader/_base.py:157-181 | track building succeeds exactly when every record's rectangles carry four numbers |
| `TrackBuilding.KeptTracksContents` | cvat_reader/_base.py:157-181 | each kept track is non-empty, its id is the index of its record in the input list, its annotations are that record's keyframes, and ids increase in list order |
| `TrackBuilding.KeptTracksComplete` | cvat_reader/_base.py:178-181 | every record with at least one rectangle has a kept track with its index as id; only records without rectangles are dropped |
| `TrackBuilding.KeptTracksAreKeyframeTracks` | cvat_reader/_base.py:157-181 | every kept track is well formed (all annotations carry its id and label), made of keyframes, and labelled by its record |
| `VideoReaders.DummyVideoReader.constructor` | cvat_reader/video_reader/dummy_reader.py:7-8 | a fresh reader's counter is 0 |
| `VideoReaders.DummyVideoReader.ReadFrame` | cvat_reader/video_reader/dummy_reader.py:10-13 | returns the counter before the call with no image, and advances the counter by exactly one; there is no end-of-stream result |
| `VideoReaders.DummyVideoReader.Seek` | cvat_reader/video_reader/dummy_reader.py:15-16 | sets the counter, so the next read returns the sought frame |
| `VideoReaders.DummyVideoReader.Close` | cvat_reader/video_reader/base.py:14-15 | the inherited close changes nothing |
| `Datasets.MaxLastFrame` | cvat_reader/_base.py:193 | last_frame_id is the last frame of some track and no track ends later; it needs at least one track |
| `Datasets.MinFirstFrame` | cvat_reader/_base.py:199 | the frame seek_first_annotation uses is the first frame of some track and no track starts earlier |
| `Datasets.ActiveAnnotations` | cvat_reader/_base.py:210-215 | a frame holds no more annotations than there are tracks, each at the queried frame |
| `Datasets.ActiveAnnotationsOfCovering` | cvat_reader/_base.py:210-215 | a frame's annotations are, in track order, exactly the get_annotation results of the tracks covering it |
| `Datasets.FrameTrackIds` | cvat_reader/_base.py:210-215 | the track ids of a frame's annotations are the ids of the covering tracks, in order; with increasing ids, no track appears twice |
| `Datasets.FirstAnnotatedFrameHasAnnotations` | cvat_reader/_base.py:198-216 | on sorted tracks, the frame seek_first_annotation goes to is not past last_frame_id, and its frame has at least one annotation |
| `Datasets.Dataset.constructor` | cvat_reader/_base.py:183-193 | a fresh dataset holds the given tracks, a dummy reader at 0, and last_frame_id equal to the maximum last frame |
| `Datasets.Dataset.Open` | cvat_reader/_base.py:145-193 | construction raises the build error of a malformed rectangle, and raises when no track is kept (max of nothing). It succeeds exactly when the build succeeds with at least one track, and then holds exactly the kept tracks, with the reader at 0 |
| `Datasets.Dataset.Seek` | cvat_reader/_base.py:195-196 | seek moves the reader to the given frame |
| `Datasets.Dataset.SeekFirstAnnotation` | cvat_reader/_base.py:198-200 | the next frame read is the smallest first frame over all tracks |
| `Datasets.Dataset.Next` | cvat_reader/_base.py:205-216 | the reader always advances by one. Iteration stops exactly when the frame read is past last_frame_id. Otherwise the frame has that id, no image, and the annotations of every covering track in track order |
| `Datasets.Dataset.Close` | cvat_reader/_base.py:218-219 | close leaves the reader as it was, so closing again is harmless |
| `Datasets.ExtensionIsSuffix` | cvat_reader/_base.py:225-226 | the extension compared is empty or a dot-led suffix of the path with no further dot or slash |
| `Datasets.Extension` | cvat_reader/_base.py:225-226 | the extension `os.path.splitext` returns on POSIX. It has no contract of its own: `ExtensionIsSuffix` and `VideoFileByExtension` state what it returns |
| `Datasets.IsVideoFile` | cvat_reader/_base.py:225-226 | `is_video_file`. It has no contract of its own: `VideoFileByExtension` states when it holds |
| `Datasets.VideoFileByExtension` | cvat_reader/_base.py:225-226 | a file `stem.ext` is a video file exactly when `.ext` is one of .mp4, .mpeg, .mov, .avi (case-sensitive) |
| `LegacyDatasets.GroupAnnotations` | cvat_reader/__init__.py:65-88 | the nested loops build exactly the grouping of the appends made in visiting order, or raise the first error |
| `LegacyDatasets.Convert` | cvat_reader/__init__.py:71-88 | the annotation the loop body appends for one shape. It has no contract of its own: `AppendedRecognised` and `UnknownShapeRepeatsPrevious` state what it produces for each shape type |
| `LegacyDatasets.Insert` | cvat_reader/__init__.py:88 | the append on a two-level `defaultdict(list)`. It has no contract of its own: `InsertAppends` states what it does |
| `LegacyDatasets.InsertAppends` | cvat_reader/__init__.py:88 | the list at the entry's frame and label gains the annotation at its end, every other list is unchanged, and the entry's frame becomes a key |
| `LegacyDatasets.AppendedOnePerShape` | cvat_reader/__init__.py:67-88 | every visited shape, of whatever type, appends exactly one annotation, under that shape's frame |
| `LegacyDatasets.AppendedRecognised` | cvat_reader/__init__.py:71-88 | when all shapes are well-formed points or rectangles, the appends are, in order, a PointAnnotation of the truncated (x, y) or a BBoxAnnotation of the truncated corners, labelled with the shape's own track label |
| `LegacyDatasets.UnknownShapeRepeatsPrevious` | cvat_reader/__init__.py:85-88 | a shape of another type re-appends the annotation appended last, under its own frame, and raises when none was made yet |
| `LegacyDatasets.GroupIsSelection` | cvat_reader/__init__.py:65-88 | annotations_per_frame[f][l] lists every appended annotation with frame f and label l, in append order; a frame or label is a key exactly when something was appended under it |
| `LegacyDatasets.MinKey` | cvat_reader/__init__.py:100 | the minimum of a non-empty key set is one of its keys and no key is smaller |
| `LegacyDatasets.LegacyDataset.constructor` | cvat_reader/__init__.py:90-93 | a fresh dataset holds the grouping, its capture, and a cursor at 0 |
| `LegacyDatasets.LegacyDataset.Open` | cvat_reader/__init__.py:57-93 | construction raises the first conversion error and otherwise holds the grouping of the appends |
| `LegacyDatasets.LegacyDataset.Seek` | cvat_reader/__init__.py:95-97 | seek sets the cursor; the capture call after it raises when the capture was released |
| `LegacyDatasets.LegacyDataset.SeekFirstAnnotation` | cvat_reader/__init__.py:99-100 | moves the cursor to the smallest frame that has an annotation, and raises, cursor unchanged, when there is none |
| `LegacyDatasets.LegacyDataset.FrameAnnotations` | cvat_reader/__init__.py:113 | `annotations_per_frame.get(frame_id, ...)`. It has no contract of its own: `LegacyDataset.Next` uses it, and `GroupIsSelection` states what each frame's groups hold |
| `LegacyDatasets.LegacyDataset.Next` | cvat_reader/__init__.py:105-114 | returns the frame at the cursor with its groups (none if the frame has no annotations) and advances the cursor by one. It never stops. With the capture released it raises and the cursor stays |
| `LegacyDatasets.LegacyDataset.Close` | cvat_reader/__init__.py:116-120 | after close the capture is released; a second close finds it released and does nothing |

## Left out

- Archive extraction, the temporary directory, `glob`, the `open_cvat` context managers and `__del__` finalizers: file-system I/O and resource scoping.
- Reading and parsing `task.json` and `annotations.json`: the constructors receive the parsed records as datatypes. A missing or mistyped JSON field therefore cannot occur in the model. Labels keep only their name.
- `int()` applied to JSON numbers when reading points: points are already integers in the records.
- Floating-point evaluation of `relative_offset`: coordinates use exact rational arithmetic. A float result that rounds across an integer boundary is not reproduced.
- `CV2Reader` and the `load_video` switch: decoding is foreign code, and its frame id is a float read from OpenCV. The base `VideoReader` interface with interchangeable backends is not modelled as an abstraction: `Dataset` holds the dummy reader.
- End of stream in `Dataset.Next`: the dummy reader never ends, and the code has no such check.
- The older reader's OpenCV calls (`VideoCapture`, `frame_count`, `fps`, `read`, `set`): the capture is a flag saying whether it is still held. The decoded image is a parameter of `Next`.
- `LegacyDatasets.LegacyDataset.Next`: for a frame without annotations the source returns an empty list `[]`. The model returns an empty label map, since both are empty collections.
- Key order of `annotations_per_frame`: a Python dict keeps the order in which frame and label keys were first inserted, so iterating a frame's groups shows that order. A Dafny `map` has no order. Equality of the groupings is unaffected.
- Aliasing: the source shares one `attributes` dictionary between a keyframe and the annotations interpolated from it. The model has value semantics.
- The `if track` and `if annotation` filters in `__next__`: dataclass instances are always true, so only the `None` results are dropped.
- Logging.
