/**
 * The parsed records of a CVAT export, as the reader receives them after
 * `json.load`: a list of label descriptors from task.json and a list of
 * track records from annotations.json. Reading and parsing the files is not
 * part of this model; points are already integers.
 */
module CvatRecords {

  /** A loosely typed attribute value, as CVAT may emit it. */
  datatype AttributeValue = Text(s: string) | Number(n: int) | Flag(b: bool)

  /** The free-form attribute mapping, passed through untouched. */
  type Attributes = map<string, AttributeValue>

  /** One entry of task.json's `labels` list; kept only as a passthrough. */
  datatype LabelRecord = LabelRecord(name: string)

  /** One element of a track's `shapes` list. */
  datatype ShapeRecord = ShapeRecord(
    frame: int,
    kind: string,          // the JSON field `type`
    points: seq<int>,
    occluded: bool,
    outside: bool,
    attributes: Attributes)

  /** One element of `annotations.json[0]["tracks"]`. */
  datatype TrackRecord = TrackRecord(labelName: string, shapes: seq<ShapeRecord>)

  const Rectangle: string := "rectangle"
  const Points: string := "points"
}
