/**
 * The video reader used when the video is not loaded
 * (cvat_reader/video_reader/dummy_reader.py). It decodes nothing: it keeps
 * a frame counter, hands it out and advances it, and never reports an end
 * of stream.
 */
module VideoReaders {
  import opened Wrappers

  /** A decoded image. Its pixel layout belongs to the decoder and is not modelled. */
  type Image = seq<int>

  class DummyVideoReader {
    /** The id the next `ReadFrame` returns. */
    var frameId: int

    /** A fresh reader starts at frame 0. */
    constructor ()
      ensures frameId == 0
    {
      frameId := 0;
    }

    /**
     * read_frame: returns the current counter with no image, then advances
     * the counter by exactly one. There is no end-of-stream result, so any
     * run of reads yields consecutive ids.
     */
    method ReadFrame() returns (id: int, image: Option<Image>)
      modifies this
      ensures id == old(frameId)
      ensures frameId == old(frameId) + 1
      ensures image == None
    {
      id := frameId;
      frameId := frameId + 1;
      image := None;
    }

    /** seek: the next read returns `k`. No bound is checked. */
    method Seek(k: int)
      modifies this
      ensures frameId == k
    {
      frameId := k;
    }

    /** close, inherited from VideoReader (video_reader/base.py): does nothing. */
    method Close()
      ensures frameId == old(frameId)
    {
    }
  }
}
