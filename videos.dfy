/** Values shared by the whole model: optional values and the video item of a folder listing. */
module Videos {

  datatype Option<T> = None | Some(value: T)

  /** A video of the selected folder: `id` is its position in the listing (1-based),
      `file` its path, `thumbnail` an encoded image once one has been generated. */
  datatype VideoItem = VideoItem(id: int, title: string, file: string, thumbnail: Option<string>)

  /** JavaScript truthiness of `video.thumbnail`: present and not the empty string. */
  predicate HasThumbnail(v: VideoItem) {
    v.thumbnail.Some? && v.thumbnail.value != ""
  }

  /** The ids of a list, in order. */
  function Ids(videos: seq<VideoItem>): (ids: seq<int>)
    ensures |ids| == |videos|
    ensures forall i :: 0 <= i < |videos| ==> ids[i] == videos[i].id
  {
    seq(|videos|, i requires 0 <= i < |videos| => videos[i].id)
  }

  /** No two entries of a list share an id. */
  predicate UniqueIds(videos: seq<VideoItem>) {
    forall i, j :: 0 <= i < j < |videos| ==> videos[i].id != videos[j].id
  }

  /** What a handler reports to the user: nothing, or a title and a message passed to
      the `onError` or the `onSuccess` callback. */
  datatype Report = Quiet | OnError(title: string, message: string) | OnSuccess(title: string, message: string)

  function Max(a: real, b: real): real { if a >= b then a else b }

  function Min(a: real, b: real): real { if a <= b then a else b }

  /** Scaling by a positive factor keeps a strict order. */
  lemma ScaleIsMonotone(a: real, b: real, d: real)
    requires a < b && d > 0.0
    ensures a * d < b * d
  {
    assert (b - a) * d > 0.0;
  }
}
