/** The records the editor passes between its components. */
module Media {
  import opened Wrappers

  /** One imported file: probed metadata, its cut window `[startCut, endCut]`
      in seconds, and its place `order` in the merge sequence. */
  datatype MediaFile = MediaFile(
    id: string,
    path: string,
    name: string,
    duration: real,
    codec: string,
    videoCodec: Option<string>,
    audioCodec: Option<string>,
    width: Option<int>,
    height: Option<int>,
    frameRate: Option<real>,
    size: int,
    startCut: real,
    endCut: real,
    order: int)

  /** What probing a file reports (the fields of `MediaInfo` that the
      editor copies into a `MediaFile`). */
  datatype MediaInfo = MediaInfo(
    duration: real,
    codec: string,
    videoCodec: Option<string>,
    audioCodec: Option<string>,
    width: Option<int>,
    height: Option<int>,
    frameRate: Option<real>,
    size: int)

  /** The outcome of probing one path: its metadata, or a rejected probe. */
  datatype ProbeOutcome = Probed(info: MediaInfo) | ProbeFailed

  /** JavaScript truthiness of an optional string: present and not empty. */
  predicate Truthy(s: Option<string>) {
    s.Some? && s.value != ""
  }

  /** The file has a video stream (`!!file.videoCodec`). */
  predicate HasVideo(f: MediaFile) {
    Truthy(f.videoCodec)
  }

  /** An entry of the undo or redo stack: the cut window a file had, or the
      whole file list as it was before a reorder. */
  datatype UndoState =
    | CutEntry(fileId: string, startCut: real, endCut: real)
    | ReorderEntry(files: seq<MediaFile>)

  /** A placed piece of a source file on the arrangement timeline:
      the window `[startTime, endTime]` of the file, played from
      `trackPosition` seconds for `duration` seconds. */
  datatype TimelineSegment = TimelineSegment(
    id: string,
    fileId: string,
    startTime: real,
    endTime: real,
    trackPosition: real,
    duration: real,
    file: MediaFile)
}
