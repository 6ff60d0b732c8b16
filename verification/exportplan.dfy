/** The export dialog: the output format it picks on opening, the file
    name it offers, the settings and inputs it sends to the main process
    for a cut or a merge, and its exporting, progress and error state. */
module ExportPlan {
  import opened Wrappers
  import opened Media
  import opened Text
  import opened JsNumber
  import opened FileReorder
  import opened FfmpegPlan

  /** What the dialog exports. */
  datatype Mode = Cut | Merge

  // ---------------------------------------------------------------------
  // Output format

  /** Some file of the merge has a video stream. */
  predicate AnyHasVideo(files: seq<MediaFile>) {
    exists i | 0 <= i < |files| :: HasVideo(files[i])
  }

  /** The format the dialog starts with, before detection. */
  const InitialFormat: string := "mp3"

  /** The format chosen when the dialog opens: mp4 for a cut of a file with
      a video stream, or for a merge where some file has one, and mp3
      otherwise (a cut without a file keeps the initial mp3). The contract
      only bounds the result to the two formats; `DetectedFormatFacts`
      states when each is chosen. */
  function DetectedFormat(mode: Mode, file: Option<MediaFile>, files: seq<MediaFile>): (fmt: string)
    ensures fmt == "mp4" || fmt == "mp3"
  {
    if mode == Cut && file.Some? then (if HasVideo(file.value) then "mp4" else "mp3")
    else if mode == Merge then (if AnyHasVideo(files) then "mp4" else "mp3")
    else InitialFormat
  }

  /** The format is mp4 exactly when the file cut, or some file merged, has
      a video stream; a merge of a single file picks the format a cut of it
      would, and a merge picks the same format whatever the order of its
      files. */
  lemma {:induction false} DetectedFormatFacts(mode: Mode, file: Option<MediaFile>, files: seq<MediaFile>, reordered: seq<MediaFile>)
    requires multiset(reordered) == multiset(files)
    ensures DetectedFormat(mode, file, files) == "mp4" <==>
      (mode == Cut && file.Some? && HasVideo(file.value)) || (mode == Merge && exists f | f in files :: HasVideo(f))
    ensures file.Some? ==> DetectedFormat(Merge, None, [file.value]) == DetectedFormat(Cut, file, files)
    ensures DetectedFormat(Merge, file, reordered) == DetectedFormat(Merge, file, files)
  {
    if AnyHasVideo(files) {
      var i :| 0 <= i < |files| && HasVideo(files[i]);
      assert files[i] in multiset(reordered);
      var j :| 0 <= j < |reordered| && reordered[j] == files[i];
    }
    if AnyHasVideo(reordered) {
      var j :| 0 <= j < |reordered| && HasVideo(reordered[j]);
      assert reordered[j] in multiset(files);
      var i :| 0 <= i < |files| && files[i] == reordered[j];
    }
    if exists f | f in files :: HasVideo(f) {
      var f :| f in files && HasVideo(f);
      var i :| 0 <= i < |files| && files[i] == f;
    }
    if file.Some? {
      assert [file.value][0] == file.value;
    }
  }

  // ---------------------------------------------------------------------
  // Default file names

  /** The pattern `/\.[^.]+$/` matches at `d`: a `.` there, at least one
      character after it, and no `.` after it. */
  predicate ExtensionAt(name: string, d: int) {
    0 <= d < |name| - 1 && name[d] == '.' && forall k | d < k < |name| :: name[k] != '.'
  }

  /** `name.replace(/\.[^.]+$/, '')` */
  function StripExtension(name: string): string {
    var d := LastDotIn(name, 0, |name|);
    if 0 <= d < |name| - 1 then name[..d] else name
  }

  /** The strip removes the match of the pattern when there is one, and
      leaves the name alone when there is none. */
  lemma {:induction false} StripExtensionFacts(name: string)
    ensures forall d | ExtensionAt(name, d) :: StripExtension(name) == name[..d]
    ensures (forall d | 0 <= d < |name| :: !ExtensionAt(name, d)) ==> StripExtension(name) == name
  {
    var d' := LastDotIn(name, 0, |name|);
    if 0 <= d' < |name| - 1 {
      assert ExtensionAt(name, d');
    }
  }

  /** Stripping `base + "." + ext`, for an extension without `.`, gives back
      `base`. */
  lemma {:induction false} StripAppended(base: string, ext: string)
    requires ext != [] && '.' !in ext
    ensures StripExtension(base + "." + ext) == base
  {
    var name := base + "." + ext;
    var d := |base|;
    forall k | d < k < |name| ensures name[k] != '.' {
      assert name[k] == ext[k - d - 1];
      assert ext[k - d - 1] in ext;
    }
    assert ExtensionAt(name, d);
    StripExtensionFacts(name);
    assert name[..d] == base;
  }

  /** The name offered for a cut: the file name without its extension,
      then `_cut.` and the format. */
  function DefaultCutName(name: string, fmt: string): string {
    StripExtension(name) + "_cut." + fmt
  }

  /** The name offered for a merge. */
  function MergeName(fmt: string): string {
    "merged." + fmt
  }

  /** The formats the dialog offers. */
  const Formats: seq<string> := ["mp3", "mp4", "wav", "m4a"]

  /** Saved in a directory under the offered name, a cut has the chosen
      format as its extension, so the main process sees a video file exactly
      when the format is mp4; stripping the offered name gives the stripped
      file name and `_cut`. */
  lemma {:induction false} DefaultNameFacts(dir: string, name: string, fmt: string)
    requires dir == [] || dir[|dir| - 1] == '/'
    requires '/' !in name
    requires fmt in Formats
    ensures ExtName(dir + DefaultCutName(name, fmt)) == "." + fmt
    ensures IsVideoFile(dir + DefaultCutName(name, fmt)) <==> fmt == "mp4"
    ensures StripExtension(DefaultCutName(name, fmt)) == StripExtension(name) + "_cut"
  {
    var stem := StripExtension(name) + "_cut";
    StemWithoutSlash(name);
    VideoFormat(fmt);
    assert DefaultCutName(name, fmt) == stem + "." + fmt;
    assert dir + DefaultCutName(name, fmt) == dir + stem + "." + fmt;
    ExtNameOf(dir, stem, fmt);
    StripAppended(stem, fmt);
  }

  /** Saved in a directory under the offered name, a merge has the chosen
      format as its extension, and is a video file exactly when the format
      is mp4. */
  lemma {:induction false} MergeNameFacts(dir: string, fmt: string)
    requires dir == [] || dir[|dir| - 1] == '/'
    requires fmt in Formats
    ensures ExtName(dir + MergeName(fmt)) == "." + fmt
    ensures IsVideoFile(dir + MergeName(fmt)) <==> fmt == "mp4"
  {
    VideoFormat(fmt);
    assert dir + MergeName(fmt) == dir + "merged" + "." + fmt;
    ExtNameOf(dir, "merged", fmt);
  }

  /** A stripped name without `/`, with `_cut` after it, has no `/`. */
  lemma {:induction false} StemWithoutSlash(name: string)
    requires '/' !in name
    ensures '/' !in StripExtension(name) + "_cut"
  {
    var stem := StripExtension(name) + "_cut";
    assert StripExtension(name) <= name;
    forall k | 0 <= k < |stem| ensures stem[k] != '/' {
      if k < |StripExtension(name)| {
        assert stem[k] == name[k];
        assert name[k] in name;
      }
    }
  }

  /** Of the offered formats only mp4 is a video extension. */
  lemma {:induction false} VideoFormat(fmt: string)
    requires fmt in Formats
    ensures fmt != [] && '.' !in fmt && '/' !in fmt
    ensures Lower("." + fmt) in VideoExtensions <==> fmt == "mp4"
  {
    if fmt == "mp3" {
      assert "." + fmt == ".mp3";
      assert Lower(".mp3") == ".mp3";
    } else if fmt == "mp4" {
      assert "." + fmt == ".mp4";
      assert Lower(".mp4") == ".mp4";
      assert VideoExtensions[0] == ".mp4";
    } else if fmt == "wav" {
      assert "." + fmt == ".wav";
      assert Lower(".wav") == ".wav";
    } else {
      assert "." + fmt == ".m4a";
      assert Lower(".m4a") == ".m4a";
    }
  }

  // ---------------------------------------------------------------------
  // Settings

  /** The choices the dialog's form holds. */
  datatype Choices = Choices(
    outputFormat: string,
    keepOriginalQuality: bool,
    videoCodec: string,
    audioCodec: string,
    crf: int,
    preset: string,
    normalizeAudio: bool,
    crossfadeDuration: real)

  /** The choices the form starts with. */
  const InitialChoices: Choices := Choices(InitialFormat, true, "libx264", "aac", 23, "medium", false, 0.0)

  /** The cut `settings` object. */
  function CutSettingsOf(c: Choices): CutSettings {
    var mp4Reencode := !c.keepOriginalQuality && c.outputFormat == "mp4";
    CutSettings(
      Some(c.keepOriginalQuality),
      if mp4Reencode then Some(c.videoCodec) else None,
      if !c.keepOriginalQuality then Some(c.audioCodec) else None,
      None,
      None,
      if mp4Reencode then Some(c.crf) else None,
      if mp4Reencode then Some(c.preset) else None)
  }

  /** The merge `settings` object. */
  function MergeSettingsOf(c: Choices): MergeSettings {
    MergeSettings(
      Some(c.normalizeAudio),
      if c.crossfadeDuration > 0.0 then Some(c.crossfadeDuration) else None,
      Some(c.outputFormat),
      None,
      None,
      Some(c.keepOriginalQuality),
      if !c.keepOriginalQuality && c.outputFormat == "mp4" then Some(c.videoCodec) else None,
      if !c.keepOriginalQuality then Some(c.audioCodec) else None)
  }

  /** The re-encoding calls of a cut from the dialog: the video codec when
      exporting mp4 with one filled in, the audio codec when filled in, the
      crf when exporting mp4, and the preset when exporting mp4 with one
      filled in, in that order. */
  function DialogReencodeOps(c: Choices): seq<CommandOp> {
    var mp4 := c.outputFormat == "mp4";
    Opt(mp4 && c.videoCodec != "", VideoCodec(c.videoCodec))
    + Opt(c.audioCodec != "", AudioCodec(c.audioCodec))
    + Opt(mp4, OutputOptions(["-crf " + IntToString(c.crf)]))
    + Opt(mp4 && c.preset != "", OutputOptions(["-preset " + c.preset]))
  }

  /** A cut with "keep original quality" checked is a stream copy of the
      window; unchecked, it re-encodes with exactly the calls above, so that
      only an mp4 export passes a video codec, a crf or a preset, and no
      export passes a bitrate. */
  lemma {:induction false} DialogCutOps(c: Choices, start: real, end: real)
    ensures c.keepOriginalQuality ==>
      CutOps(start, end, CutSettingsOf(c)) == [SetStartTime(start), SetDuration(end - start), OutputOptions(["-c copy", "-avoid_negative_ts make_zero"])]
    ensures !c.keepOriginalQuality ==>
      CutOps(start, end, CutSettingsOf(c)) == [SetStartTime(start), SetDuration(end - start)] + DialogReencodeOps(c)
    ensures !c.keepOriginalQuality && c.outputFormat != "mp4" ==>
      DialogReencodeOps(c) == if c.audioCodec != "" then [AudioCodec(c.audioCodec)] else []
    ensures forall op | op in DialogReencodeOps(c) :: !op.VideoBitrate? && !op.AudioBitrate?
  {
    var s := CutSettingsOf(c);
    CutOpsFacts(start, end, s);
    if !c.keepOriginalQuality {
      var mp4 := c.outputFormat == "mp4";
      var v := Opt(Truthy(s.videoCodec), VideoCodec(OrDefault(s.videoCodec, "")));
      var au := Opt(Truthy(s.audioCodec), AudioCodec(OrDefault(s.audioCodec, "")));
      var vb := Opt(Truthy(s.videoBitrate), VideoBitrate(OrDefault(s.videoBitrate, "")));
      var ab := Opt(Truthy(s.audioBitrate), AudioBitrate(OrDefault(s.audioBitrate, "")));
      var q := Opt(s.crf.Some?, OutputOptions(["-crf " + IntToString(IntOrZero(s.crf))]));
      var p := Opt(Truthy(s.preset), OutputOptions(["-preset " + OrDefault(s.preset, "")]));
      assert ReencodeOps(s) == v + au + vb + ab + q + p;
      assert v == Opt(mp4 && c.videoCodec != "", VideoCodec(c.videoCodec));
      assert au == Opt(c.audioCodec != "", AudioCodec(c.audioCodec));
      assert vb == [] && ab == [];
      assert v + au + vb + ab == v + au;
      assert q == Opt(mp4, OutputOptions(["-crf " + IntToString(c.crf)]));
      assert p == Opt(mp4 && c.preset != "", OutputOptions(["-preset " + c.preset]));
      assert ReencodeOps(s) == DialogReencodeOps(c);
    }
  }

  /** A merge of video files stream-copies when "keep original quality" is
      checked; unchecked, it uses the chosen video codec only for mp4 and
      libx264 otherwise, and the chosen audio codec. A merge of audio files
      always encodes its audio, with the chosen codec only when re-encoding
      and libmp3lame otherwise, and normalises it exactly when asked to;
      the crossfade chosen changes nothing. */
  lemma {:induction false} DialogMergeOps(c: Choices, isVideo: bool, crossfade: real)
    ensures isVideo && c.keepOriginalQuality ==> MergeOutputOps(isVideo, MergeSettingsOf(c)) == [OutputOptions(["-c copy"])]
    ensures isVideo && !c.keepOriginalQuality ==>
      var ops := MergeOutputOps(isVideo, MergeSettingsOf(c));
      && ops[0] == VideoCodec(if c.outputFormat == "mp4" && c.videoCodec != "" then c.videoCodec else "libx264")
      && ops[1] == AudioCodec(if c.audioCodec != "" then c.audioCodec else "aac")
    ensures !isVideo ==>
      MergeOutputOps(isVideo, MergeSettingsOf(c))[0]
        == AudioCodec(if !c.keepOriginalQuality && c.audioCodec != "" then c.audioCodec else "libmp3lame")
    ensures AudioFilters("loudnorm") in MergeOutputOps(isVideo, MergeSettingsOf(c)) <==> !isVideo && c.normalizeAudio
    ensures MergeOutputOps(isVideo, MergeSettingsOf(c.(crossfadeDuration := crossfade))) == MergeOutputOps(isVideo, MergeSettingsOf(c))
  {
    MergeOutputFacts(isVideo, MergeSettingsOf(c));
    MergeIgnoredSettings(isVideo, MergeSettingsOf(c), MergeSettingsOf(c.(crossfadeDuration := crossfade)).crossfadeDuration, Some(c.outputFormat), Some(c.keepOriginalQuality));
    assert MergeSettingsOf(c.(crossfadeDuration := crossfade))
      == MergeSettingsOf(c).(crossfadeDuration := MergeSettingsOf(c.(crossfadeDuration := crossfade)).crossfadeDuration);
  }

  /** The fields of the two `settings` objects: a cut passes a video codec,
      a crf and a preset exactly when it re-encodes to mp4, and an audio
      codec exactly when it re-encodes, each as chosen in the form, and never
      a bitrate; a merge passes the crossfade exactly when it is above 0, a
      video codec exactly when it re-encodes to mp4 and an audio codec
      exactly when it re-encodes. */
  lemma {:induction false} DialogSettingsFields(c: Choices)
    ensures var cut := CutSettingsOf(c);
      && cut.keepOriginalQuality == Some(c.keepOriginalQuality)
      && (cut.videoCodec.Some? <==> !c.keepOriginalQuality && c.outputFormat == "mp4")
      && (cut.crf.Some? <==> !c.keepOriginalQuality && c.outputFormat == "mp4")
      && (cut.preset.Some? <==> !c.keepOriginalQuality && c.outputFormat == "mp4")
      && (cut.audioCodec.Some? <==> !c.keepOriginalQuality)
      && (cut.videoCodec.Some? ==> cut.videoCodec.value == c.videoCodec)
      && (cut.crf.Some? ==> cut.crf.value == c.crf)
      && (cut.preset.Some? ==> cut.preset.value == c.preset)
      && (cut.audioCodec.Some? ==> cut.audioCodec.value == c.audioCodec)
      && cut.videoBitrate.None? && cut.audioBitrate.None?
    ensures var merge := MergeSettingsOf(c);
      && merge.normalizeAudio == Some(c.normalizeAudio)
      && (merge.crossfadeDuration.Some? <==> c.crossfadeDuration > 0.0)
      && (merge.crossfadeDuration.Some? ==> merge.crossfadeDuration.value == c.crossfadeDuration)
      && merge.outputFormat == Some(c.outputFormat)
      && (merge.videoCodec.Some? <==> !c.keepOriginalQuality && c.outputFormat == "mp4")
      && (merge.audioCodec.Some? <==> !c.keepOriginalQuality)
      && merge.targetResolution.None? && merge.targetFrameRate.None?
  {
  }

  // ---------------------------------------------------------------------
  // Merge inputs

  /** The order of segments in a merge. */
  function SegmentKey(s: TimelineSegment): real {
    s.trackPosition
  }

  /** The input of a segment: its file, trimmed to its window. */
  function SegmentInput(s: TimelineSegment): MergeInput {
    MergeInput(s.file.path, Some(s.startTime), Some(s.endTime))
  }

  /** The input of a file: trimmed at the start only when it is cut after 0,
      and at the end only when it is cut before its duration. */
  function FileInput(f: MediaFile): MergeInput {
    MergeInput(f.path,
      if f.startCut > 0.0 then Some(f.startCut) else None,
      if f.endCut < f.duration then Some(f.endCut) else None)
  }

  function SegmentInputs(segs: seq<TimelineSegment>): (r: seq<MergeInput>)
    ensures |r| == |segs| && forall i | 0 <= i < |segs| :: r[i] == SegmentInput(segs[i])
  {
    seq(|segs|, i requires 0 <= i < |segs| => SegmentInput(segs[i]))
  }

  function FileInputs(files: seq<MediaFile>): (r: seq<MergeInput>)
    ensures |r| == |files| && forall i | 0 <= i < |files| :: r[i] == FileInput(files[i])
  {
    seq(|files|, i requires 0 <= i < |files| => FileInput(files[i]))
  }

  /** The segments are used when there are any. */
  predicate SegmentMode(segments: Option<seq<TimelineSegment>>) {
    segments.Some? && |segments.value| > 0
  }

  /** The `inputs` of a merge: the segments ordered by track position, or
      else the files ordered by `order`. */
  function MergeInputs(files: seq<MediaFile>, segments: Option<seq<TimelineSegment>>): seq<MergeInput> {
    if SegmentMode(segments) then SegmentInputs(SortBy(segments.value, SegmentKey))
    else FileInputs(SortByOrder(files))
  }

  /** With segments, there is one input per segment, in an order of the
      segments by non-decreasing track position that keeps the given order
      of segments at the same position; every input is pre-trimmed to its
      segment's window. */
  lemma {:induction false} SegmentModeInputs(files: seq<MediaFile>, segs: seq<TimelineSegment>)
    requires |segs| > 0
    ensures var sorted := SortBy(segs, SegmentKey);
      var inputs := MergeInputs(files, Some(segs));
      && SortedBy(sorted, SegmentKey) && multiset(sorted) == multiset(segs)
      && (forall k :: WithKey(sorted, SegmentKey, k) == WithKey(segs, SegmentKey, k))
      && |inputs| == |segs|
      && forall i | 0 <= i < |inputs| ::
           && inputs[i] == MergeInput(sorted[i].file.path, Some(sorted[i].startTime), Some(sorted[i].endTime))
           && NeedsTrim(inputs[i])
  {
    forall k ensures WithKey(SortBy(segs, SegmentKey), SegmentKey, k) == WithKey(segs, SegmentKey, k) {
      SortByFacts(segs, SegmentKey, k);
    }
    SortByFacts(segs, SegmentKey, 0.0);
  }

  /** Without segments, the inputs are the files by non-decreasing `order`;
      an input has no start time exactly when its file is not cut after 0,
      no end time exactly when it is not cut before its duration, and is
      used whole, without a pre-trim, exactly when both hold. */
  lemma {:induction false} FileModeInputs(files: seq<MediaFile>, segments: Option<seq<TimelineSegment>>)
    requires !SegmentMode(segments)
    ensures var sorted := SortByOrder(files);
      var inputs := MergeInputs(files, segments);
      && SortedBy(sorted, OrderKey) && multiset(sorted) == multiset(files)
      && |inputs| == |files|
      && forall i | 0 <= i < |inputs| ::
           && inputs[i].path == sorted[i].path
           && (inputs[i].startTime.None? <==> sorted[i].startCut <= 0.0)
           && (inputs[i].startTime.Some? ==> inputs[i].startTime.value == sorted[i].startCut)
           && (inputs[i].endTime.None? <==> sorted[i].endCut >= sorted[i].duration)
           && (inputs[i].endTime.Some? ==> inputs[i].endTime.value == sorted[i].endCut)
           && (!NeedsTrim(inputs[i]) <==> sorted[i].startCut <= 0.0 && sorted[i].endCut >= sorted[i].duration)
  {
  }

  /** The pre-trim of a cut file starts at its `startCut`, or at 0 when that
      is not after 0, and ends at its `endCut` when that is before the
      duration, or else at the probed duration. */
  lemma {:induction false} FileTrimWindow(f: MediaFile, tempDir: string, now: int, probed: real)
    requires f.endCut > 0.0
    requires f.startCut > 0.0 || f.endCut < f.duration
    ensures var c := TrimCommand([FileInput(f)], 0, tempDir, now, probed);
      var end := if f.endCut < f.duration then f.endCut else probed;
      && c.inputs == [f.path]
      && c.ops == [SetStartTime(Max(0.0, f.startCut)), SetDuration(end - Max(0.0, f.startCut)),
                   OutputOptions(["-c copy", "-avoid_negative_ts make_zero"])]
  {
    TrimFacts([FileInput(f)], 0, tempDir, now, probed);
  }

  // ---------------------------------------------------------------------
  // Exporting

  /** What the dialog sends to the main process. */
  datatype ExportRequest =
    | CutRequest(inputPath: string, outputPath: string, startTime: real, endTime: real, cutSettings: CutSettings)
    | MergeRequest(inputs: seq<MergeInput>, mergeOutput: string, mergeSettings: MergeSettings)

  /** The dialog's own state: the form and the export flags. */
  datatype DialogState = DialogState(choices: Choices, isExporting: bool, progress: real, error: Option<string>)

  /** The state when the dialog opens, after format detection. */
  function MountState(mode: Mode, file: Option<MediaFile>, files: seq<MediaFile>): DialogState {
    DialogState(InitialChoices.(outputFormat := DetectedFormat(mode, file, files)), false, 0.0, None)
  }

  /** The name the save dialog is opened with, if it is opened at all. */
  function OfferedName(mode: Mode, file: Option<MediaFile>, fmt: string): Option<string> {
    if mode == Cut && file.Some? then Some(DefaultCutName(file.value.name, fmt))
    else if mode == Merge then Some(MergeName(fmt))
    else None
  }

  /** The request for a chosen output path. */
  function RequestFor(mode: Mode, file: Option<MediaFile>, files: seq<MediaFile>,
                      segments: Option<seq<TimelineSegment>>, c: Choices, outputPath: string): Option<ExportRequest> {
    if mode == Cut && file.Some? then
      Some(CutRequest(file.value.path, outputPath, file.value.startCut, file.value.endCut, CutSettingsOf(c)))
    else if mode == Merge then
      Some(MergeRequest(MergeInputs(files, segments), outputPath, MergeSettingsOf(c)))
    else None
  }

  /** The message shown for a failed export: `err.message || 'Export failed'`
      (an absent message is the empty string). */
  function ErrorText(message: string): string {
    if message != "" then message else "Export failed"
  }

  /** Everything one press of Export does. */
  datatype ExportRun = ExportRun(
    state: DialogState,
    offered: Option<string>,
    request: Option<ExportRequest>,
    completed: Option<string>)

  /** `handleExport`, with `savePath` the answer of the save dialog (`None`
      when cancelled) and `failure` the message the request is rejected
      with, if it is. */
  function ExportStep(s: DialogState, mode: Mode, file: Option<MediaFile>, files: seq<MediaFile>,
                      segments: Option<seq<TimelineSegment>>, savePath: Option<string>, failure: Option<string>): ExportRun {
    var offered := OfferedName(mode, file, s.choices.outputFormat);
    var request := if offered.Some? && Truthy(savePath) then RequestFor(mode, file, files, segments, s.choices, savePath.value) else None;
    var failed := request.Some? && failure.Some?;
    ExportRun(
      DialogState(s.choices, false, 0.0, if failed then Some(ErrorText(failure.value)) else None),
      offered,
      request,
      if request.Some? && !failed then Some(savePath.value) else None)
  }

  /** The output path of a request. */
  function RequestOutput(r: ExportRequest): string {
    match r
    case CutRequest(_, out, _, _, _) => out
    case MergeRequest(_, out, _) => out
  }

  /** An export ends not exporting, with progress 0 and the form unchanged;
      it completes exactly when a request was sent and not rejected, with
      the path the request saved to; it shows a non-empty error exactly when
      the request was rejected; a request is sent exactly when the save
      dialog was opened and answered with a path, and a cut without a file
      opens no dialog. */
  lemma {:induction false} ExportStepFacts(s: DialogState, mode: Mode, file: Option<MediaFile>, files: seq<MediaFile>,
                                          segments: Option<seq<TimelineSegment>>, savePath: Option<string>, failure: Option<string>)
    ensures var run := ExportStep(s, mode, file, files, segments, savePath, failure);
      && !run.state.isExporting && run.state.progress == 0.0 && run.state.choices == s.choices
      && (run.completed.Some? <==> run.request.Some? && failure.None?)
      && (run.completed.Some? ==> run.completed.value == RequestOutput(run.request.value) == savePath.value)
      && (run.state.error.Some? <==> run.request.Some? && failure.Some?)
      && (run.state.error.Some? ==> run.state.error.value != "")
      && (run.request.Some? <==> run.offered.Some? && Truthy(savePath))
      && (run.offered.None? <==> mode == Cut && file.None?)
      && (run.request.Some? && mode == Cut ==>
            run.request.value == CutRequest(file.value.path, savePath.value, file.value.startCut, file.value.endCut, CutSettingsOf(s.choices)))
      && (run.request.Some? && mode == Merge ==>
            run.request.value == MergeRequest(MergeInputs(files, segments), savePath.value, MergeSettingsOf(s.choices)))
  {
  }

  /** `prog.percent || 0` */
  function ProgressValue(percent: Option<real>): real {
    if percent.Some? && percent.value != 0.0 then percent.value else 0.0
  }

  /** The progress shown, fed by the main process, is never above 100; a
      cut that has played `t` of its `d` seconds shows `100 t / d`. */
  lemma {:induction false} ShownProgressFacts(timemark: Option<string>, duration: real, percent: Option<real>)
    ensures ProgressValue(CutPercent(timemark, duration)) <= 100.0
    ensures ProgressValue(MergePercent(percent)) <= 100.0
    ensures percent.Some? && 0.0 <= percent.value <= 100.0 ==> ProgressValue(MergePercent(percent)) == percent.value
    ensures Truthy(timemark) && duration > 0.0 && 0.0 <= ParseTimemark(timemark.value) <= duration ==>
      ProgressValue(CutPercent(timemark, duration)) == ParseTimemark(timemark.value) / duration * 100.0
  {
    ProgressFacts(timemark, duration, percent);
  }

  /** `handleCancel`: a running export is cancelled and the dialog stops
      exporting; whether a cancel was sent. */
  function CancelStep(s: DialogState): (DialogState, bool) {
    (s.(isExporting := false), s.isExporting)
  }

  /** Cancel sends a cancel exactly when an export is running, leaves the
      dialog not exporting and changes nothing else; cancelling twice sends
      at most one cancel. */
  lemma {:induction false} CancelFacts(s: DialogState)
    ensures CancelStep(s).1 <==> s.isExporting
    ensures !CancelStep(s).0.isExporting
    ensures CancelStep(s).0.(isExporting := s.isExporting) == s
    ensures !CancelStep(CancelStep(s).0).1 && CancelStep(CancelStep(s).0).0 == CancelStep(s).0
  {
  }

  // ---------------------------------------------------------------------
  // The dialog

  /** The dialog's state variables. */
  class ExportDialog {
    var outputFormat: string
    var keepOriginalQuality: bool
    var videoCodec: string
    var audioCodec: string
    var crf: int
    var preset: string
    var normalizeAudio: bool
    var crossfadeDuration: real
    var isExporting: bool
    var progress: real
    var error: Option<string>

    function Form(): Choices
      reads this
    {
      Choices(outputFormat, keepOriginalQuality, videoCodec, audioCodec, crf, preset, normalizeAudio, crossfadeDuration)
    }

    function State(): DialogState
      reads this
    {
      DialogState(Form(), isExporting, progress, error)
    }

    /** Opening the dialog, with its format-detection effect. */
    constructor (mode: Mode, file: Option<MediaFile>, files: seq<MediaFile>)
      ensures State() == MountState(mode, file, files)
    {
      outputFormat := InitialFormat;
      keepOriginalQuality := true;
      videoCodec := "libx264";
      audioCodec := "aac";
      crf := 23;
      preset := "medium";
      normalizeAudio := false;
      crossfadeDuration := 0.0;
      isExporting := false;
      progress := 0.0;
      error := None;
      new;
      if mode == Cut && file.Some? {
        if HasVideo(file.value) {
          outputFormat := "mp4";
        } else {
          outputFormat := "mp3";
        }
      } else if mode == Merge {
        var hasVideo := AnyHasVideo(files);
        outputFormat := if hasVideo then "mp4" else "mp3";
      }
    }

    /** `handleExport` */
    method HandleExport(mode: Mode, file: Option<MediaFile>, files: seq<MediaFile>,
                        segments: Option<seq<TimelineSegment>>, savePath: Option<string>, failure: Option<string>)
      returns (offered: Option<string>, request: Option<ExportRequest>, completed: Option<string>)
      modifies this
      ensures var run := ExportStep(old(State()), mode, file, files, segments, savePath, failure);
        State() == run.state && offered == run.offered && request == run.request && completed == run.completed
    {
      isExporting := true;
      error := None;
      progress := 0.0;
      offered, request, completed := None, None, None;
      var outputPath: Option<string> := None;
      if mode == Cut && file.Some? {
        offered := Some(DefaultCutName(file.value.name, outputFormat));
        outputPath := savePath;
        if !Truthy(outputPath) {
          isExporting := false;
          progress := 0.0;
          return;
        }
        request := Some(CutRequest(file.value.path, outputPath.value, file.value.startCut, file.value.endCut, CutSettingsOf(Form())));
      } else if mode == Merge {
        offered := Some(MergeName(outputFormat));
        outputPath := savePath;
        if !Truthy(outputPath) {
          isExporting := false;
          progress := 0.0;
          return;
        }
        var inputs := MergeInputs(files, segments);
        request := Some(MergeRequest(inputs, outputPath.value, MergeSettingsOf(Form())));
      }
      if request.Some? && failure.Some? {
        error := Some(ErrorText(failure.value));
      } else if Truthy(outputPath) {
        completed := outputPath;
      }
      isExporting := false;
      progress := 0.0;
    }

    /** The progress listener. */
    method OnProgress(percent: Option<real>)
      modifies this
      ensures State() == old(State()).(progress := ProgressValue(percent))
    {
      progress := if percent.Some? && percent.value != 0.0 then percent.value else 0.0;
    }

    /** `handleCancel`; whether a cancel was sent to the main process. */
    method HandleCancel() returns (cancelSent: bool)
      modifies this
      ensures (State(), cancelSent) == CancelStep(old(State()))
    {
      cancelSent := false;
      if isExporting {
        cancelSent := true;
        isExporting := false;
      }
    }
  }
}
