/** The export controls shown under the cut timeline: the length of the
    selection, the length of the whole file when the selection is not the
    whole file, and the buttons that start a cut or a merge export. */
module Controls {
  import opened Wrappers
  import opened Media
  import opened Text
  import opened JsNumber
  import opened TimeText
  import opened TimeReadBack

  /** What the controls show: the selection text, the original-duration
      text when that row is present, and the number of files on the merge
      button when that button is present. */
  datatype ControlsView = ControlsView(
    selectionText: string,
    originalText: Option<string>,
    mergeCount: Option<nat>)

  /** `selectionDuration` */
  function SelectionDuration(file: MediaFile): real {
    file.endCut - file.startCut
  }

  /** The controls' own `formatDuration`, written out as the component
      writes it. */
  function FormatDuration(seconds: real): string {
    var h := (seconds / 3600.0).Floor;
    var m := (Rem(seconds, 3600.0) / 60.0).Floor;
    var s := Rem(seconds, 60.0).Floor;
    var ms := (Rem(seconds, 1.0) * 1000.0).Floor;
    if h > 0 then IntToString(h) + ":" + Padded(m, 2) + ":" + Padded(s, 2) + "." + Padded(ms, 3)
    else IntToString(m) + ":" + Padded(s, 2) + "." + Padded(ms, 3)
  }

  /** The controls of `file` among `files`. The contract says when each
      part is shown; `OriginalRowWhenTrimmed`, `SelectionTextReadsBack` and
      `OriginalTextReadsBack` state what the rows mean. */
  function View(file: MediaFile, files: seq<MediaFile>): (v: ControlsView)
    ensures v.originalText.Some? <==> (file.startCut > 0.0 || file.endCut < file.duration)
    ensures v.originalText.Some? ==> v.originalText.value == FormatDuration(file.duration)
    ensures v.mergeCount.Some? <==> |files| > 1
    ensures v.mergeCount.Some? ==> v.mergeCount.value == |files|
  {
    ControlsView(
      FormatDuration(SelectionDuration(file)),
      if file.startCut > 0.0 || file.endCut < file.duration then Some(FormatDuration(file.duration)) else None,
      if |files| > 1 then Some(|files|) else None)
  }

  // ---------------------------------------------------------------------
  // Properties

  /** The controls write a duration exactly as the cut timeline writes a
      time. */
  lemma {:induction false} FormatDurationIsClock(seconds: real)
    ensures FormatDuration(seconds) == FormatClock(seconds)
  {
    var f := Fields(seconds);
    var sec := Padded(f.s, 2) + "." + Padded(f.ms, 3);
    if f.h > 0 {
      assert IntToString(f.h) + ":" + Padded(f.m, 2) + ":" + Padded(f.s, 2) + "." + Padded(f.ms, 3)
        == IntToString(f.h) + ":" + Padded(f.m, 2) + ":" + sec;
    } else {
      assert IntToString(f.m) + ":" + Padded(f.s, 2) + "." + Padded(f.ms, 3)
        == IntToString(f.m) + ":" + sec;
    }
  }

  /** For a cut window inside the file, the original-duration row is
      missing exactly when the selection is the whole file. */
  lemma {:induction false} OriginalRowWhenTrimmed(file: MediaFile, files: seq<MediaFile>)
    requires 0.0 <= file.startCut <= file.endCut <= file.duration
    ensures View(file, files).originalText.None? <==> SelectionDuration(file) == file.duration
  {
  }

  /** The selection text reads back, through the timeline's parser, as the
      selection duration truncated to whole milliseconds; it is `m:ss.mmm`
      below one hour and `h:mm:ss.mmm` from one hour on. */
  lemma {:induction false} SelectionTextReadsBack(file: MediaFile, files: seq<MediaFile>)
    requires file.startCut <= file.endCut
    ensures var text := View(file, files).selectionText;
      && ParseTimeString(text) == Some(TruncMillis(SelectionDuration(file)))
      && (|Split(text, ':')| == 2 <==> SelectionDuration(file) < 3600.0)
      && SecondsShape(Split(text, ':')[|Split(text, ':')| - 1])
  {
    var d := SelectionDuration(file);
    FormatDurationIsClock(d);
    ClockRoundTrip(d);
    ClockShape(d);
  }

  /** The original-duration text, when shown, reads back as the file's
      duration truncated to whole milliseconds. */
  lemma {:induction false} OriginalTextReadsBack(file: MediaFile, files: seq<MediaFile>)
    requires file.duration >= 0.0
    requires View(file, files).originalText.Some?
    ensures ParseTimeString(View(file, files).originalText.value) == Some(TruncMillis(file.duration))
  {
    FormatDurationIsClock(file.duration);
    ClockRoundTrip(file.duration);
  }
}
