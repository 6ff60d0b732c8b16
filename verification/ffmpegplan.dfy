/** The decisions the main process takes around ffmpeg: reading ffmpeg's
    progress timemarks, telling video files by their extension, writing the
    concat list of a merge, pre-trimming merge inputs, choosing the encoder
    options of a cut and a merge, the progress it reports, the temporary
    files it deletes, and the one running command it can cancel. An ffmpeg
    command is modelled as the list of builder calls made on it. */
module FfmpegPlan {
  import opened Wrappers
  import opened Media
  import opened Text
  import opened JsNumber
  import opened TimeText
  import opened TimeReadBack

  // ---------------------------------------------------------------------
  // Timemarks

  /** `parseInt(…) || 0`: a result that is not a number counts as 0. */
  function IntOrZero(x: Option<int>): int {
    if x.Some? then x.value else 0
  }

  /** `parseFloat(…) || 0` */
  function RealOrZero(x: Option<real>): real {
    if x.Some? then x.value else 0.0
  }

  /** `parseTimemark`: hours, minutes and seconds of an `H:M:S` timemark,
      where a missing field, or one that does not parse, counts as 0, and
      fields after the third are ignored. */
  function ParseTimemark(timemark: string): real {
    var parts := Split(timemark, ':');
    var hours := IntOrZero(ParseInt(parts[0]));
    var minutes := if |parts| > 1 then IntOrZero(ParseInt(parts[1])) else 0;
    var seconds := if |parts| > 2 then RealOrZero(ParseFloat(parts[2])) else 0.0;
    hours as real * 3600.0 + minutes as real * 60.0 + seconds
  }

  /** Three fields are read as hours, minutes and seconds, each counting 0
      when it does not parse. */
  lemma {:induction false} TimemarkThreeFields(timemark: string, a: string, b: string, c: string)
    requires Split(timemark, ':') == [a, b, c]
    ensures ParseTimemark(timemark)
      == IntOrZero(ParseInt(a)) as real * 3600.0 + IntOrZero(ParseInt(b)) as real * 60.0 + RealOrZero(ParseFloat(c))
  {
  }

  /** With two fields the seconds are missing and count as 0. */
  lemma {:induction false} TimemarkTwoFields(timemark: string, a: string, b: string)
    requires Split(timemark, ':') == [a, b]
    ensures ParseTimemark(timemark) == IntOrZero(ParseInt(a)) as real * 3600.0 + IntOrZero(ParseInt(b)) as real * 60.0
  {
  }

  /** Without a `:` the whole text is read as hours. */
  lemma {:induction false} TimemarkHoursOnly(timemark: string)
    requires ':' !in timemark
    ensures ParseTimemark(timemark) == IntOrZero(ParseInt(timemark)) as real * 3600.0
  {
    SplitSingle(timemark, ':');
  }

  /** Where all three fields parse, the timemark is read as the cut
      timeline reads a typed time. */
  lemma {:induction false} TimemarkAgreesWithTypedTime(timemark: string)
    requires |Split(timemark, ':')| == 3
    requires ParseTimeString(timemark).Some?
    ensures ParseTimemark(timemark) == ParseTimeString(timemark).value
  {
  }

  /** A timemark written like the cut timeline's clock text from one hour
      on reads back as the time truncated to whole milliseconds. */
  lemma {:induction false} TimemarkOfClockText(t: real)
    requires t >= 3600.0
    ensures ParseTimemark(FormatClock(t)) == TruncMillis(t)
  {
    ClockShape(t);
    ClockRoundTrip(t);
    TimemarkAgreesWithTypedTime(FormatClock(t));
  }

  // ---------------------------------------------------------------------
  // Extensions

  /** One past the last character of `p[..n]` that is not `/`, or 0. */
  function TrimmedEnd(p: string, n: nat): (e: nat)
    requires n <= |p|
    ensures e <= n
    ensures e > 0 ==> p[e - 1] != '/'
    ensures forall k | e <= k < n :: p[k] == '/'
  {
    if n == 0 then 0 else if p[n - 1] == '/' then TrimmedEnd(p, n - 1) else n
  }

  /** Where the last segment of `p[..e]` starts: one past its last `/`, or 0. */
  function PartStart(p: string, e: nat): (b: nat)
    requires e <= |p|
    ensures b <= e
    ensures b > 0 ==> p[b - 1] == '/'
    ensures forall k | b <= k < e :: p[k] != '/'
  {
    if e == 0 then 0 else if p[e - 1] == '/' then e else PartStart(p, e - 1)
  }

  /** The last `.` in `p[b..e]`, or -1. */
  function LastDotIn(p: string, b: nat, e: nat): (d: int)
    requires b <= e <= |p|
    ensures d == -1 || b <= d < e
    ensures d >= 0 ==> p[d] == '.' && forall k | d < k < e :: p[k] != '.'
    ensures d == -1 ==> forall k | b <= k < e :: p[k] != '.'
    decreases e - b
  {
    if e == b then -1 else if p[e - 1] == '.' then e - 1 else LastDotIn(p, b, e - 1)
  }

  /** `path.extname` (POSIX): from the last `.` of the last segment, with
      trailing `/` ignored; empty when the segment has no `.`, when its only
      `.` that counts is its first character, and for `..`. */
  function ExtName(p: string): string {
    var e := TrimmedEnd(p, |p|);
    var b := PartStart(p, e);
    var d := LastDotIn(p, b, e);
    if d <= b then ""
    else if d == b + 1 && d == e - 1 && p[b] == '.' then ""
    else p[d..e]
  }

  /** ASCII lower case (`toLowerCase` on the letters A to Z). */
  function LowerChar(c: char): char {
    if 'A' <= c <= 'Z' then (c as int - 'A' as int + 'a' as int) as char else c
  }

  function Lower(s: string): (r: string)
    ensures |r| == |s| && forall i | 0 <= i < |s| :: r[i] == LowerChar(s[i])
  {
    seq(|s|, i requires 0 <= i < |s| => LowerChar(s[i]))
  }

  /** The extensions `isVideoFile` accepts. */
  const VideoExtensions: seq<string> := [".mp4", ".mkv", ".avi", ".mov", ".webm"]

  /** `isVideoFile` */
  predicate IsVideoFile(p: string) {
    Lower(ExtName(p)) in VideoExtensions
  }

  /** The extension is empty or a `.` followed by characters that are
      neither `.` nor `/` (just `.` for a name ending in a dot). */
  lemma {:induction false} ExtNameShape(p: string)
    ensures var x := ExtName(p);
      x == "" || (x[0] == '.' && forall k | 1 <= k < |x| :: x[k] != '.' && x[k] != '/')
  {
    var e := TrimmedEnd(p, |p|);
    var b := PartStart(p, e);
    var d := LastDotIn(p, b, e);
    if d > b && !(d == b + 1 && d == e - 1 && p[b] == '.') {
      var x := p[d..e];
      assert x[0] == p[d];
      forall k | 1 <= k < |x| ensures x[k] != '.' && x[k] != '/' {
        assert x[k] == p[d + k];
      }
    }
  }

  /** A path `dir + stem + "." + ext`, with `dir` empty or ending in `/`,
      a non-empty `stem` without `/` and a non-empty `ext` without `.` or
      `/`, has the extension `"." + ext`; it names a video file exactly
      when that extension, lower-cased, is one of the five. */
  lemma {:induction false} ExtNameOf(dir: string, stem: string, ext: string)
    requires dir == [] || dir[|dir| - 1] == '/'
    requires stem != [] && '/' !in stem
    requires ext != [] && '.' !in ext && '/' !in ext
    ensures ExtName(dir + stem + "." + ext) == "." + ext
    ensures IsVideoFile(dir + stem + "." + ext) <==> Lower("." + ext) in VideoExtensions
  {
    var p := dir + stem + "." + ext;
    var n := |p|;
    var s0 := |dir|;
    var dot := |dir| + |stem|;
    assert forall k | dot < k < n :: p[k] == ext[k - dot - 1];
    assert forall k | s0 <= k < dot :: p[k] == stem[k - s0];
    assert p[dot] == '.';
    assert p[n - 1] == ext[|ext| - 1];
    var e := TrimmedEnd(p, n);
    assert e == n;
    PartStartIs(p, n, s0);
    var d := LastDotIn(p, s0, n);
    forall k | dot < k < n ensures p[k] != '.' {
      assert ext[k - dot - 1] in ext;
    }
    assert d == dot;
    forall k | 0 <= k < n - d ensures p[d..n][k] == ("." + ext)[k] {
      if k > 0 {
        assert p[d + k] == ext[k - 1];
      }
    }
    assert p[d..n] == "." + ext;
  }

  /** The segment start is found from the last `/` before `e`. */
  lemma {:induction false} PartStartIs(p: string, e: nat, b: nat)
    requires b <= e <= |p|
    requires b == 0 || p[b - 1] == '/'
    requires forall k | b <= k < e :: p[k] != '/'
    ensures PartStart(p, e) == b
    decreases e
  {
    if e > b {
      PartStartIs(p, e - 1, b);
    }
  }

  /** A path without a `.` never names a video file. */
  lemma {:induction false} NoDotNoVideo(p: string)
    requires '.' !in p
    ensures !IsVideoFile(p)
  {
    var e := TrimmedEnd(p, |p|);
    var b := PartStart(p, e);
    var d := LastDotIn(p, b, e);
    forall k | 0 <= k < |p| ensures p[k] != '.' {
      assert p[k] in p;
    }
  }

  // ---------------------------------------------------------------------
  // The concat list

  /** `f.replace(/'/g, "'\\''")`: every `'` becomes `'\''`. */
  function EscapeQuotes(s: string): string {
    if s == [] then [] else (if s[0] == '\'' then "'\\''" else [s[0]]) + EscapeQuotes(s[1..])
  }

  /** One line of the concat list. */
  function ConcatLine(f: string): string {
    "file '" + EscapeQuotes(f) + "'"
  }

  /** The lines of the concat list, one per processed file, in order. */
  function ConcatLines(files: seq<string>): (lines: seq<string>)
    ensures |lines| == |files| && forall i | 0 <= i < |files| :: lines[i] == ConcatLine(files[i])
  {
    seq(|files|, i requires 0 <= i < |files| => ConcatLine(files[i]))
  }

  /** `listContent`: the lines joined by newlines (empty for no files). */
  function ListContent(files: seq<string>): string {
    if files == [] then "" else Join(ConcatLines(files), '\n')
  }

  /** How ffmpeg reads a quoted word of a concat list: inside `'…'` every
      character stands for itself; outside, a `'` opens a quotation and a
      backslash stands for the character after it. */
  function ReadQuoted(t: string, inQuote: bool): string
    decreases |t|
  {
    if t == [] then []
    else if inQuote then
      if t[0] == '\'' then ReadQuoted(t[1..], false) else [t[0]] + ReadQuoted(t[1..], true)
    else if t[0] == '\'' then ReadQuoted(t[1..], true)
    else if t[0] == '\\' && |t| >= 2 then [t[1]] + ReadQuoted(t[2..], false)
    else [t[0]] + ReadQuoted(t[1..], false)
  }

  /** The quoted path of a concat line reads back as the path, whatever
      quotes it holds. */
  lemma {:induction false} ConcatLineReadsBack(f: string)
    ensures ConcatLine(f) == "file " + ("'" + EscapeQuotes(f) + "'")
    ensures ReadQuoted("'" + EscapeQuotes(f) + "'", false) == f
  {
    var q := "'" + EscapeQuotes(f) + "'";
    assert q[0] == '\'' && q[1..] == EscapeQuotes(f) + "'";
    EscapedReadsBack(f);
  }

  lemma {:induction false} EscapedReadsBack(f: string)
    ensures ReadQuoted(EscapeQuotes(f) + "'", true) == f
    decreases |f|
  {
    if f == [] {
      assert EscapeQuotes(f) + "'" == "'";
    } else {
      var rest := EscapeQuotes(f[1..]) + "'";
      EscapedReadsBack(f[1..]);
      if f[0] == '\'' {
        var t := "'\\''" + rest;
        assert EscapeQuotes(f) + "'" == t;
        var u := t[1..];
        assert u == "\\''" + rest;
        assert u[0] == '\\' && u[1] == '\'' && u[2..] == "'" + rest;
        assert ("'" + rest)[1..] == rest;
        assert ReadQuoted("'" + rest, false) == ReadQuoted(rest, true);
        assert ReadQuoted(u, false) == [u[1]] + ReadQuoted(u[2..], false);
        assert ReadQuoted(t, true) == ReadQuoted(u, false);
      } else {
        var t := [f[0]] + rest;
        assert EscapeQuotes(f) + "'" == t;
        assert t[0] == f[0] && t[1..] == rest;
        assert ReadQuoted(t, true) == [f[0]] + ReadQuoted(rest, true);
      }
      assert f == [f[0]] + f[1..];
    }
  }

  /** Escaping keeps a path free of newlines, so each file is one line. */
  lemma {:induction false} EscapeKeepsLines(f: string)
    requires '\n' !in f
    ensures '\n' !in EscapeQuotes(f) && '\n' !in ConcatLine(f)
    decreases |f|
  {
    if f != [] {
      EscapeKeepsLines(f[1..]);
      assert f[0] in f;
    }
  }

  /** For newline-free paths the list file reads back, line by line, as
      one concat line per file, in order. */
  lemma {:induction false} ListContentLines(files: seq<string>)
    requires files != []
    requires forall i | 0 <= i < |files| :: '\n' !in files[i]
    ensures Split(ListContent(files), '\n') == ConcatLines(files)
  {
    var lines := ConcatLines(files);
    forall k | 0 <= k < |lines|
      ensures '\n' !in lines[k]
    {
      EscapeKeepsLines(files[k]);
    }
    SplitJoin(lines, '\n');
  }

  // ---------------------------------------------------------------------
  // Encoder options

  /** The `CutSettings` the service accepts; `None` is an absent field. */
  datatype CutSettings = CutSettings(
    keepOriginalQuality: Option<bool>,
    videoCodec: Option<string>,
    audioCodec: Option<string>,
    videoBitrate: Option<string>,
    audioBitrate: Option<string>,
    crf: Option<int>,
    preset: Option<string>)

  /** A target frame size. */
  datatype Resolution = Resolution(width: int, height: int)

  /** The `MergeSettings` the service accepts; `None` is an absent field. */
  datatype MergeSettings = MergeSettings(
    normalizeAudio: Option<bool>,
    crossfadeDuration: Option<real>,
    outputFormat: Option<string>,
    targetResolution: Option<Resolution>,
    targetFrameRate: Option<real>,
    keepOriginalQuality: Option<bool>,
    videoCodec: Option<string>,
    audioCodec: Option<string>)

  /** One call on a fluent-ffmpeg command. */
  datatype CommandOp =
    | SetStartTime(start: real)
    | SetDuration(duration: real)
    | InputOptions(inputOptions: seq<string>)
    | OutputOptions(outputOptions: seq<string>)
    | VideoCodec(videoCodec: string)
    | AudioCodec(audioCodec: string)
    | VideoBitrate(videoBitrate: string)
    | AudioBitrate(audioBitrate: string)
    | Size(size: string)
    | Fps(fps: real)
    | AudioFilters(audioFilters: string)

  /** A command: its inputs, the calls made on it, and the file it saves. */
  datatype Command = Command(inputs: seq<string>, ops: seq<CommandOp>, output: string)

  /** `settings.keepOriginalQuality !== false` */
  predicate StreamCopy(keep: Option<bool>) {
    keep != Some(false)
  }

  /** `x || fallback` for an optional string. */
  function OrDefault(x: Option<string>, fallback: string): string {
    if Truthy(x) then x.value else fallback
  }

  /** The call `op`, made only when `b` holds. */
  function Opt(b: bool, op: CommandOp): seq<CommandOp> {
    if b then [op] else []
  }

  /** The re-encoding calls of a cut, in the order `cutMedia` makes them:
      each codec, bitrate and the preset when truthy, and the crf when
      given. */
  function ReencodeOps(s: CutSettings): seq<CommandOp> {
    Opt(Truthy(s.videoCodec), VideoCodec(OrDefault(s.videoCodec, "")))
    + Opt(Truthy(s.audioCodec), AudioCodec(OrDefault(s.audioCodec, "")))
    + Opt(Truthy(s.videoBitrate), VideoBitrate(OrDefault(s.videoBitrate, "")))
    + Opt(Truthy(s.audioBitrate), AudioBitrate(OrDefault(s.audioBitrate, "")))
    + Opt(s.crf.Some?, OutputOptions(["-crf " + IntToString(IntOrZero(s.crf))]))
    + Opt(Truthy(s.preset), OutputOptions(["-preset " + OrDefault(s.preset, "")]))
  }

  /** The calls of `cutMedia` before its handlers: seek to the start, play
      for `end - start`, then stream copy or re-encode. */
  function CutOps(start: real, end: real, s: CutSettings): seq<CommandOp> {
    [SetStartTime(start), SetDuration(end - start)]
    + if StreamCopy(s.keepOriginalQuality)
      then [OutputOptions(["-c copy", "-avoid_negative_ts make_zero"])]
      else ReencodeOps(s)
  }

  /** The command `cutMedia` saves. */
  function CutCommand(inputPath: string, outputPath: string, start: real, end: real, s: CutSettings): Command {
    Command([inputPath], CutOps(start, end, s), outputPath)
  }

  /** The output calls of `mergeMedia` for a video or an audio merge. */
  function MergeOutputOps(isVideo: bool, s: MergeSettings): seq<CommandOp> {
    if isVideo then
      if StreamCopy(s.keepOriginalQuality) then [OutputOptions(["-c copy"])]
      else
        [VideoCodec(OrDefault(s.videoCodec, "libx264")), AudioCodec(OrDefault(s.audioCodec, "aac"))]
        + (if s.targetResolution.Some?
           then [Size(IntToString(s.targetResolution.value.width) + "x" + IntToString(s.targetResolution.value.height))]
           else [])
        + (if s.targetFrameRate.Some? && s.targetFrameRate.value != 0.0 then [Fps(s.targetFrameRate.value)] else [])
    else
      [AudioCodec(OrDefault(s.audioCodec, "libmp3lame"))]
      + (if s.normalizeAudio == Some(true) then [AudioFilters("loudnorm")] else [])
  }

  /** The command `mergeMedia` saves: the concat list as its one input. */
  function MergeCommand(listFile: string, outputPath: string, isVideo: bool, s: MergeSettings): Command {
    Command([listFile], [InputOptions(["-f concat", "-safe 0"])] + MergeOutputOps(isVideo, s), outputPath)
  }

  /** A cut plays from its start for `end - start` seconds; it stream-copies
      exactly when `keepOriginalQuality` is not `false`, and then makes no
      other call; otherwise its calls after the first two are the
      re-encoding ones. */
  lemma {:induction false} CutOpsFacts(start: real, end: real, s: CutSettings)
    ensures |CutOps(start, end, s)| >= 2
    ensures CutOps(start, end, s)[0] == SetStartTime(start) && CutOps(start, end, s)[1] == SetDuration(end - start)
    ensures StreamCopy(s.keepOriginalQuality) <==> OutputOptions(["-c copy", "-avoid_negative_ts make_zero"]) in CutOps(start, end, s)
    ensures StreamCopy(s.keepOriginalQuality) ==> |CutOps(start, end, s)| == 3
    ensures !StreamCopy(s.keepOriginalQuality) ==> CutOps(start, end, s)[2..] == ReencodeOps(s)
  {
    var ops := CutOps(start, end, s);
    if !StreamCopy(s.keepOriginalQuality) {
      var r := ReencodeOps(s);
      assert ops == [SetStartTime(start), SetDuration(end - start)] + r;
      assert ops[2..] == r;
      ReencodeOpsFacts(s);
    }
  }

  /** Re-encoding passes each codec exactly when it is truthy, the crf
      whenever it is given, and never the stream-copy options. */
  lemma {:induction false} ReencodeOpsFacts(s: CutSettings)
    ensures VideoCodec(OrDefault(s.videoCodec, "")) in ReencodeOps(s) <==> Truthy(s.videoCodec)
    ensures AudioCodec(OrDefault(s.audioCodec, "")) in ReencodeOps(s) <==> Truthy(s.audioCodec)
    ensures s.crf.Some? ==> OutputOptions(["-crf " + IntToString(s.crf.value)]) in ReencodeOps(s)
    ensures OutputOptions(["-c copy", "-avoid_negative_ts make_zero"]) !in ReencodeOps(s)
  {
    var v := Opt(Truthy(s.videoCodec), VideoCodec(OrDefault(s.videoCodec, "")));
    var a := Opt(Truthy(s.audioCodec), AudioCodec(OrDefault(s.audioCodec, "")));
    var vb := Opt(Truthy(s.videoBitrate), VideoBitrate(OrDefault(s.videoBitrate, "")));
    var ab := Opt(Truthy(s.audioBitrate), AudioBitrate(OrDefault(s.audioBitrate, "")));
    var q := Opt(s.crf.Some?, OutputOptions(["-crf " + IntToString(IntOrZero(s.crf))]));
    var p := Opt(Truthy(s.preset), OutputOptions(["-preset " + OrDefault(s.preset, "")]));
    var options := OutputOptions(["-c copy", "-avoid_negative_ts make_zero"]);
    assert ReencodeOps(s) == v + a + vb + ab + q + p;
    assert options !in q && options !in p;
    assert options !in v && options !in a && options !in vb && options !in ab;
  }

  /** A video merge stream-copies unless `keepOriginalQuality` is `false`,
      and otherwise encodes with the given codecs, libx264 and aac when none
      is given; an audio merge always encodes its audio, with libmp3lame
      when no codec is given, and applies `loudnorm` exactly when
      `normalizeAudio` is set; only an audio merge normalises. */
  lemma {:induction false} MergeOutputFacts(isVideo: bool, s: MergeSettings)
    ensures var ops := MergeOutputOps(isVideo, s);
      && (isVideo && StreamCopy(s.keepOriginalQuality) ==> ops == [OutputOptions(["-c copy"])])
      && (isVideo && !StreamCopy(s.keepOriginalQuality) ==>
            ops[0] == VideoCodec(if Truthy(s.videoCodec) then s.videoCodec.value else "libx264")
            && ops[1] == AudioCodec(if Truthy(s.audioCodec) then s.audioCodec.value else "aac"))
      && (!isVideo ==> ops[0] == AudioCodec(if Truthy(s.audioCodec) then s.audioCodec.value else "libmp3lame"))
      && (AudioFilters("loudnorm") in ops <==> !isVideo && s.normalizeAudio == Some(true))
  {
    var ops := MergeOutputOps(isVideo, s);
    if isVideo && !StreamCopy(s.keepOriginalQuality) {
      assert forall op | op in ops :: !op.AudioFilters?;
    }
  }

  /** The merge options depend neither on the crossfade nor on the output
      format, and an audio merge not on `keepOriginalQuality` either. */
  lemma {:induction false} MergeIgnoredSettings(isVideo: bool, s: MergeSettings, crossfade: Option<real>, format: Option<string>, keep: Option<bool>)
    ensures MergeOutputOps(isVideo, s.(crossfadeDuration := crossfade, outputFormat := format)) == MergeOutputOps(isVideo, s)
    ensures MergeOutputOps(false, s.(keepOriginalQuality := keep)) == MergeOutputOps(false, s)
  {
  }

  // ---------------------------------------------------------------------
  // Progress

  /** The `percent` a cut reports for a progress event: the parsed timemark
      over the cut duration, in per cent, capped at 100, and 0 for an event
      without a timemark. `None` is `NaN` or minus infinity, from a zero
      duration; plus infinity is capped to 100. */
  function CutPercent(timemark: Option<string>, duration: real): Option<real> {
    if !Truthy(timemark) then Some(0.0)
    else
      ElapsedPercent(ParseTimemark(timemark.value), duration)
  }

  /** `Math.min((t / duration) * 100, 100)` */
  function ElapsedPercent(t: real, duration: real): Option<real> {
    if duration != 0.0 then Some(Min(t / duration * 100.0, 100.0))
    else if t > 0.0 then Some(100.0)
    else None
  }

  /** The `currentTime` a cut reports for a progress event. */
  function CutCurrentTime(timemark: Option<string>): real {
    if Truthy(timemark) then ParseTimemark(timemark.value) else 0.0
  }

  /** The `percent` a merge reports, if it reports the event at all: only
      events with a truthy percent are passed on, capped at 100. */
  function MergePercent(percent: Option<real>): Option<real> {
    if percent.Some? && percent.value != 0.0 then Some(Min(percent.value, 100.0)) else None
  }

  /** Reported progress never exceeds 100; a cut that has played `t` of its
      `duration` seconds reports `100 t / duration`; a merge never reports
      0. */
  lemma {:induction false} ProgressFacts(timemark: Option<string>, duration: real, percent: Option<real>)
    ensures CutPercent(timemark, duration).Some? ==> CutPercent(timemark, duration).value <= 100.0
    ensures MergePercent(percent).Some? ==> MergePercent(percent).value <= 100.0 && MergePercent(percent).value != 0.0
    ensures Truthy(timemark) && duration > 0.0 && 0.0 <= ParseTimemark(timemark.value) <= duration ==>
      var p := CutPercent(timemark, duration);
      p.Some? && 0.0 <= p.value <= 100.0 && p.value == ParseTimemark(timemark.value) / duration * 100.0
  {
    if Truthy(timemark) {
      var t := ParseTimemark(timemark.value);
      assert CutPercent(timemark, duration) == ElapsedPercent(t, duration);
      if duration > 0.0 && 0.0 <= t <= duration {
        PercentOf(t, duration);
      }
    }
  }

  lemma {:induction false} PercentOf(t: real, d: real)
    requires 0.0 < d && 0.0 <= t <= d
    ensures 0.0 <= t / d * 100.0 <= 100.0
    ensures ElapsedPercent(t, d) == Some(t / d * 100.0)
  {
    var q := t / d;
    assert q * d == t;
  }

  // ---------------------------------------------------------------------
  // Pre-trimming the inputs of a merge

  /** One input of `mergeMedia`: a path and its optional trim window. */
  datatype MergeInput = MergeInput(path: string, startTime: Option<real>, endTime: Option<real>)

  /** The input is trimmed into a temporary file first. */
  predicate NeedsTrim(input: MergeInput) {
    input.startTime.Some? || input.endTime.Some?
  }

  /** `x || fallback` for an optional number. */
  function RealOr(x: Option<real>, fallback: real): real {
    if x.Some? && x.value != 0.0 then x.value else fallback
  }

  /** `path.join(dir, name)` */
  function JoinPath(dir: string, name: string): string {
    dir + "/" + name
  }

  /** The temporary file input `i` is trimmed into. */
  function TempOutput(tempDir: string, i: nat, now: int, p: string): string {
    JoinPath(tempDir, "temp-" + IntToString(i) + "-" + IntToString(now) + ExtName(p))
  }

  /** The concat list file. */
  function ListFilePath(tempDir: string, now: int): string {
    JoinPath(tempDir, "concat-" + IntToString(now) + ".txt")
  }

  /** The settings of a pre-trim: stream copy only. */
  const TrimSettings: CutSettings := CutSettings(Some(true), None, None, None, None, None, None)

  /** The file the concat list names for input `i`. */
  function ProcessedFile(inputs: seq<MergeInput>, i: nat, tempDir: string, now: int): string
    requires i < |inputs|
  {
    if NeedsTrim(inputs[i]) then TempOutput(tempDir, i, now, inputs[i].path) else inputs[i].path
  }

  /** `processedFiles` */
  function ProcessedFiles(inputs: seq<MergeInput>, tempDir: string, now: int): (r: seq<string>)
    ensures |r| == |inputs| && forall i | 0 <= i < |inputs| :: r[i] == ProcessedFile(inputs, i, tempDir, now)
  {
    seq(|inputs|, i requires 0 <= i < |inputs| => ProcessedFile(inputs, i, tempDir, now))
  }

  /** The pre-trim of input `i`, whose probed duration is `probed`: from the
      start time or 0, to the end time or the probed duration (an end time of
      0 also falls back to it). */
  function TrimCommand(inputs: seq<MergeInput>, i: nat, tempDir: string, now: int, probed: real): Command
    requires i < |inputs|
  {
    var input := inputs[i];
    CutCommand(input.path, TempOutput(tempDir, i, now, input.path),
      RealOr(input.startTime, 0.0), RealOr(input.endTime, probed), TrimSettings)
  }

  /** Some input is a video file by its extension: the merge is a video
      merge. */
  predicate AnyVideo(inputs: seq<MergeInput>) {
    exists i | 0 <= i < |inputs| :: IsVideoFile(inputs[i].path)
  }

  /** The pre-trims among the first `n` inputs, in input order. */
  function TrimCommands(inputs: seq<MergeInput>, probed: seq<real>, tempDir: string, now: int, n: nat): seq<Command>
    requires n <= |inputs| == |probed|
  {
    if n == 0 then [] else TrimCommands(inputs, probed, tempDir, now, n - 1) + TrimOf(inputs, n - 1, tempDir, now, probed[n - 1])
  }

  /** The pre-trim of input `i`, if it has one. */
  function TrimOf(inputs: seq<MergeInput>, i: nat, tempDir: string, now: int, probed: real): seq<Command>
    requires i < |inputs|
  {
    if NeedsTrim(inputs[i]) then [TrimCommand(inputs, i, tempDir, now, probed)] else []
  }

  /** An input is pre-trimmed exactly when it has a start or an end time;
      the pre-trim stream-copies from the start time, or 0, and plays up to
      the end time, or up to the probed duration when there is none or it is
      0; an input without either is named in the list by its own path. */
  lemma {:induction false} TrimFacts(inputs: seq<MergeInput>, i: nat, tempDir: string, now: int, probed: real)
    requires i < |inputs|
    ensures var input := inputs[i];
      && (ProcessedFile(inputs, i, tempDir, now) == input.path <== !NeedsTrim(input))
      && (NeedsTrim(input) ==> ProcessedFile(inputs, i, tempDir, now) == TempOutput(tempDir, i, now, input.path))
      && var c := TrimCommand(inputs, i, tempDir, now, probed);
      var start := if input.startTime.Some? && input.startTime.value != 0.0 then input.startTime.value else 0.0;
      var end := if input.endTime.Some? && input.endTime.value != 0.0 then input.endTime.value else probed;
      && c.inputs == [input.path]
      && c.ops == [SetStartTime(start), SetDuration(end - start), OutputOptions(["-c copy", "-avoid_negative_ts make_zero"])]
  {
  }

  /** The pre-trims are exactly those of the trimmed inputs: each pre-trim
      is that of a trimmed input, and each trimmed input has one. */
  lemma {:induction false} TrimCommandsFacts(inputs: seq<MergeInput>, probed: seq<real>, tempDir: string, now: int, n: nat)
    requires n <= |inputs| == |probed|
    ensures forall c | c in TrimCommands(inputs, probed, tempDir, now, n) ::
      exists i | 0 <= i < n :: NeedsTrim(inputs[i]) && c == TrimCommand(inputs, i, tempDir, now, probed[i])
    ensures forall i | 0 <= i < n && NeedsTrim(inputs[i]) ::
      TrimCommand(inputs, i, tempDir, now, probed[i]) in TrimCommands(inputs, probed, tempDir, now, n)
  {
    TrimCommandsSound(inputs, probed, tempDir, now, n);
    TrimCommandsComplete(inputs, probed, tempDir, now, n);
  }

  /** `c` is the pre-trim of one of the first `n` inputs, one that is trimmed. */
  predicate TrimOfSomeInput(inputs: seq<MergeInput>, probed: seq<real>, tempDir: string, now: int, n: nat, c: Command)
    requires n <= |inputs| == |probed|
  {
    exists i | 0 <= i < n :: NeedsTrim(inputs[i]) && c == TrimCommand(inputs, i, tempDir, now, probed[i])
  }

  /** Each pre-trim is that of a trimmed input. */
  lemma {:induction false} TrimCommandsSound(inputs: seq<MergeInput>, probed: seq<real>, tempDir: string, now: int, n: nat)
    requires n <= |inputs| == |probed|
    ensures forall c | c in TrimCommands(inputs, probed, tempDir, now, n) ::
      TrimOfSomeInput(inputs, probed, tempDir, now, n, c)
  {
    if n > 0 {
      TrimCommandsSound(inputs, probed, tempDir, now, n - 1);
      var prev := TrimCommands(inputs, probed, tempDir, now, n - 1);
      var last := TrimOf(inputs, n - 1, tempDir, now, probed[n - 1]);
      assert TrimCommands(inputs, probed, tempDir, now, n) == prev + last;
      forall c | c in prev + last
        ensures TrimOfSomeInput(inputs, probed, tempDir, now, n, c)
      {
        if c in prev {
          assert TrimOfSomeInput(inputs, probed, tempDir, now, n - 1, c);
          var i :| 0 <= i < n - 1 && NeedsTrim(inputs[i]) && c == TrimCommand(inputs, i, tempDir, now, probed[i]);
          assert 0 <= i < n;
        } else {
          assert NeedsTrim(inputs[n - 1]) && c == TrimCommand(inputs, n - 1, tempDir, now, probed[n - 1]);
        }
      }
    }
  }

  /** Each trimmed input has its pre-trim. */
  lemma {:induction false} TrimCommandsComplete(inputs: seq<MergeInput>, probed: seq<real>, tempDir: string, now: int, n: nat)
    requires n <= |inputs| == |probed|
    ensures forall i | 0 <= i < n && NeedsTrim(inputs[i]) ::
      TrimCommand(inputs, i, tempDir, now, probed[i]) in TrimCommands(inputs, probed, tempDir, now, n)
  {
    if n > 0 {
      TrimCommandsComplete(inputs, probed, tempDir, now, n - 1);
      var prev := TrimCommands(inputs, probed, tempDir, now, n - 1);
      var last := TrimOf(inputs, n - 1, tempDir, now, probed[n - 1]);
      assert TrimCommands(inputs, probed, tempDir, now, n) == prev + last;
      forall i | 0 <= i < n && NeedsTrim(inputs[i])
        ensures TrimCommand(inputs, i, tempDir, now, probed[i]) in prev + last
      {
        if i == n - 1 {
          assert last == [TrimCommand(inputs, i, tempDir, now, probed[i])];
        } else {
          assert TrimCommand(inputs, i, tempDir, now, probed[i]) in prev;
        }
      }
    }
  }

  /** Appending the processed file of the next input keeps the processed
      files of the inputs so far. */
  lemma {:induction false} ProcessedStep(inputs: seq<MergeInput>, processed: seq<string>, next: string, tempDir: string, now: int)
    requires |processed| < |inputs|
    requires forall j | 0 <= j < |processed| :: processed[j] == ProcessedFile(inputs, j, tempDir, now)
    requires next == ProcessedFile(inputs, |processed|, tempDir, now)
    ensures forall j | 0 <= j < |processed| + 1 :: (processed + [next])[j] == ProcessedFile(inputs, j, tempDir, now)
  {
    forall j | 0 <= j < |processed| + 1
      ensures (processed + [next])[j] == ProcessedFile(inputs, j, tempDir, now)
    {
      if j < |processed| {
        assert (processed + [next])[j] == processed[j];
      }
    }
  }

  // ---------------------------------------------------------------------
  // Clean-up

  /** How a merge ends: its command ended, its command failed, or a step
      before the command (a probe, a pre-trim, writing the list) failed. */
  datatype MergeOutcome = MergeEnded | MergeFailed | PreparationFailed

  /** The temporary files among the first `n` processed files: those of
      trimmed inputs. */
  function TrimmedTemps(inputs: seq<MergeInput>, processed: seq<string>, n: nat): seq<string>
    requires n <= |inputs| == |processed|
  {
    if n == 0 then []
    else TrimmedTemps(inputs, processed, n - 1) + (if NeedsTrim(inputs[n - 1]) then [processed[n - 1]] else [])
  }

  /** The files a merge deletes (when they exist): the list file, and after
      the command has run the temporary files of the trimmed inputs. */
  function CleanupTargets(inputs: seq<MergeInput>, tempDir: string, now: int, outcome: MergeOutcome): seq<string> {
    var processed := ProcessedFiles(inputs, tempDir, now);
    [ListFilePath(tempDir, now)]
    + (if outcome == PreparationFailed then [] else TrimmedTemps(inputs, processed, |inputs|))
  }

  /** `f` is the temporary file of a trimmed input. */
  predicate IsTrimTemp(inputs: seq<MergeInput>, tempDir: string, now: int, f: string) {
    exists i | 0 <= i < |inputs| :: NeedsTrim(inputs[i]) && f == TempOutput(tempDir, i, now, inputs[i].path)
  }

  /** Clean-up deletes the list file first, and otherwise only temporary
      files of trimmed inputs; once the merge command has ended or failed it
      deletes the temporary file of every trimmed input, but when the
      preparation fails only the list file is deleted. */
  lemma {:induction false} CleanupFacts(inputs: seq<MergeInput>, tempDir: string, now: int, outcome: MergeOutcome)
    ensures CleanupTargets(inputs, tempDir, now, outcome)[0] == ListFilePath(tempDir, now)
    ensures forall k | 1 <= k < |CleanupTargets(inputs, tempDir, now, outcome)| ::
      IsTrimTemp(inputs, tempDir, now, CleanupTargets(inputs, tempDir, now, outcome)[k])
    ensures outcome != PreparationFailed ==>
      forall i | 0 <= i < |inputs| && NeedsTrim(inputs[i]) ::
        TempOutput(tempDir, i, now, inputs[i].path) in CleanupTargets(inputs, tempDir, now, outcome)
    ensures outcome == PreparationFailed ==> CleanupTargets(inputs, tempDir, now, outcome) == [ListFilePath(tempDir, now)]
  {
    var processed := ProcessedFiles(inputs, tempDir, now);
    var ts := CleanupTargets(inputs, tempDir, now, outcome);
    if outcome != PreparationFailed {
      var temps := TrimmedTemps(inputs, processed, |inputs|);
      TrimmedTempsFacts(inputs, processed, |inputs|);
      assert ts == [ListFilePath(tempDir, now)] + temps;
      forall k | 1 <= k < |ts|
        ensures IsTrimTemp(inputs, tempDir, now, ts[k])
      {
        assert ts[k] == temps[k - 1];
        assert temps[k - 1] in temps;
        var i :| 0 <= i < |inputs| && NeedsTrim(inputs[i]) && temps[k - 1] == processed[i];
        assert processed[i] == TempOutput(tempDir, i, now, inputs[i].path);
      }
      forall i | 0 <= i < |inputs| && NeedsTrim(inputs[i])
        ensures TempOutput(tempDir, i, now, inputs[i].path) in ts
      {
        assert processed[i] in temps;
      }
    } else {
      assert ts == [ListFilePath(tempDir, now)];
    }
  }

  lemma {:induction false} TrimmedTempsFacts(inputs: seq<MergeInput>, processed: seq<string>, n: nat)
    requires n <= |inputs| == |processed|
    ensures forall f | f in TrimmedTemps(inputs, processed, n) :: exists i | 0 <= i < n :: NeedsTrim(inputs[i]) && f == processed[i]
    ensures forall i | 0 <= i < n && NeedsTrim(inputs[i]) :: processed[i] in TrimmedTemps(inputs, processed, n)
  {
    if n > 0 {
      TrimmedTempsFacts(inputs, processed, n - 1);
    }
  }

  // ---------------------------------------------------------------------
  // The service

  /** The service, with the one command it is running (`currentCommand`,
      `null` as `None`). */
  class FFmpegService {
    var currentCommand: Option<Command>

    constructor ()
      ensures currentCommand == None
    {
      currentCommand := None;
    }

    /** `cutMedia` up to `save`: the command becomes the running one. */
    method CutMedia(inputPath: string, outputPath: string, startTime: real, endTime: real, settings: CutSettings)
      returns (cmd: Command)
      modifies this
      ensures cmd == CutCommand(inputPath, outputPath, startTime, endTime, settings)
      ensures currentCommand == Some(cmd)
    {
      var duration := endTime - startTime;
      var ops := [SetStartTime(startTime), SetDuration(duration)];
      if settings.keepOriginalQuality != Some(false) {
        ops := ops + [OutputOptions(["-c copy", "-avoid_negative_ts make_zero"])];
      } else {
        ops := ops + ReencodeOps(settings);
      }
      cmd := Command([inputPath], ops, outputPath);
      currentCommand := Some(cmd);
    }

    /** The `end` or `error` handler of a command: nothing is running. */
    method CommandSettled()
      modifies this
      ensures currentCommand == None
    {
      currentCommand := None;
    }

    /** `cancelCurrentOperation`: kills the running command, if any. */
    method CancelCurrentOperation() returns (killed: Option<Command>)
      modifies this
      ensures killed == old(currentCommand)
      ensures currentCommand == None
    {
      killed := currentCommand;
      if currentCommand.Some? {
        currentCommand := None;
      }
    }

    /** One turn of the preparation loop of `mergeMedia`: an input with a
        start or an end time is pre-trimmed into its temporary file, which
        replaces it in the list; any other input is listed as it is. */
    method PrepareInput(inputs: seq<MergeInput>, i: nat, tempDir: string, now: int, probed: real)
      returns (trim: seq<Command>, file: string)
      requires i < |inputs|
      modifies this
      ensures trim == TrimOf(inputs, i, tempDir, now, probed)
      ensures file == ProcessedFile(inputs, i, tempDir, now)
      ensures currentCommand == if NeedsTrim(inputs[i]) then None else old(currentCommand)
    {
      var input := inputs[i];
      if input.startTime.Some? || input.endTime.Some? {
        var tempOutput := TempOutput(tempDir, i, now, input.path);
        var start := RealOr(input.startTime, 0.0);
        var end := RealOr(input.endTime, probed);
        var c := CutMedia(input.path, tempOutput, start, end, TrimSettings);
        CommandSettled();
        trim, file := [c], tempOutput;
      } else {
        trim, file := [], input.path;
      }
    }

    /** `mergeMedia` up to `save`, where every probe and pre-trim succeeds:
        `probed[i]` is the duration probing reports for input `i`, and
        `now` the value of `Date.now()`. Returns the pre-trims run in turn,
        the processed files, the list written, and the merge command, which
        becomes the running one. */
    method MergeMedia(inputs: seq<MergeInput>, outputPath: string, settings: MergeSettings,
                      tempDir: string, now: int, probed: seq<real>)
      returns (trims: seq<Command>, processed: seq<string>, listContent: string, cmd: Command)
      requires |probed| == |inputs|
      modifies this
      ensures trims == TrimCommands(inputs, probed, tempDir, now, |inputs|)
      ensures processed == ProcessedFiles(inputs, tempDir, now)
      ensures listContent == ListContent(processed)
      ensures cmd == MergeCommand(ListFilePath(tempDir, now), outputPath,
                                  AnyVideo(inputs), settings)
      ensures currentCommand == Some(cmd)
    {
      var isVideo := AnyVideo(inputs);
      var listFilePath := ListFilePath(tempDir, now);
      trims, processed := [], [];
      for i := 0 to |inputs|
        invariant |processed| == i
        invariant forall j | 0 <= j < i :: processed[j] == ProcessedFile(inputs, j, tempDir, now)
        invariant trims == TrimCommands(inputs, probed, tempDir, now, i)
      {
        var trim, file := PrepareInput(inputs, i, tempDir, now, probed[i]);
        ProcessedStep(inputs, processed, file, tempDir, now);
        trims := trims + trim;
        processed := processed + [file];
      }
      assert processed == ProcessedFiles(inputs, tempDir, now);
      listContent := ListContent(processed);
      cmd := Command([listFilePath], [InputOptions(["-f concat", "-safe 0"])] + MergeOutputOps(isVideo, settings), outputPath);
      currentCommand := Some(cmd);
    }
  }
}
