/** The arrangement timeline: segments of the imported files placed at
    `trackPosition` seconds on one track, the length of the arrangement,
    the zoom, the time ruler, the colour of each file's segments, and the
    drag session that moves a segment along the track. The handlers are
    pure steps on a `Session` value; the class `DragSession` holds the same
    state in fields and its methods are proved to perform those steps. */
module Arrangement {
  import opened Wrappers
  import opened Media
  import opened JsNumber
  import opened TimeText
  import TimeReadBack

  // ---------------------------------------------------------------------
  // Length of the arrangement

  /** Where a segment stops playing on the track. */
  function SegmentEnd(seg: TimelineSegment): real {
    seg.trackPosition + seg.duration
  }

  /** The `reduce` over the first `n` segments, from the initial 0: the
      largest end so far, never below 0. */
  function TotalUpTo(segs: seq<TimelineSegment>, n: nat): (total: real)
    requires n <= |segs|
    ensures total >= 0.0
    ensures forall i | 0 <= i < n :: SegmentEnd(segs[i]) <= total
    ensures total == 0.0 || exists i | 0 <= i < n :: SegmentEnd(segs[i]) == total
  {
    if n == 0 then 0.0 else Max(TotalUpTo(segs, n - 1), SegmentEnd(segs[n - 1]))
  }

  /** `totalDuration` */
  function TotalDuration(segs: seq<TimelineSegment>): real {
    TotalUpTo(segs, |segs|)
  }

  /** The arrangement is 0 seconds long without segments, and otherwise as
      long as the latest segment end (or 0 when every segment ends before
      0): no segment ends after it. */
  lemma {:induction false} TotalDurationFacts(segs: seq<TimelineSegment>)
    ensures segs == [] ==> TotalDuration(segs) == 0.0
    ensures TotalDuration(segs) >= 0.0
    ensures forall i | 0 <= i < |segs| :: SegmentEnd(segs[i]) <= TotalDuration(segs)
    ensures TotalDuration(segs) == 0.0 || exists i | 0 <= i < |segs| :: SegmentEnd(segs[i]) == TotalDuration(segs)
  {
  }

  /** Adding a segment lengthens the arrangement to that segment's end at
      most. */
  lemma {:induction false} TotalDurationAppend(segs: seq<TimelineSegment>, seg: TimelineSegment)
    ensures TotalDuration(segs + [seg]) == Max(TotalDuration(segs), SegmentEnd(seg))
  {
    var t := segs + [seg];
    TotalUpToPrefix(segs, t, |segs|);
  }

  /** The reduce over a prefix depends only on that prefix. */
  lemma {:induction false} TotalUpToPrefix(s: seq<TimelineSegment>, t: seq<TimelineSegment>, n: nat)
    requires n <= |s| && n <= |t|
    requires forall i | 0 <= i < n :: s[i] == t[i]
    ensures TotalUpTo(s, n) == TotalUpTo(t, n)
  {
    if n > 0 {
      TotalUpToPrefix(s, t, n - 1);
    }
  }

  // ---------------------------------------------------------------------
  // Zoom

  /** The zoom a timeline opens with. */
  const InitialZoom: real := 1.0

  /** The "Zoom In" button. */
  function ZoomIn(zoom: real): real {
    Min(3.0, zoom + 0.25)
  }

  /** The "Zoom Out" button. */
  function ZoomOut(zoom: real): real {
    Max(0.5, zoom - 0.25)
  }

  /** `pixelsPerSecond` */
  function PixelsPerSecond(zoom: real): real {
    50.0 * zoom
  }

  /** A zoom the buttons can reach: from 0.5 to 3, a whole number of
      quarter steps above 0.5. */
  predicate ZoomLevel(zoom: real) {
    0.5 <= zoom <= 3.0 && ((zoom - 0.5) * 4.0).Floor as real == (zoom - 0.5) * 4.0
  }

  /** The zoom label, `Math.round(zoom * 100)`. */
  function ZoomPercent(zoom: real): int {
    (zoom * 100.0 + 0.5).Floor
  }

  /** The timeline opens at a reachable zoom, and both buttons keep the zoom
      reachable, one step or none in their own direction; at a reachable
      zoom a second lasts between 25 and 150 pixels and the label is the
      zoom in per cent, a multiple of 25 from 50 to 300. */
  lemma {:induction false} ZoomFacts(zoom: real)
    requires ZoomLevel(zoom)
    ensures ZoomLevel(InitialZoom)
    ensures ZoomLevel(ZoomIn(zoom)) && ZoomLevel(ZoomOut(zoom))
    ensures ZoomIn(zoom) == zoom + 0.25 || (ZoomIn(zoom) == zoom == 3.0)
    ensures ZoomOut(zoom) == zoom - 0.25 || (ZoomOut(zoom) == zoom == 0.5)
    ensures 25.0 <= PixelsPerSecond(zoom) <= 150.0
    ensures ZoomPercent(zoom) as real == zoom * 100.0
    ensures 50 <= ZoomPercent(zoom) <= 300 && ZoomPercent(zoom) % 25 == 0
  {
    var k := ((zoom - 0.5) * 4.0).Floor;
    assert zoom == 0.5 + k as real / 4.0;
    assert 0 <= k <= 10;
    assert zoom * 100.0 == (50 + 25 * k) as real;
    assert ZoomPercent(zoom) == 50 + 25 * k;
    if k < 10 {
      assert ZoomIn(zoom) == 0.5 + (k + 1) as real / 4.0;
      assert ((ZoomIn(zoom) - 0.5) * 4.0) == (k + 1) as real;
    } else {
      assert ZoomIn(zoom) == zoom;
    }
    if k > 0 {
      assert ZoomOut(zoom) == 0.5 + (k - 1) as real / 4.0;
      assert ((ZoomOut(zoom) - 0.5) * 4.0) == (k - 1) as real;
    } else {
      assert ZoomOut(zoom) == zoom;
    }
    assert ((InitialZoom - 0.5) * 4.0) == 2.0;
  }

  // ---------------------------------------------------------------------
  // Ruler and track width

  /** `Math.ceil` */
  function Ceil(x: real): int {
    -((-x).Floor)
  }

  /** The number of ruler marks, `Math.ceil(totalDuration / 5) + 2`. */
  function MarkCount(total: real): int {
    Ceil(total / 5.0) + 2
  }

  /** The times of the ruler marks of an arrangement. */
  function RulerMarks(segs: seq<TimelineSegment>): seq<real> {
    var n := MarkCount(TotalDuration(segs));
    if n <= 0 then [] else seq(n, i => 5.0 * i as real)
  }

  /** The label of each ruler mark, in `m:ss`. */
  function RulerLabels(segs: seq<TimelineSegment>): seq<string> {
    var marks := RulerMarks(segs);
    seq(|marks|, i requires 0 <= i < |marks| => FormatMinSec(marks[i]))
  }

  /** The width of the ruler and of the track area in pixels. */
  function TrackWidth(segs: seq<TimelineSegment>, zoom: real): real {
    Max(TotalDuration(segs) + 10.0, 60.0) * PixelsPerSecond(zoom)
  }

  /** There are `ceil(total / 5) + 2` marks, every 5 seconds from 0, and the
      last lies at least 5 seconds past the end of the arrangement. */
  lemma {:induction false} RulerFacts(segs: seq<TimelineSegment>)
    ensures var total := TotalDuration(segs); var marks := RulerMarks(segs);
      && |marks| == Ceil(total / 5.0) + 2
      && marks[0] == 0.0
      && (forall i | 0 <= i < |marks| :: marks[i] == 5.0 * i as real)
      && marks[|marks| - 1] >= total + 5.0
  {
    var total := TotalDuration(segs);
    TotalDurationFacts(segs);
    var x := total / 5.0;
    var c := Ceil(x);
    assert (-x).Floor as real <= -x;
    assert c as real >= x;
    assert c >= 0;
    assert 5.0 * (c + 1) as real >= total + 5.0;
  }

  /** Each ruler label reads back as the time of its mark. */
  lemma {:induction false} RulerLabelsReadBack(segs: seq<TimelineSegment>, i: nat)
    requires i < |RulerLabels(segs)|
    ensures ParseTimeString(RulerLabels(segs)[i]) == Some(5.0 * i as real)
  {
    RulerLabelAt(segs, i);
    MarkLabelReadsBack(i);
  }

  /** The label of mark `i` is the `m:ss` text of its time. */
  lemma RulerLabelAt(segs: seq<TimelineSegment>, i: nat)
    requires i < |RulerLabels(segs)|
    ensures RulerLabels(segs)[i] == FormatMinSec(5.0 * i as real)
  {
    assert RulerMarks(segs)[i] == 5.0 * i as real;
  }

  /** The `m:ss` text of a mark time reads back as that time. */
  lemma MarkLabelReadsBack(i: nat)
    ensures ParseTimeString(FormatMinSec(5.0 * i as real)) == Some(5.0 * i as real)
  {
    var t := 5.0 * i as real;
    WholeFloor(5 * i);
    assert t == (5 * i) as real;
    TimeReadBack.MinSecRoundTrip(t);
  }

  /** A whole number of seconds is its own floor. */
  lemma WholeFloor(k: int)
    ensures (k as real).Floor == k
  {
  }

  /** Every segment ends inside the track area. */
  lemma {:induction false} SegmentsFitTrack(segs: seq<TimelineSegment>, zoom: real, i: nat)
    requires zoom > 0.0 && i < |segs|
    ensures SegmentEnd(segs[i]) * PixelsPerSecond(zoom) < TrackWidth(segs, zoom)
  {
    TotalDurationFacts(segs);
    var total := TotalDuration(segs);
    var e := SegmentEnd(segs[i]);
    assert e <= total;
    var w := Max(total + 10.0, 60.0);
    assert e < w;
    var pps := PixelsPerSecond(zoom);
    assert pps == 50.0 * zoom;
    assert pps > 0.0;
    assert TrackWidth(segs, zoom) == w * pps;
    MulLess(e, w, pps);
  }

  lemma {:induction false} MulLess(a: real, b: real, c: real)
    requires a < b && c > 0.0
    ensures a * c < b * c
  {
    assert b * c - a * c == (b - a) * c;
  }

  // ---------------------------------------------------------------------
  // Colours

  /** `SEGMENT_COLORS`: the background and the darker border of each of the
      ten colours. */
  const SegmentColours: seq<(string, string)> := [
    ("#E53935", "#C62828"),
    ("#1E88E5", "#1565C0"),
    ("#43A047", "#2E7D32"),
    ("#FB8C00", "#EF6C00"),
    ("#8E24AA", "#6A1B9A"),
    ("#00ACC1", "#00838F"),
    ("#F4511E", "#D84315"),
    ("#7CB342", "#558B2F"),
    ("#FFB300", "#FF8F00"),
    ("#5E35B1", "#4527A0")]

  /** `findIndex` from position `k` on: the first index whose file has the
      id, or -1 when none has. */
  function FindFrom(files: seq<MediaFile>, id: string, k: nat): (i: int)
    requires k <= |files|
    ensures i == -1 || k <= i < |files|
    ensures i >= 0 ==> files[i].id == id && forall j | k <= j < i :: files[j].id != id
    ensures i == -1 ==> forall j | k <= j < |files| :: files[j].id != id
    decreases |files| - k
  {
    if k == |files| then -1
    else if files[k].id == id then k
    else FindFrom(files, id, k + 1)
  }

  /** `files.findIndex(f => f.id === fileId)` */
  function FindIndex(files: seq<MediaFile>, id: string): int {
    FindFrom(files, id, 0)
  }

  /** `getSegmentColor`: the colour at the file's index modulo ten. A file
      missing from the list has index -1, whose JavaScript remainder -1
      indexes past the palette, so `getSegmentColor` yields `undefined` and
      the track's render fails on `colors.bg`; `None` stands for that
      failure. */
  function SegmentColour(files: seq<MediaFile>, fileId: string): Option<(string, string)> {
    var i := FindIndex(files, fileId);
    if i < 0 then None else Some(SegmentColours[i % |SegmentColours|])
  }

  /** A file in the list gives its segments the colour at its first index
      modulo ten. */
  lemma {:induction false} SegmentColourFacts(files: seq<MediaFile>, fileId: string, i: nat)
    requires i < |files| && files[i].id == fileId
    requires forall j | 0 <= j < i :: files[j].id != fileId
    ensures SegmentColour(files, fileId) == Some(SegmentColours[i % 10])
  {
  }

  /** A file missing from the list gets no colour: its segment cannot be
      drawn, and the track's render fails. */
  lemma {:induction false} MissingFileColour(files: seq<MediaFile>, fileId: string)
    requires forall j | 0 <= j < |files| :: files[j].id != fileId
    ensures SegmentColour(files, fileId) == None
  {
  }

  /** The ten colours have ten different backgrounds, so files whose first
      indices are fewer than ten apart are told apart. */
  lemma {:induction false} NeighbourColours(files: seq<MediaFile>, i: nat, j: nat)
    requires i < j < |files| && j < i + 10
    requires forall k | 0 <= k < i :: files[k].id != files[i].id
    requires forall k | 0 <= k < j :: files[k].id != files[j].id
    ensures SegmentColour(files, files[i].id) != SegmentColour(files, files[j].id)
  {
    SegmentColourFacts(files, files[i].id, i);
    SegmentColourFacts(files, files[j].id, j);
    assert i % 10 != j % 10 by {
      DivModDistinct(i, j);
    }
    var a, b := i % 10, j % 10;
    assert SegmentColours[a].0 != SegmentColours[b].0 by {
      BackgroundsDistinct(a, b);
    }
  }

  lemma {:induction false} DivModDistinct(i: nat, j: nat)
    requires i < j < i + 10
    ensures i % 10 != j % 10
  {
    var qi, qj := i / 10, j / 10;
    assert i == 10 * qi + i % 10 && j == 10 * qj + j % 10;
    if qj == qi {
      assert j % 10 - i % 10 == j - i;
    } else {
      assert qj >= qi + 1;
      assert j % 10 - i % 10 == (j - i) - 10 * (qj - qi);
    }
  }

  lemma {:induction false} BackgroundsDistinct(a: nat, b: nat)
    requires a < 10 && b < 10 && a != b
    ensures SegmentColours[a].0 != SegmentColours[b].0
  {
  }

  // ---------------------------------------------------------------------
  // The drag session

  /** The component state the drag handlers read and write: whether a drag
      is on, the id of the dragged segment (`null` as `None`), the
      horizontal grab offset in pixels, the zoom, and the horizontal scroll
      of the track in pixels. */
  datatype Session = Session(
    isDragging: bool,
    draggedId: Option<string>,
    dragOffset: real,
    zoom: real,
    scroll: real)

  /** The state a timeline opens with. */
  function InitialSession(): Session {
    Session(false, None, 0.0, InitialZoom, 0.0)
  }

  /** The session invariant: the zoom is one the buttons can reach. */
  predicate Valid(s: Session) {
    ZoomLevel(s.zoom)
  }

  /** `handleSegmentMouseDown` with the cursor `clientX` over a track whose
      left edge is at `left`: the drag starts on `seg`, remembering how far
      right of the segment's left edge it was grabbed. */
  function MouseDownStep(s: Session, seg: TimelineSegment, clientX: real, left: real): Session {
    var clickX := clientX - left;
    var segmentX := seg.trackPosition * PixelsPerSecond(s.zoom);
    s.(isDragging := true, draggedId := Some(seg.id), dragOffset := clickX - segmentX)
  }

  /** Whether the mouse listeners are installed: a drag is on and the
      dragged id is truthy (a segment with the empty id cannot be moved). */
  predicate Listening(s: Session) {
    s.isDragging && Truthy(s.draggedId)
  }

  /** `newPosition` for the cursor at `clientX`: the track time under the
      grab point, never before 0. */
  function DropPosition(s: Session, clientX: real, left: real): real
    requires s.zoom > 0.0
  {
    var x := clientX - left - s.dragOffset + s.scroll;
    Max(0.0, x / PixelsPerSecond(s.zoom))
  }

  /** `segments.map` of `handleMouseMove`: the segments with id `id` move
      to `p`. */
  function MoveSegments(segs: seq<TimelineSegment>, id: string, p: real): (r: seq<TimelineSegment>)
    ensures |r| == |segs|
    ensures forall i | 0 <= i < |segs| ::
      r[i] == if segs[i].id == id then segs[i].(trackPosition := p) else segs[i]
  {
    seq(|segs|, i requires 0 <= i < |segs| =>
      if segs[i].id == id then segs[i].(trackPosition := p) else segs[i])
  }

  /** `handleMouseMove`: the list passed to `onSegmentsChange`, or `None`
      when no listener is installed. */
  function MouseMoveStep(s: Session, segs: seq<TimelineSegment>, clientX: real, left: real): Option<seq<TimelineSegment>>
    requires s.zoom > 0.0
  {
    if Listening(s) then Some(MoveSegments(segs, s.draggedId.value, DropPosition(s, clientX, left)))
    else None
  }

  /** `handleMouseUp`, which only a listening session receives. */
  function MouseUpStep(s: Session): Session {
    if Listening(s) then s.(isDragging := false, draggedId := None) else s
  }

  /** `handleTimelineClick`: whether the selection is cleared. */
  function ClickClears(s: Session): bool {
    !s.isDragging
  }

  /** The zoom buttons and the scroll handler. */
  function ZoomInStep(s: Session): Session { s.(zoom := ZoomIn(s.zoom)) }
  function ZoomOutStep(s: Session): Session { s.(zoom := ZoomOut(s.zoom)) }
  function ScrollStep(s: Session, scrollLeft: real): Session { s.(scroll := scrollLeft) }

  /** Every step keeps the session invariant, starting from the opening
      state. */
  lemma {:induction false} ValidKept(s: Session, seg: TimelineSegment, clientX: real, left: real, scrollLeft: real)
    requires Valid(s)
    ensures Valid(InitialSession())
    ensures Valid(MouseDownStep(s, seg, clientX, left))
    ensures Valid(MouseUpStep(s))
    ensures Valid(ZoomInStep(s)) && Valid(ZoomOutStep(s))
    ensures Valid(ScrollStep(s, scrollLeft))
  {
    ZoomFacts(s.zoom);
  }

  /** The grab round trip: after grabbing `seg`, moving the cursor by `dx`
      with the track scrolled by `scroll` pixels puts the segment
      `(dx + scroll) / pixelsPerSecond` seconds from where it was, but
      never before 0; with no scroll and no movement it stays where it
      was. */
  lemma {:induction false} GrabRoundTrip(s: Session, seg: TimelineSegment, clientX: real, left: real, dx: real)
    requires s.zoom > 0.0
    ensures var t := MouseDownStep(s, seg, clientX, left);
      DropPosition(t, clientX + dx, left)
        == Max(0.0, seg.trackPosition + (dx + s.scroll) / PixelsPerSecond(s.zoom))
    ensures s.scroll == 0.0 && seg.trackPosition >= 0.0 ==>
      DropPosition(MouseDownStep(s, seg, clientX, left), clientX, left) == seg.trackPosition
  {
    var t := MouseDownStep(s, seg, clientX, left);
    var pps := PixelsPerSecond(s.zoom);
    var x := clientX + dx - left - t.dragOffset + t.scroll;
    assert x == seg.trackPosition * pps + (dx + s.scroll);
    assert x / pps == seg.trackPosition + (dx + s.scroll) / pps;
  }

  /** A move gives a list of the same length in the same order in which
      only the dragged segments change, and only in `trackPosition`, to a
      position that is never negative; without a listener nothing is
      passed on. */
  lemma {:induction false} MoveFacts(s: Session, segs: seq<TimelineSegment>, clientX: real, left: real)
    requires s.zoom > 0.0
    ensures var r := MouseMoveStep(s, segs, clientX, left);
      && (r.Some? <==> Listening(s))
      && (r.Some? ==>
        && |r.value| == |segs|
        && forall i | 0 <= i < |segs| ::
          && r.value[i].trackPosition >= Min(0.0, segs[i].trackPosition)
          && (r.value[i].id != s.draggedId.value ==> r.value[i] == segs[i])
          && (r.value[i].id == s.draggedId.value ==>
                r.value[i] == segs[i].(trackPosition := DropPosition(s, clientX, left))
                && r.value[i].trackPosition >= 0.0))
  {
  }

  /** Mouse-up ends a listening session, keeping the grab offset, zoom and
      scroll, and the segments are not touched by it. */
  lemma {:induction false} MouseUpFacts(s: Session)
    requires Listening(s)
    ensures var t := MouseUpStep(s);
      && !t.isDragging && t.draggedId.None? && !Listening(t)
      && t.dragOffset == s.dragOffset && t.zoom == s.zoom && t.scroll == s.scroll
      && ClickClears(t)
  {
  }

  /** After mouse-up, further cursor moves change nothing. */
  lemma {:induction false} NoMoveAfterMouseUp(s: Session, segs: seq<TimelineSegment>, clientX: real, left: real)
    requires Listening(s) && s.zoom > 0.0
    ensures MouseMoveStep(MouseUpStep(s), segs, clientX, left) == None
  {
  }

  // ---------------------------------------------------------------------
  // The component

  /** The drag session of an arrangement timeline, with its fields. */
  class DragSession {
    var isDragging: bool
    var draggedSegmentId: Option<string>
    var dragOffset: real
    var zoom: real
    var scrollPosition: real

    function State(): Session
      reads this
    {
      Session(isDragging, draggedSegmentId, dragOffset, zoom, scrollPosition)
    }

    constructor ()
      ensures State() == InitialSession() && Valid(State())
    {
      isDragging, draggedSegmentId, dragOffset := false, None, 0.0;
      zoom, scrollPosition := InitialZoom, 0.0;
      ZoomFacts(InitialZoom);
    }

    /** Grabs `seg` and returns it as the selected segment. */
    method SegmentMouseDown(seg: TimelineSegment, clientX: real, left: real) returns (selected: TimelineSegment)
      requires Valid(State())
      modifies this
      ensures State() == MouseDownStep(old(State()), seg, clientX, left) && Valid(State())
      ensures selected == seg
    {
      var clickX := clientX - left;
      var segmentX := seg.trackPosition * PixelsPerSecond(zoom);
      isDragging := true;
      draggedSegmentId := Some(seg.id);
      dragOffset := clickX - segmentX;
      selected := seg;
      ValidKept(old(State()), seg, clientX, left, 0.0);
    }

    /** A cursor move over `segs`; returns what is passed to
        `onSegmentsChange`, if anything. */
    method MouseMove(segs: seq<TimelineSegment>, clientX: real, left: real) returns (changed: Option<seq<TimelineSegment>>)
      requires Valid(State())
      ensures changed == MouseMoveStep(State(), segs, clientX, left)
    {
      if !isDragging || !Truthy(draggedSegmentId) {
        return None;
      }
      var x := clientX - left - dragOffset + scrollPosition;
      var newPosition := Max(0.0, x / PixelsPerSecond(zoom));
      changed := Some(MoveSegments(segs, draggedSegmentId.value, newPosition));
    }

    method MouseUp()
      requires Valid(State())
      modifies this
      ensures State() == MouseUpStep(old(State())) && Valid(State())
    {
      if isDragging && Truthy(draggedSegmentId) {
        isDragging := false;
        draggedSegmentId := None;
      }
    }

    /** A click on the track; returns whether the selection is cleared. */
    method TimelineClick() returns (clears: bool)
      ensures clears == ClickClears(State())
    {
      clears := !isDragging;
    }

    method ZoomInClick()
      requires Valid(State())
      modifies this
      ensures State() == ZoomInStep(old(State())) && Valid(State())
    {
      ZoomFacts(zoom);
      zoom := Min(3.0, zoom + 0.25);
    }

    method ZoomOutClick()
      requires Valid(State())
      modifies this
      ensures State() == ZoomOutStep(old(State())) && Valid(State())
    {
      ZoomFacts(zoom);
      zoom := Max(0.5, zoom - 0.25);
    }

    method Scroll(scrollLeft: real)
      requires Valid(State())
      modifies this
      ensures State() == ScrollStep(old(State()), scrollLeft) && Valid(State())
    {
      scrollPosition := scrollLeft;
    }
  }
}
