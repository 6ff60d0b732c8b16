/** The cut timeline of the selected file: the start and end handles of its
    cut window, the playhead, the typed start and end times and the keyboard
    shortcuts. Every handler is a pure step on a `CutState` value that also
    says which window, if any, is reported to the application through
    `onCutChange`; the class `CutEditor` holds the same state in fields and
    its methods are proved to perform exactly those steps. */
module CutWindow {
  import opened Wrappers
  import opened Media
  import opened JsNumber
  import opened TimeText
  import opened TimeReadBack

  /** A window reported through `onCutChange(startCut, endCut)`. */
  datatype Window = Window(startCut: real, endCut: real)

  /** The component state that the cut handlers read and write. `mediaReady`
      says whether the media element is mounted (`mediaRef.current`). */
  datatype CutState = CutState(
    duration: real,
    startCut: real,
    endCut: real,
    currentTime: real,
    draggingStart: bool,
    draggingEnd: bool,
    draggingPlayhead: bool,
    mediaReady: bool)

  /** The new state of a handler and the window it reports, if any. */
  datatype Outcome = Outcome(st: CutState, reported: Option<Window>)

  /** The handle a drag starts on. */
  datatype Grip = StartGrip | EndGrip | PlayheadGrip

  /** The smallest gap the handle buttons and drags keep between start and end. */
  const MinGap: real := 0.1

  /** The state once a file is shown (`useState` and the effect on `file.id`). */
  function Opened(file: MediaFile, mediaReady: bool): CutState {
    CutState(file.duration, file.startCut, file.endCut, file.startCut, false, false, false, mediaReady)
  }

  // ---------------------------------------------------------------------
  // The handlers as steps

  /** `handleSetStart`: the start moves to the playhead, but no closer to the
      end than the gap. */
  function SetStartStep(st: CutState): Outcome {
    var newStart := Min(st.currentTime, st.endCut - MinGap);
    Outcome(st.(startCut := newStart), Some(Window(newStart, st.endCut)))
  }

  /** `handleSetEnd`: the end moves to the playhead, but no closer to the
      start than the gap. */
  function SetEndStep(st: CutState): Outcome {
    var newEnd := Max(st.currentTime, st.startCut + MinGap);
    Outcome(st.(endCut := newEnd), Some(Window(st.startCut, newEnd)))
  }

  /** `handleResetCuts` */
  function ResetStep(st: CutState): Outcome {
    Outcome(st.(startCut := 0.0, endCut := st.duration), Some(Window(0.0, st.duration)))
  }

  /** `handleStartDrag` */
  function StartDragStep(st: CutState, grip: Grip): CutState {
    match grip
    case StartGrip => st.(draggingStart := true)
    case EndGrip => st.(draggingEnd := true)
    case PlayheadGrip => st.(draggingPlayhead := true)
  }

  /** The time under the cursor at `x` pixels into a timeline `width`
      pixels wide: the fraction is clamped to `[0, 1]`. */
  function CursorTime(x: real, width: real, duration: real): real
    requires width > 0.0
  {
    Max(0.0, Min(1.0, x / width)) * duration
  }

  /** The mouse-move listener of a drag. */
  function MouseMoveStep(st: CutState, x: real, width: real): CutState
    requires width > 0.0
  {
    var time := CursorTime(x, width, st.duration);
    if st.draggingStart then st.(startCut := Max(0.0, Min(time, st.endCut - MinGap)))
    else if st.draggingEnd then st.(endCut := Min(st.duration, Max(time, st.startCut + MinGap)))
    else if st.draggingPlayhead && st.mediaReady then st.(currentTime := time)
    else st
  }

  /** The mouse-up listener: a handle drag reports the window it left, and
      every drag ends. */
  function MouseUpStep(st: CutState): Outcome {
    var reported := if st.draggingStart || st.draggingEnd then Some(Window(st.startCut, st.endCut)) else None;
    Outcome(st.(draggingStart := false, draggingEnd := false, draggingPlayhead := false), reported)
  }

  /** `handleStartInputChange`: a typed start is taken when it reads as a
      finite time in `[0, endCut)`. */
  function StartInputStep(st: CutState, value: string): Outcome {
    var time := ParseTimeString(value);
    if time.Some? && time.value >= 0.0 && time.value < st.endCut
    then Outcome(st.(startCut := time.value), Some(Window(time.value, st.endCut)))
    else Outcome(st, None)
  }

  /** `handleEndInputChange`: a typed end is taken when it reads as a finite
      time in `(startCut, duration]`. */
  function EndInputStep(st: CutState, value: string): Outcome {
    var time := ParseTimeString(value);
    if time.Some? && time.value > st.startCut && time.value <= st.duration
    then Outcome(st.(endCut := time.value), Some(Window(st.startCut, time.value)))
    else Outcome(st, None)
  }

  /** How far an arrow key moves the playhead. */
  function SeekDelta(shift: bool): real {
    if shift then 5.0 else 0.5
  }

  /** The arrow keys: back or forward by the delta, kept inside the file. */
  function SeekStep(st: CutState, forward: bool, shift: bool): CutState {
    var newTime :=
      if forward then Min(st.duration, st.currentTime + SeekDelta(shift))
      else Max(0.0, st.currentTime - SeekDelta(shift));
    if st.mediaReady then st.(currentTime := newTime) else st
  }

  /** The keyboard shortcuts: none while typing in an input; `i` and `o` set
      the start and end, the arrows seek. Space toggles playback, which is
      not part of this state. */
  function KeyStep(st: CutState, key: string, shift: bool, inInput: bool): Outcome {
    if inInput then Outcome(st, None)
    else if key == "i" then SetStartStep(st)
    else if key == "o" then SetEndStep(st)
    else if key == "ArrowLeft" then Outcome(SeekStep(st, false, shift), None)
    else if key == "ArrowRight" then Outcome(SeekStep(st, true, shift), None)
    else Outcome(st, None)
  }

  // ---------------------------------------------------------------------
  // What the handlers promise

  /** Set Start puts the start at the playhead or, when that is too close to
      the end, the gap before the end; it never goes past `endCut - 0.1`.
      Only the start changes, and the new window is reported. */
  lemma SetStartFacts(st: CutState)
    ensures var o := SetStartStep(st);
      && o.st.startCut <= st.endCut - MinGap
      && o.st.startCut <= st.currentTime
      && (st.currentTime <= st.endCut - MinGap ==> o.st.startCut == st.currentTime)
      && (st.currentTime > st.endCut - MinGap ==> o.st.startCut == st.endCut - MinGap)
      && o.st == st.(startCut := o.st.startCut)
      && o.reported == Some(Window(o.st.startCut, st.endCut))
  {
  }

  /** Set End puts the end at the playhead or, when that is too close to the
      start, the gap after the start; it never goes below `startCut + 0.1`. */
  lemma SetEndFacts(st: CutState)
    ensures var o := SetEndStep(st);
      && o.st.endCut >= st.startCut + MinGap
      && o.st.endCut >= st.currentTime
      && (st.currentTime >= st.startCut + MinGap ==> o.st.endCut == st.currentTime)
      && (st.currentTime < st.startCut + MinGap ==> o.st.endCut == st.startCut + MinGap)
      && o.st == st.(endCut := o.st.endCut)
      && o.reported == Some(Window(st.startCut, o.st.endCut))
  {
  }

  /** Reset Cuts makes the window the whole file and reports it. */
  lemma ResetFacts(st: CutState)
    ensures var o := ResetStep(st);
      && o.st.startCut == 0.0 && o.st.endCut == st.duration
      && o.st == st.(startCut := 0.0, endCut := st.duration)
      && o.reported == Some(Window(0.0, st.duration))
  {
  }

  /** The time under the cursor lies in `[0, duration]`, and is the cursor's
      share of the duration while the cursor is over the timeline. */
  lemma CursorTimeRange(x: real, width: real, duration: real)
    requires width > 0.0 && duration >= 0.0
    ensures 0.0 <= CursorTime(x, width, duration) <= duration
    ensures 0.0 <= x <= width ==> CursorTime(x, width, duration) == x / width * duration
  {
    var p := Max(0.0, Min(1.0, x / width));
    MulNonNegative(p, duration);
    MulNonNegative(1.0 - p, duration);
    if 0.0 <= x <= width {
      ProductSign(width - x, 1.0 / width);
      assert (width - x) * (1.0 / width) == 1.0 - x / width;
      MulNonNegative(x, 1.0 / width);
    }
  }

  /** Dragging the start handle keeps it at or after 0 and, when the end
      allows, at least the gap before the end; it follows the cursor inside
      that range, sticks at `endCut - 0.1` past it, and sits at 0 when the
      end is closer to 0 than the gap. Nothing but the start changes. */
  lemma DragStartFacts(st: CutState, x: real, width: real)
    requires width > 0.0 && st.draggingStart
    ensures var t := CursorTime(x, width, st.duration); var r := MouseMoveStep(st, x, width);
      && r == st.(startCut := r.startCut)
      && r.startCut >= 0.0
      && (st.endCut >= MinGap ==> r.startCut <= st.endCut - MinGap)
      && r.startCut <= Max(0.0, t)
      && (0.0 <= t <= st.endCut - MinGap ==> r.startCut == t)
      && (t > st.endCut - MinGap && st.endCut >= MinGap ==> r.startCut == st.endCut - MinGap)
      && (st.endCut < MinGap ==> r.startCut == 0.0)
  {
  }

  /** Dragging the end handle keeps it at or before the duration and, when
      the duration allows, at least the gap after the start; it follows the
      cursor inside that range, sticks at `startCut + 0.1` below it, and sits
      at the duration when the start is closer to it than the gap. Nothing
      but the end changes. */
  lemma DragEndFacts(st: CutState, x: real, width: real)
    requires width > 0.0 && !st.draggingStart && st.draggingEnd
    ensures var t := CursorTime(x, width, st.duration); var r := MouseMoveStep(st, x, width);
      && r == st.(endCut := r.endCut)
      && r.endCut <= st.duration
      && (st.startCut + MinGap <= st.duration ==> r.endCut >= st.startCut + MinGap)
      && r.endCut >= Min(st.duration, t)
      && (st.startCut + MinGap <= t <= st.duration ==> r.endCut == t)
      && (t < st.startCut + MinGap && st.startCut + MinGap <= st.duration ==> r.endCut == st.startCut + MinGap)
      && (st.startCut + MinGap > st.duration ==> r.endCut == st.duration)
  {
  }

  /** Dragging the playhead moves it to the cursor's time and changes
      nothing else; with no drag under way a move changes nothing. */
  lemma DragPlayheadFacts(st: CutState, x: real, width: real)
    requires width > 0.0
    ensures !st.draggingStart && !st.draggingEnd && st.draggingPlayhead && st.mediaReady ==>
      MouseMoveStep(st, x, width) == st.(currentTime := CursorTime(x, width, st.duration))
    ensures !st.draggingStart && !st.draggingEnd && !st.draggingPlayhead ==>
      MouseMoveStep(st, x, width) == st
  {
  }

  /** Mouse-up ends every drag without moving anything, and reports the
      window exactly when a handle was being dragged. */
  lemma MouseUpFacts(st: CutState)
    ensures var o := MouseUpStep(st);
      && !o.st.draggingStart && !o.st.draggingEnd && !o.st.draggingPlayhead
      && o.st.(draggingStart := st.draggingStart, draggingEnd := st.draggingEnd,
               draggingPlayhead := st.draggingPlayhead) == st
      && (o.reported.Some? <==> st.draggingStart || st.draggingEnd)
      && (o.reported.Some? ==> o.reported.value == Window(st.startCut, st.endCut))
  {
  }

  /** A typed start is taken exactly when it reads as a time in
      `[0, endCut)`; then only the start changes and the new window is
      reported, otherwise nothing changes and nothing is reported. */
  lemma StartInputFacts(st: CutState, value: string)
    ensures var o := StartInputStep(st, value); var t := ParseTimeString(value);
      && (o.reported.Some? <==> t.Some? && 0.0 <= t.value < st.endCut)
      && (o.reported.Some? ==> o.st == st.(startCut := t.value)
                               && o.reported.value == Window(t.value, st.endCut))
      && (o.reported.None? ==> o.st == st)
  {
  }

  /** A typed end is taken exactly when it reads as a time in
      `(startCut, duration]`. */
  lemma EndInputFacts(st: CutState, value: string)
    ensures var o := EndInputStep(st, value); var t := ParseTimeString(value);
      && (o.reported.Some? <==> t.Some? && st.startCut < t.value <= st.duration)
      && (o.reported.Some? ==> o.st == st.(endCut := t.value)
                               && o.reported.value == Window(st.startCut, t.value))
      && (o.reported.None? ==> o.st == st)
  {
  }

  /** Typing the clock text of a time inside the window's bounds sets the
      start to that time truncated to milliseconds. */
  lemma TypedStartOfClockText(st: CutState, t: real)
    requires 0.0 <= t < st.endCut
    ensures StartInputStep(st, FormatClock(t)).st.startCut == TruncMillis(t)
  {
    ClockRoundTrip(t);
    TruncMillisBelow(t);
  }

  /** Arrow seeking moves the playhead by 0.5 s, or 5 s with Shift, and stops
      at the ends of the file; from inside the file it stays inside. */
  lemma SeekFacts(st: CutState, forward: bool, shift: bool)
    requires st.mediaReady
    ensures var r := SeekStep(st, forward, shift); var d := SeekDelta(shift);
      && r == st.(currentTime := r.currentTime)
      && (forward ==> r.currentTime == Min(st.duration, st.currentTime + d))
      && (!forward ==> r.currentTime == Max(0.0, st.currentTime - d))
      && (forward && st.currentTime + d <= st.duration ==> r.currentTime == st.currentTime + d)
      && (!forward && st.currentTime - d >= 0.0 ==> r.currentTime == st.currentTime - d)
      && (0.0 <= st.currentTime <= st.duration ==> 0.0 <= r.currentTime <= st.duration)
  {
  }

  // ---------------------------------------------------------------------
  // A well-spaced window

  /** The playhead is inside the file and the window keeps the gap inside
      `[0, duration]`. */
  predicate Spaced(st: CutState) {
    && 0.0 <= st.currentTime <= st.duration
    && 0.0 <= st.startCut && st.startCut + MinGap <= st.endCut <= st.duration
  }

  /** The handle buttons, the drags, the arrow keys and the shortcuts keep a
      well-spaced window well spaced. */
  lemma {:induction false} SpacedKept(st: CutState, x: real, width: real, grip: Grip,
                                      forward: bool, shift: bool, key: string, inInput: bool)
    requires Spaced(st) && width > 0.0
    ensures Spaced(SetStartStep(st).st)
    ensures Spaced(SetEndStep(st).st)
    ensures Spaced(StartDragStep(st, grip))
    ensures Spaced(MouseMoveStep(st, x, width))
    ensures Spaced(MouseUpStep(st).st)
    ensures Spaced(SeekStep(st, forward, shift))
    ensures Spaced(KeyStep(st, key, shift, inInput).st)
  {
    CursorTimeRange(x, width, st.duration);
  }

  /** Resetting gives a well-spaced window when the file is at least the gap
      long. */
  lemma ResetSpaced(st: CutState)
    requires 0.0 <= st.currentTime <= st.duration && st.duration >= MinGap
    ensures Spaced(ResetStep(st).st)
  {
  }

  /** Typed times keep the window ordered inside the file, but not the gap:
      a typed start may come as close to the end as it likes. */
  lemma TypedKeepsOrder(st: CutState, value: string)
    requires 0.0 <= st.startCut < st.endCut <= st.duration
    ensures var r := StartInputStep(st, value).st; 0.0 <= r.startCut < r.endCut <= r.duration
    ensures var r := EndInputStep(st, value).st; 0.0 <= r.startCut < r.endCut <= r.duration
  {
  }

  /** The typed start is not held to the 0.1 s gap: any text that reads as
      a time in `[0, endCut)` within 0.1 s of the end is taken as it is. */
  lemma TypedStartInsideGap(st: CutState, value: string)
    requires ParseTimeString(value).Some?
    requires 0.0 <= ParseTimeString(value).value < st.endCut
    requires st.endCut - MinGap < ParseTimeString(value).value
    ensures var r := StartInputStep(st, value).st;
      && r.startCut == ParseTimeString(value).value && r.endCut == st.endCut
      && r.startCut + MinGap > r.endCut
  {
  }

  /** An illustration that such a text exists: the clock text of 9.95 s
      (`0:09.950`), typed against an end of 10 s, is accepted. */
  lemma TypedStartBreaksGap()
    ensures var st := CutState(20.0, 0.0, 10.0, 0.0, false, false, false, true);
      var r := StartInputStep(st, FormatClock(9.95)).st;
      r.startCut == 9.95 && r.startCut + MinGap > r.endCut
  {
    ClockRoundTrip(9.95);
    assert (9.95 * 1000.0).Floor == 9950;
  }

  // ---------------------------------------------------------------------
  // The component as an object

  class CutEditor {
    var duration: real
    var startCut: real
    var endCut: real
    var currentTime: real
    var draggingStart: bool
    var draggingEnd: bool
    var draggingPlayhead: bool
    var mediaReady: bool

    function State(): CutState
      reads this
    {
      CutState(duration, startCut, endCut, currentTime, draggingStart, draggingEnd, draggingPlayhead, mediaReady)
    }

    /** The component showing `file`. */
    constructor (file: MediaFile, ready: bool)
      ensures State() == Opened(file, ready)
    {
      duration, startCut, endCut, currentTime := file.duration, file.startCut, file.endCut, file.startCut;
      draggingStart, draggingEnd, draggingPlayhead := false, false, false;
      mediaReady := ready;
    }

    /** The effect on `file.id`: a newly selected file brings its window and
        puts the playhead at its start. */
    method FileChanged(file: MediaFile)
      modifies this
      ensures State() == Opened(file, old(mediaReady)).(
        draggingStart := old(draggingStart), draggingEnd := old(draggingEnd),
        draggingPlayhead := old(draggingPlayhead))
    {
      duration := file.duration;
      startCut, endCut := file.startCut, file.endCut;
      currentTime := file.startCut;
    }

    method SetStart() returns (reported: Option<Window>)
      modifies this
      ensures State() == SetStartStep(old(State())).st
      ensures reported == SetStartStep(old(State())).reported
    {
      var newStart := Min(currentTime, endCut - MinGap);
      startCut := newStart;
      reported := Some(Window(newStart, endCut));
    }

    method SetEnd() returns (reported: Option<Window>)
      modifies this
      ensures State() == SetEndStep(old(State())).st
      ensures reported == SetEndStep(old(State())).reported
    {
      var newEnd := Max(currentTime, startCut + MinGap);
      endCut := newEnd;
      reported := Some(Window(startCut, newEnd));
    }

    method ResetCuts() returns (reported: Option<Window>)
      modifies this
      ensures State() == ResetStep(old(State())).st
      ensures reported == ResetStep(old(State())).reported
    {
      startCut := 0.0;
      endCut := duration;
      reported := Some(Window(0.0, duration));
    }

    method StartDrag(grip: Grip)
      modifies this
      ensures State() == StartDragStep(old(State()), grip)
    {
      match grip
      case StartGrip => draggingStart := true;
      case EndGrip => draggingEnd := true;
      case PlayheadGrip => draggingPlayhead := true;
    }

    method MouseMove(x: real, width: real)
      requires width > 0.0
      modifies this
      ensures State() == MouseMoveStep(old(State()), x, width)
    {
      if !draggingStart && !draggingEnd && !draggingPlayhead {
        return;
      }
      var percent := Max(0.0, Min(1.0, x / width));
      var time := percent * duration;
      if draggingStart {
        var newStart := Min(time, endCut - MinGap);
        startCut := Max(0.0, newStart);
      } else if draggingEnd {
        var newEnd := Max(time, startCut + MinGap);
        endCut := Min(duration, newEnd);
      } else if draggingPlayhead {
        if mediaReady {
          currentTime := time;
        }
      }
    }

    method MouseUp() returns (reported: Option<Window>)
      modifies this
      ensures State() == MouseUpStep(old(State())).st
      ensures reported == MouseUpStep(old(State())).reported
    {
      reported := None;
      if draggingStart || draggingEnd {
        reported := Some(Window(startCut, endCut));
      }
      draggingStart, draggingEnd, draggingPlayhead := false, false, false;
    }

    method StartInputChange(value: string) returns (reported: Option<Window>)
      modifies this
      ensures State() == StartInputStep(old(State()), value).st
      ensures reported == StartInputStep(old(State()), value).reported
    {
      reported := None;
      var time := ParseTimeString(value);
      if time.Some? && time.value >= 0.0 && time.value < endCut {
        startCut := time.value;
        reported := Some(Window(time.value, endCut));
      }
    }

    method EndInputChange(value: string) returns (reported: Option<Window>)
      modifies this
      ensures State() == EndInputStep(old(State()), value).st
      ensures reported == EndInputStep(old(State()), value).reported
    {
      reported := None;
      var time := ParseTimeString(value);
      if time.Some? && time.value > startCut && time.value <= duration {
        endCut := time.value;
        reported := Some(Window(startCut, time.value));
      }
    }

    method KeyDown(key: string, shift: bool, inInput: bool) returns (reported: Option<Window>)
      modifies this
      ensures State() == KeyStep(old(State()), key, shift, inInput).st
      ensures reported == KeyStep(old(State()), key, shift, inInput).reported
    {
      reported := None;
      if inInput {
        return;
      }
      if key == "i" {
        reported := SetStart();
      } else if key == "o" {
        reported := SetEnd();
      } else if key == "ArrowLeft" || key == "ArrowRight" {
        var delta := if shift then 5.0 else 0.5;
        var newTime := if key == "ArrowLeft" then Max(0.0, currentTime - delta)
                       else Min(duration, currentTime + delta);
        if mediaReady {
          currentTime := newTime;
        }
      }
    }
  }
}
