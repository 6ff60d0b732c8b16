/** The file list panel: dragging a file to a new place in the merge order,
    and the texts it shows for a file's size. */
module FileReorder {
  import opened Wrappers
  import opened Text
  import opened Media

  /** The key the list is sorted by. */
  function OrderKey(f: MediaFile): real {
    f.order as real
  }

  /** `[...files].sort((a, b) => a.order - b.order)` */
  function SortByOrder(files: seq<MediaFile>): (r: seq<MediaFile>)
    ensures |r| == |files| && multiset(r) == multiset(files)
    ensures SortedBy(r, OrderKey)
  {
    SortByFacts(files, OrderKey, 0.0);
    SortBy(files, OrderKey)
  }

  /** `s` without its element at index `i`. */
  function RemoveAt<T>(s: seq<T>, i: nat): seq<T>
    requires i < |s|
  {
    s[..i] + s[i + 1..]
  }

  /** `splice(from, 1)` followed by `splice(to, 0, moved)`. */
  function Move<T>(s: seq<T>, from: nat, to: nat): seq<T>
    requires from < |s| && to < |s|
  {
    var rest := RemoveAt(s, from);
    rest[..to] + [s[from]] + rest[to..]
  }

  /** Where each element of a moved list comes from. */
  lemma MoveIndex<T>(s: seq<T>, from: nat, to: nat)
    requires from < |s| && to < |s|
    ensures |Move(s, from, to)| == |s|
    ensures Move(s, from, to)[to] == s[from]
    ensures forall k | 0 <= k < to && k < from :: Move(s, from, to)[k] == s[k]
    ensures forall k | from <= k < to :: Move(s, from, to)[k] == s[k + 1]
    ensures forall k | to < k <= from :: Move(s, from, to)[k] == s[k - 1]
    ensures forall k | to < k < |s| && from < k :: Move(s, from, to)[k] == s[k]
  {
  }

  /** The moved list is a permutation of the list: same length, same
      elements with the same multiplicities. */
  lemma MovePermutes<T>(s: seq<T>, from: nat, to: nat)
    requires from < |s| && to < |s|
    ensures |Move(s, from, to)| == |s|
    ensures multiset(Move(s, from, to)) == multiset(s)
  {
    var rest := RemoveAt(s, from);
    assert s == s[..from] + [s[from]] + s[from + 1..];
    assert rest == rest[..to] + rest[to..];
    calc {
      multiset(Move(s, from, to));
      multiset(rest[..to]) + multiset{s[from]} + multiset(rest[to..]);
      multiset(rest) + multiset{s[from]};
      multiset(s[..from]) + multiset(s[from + 1..]) + multiset{s[from]};
      multiset(s);
    }
  }

  /** The dragged element lands at the drop index, and removing it from
      both lists leaves the same sequence: every other element keeps its
      relative order. */
  lemma MoveKeepsOthers<T>(s: seq<T>, from: nat, to: nat)
    requires from < |s| && to < |s|
    ensures Move(s, from, to)[to] == s[from]
    ensures RemoveAt(Move(s, from, to), to) == RemoveAt(s, from)
  {
    var rest := RemoveAt(s, from);
    var m := Move(s, from, to);
    assert m[..to] == rest[..to];
    assert m[to + 1..] == rest[to..];
  }

  /** Moving back from the drop index to the drag index restores the list. */
  lemma MoveBack<T>(s: seq<T>, from: nat, to: nat)
    requires from < |s| && to < |s|
    ensures Move(Move(s, from, to), to, from) == s
  {
    MoveKeepsOthers(s, from, to);
    var m := Move(s, from, to);
    var rest := RemoveAt(s, from);
    assert RemoveAt(m, to) == rest;
    assert Move(m, to, from) == rest[..from] + [s[from]] + rest[from..];
    assert rest[..from] == s[..from];
    assert rest[from..] == s[from + 1..];
  }

  /** `list.map((f, idx) => ({ ...f, order: idx }))` */
  function Renumber(files: seq<MediaFile>): seq<MediaFile> {
    seq(|files|, i requires 0 <= i < |files| => files[i].(order := i))
  }

  /** After renumbering, `order` is the list position and nothing else changed. */
  lemma RenumberFacts(files: seq<MediaFile>)
    ensures |Renumber(files)| == |files|
    ensures forall i | 0 <= i < |files| :: Renumber(files)[i].order == i
    ensures forall i | 0 <= i < |files| :: Renumber(files)[i].(order := files[i].order) == files[i]
    ensures SortedBy(Renumber(files), OrderKey)
  {
  }

  /** What a drop on the list asks the application to do. */
  datatype DropEvent =
    | NoEvent
    | AddFiles(paths: seq<string>)
    | ReorderFiles(files: seq<MediaFile>)

  /** The event a drop at `dropIndex` produces: an external drop of at least
      one path adds files; an internal drop onto another row reorders. */
  function DropOutcome(files: seq<MediaFile>, dragged: Option<nat>, dropIndex: nat, dropped: seq<string>): DropEvent
    requires dragged.Some? && dragged.value != dropIndex ==> dragged.value < |files| && dropIndex < |files|
  {
    match dragged
    case None => if |dropped| > 0 then AddFiles(dropped) else NoEvent
    case Some(d) =>
      if d == dropIndex then NoEvent
      else ReorderFiles(Renumber(Move(SortByOrder(files), d, dropIndex)))
  }

  /** A drop onto the dragged row itself emits nothing; an external drop
      emits exactly the dropped paths, when there are any. */
  lemma DropOutcomeQuiet(files: seq<MediaFile>, dragged: Option<nat>, dropIndex: nat, dropped: seq<string>)
    requires dragged.Some? && dragged.value != dropIndex ==> dragged.value < |files| && dropIndex < |files|
    ensures dragged == Some(dropIndex) ==> DropOutcome(files, dragged, dropIndex, dropped) == NoEvent
    ensures dragged.None? ==>
      (DropOutcome(files, dragged, dropIndex, dropped).AddFiles? <==> |dropped| > 0)
    ensures DropOutcome(files, dragged, dropIndex, dropped).AddFiles? ==>
      DropOutcome(files, dragged, dropIndex, dropped).paths == dropped
    ensures DropOutcome(files, dragged, dropIndex, dropped).ReorderFiles? <==>
      dragged.Some? && dragged.value != dropIndex
  {
  }

  /** The list container's own `onDrop`: it adds the dropped paths, when
      there are any. A drop onto a row reaches it as well, because the row's
      handler does not stop the event from propagating. */
  function ContainerDrop(dropped: seq<string>): DropEvent {
    if |dropped| > 0 then AddFiles(dropped) else NoEvent
  }

  /** The event as a list of what was actually emitted. */
  function Emitted(event: DropEvent): seq<DropEvent> {
    if event.NoEvent? then [] else [event]
  }

  /** The events a drop onto row `dropIndex` emits, in order: the row's
      handler first, then the container's as the event bubbles up. */
  function RowDropEvents(files: seq<MediaFile>, dragged: Option<nat>, dropIndex: nat, dropped: seq<string>): seq<DropEvent>
    requires dragged.Some? && dragged.value != dropIndex ==> dragged.value < |files| && dropIndex < |files|
  {
    Emitted(DropOutcome(files, dragged, dropIndex, dropped)) + Emitted(ContainerDrop(dropped))
  }

  /** An external drop onto a row asks for the same paths to be added twice;
      an internal drag, which carries no files, emits at most the reorder; a
      drop on the container outside the rows emits only the container's
      event; and the container's event, when there is one, comes last. */
  lemma RowDropFacts(files: seq<MediaFile>, dragged: Option<nat>, dropIndex: nat, dropped: seq<string>)
    requires dragged.Some? && dragged.value != dropIndex ==> dragged.value < |files| && dropIndex < |files|
    ensures var events := RowDropEvents(files, dragged, dropIndex, dropped);
      && |events| <= 2
      && (forall k | 0 <= k < |events| :: !events[k].NoEvent?)
      && (dragged.None? && |dropped| > 0 ==> events == [AddFiles(dropped), AddFiles(dropped)])
      && (dragged.None? && dropped == [] ==> events == [])
      && (dragged.Some? && dropped == [] ==>
            (events != [] <==> dragged.value != dropIndex)
            && forall k | 0 <= k < |events| :: events[k].ReorderFiles?)
      && (|dropped| > 0 ==> events[|events| - 1] == AddFiles(dropped))
    ensures ContainerDrop(dropped).NoEvent? <==> dropped == []
    ensures ContainerDrop(dropped).AddFiles? ==> ContainerDrop(dropped).paths == dropped
  {
  }

  /** The reordered list holds the same files (up to their `order`), the
      dragged file of the sorted list sits at the drop index, the others keep
      their relative order, and `order` is renumbered to the positions. */
  lemma ReorderFacts(files: seq<MediaFile>, d: nat, dropIndex: nat)
    requires d < |files| && dropIndex < |files| && d != dropIndex
    ensures var sorted := SortByOrder(files);
      var r := DropOutcome(files, Some(d), dropIndex, []).files;
      && |r| == |files|
      && (forall i | 0 <= i < |r| :: r[i].order == i)
      && r[dropIndex] == sorted[d].(order := dropIndex)
      && (forall i | 0 <= i < |r| :: r[i].(order := Move(sorted, d, dropIndex)[i].order) == Move(sorted, d, dropIndex)[i])
      && RemoveAt(Move(sorted, d, dropIndex), dropIndex) == RemoveAt(sorted, d)
      && multiset(Move(sorted, d, dropIndex)) == multiset(files)
  {
    var sorted := SortByOrder(files);
    SortByFacts(files, OrderKey, 0.0);
    MovePermutes(sorted, d, dropIndex);
    MoveKeepsOthers(sorted, d, dropIndex);
    RenumberFacts(Move(sorted, d, dropIndex));
  }

  /** The ids of the reordered list are those of the input, with the same
      multiplicities. */
  lemma ReorderKeepsIds(files: seq<MediaFile>, d: nat, dropIndex: nat)
    requires d < |files| && dropIndex < |files| && d != dropIndex
    ensures var r := DropOutcome(files, Some(d), dropIndex, []).files;
      multiset(Ids(r)) == multiset(Ids(files))
  {
    var sorted := SortByOrder(files);
    var m := Move(sorted, d, dropIndex);
    ReorderFacts(files, d, dropIndex);
    RenumberFacts(m);
    assert Ids(Renumber(m)) == Ids(m);
    IdsMultiset(m, files);
  }

  /** The ids of a list of files, in order. */
  function Ids(files: seq<MediaFile>): (r: seq<string>)
    ensures |r| == |files|
    ensures forall i | 0 <= i < |files| :: r[i] == files[i].id
  {
    seq(|files|, i requires 0 <= i < |files| => files[i].id)
  }

  lemma IdsConcat(p: seq<MediaFile>, q: seq<MediaFile>)
    ensures Ids(p + q) == Ids(p) + Ids(q)
  {
  }

  /** Lists that are permutations of each other have permuted id lists. */
  lemma {:induction false} IdsMultiset(a: seq<MediaFile>, b: seq<MediaFile>)
    requires multiset(a) == multiset(b)
    ensures multiset(Ids(a)) == multiset(Ids(b))
    decreases |a|
  {
    if a != [] {
      var x := a[0];
      assert x in multiset(b);
      var j :| 0 <= j < |b| && b[j] == x;
      var a' := a[1..];
      var b' := RemoveAt(b, j);
      assert a == [x] + a';
      assert b == b[..j] + [x] + b[j + 1..];
      assert multiset(a) == multiset{x} + multiset(a');
      assert multiset(b) == multiset(b[..j]) + multiset{x} + multiset(b[j + 1..]);
      assert multiset(b') == multiset(b[..j]) + multiset(b[j + 1..]);
      calc {
        multiset(a');
        multiset(a) - multiset{x};
        multiset(b) - multiset{x};
        multiset(b');
      }
      IdsMultiset(a', b');
      IdsConcat([x], a');
      IdsConcat(b[..j] + [x], b[j + 1..]);
      IdsConcat(b[..j], [x]);
      IdsConcat(b[..j], b[j + 1..]);
    } else {
      assert b == [] by { assert |multiset(b)| == 0; }
    }
  }

  /** `splice(from, 1)` then `splice(to, 0, moved)` on an array, in place:
      the elements between the two indices shift by one. */
  method MoveWithin<T>(a: array<T>, from: nat, to: nat)
    requires from < a.Length && to < a.Length
    modifies a
    ensures a[..] == Move(old(a[..]), from, to)
  {
    ghost var s := a[..];
    var moved := a[from];
    if from < to {
      var i := from;
      while i < to
        invariant from <= i <= to && |s| == a.Length
        invariant forall k | 0 <= k < from :: a[k] == s[k]
        invariant forall k | from <= k < i :: a[k] == s[k + 1]
        invariant forall k | i <= k < a.Length :: a[k] == s[k]
      {
        a[i] := a[i + 1];
        i := i + 1;
      }
    } else {
      var i := from;
      while i > to
        invariant to <= i <= from && |s| == a.Length
        invariant forall k | 0 <= k <= i :: a[k] == s[k]
        invariant forall k | i < k <= from :: a[k] == s[k - 1]
        invariant forall k | from < k < a.Length :: a[k] == s[k]
      {
        a[i] := a[i - 1];
        i := i - 1;
      }
    }
    a[to] := moved;
    MoveIndex(s, from, to);
    assert a[..] == Move(s, from, to) by {
      forall k | 0 <= k < a.Length ensures a[k] == Move(s, from, to)[k] {
        if k == to {
        } else if k < to && k < from {
        } else if k < to {
        } else if k <= from {
        }
      }
    }
  }

  /** The drag state of the list: the row being dragged and the row under
      the cursor. */
  class FileListDrag {
    var draggedIndex: Option<nat>
    var dragOverIndex: Option<nat>

    constructor ()
      ensures draggedIndex.None? && dragOverIndex.None?
    {
      draggedIndex, dragOverIndex := None, None;
    }

    /** `handleDragStart` */
    method DragStart(index: nat)
      modifies this
      ensures draggedIndex == Some(index) && dragOverIndex == old(dragOverIndex)
    {
      draggedIndex := Some(index);
    }

    /** `handleDragOver` */
    method DragOver(index: nat)
      modifies this
      ensures dragOverIndex == Some(index) && draggedIndex == old(draggedIndex)
    {
      dragOverIndex := Some(index);
    }

    /** A drop on row `dropIndex` of the rendered (sorted) list of `files`,
        with the paths of any files dragged in from outside: `handleDrop`,
        then the container's handler the event bubbles up to. */
    method Drop(files: seq<MediaFile>, dropIndex: nat, dropped: seq<string>) returns (events: seq<DropEvent>)
      requires draggedIndex.Some? && draggedIndex.value != dropIndex ==>
        draggedIndex.value < |files| && dropIndex < |files|
      modifies this
      ensures events == RowDropEvents(files, old(draggedIndex), dropIndex, dropped)
      ensures draggedIndex.None? && dragOverIndex.None?
    {
      var event := NoEvent;
      match draggedIndex {
        case None =>
          if |dropped| > 0 {
            event := AddFiles(dropped);
          }
        case Some(d) =>
          if d != dropIndex {
            var sorted := SortByOrder(files);
            var buffer := new MediaFile[|sorted|](i requires 0 <= i < |sorted| => sorted[i]);
            assert buffer[..] == sorted;
            MoveWithin(buffer, d, dropIndex);
            event := ReorderFiles(Renumber(buffer[..]));
          }
      }
      draggedIndex, dragOverIndex := None, None;
      events := Emitted(event) + Emitted(ContainerDrop(dropped));
    }

    /** `handleDragEnd` */
    method DragEnd()
      modifies this
      ensures draggedIndex.None? && dragOverIndex.None?
    {
      draggedIndex, dragOverIndex := None, None;
    }
  }

  /** The byte branch of `formatFileSize`: a size below 1024 is written as
      `"<n> B"`; larger sizes are written in KB, MB or GB (`None` here).
      The contract only says which branch is taken; `FileSizeTextBytes`
      states what the text reads. */
  function FileSizeText(bytes: int): (r: Option<string>)
    ensures r.Some? <==> bytes < 1024
  {
    if bytes < 1024 then Some(IntToString(bytes) + " B") else None
  }

  /** The byte text of a size below 1024 is its decimal numeral and " B". */
  lemma FileSizeTextBytes(bytes: nat)
    requires bytes < 1024
    ensures FileSizeText(bytes).Some?
    ensures var t := FileSizeText(bytes).value;
      && 3 <= |t| <= 6
      && t[|t| - 2..] == " B"
      && AllDigits(t[..|t| - 2])
      && DigitsValue(t[..|t| - 2]) == bytes
  {
    var t := FileSizeText(bytes).value;
    assert t[..|t| - 2] == NatToString(bytes);
    NatToStringValue(bytes);
    NatToStringShort(bytes);
    if bytes >= 1000 {
      NatToStringShort(bytes / 10);
      assert NatToString(bytes) == NatToString(bytes / 10) + [DigitChar(bytes % 10)];
    }
  }
}
