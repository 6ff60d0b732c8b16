/** The editing session of the application window: the imported files with
    their cut windows and merge order, the selected file, the undo and redo
    stacks of cut and reorder edits, and the recent-projects list.

    The per-file edits and the handlers are pure functions over a `Session`
    value; the class `Editor` holds the same state in fields and its methods,
    one per handler, are proved to perform exactly those steps. Every handler
    is one atomic step on the latest state. */
module EditHistory {
  import opened Wrappers
  import opened Media

  // ---------------------------------------------------------------------
  // Per-file edits

  /** `files.map(f => f.id === id ? { ...f, startCut, endCut } : f)` */
  function SetCut(files: seq<MediaFile>, id: string, startCut: real, endCut: real): seq<MediaFile> {
    seq(|files|, i requires 0 <= i < |files| =>
      if files[i].id == id then files[i].(startCut := startCut, endCut := endCut) else files[i])
  }

  /** Every file with this id has the cut window `[s, e]`. */
  predicate CutsAgree(files: seq<MediaFile>, id: string, s: real, e: real) {
    forall i | 0 <= i < |files| :: files[i].id == id ==> files[i].startCut == s && files[i].endCut == e
  }

  /** Setting a window changes the cut fields of the files with that id and
      nothing else. */
  lemma SetCutEffect(files: seq<MediaFile>, id: string, s: real, e: real)
    ensures |SetCut(files, id, s, e)| == |files|
    ensures CutsAgree(SetCut(files, id, s, e), id, s, e)
    ensures forall i | 0 <= i < |files| ::
      SetCut(files, id, s, e)[i].(startCut := files[i].startCut, endCut := files[i].endCut) == files[i]
    ensures forall i | 0 <= i < |files| && files[i].id != id :: SetCut(files, id, s, e)[i] == files[i]
  {
  }

  /** Writing back the window the files already agree on undoes a cut. */
  lemma SetCutRestore(files: seq<MediaFile>, id: string, s0: real, e0: real, s: real, e: real)
    requires CutsAgree(files, id, s0, e0)
    ensures SetCut(SetCut(files, id, s, e), id, s0, e0) == files
  {
  }

  /** `files.find(f => f.id === id)`: the first file with that id. */
  function Find(files: seq<MediaFile>, id: string): (r: Option<MediaFile>)
    ensures r.None? <==> forall i | 0 <= i < |files| :: files[i].id != id
    ensures r.Some? ==> exists i | 0 <= i < |files| ::
      files[i] == r.value && files[i].id == id && forall j | 0 <= j < i :: files[j].id != id
  {
    if files == [] then None
    else if files[0].id == id then Some(files[0])
    else
      var r := Find(files[1..], id);
      assert r.Some? ==> exists i | 1 <= i < |files| ::
        files[i] == r.value && files[i].id == id && forall j | 0 <= j < i :: files[j].id != id by {
        if r.Some? {
          var k :| 0 <= k < |files[1..]| && files[1..][k] == r.value && files[1..][k].id == id
                   && forall j | 0 <= j < k :: files[1..][j].id != id;
          assert files[k + 1] == r.value;
          assert forall j | 0 <= j < k + 1 :: files[j].id != id by {
            forall j | 0 <= j < k + 1 ensures files[j].id != id {
              if j > 0 { assert files[j] == files[1..][j - 1]; }
            }
          }
        }
      }
      r
  }

  /** After a cut change the first file with the id is the one it was, with
      the new window. */
  lemma {:induction false} FindSetCut(files: seq<MediaFile>, id: string, s: real, e: real)
    ensures Find(SetCut(files, id, s, e), id)
         == if Find(files, id).Some? then Some(Find(files, id).value.(startCut := s, endCut := e)) else None
  {
    if files != [] {
      assert SetCut(files, id, s, e)[1..] == SetCut(files[1..], id, s, e);
      FindSetCut(files[1..], id, s, e);
    }
  }

  /** `files.filter(f => f.id !== id)` */
  function Without(files: seq<MediaFile>, id: string): (r: seq<MediaFile>)
    ensures forall i | 0 <= i < |r| :: r[i].id != id
    ensures forall f | f in files && f.id != id :: f in r
    ensures forall f | f in r :: f in files
  {
    if files == [] then []
    else if files[0].id == id then Without(files[1..], id)
    else [files[0]] + Without(files[1..], id)
  }

  /** Removing an id that is absent changes nothing; otherwise the list gets shorter. */
  lemma {:induction false} WithoutLength(files: seq<MediaFile>, id: string)
    ensures (forall i | 0 <= i < |files| :: files[i].id != id) <==> Without(files, id) == files
    ensures |Without(files, id)| <= |files|
  {
    if files != [] {
      WithoutLength(files[1..], id);
      assert files == [files[0]] + files[1..];
      if files[0].id == id {
        assert Without(files, id) != files by {
          assert |Without(files, id)| < |files|;
        }
      }
    }
  }

  /** `list.filter(p => p !== x)` */
  function Omit(list: seq<string>, x: string): (r: seq<string>)
    ensures x !in r
    ensures forall p | p in list && p != x :: p in r
    ensures forall p | p in r :: p in list
  {
    if list == [] then []
    else if list[0] == x then Omit(list[1..], x)
    else [list[0]] + Omit(list[1..], x)
  }

  /** `[saved, ...recent.filter(p => p !== saved)].slice(0, 10)` */
  function RecentAfterSave(recent: seq<string>, saved: string): seq<string> {
    var all := [saved] + Omit(recent, saved);
    if |all| <= 10 then all else all[..10]
  }

  /** The recent-projects list after a save starts with the saved path, holds
      it once, keeps the other entries in their order, and has at most ten
      entries. */
  lemma RecentAfterSaveFacts(recent: seq<string>, saved: string)
    ensures var r := RecentAfterSave(recent, saved);
      && 1 <= |r| <= 10
      && r[0] == saved
      && saved !in r[1..]
      && r[1..] == Omit(recent, saved)[..|r| - 1]
      && |r| == if 1 + |Omit(recent, saved)| <= 10 then 1 + |Omit(recent, saved)| else 10
  {
    var all := [saved] + Omit(recent, saved);
    assert all[1..] == Omit(recent, saved);
    if |all| > 10 {
      assert all[..10][1..] == Omit(recent, saved)[..9];
      assert forall p | p in Omit(recent, saved)[..9] :: p in Omit(recent, saved);
    }
  }

  /** The base name `path.split(/[\\/]/).pop() || ''`: what follows the last
      `/` or `\`. */
  function BaseName(path: string): string {
    if path == [] || IsSeparator(path[|path| - 1]) then []
    else BaseName(path[..|path| - 1]) + [path[|path| - 1]]
  }

  /** The base name is the longest suffix of the path free of `/` and `\`. */
  lemma {:induction false} BaseNameFacts(path: string)
    ensures NoSeparator(BaseName(path))
    ensures |BaseName(path)| <= |path| && path[|path| - |BaseName(path)|..] == BaseName(path)
    ensures |BaseName(path)| < |path| ==> IsSeparator(path[|path| - |BaseName(path)| - 1])
  {
    if path == [] || IsSeparator(path[|path| - 1]) {
      assert BaseName(path) == [];
    } else {
      var pre := path[..|path| - 1];
      BaseNameFacts(pre);
      var n := BaseName(pre);
      assert BaseName(path) == n + [path[|path| - 1]];
      SeparatorFreeSuffixStep(path, n);
    }
  }

  /** `/` or `\`, the characters `split(/[\\/]/)` splits at. */
  predicate IsSeparator(c: char) {
    c == '/' || c == '\\'
  }

  /** No character of `s` is a separator. */
  predicate NoSeparator(s: string) {
    forall i | 0 <= i < |s| :: !IsSeparator(s[i])
  }

  /** Extending a separator-free suffix of the path minus its last character
      by that character, when it is no separator, gives one of the path. */
  lemma SeparatorFreeSuffixStep(path: string, n: string)
    requires path != [] && !IsSeparator(path[|path| - 1])
    requires NoSeparator(n)
    requires |n| < |path| && path[..|path| - 1][|path| - 1 - |n|..] == n
    requires |n| < |path| - 1 ==> IsSeparator(path[..|path| - 1][|path| - 2 - |n|])
    ensures NoSeparator(n + [path[|path| - 1]])
    ensures path[|path| - |n| - 1..] == n + [path[|path| - 1]]
    ensures |n| + 1 < |path| ==> IsSeparator(path[|path| - |n| - 2])
  {
    var name := n + [path[|path| - 1]];
    forall i | 0 <= i < |name|
      ensures !IsSeparator(name[i])
    {
      if i < |n| {
        assert name[i] == n[i];
      }
    }
    assert path[|path| - |n| - 1..] == path[..|path| - 1][|path| - 1 - |n|..] + [path[|path| - 1]];
  }

  /** The largest `order` among the files (`Math.max(...files.map(f => f.order))`). */
  function MaxOrder(files: seq<MediaFile>): (m: int)
    requires files != []
    ensures forall i | 0 <= i < |files| :: files[i].order <= m
    ensures exists i | 0 <= i < |files| :: files[i].order == m
  {
    if |files| == 1 then files[0].order
    else
      var rest := MaxOrder(files[1..]);
      assert forall i | 1 <= i < |files| :: files[i].order <= rest by {
        forall i | 1 <= i < |files| ensures files[i].order <= rest {
          assert files[i] == files[1..][i - 1];
        }
      }
      assert exists i | 1 <= i < |files| :: files[i].order == rest by {
        var k :| 0 <= k < |files[1..]| && files[1..][k].order == rest;
        assert files[k + 1].order == rest;
      }
      if files[0].order >= rest then files[0].order else rest
  }

  /** The order base for new files: the largest order, or -1 for an empty list. */
  function OrderBase(files: seq<MediaFile>): int {
    if |files| > 0 then MaxOrder(files) else -1
  }

  /** The file record built for a probed path: the whole file is selected. */
  function FileFromProbe(path: string, id: string, info: MediaInfo, order: int): MediaFile {
    MediaFile(id, path, BaseName(path), info.duration, info.codec, info.videoCodec,
              info.audioCodec, info.width, info.height, info.frameRate, info.size,
              0.0, info.duration, order)
  }

  /** The file a probe outcome yields, as a list of zero or one file. */
  function FileIfProbed(path: string, probe: ProbeOutcome, id: string, order: int): seq<MediaFile> {
    match probe
    case Probed(info) => [FileFromProbe(path, id, info, order)]
    case ProbeFailed => []
  }

  /** The files made from the paths whose probe succeeded; the path at index
      `i` gets order `base + i + 1`. */
  function NewFiles(paths: seq<string>, probes: seq<ProbeOutcome>, ids: seq<string>, base: int): seq<MediaFile>
    requires |probes| == |paths| && |ids| == |paths|
  {
    if paths == [] then []
    else
      var i := |paths| - 1;
      NewFiles(paths[..i], probes[..i], ids[..i], base) + FileIfProbed(paths[i], probes[i], ids[i], base + i + 1)
  }

  /** The paths whose probe failed, in order. */
  function FailedPaths(paths: seq<string>, probes: seq<ProbeOutcome>): seq<string>
    requires |probes| == |paths|
  {
    if paths == [] then []
    else
      var i := |paths| - 1;
      FailedPaths(paths[..i], probes[..i]) + if probes[i].ProbeFailed? then [paths[i]] else []
  }

  /** Probing one more path extends the new files and the failed paths by
      what that path yields. */
  lemma ProbeOneMore(paths: seq<string>, probes: seq<ProbeOutcome>, ids: seq<string>, base: int, i: nat)
    requires |probes| == |paths| && |ids| == |paths| && i < |paths|
    ensures NewFiles(paths[..i + 1], probes[..i + 1], ids[..i + 1], base)
      == NewFiles(paths[..i], probes[..i], ids[..i], base) + FileIfProbed(paths[i], probes[i], ids[i], base + i + 1)
    ensures FailedPaths(paths[..i + 1], probes[..i + 1])
      == FailedPaths(paths[..i], probes[..i]) + if probes[i].ProbeFailed? then [paths[i]] else []
  {
    assert paths[..i + 1][..i] == paths[..i];
    assert probes[..i + 1][..i] == probes[..i];
    assert ids[..i + 1][..i] == ids[..i];
  }

  /** `f` is the record made from the path whose index its order encodes,
      and that path's probe succeeded. */
  predicate MadeFrom(f: MediaFile, paths: seq<string>, probes: seq<ProbeOutcome>, ids: seq<string>, base: int)
    requires |probes| == |paths| && |ids| == |paths|
  {
    var i := f.order - base - 1;
    0 <= i < |paths| && probes[i].Probed? && f == FileFromProbe(paths[i], ids[i], probes[i].info, f.order)
  }

  /** Every new file comes from a successful probe of its path (so its cut
      window is the whole file), and the orders grow with the position of the
      path and lie in `(base, base + |paths|]`. */
  lemma {:induction false} NewFilesFacts(paths: seq<string>, probes: seq<ProbeOutcome>, ids: seq<string>, base: int)
    requires |probes| == |paths| && |ids| == |paths|
    ensures var nf := NewFiles(paths, probes, ids, base);
      && |nf| <= |paths|
      && (forall k | 0 <= k < |nf| :: MadeFrom(nf[k], paths, probes, ids, base))
      && (forall k | 0 <= k < |nf| :: base < nf[k].order <= base + |paths|)
      && (forall k, l | 0 <= k < l < |nf| :: nf[k].order < nf[l].order)
  {
    if paths != [] {
      var i := |paths| - 1;
      var pre := NewFiles(paths[..i], probes[..i], ids[..i], base);
      var last := FileIfProbed(paths[i], probes[i], ids[i], base + i + 1);
      NewFilesFacts(paths[..i], probes[..i], ids[..i], base);
      var nf := pre + last;
      forall k | 0 <= k < |nf|
        ensures MadeFrom(nf[k], paths, probes, ids, base)
        ensures base < nf[k].order <= base + |paths|
      {
        if k < |pre| {
          assert MadeFrom(pre[k], paths[..i], probes[..i], ids[..i], base);
          assert nf[k] == pre[k];
        } else {
          assert nf[k] == last[0];
        }
      }
      forall k, l | 0 <= k < l < |nf| ensures nf[k].order < nf[l].order {
        if l >= |pre| {
          assert nf[k] == pre[k] && nf[l] == last[0];
        } else {
          assert nf[k] == pre[k] && nf[l] == pre[l];
        }
      }
    }
  }

  /** Every file made from a successful probe has the whole file as its window. */
  lemma NewFilesWindow(paths: seq<string>, probes: seq<ProbeOutcome>, ids: seq<string>, base: int)
    requires |probes| == |paths| && |ids| == |paths|
    ensures forall k | 0 <= k < |NewFiles(paths, probes, ids, base)| ::
      NewFiles(paths, probes, ids, base)[k].startCut == 0.0
      && NewFiles(paths, probes, ids, base)[k].endCut == NewFiles(paths, probes, ids, base)[k].duration
  {
    NewFilesFacts(paths, probes, ids, base);
  }

  /** Every added file's order exceeds every existing file's order; added
      to an empty list, the files get orders from 0 up to `|paths| - 1`. */
  lemma NewOrdersExceedExisting(files: seq<MediaFile>, paths: seq<string>, probes: seq<ProbeOutcome>, ids: seq<string>)
    requires |probes| == |paths| && |ids| == |paths|
    ensures forall k, j | 0 <= k < |NewFiles(paths, probes, ids, OrderBase(files))| && 0 <= j < |files| ::
      files[j].order < NewFiles(paths, probes, ids, OrderBase(files))[k].order
    ensures files == [] ==> forall k | 0 <= k < |NewFiles(paths, probes, ids, OrderBase(files))| ::
      0 <= NewFiles(paths, probes, ids, OrderBase(files))[k].order < |paths|
  {
    NewFilesFacts(paths, probes, ids, OrderBase(files));
  }

  // ---------------------------------------------------------------------
  // The session and its handlers

  datatype Session = Session(
    files: seq<MediaFile>,
    selected: Option<MediaFile>,
    undoStack: seq<UndoState>,
    redoStack: seq<UndoState>)

  /** `pushUndo`: one entry on top of the undo stack; the redo stack is emptied. */
  function PushUndo(st: Session, entry: UndoState): (r: Session)
    ensures |r.undoStack| == |st.undoStack| + 1
    ensures r.undoStack[..|st.undoStack|] == st.undoStack && r.undoStack[|st.undoStack|] == entry
    ensures r.redoStack == [] && r.files == st.files && r.selected == st.selected
  {
    st.(undoStack := st.undoStack + [entry], redoStack := [])
  }

  /** `handleFileSelect` */
  function SelectStep(st: Session, file: MediaFile): Session {
    st.(selected := Some(file))
  }

  /** The selection after the files with `id` got the window `[s, e]`. */
  function SelectionWithCut(selected: Option<MediaFile>, id: string, s: real, e: real): Option<MediaFile> {
    if selected.Some? && selected.value.id == id
    then Some(selected.value.(startCut := s, endCut := e))
    else selected
  }

  /** `handleCutChange`: records the selected file's previous window, then
      gives every file with its id the new window. */
  function CutChangeStep(st: Session, startCut: real, endCut: real): Session {
    match st.selected
    case None => st
    case Some(sel) =>
      var pushed := PushUndo(st, CutEntry(sel.id, sel.startCut, sel.endCut));
      pushed.(files := SetCut(st.files, sel.id, startCut, endCut),
              selected := Some(sel.(startCut := startCut, endCut := endCut)))
  }

  /** `handleFilesReorder`: records the current list, then installs the new one. */
  function ReorderStep(st: Session, reordered: seq<MediaFile>): Session {
    PushUndo(st, ReorderEntry(st.files)).(files := reordered)
  }

  /** `handleFileRemove` */
  function RemoveStep(st: Session, id: string): Session {
    var remaining := Without(st.files, id);
    st.(files := remaining,
        selected := if st.selected.Some? && st.selected.value.id == id
                    then (if remaining == [] then None else Some(remaining[0]))
                    else st.selected)
  }

  /** `handleFilesAdded` once every path has been probed. */
  function AddStep(st: Session, paths: seq<string>, probes: seq<ProbeOutcome>, ids: seq<string>): Session
    requires |probes| == |paths| && |ids| == |paths|
  {
    var added := NewFiles(paths, probes, ids, OrderBase(st.files));
    if added == [] then st
    else st.(files := st.files + added,
             selected := if st.selected.None? then Some(added[0]) else st.selected)
  }

  /** What applying a stack entry produces: the new files and selection, and
      the entry that leads back, for the other stack. */
  datatype Applied = Applied(files: seq<MediaFile>, selected: Option<MediaFile>, inverse: UndoState)

  /** Applies an undo or redo entry to the files and selection. A cut entry
      whose file id is empty or no longer present is dropped (`None`). */
  function ApplyEntry(files: seq<MediaFile>, selected: Option<MediaFile>, entry: UndoState): Option<Applied> {
    match entry
    case CutEntry(id, s, e) =>
      if id == "" || Find(files, id).None? then None
      else
        var f := Find(files, id).value;
        Some(Applied(SetCut(files, id, s, e), SelectionWithCut(selected, id, s, e),
                     CutEntry(f.id, f.startCut, f.endCut)))
    case ReorderEntry(snapshot) =>
      Some(Applied(snapshot, selected, ReorderEntry(files)))
  }

  /** `handleUndo` */
  function UndoStep(st: Session): (r: Session)
    ensures st.undoStack == [] ==> r == st
  {
    if st.undoStack == [] then st
    else
      var n := |st.undoStack| - 1;
      var popped := st.(undoStack := st.undoStack[..n]);
      match ApplyEntry(st.files, st.selected, st.undoStack[n])
      case None => popped
      case Some(a) => popped.(files := a.files, selected := a.selected, redoStack := st.redoStack + [a.inverse])
  }

  /** `handleRedo` */
  function RedoStep(st: Session): (r: Session)
    ensures st.redoStack == [] ==> r == st
  {
    if st.redoStack == [] then st
    else
      var n := |st.redoStack| - 1;
      var popped := st.(redoStack := st.redoStack[..n]);
      match ApplyEntry(st.files, st.selected, st.redoStack[n])
      case None => popped
      case Some(a) => popped.(files := a.files, selected := a.selected, undoStack := st.undoStack + [a.inverse])
  }

  // ---------------------------------------------------------------------
  // Laws of the handlers

  /** Without a selection a cut change does nothing. Otherwise it alters
      only the cut windows of the files with the selected id, and records
      the selected file's previous window. */
  lemma CutChangeFacts(st: Session, s: real, e: real)
    ensures st.selected.None? ==> CutChangeStep(st, s, e) == st
    ensures st.selected.Some? ==> var r := CutChangeStep(st, s, e); var sel := st.selected.value;
      && r.undoStack == st.undoStack + [CutEntry(sel.id, sel.startCut, sel.endCut)]
      && r.redoStack == []
      && |r.files| == |st.files|
      && (forall i | 0 <= i < |st.files| && st.files[i].id != sel.id :: r.files[i] == st.files[i])
      && (forall i | 0 <= i < |st.files| && st.files[i].id == sel.id ::
            r.files[i] == st.files[i].(startCut := s, endCut := e))
      && r.selected == Some(sel.(startCut := s, endCut := e))
  {
  }

  /** Undoing a cut entry: the files with its id get the saved window, the
      current window of the first of them goes onto the redo stack, and the
      other files are unchanged; if no file has the id, the entry is just
      dropped. */
  lemma UndoCutEntry(st: Session)
    requires st.undoStack != [] && st.undoStack[|st.undoStack| - 1].CutEntry?
    ensures var n := |st.undoStack| - 1; var entry := st.undoStack[n]; var r := UndoStep(st);
      && r.undoStack == st.undoStack[..n]
      && (entry.fileId == "" || Find(st.files, entry.fileId).None? ==>
            r == st.(undoStack := st.undoStack[..n]))
      && (entry.fileId != "" && Find(st.files, entry.fileId).Some? ==>
            var f := Find(st.files, entry.fileId).value;
            && r.redoStack == st.redoStack + [CutEntry(entry.fileId, f.startCut, f.endCut)]
            && |r.files| == |st.files|
            && CutsAgree(r.files, entry.fileId, entry.startCut, entry.endCut)
            && (forall i | 0 <= i < |st.files| && st.files[i].id != entry.fileId :: r.files[i] == st.files[i]))
  {
    var n := |st.undoStack| - 1;
    var entry := st.undoStack[n];
    if entry.fileId != "" && Find(st.files, entry.fileId).Some? {
      SetCutEffect(st.files, entry.fileId, entry.startCut, entry.endCut);
    }
  }

  /** Undoing a reorder entry installs the snapshot and saves the current list for redo. */
  lemma UndoReorderEntry(st: Session)
    requires st.undoStack != [] && st.undoStack[|st.undoStack| - 1].ReorderEntry?
    ensures var n := |st.undoStack| - 1; var r := UndoStep(st);
      && r.files == st.undoStack[n].files
      && r.redoStack == st.redoStack + [ReorderEntry(st.files)]
      && r.undoStack == st.undoStack[..n]
      && r.selected == st.selected
  {
  }

  /** Redoing a reorder entry installs the snapshot and saves the current list for undo. */
  lemma RedoReorderEntry(st: Session)
    requires st.redoStack != [] && st.redoStack[|st.redoStack| - 1].ReorderEntry?
    ensures var n := |st.redoStack| - 1; var r := RedoStep(st);
      && r.files == st.redoStack[n].files
      && r.undoStack == st.undoStack + [ReorderEntry(st.files)]
      && r.redoStack == st.redoStack[..n]
      && r.selected == st.selected
  {
  }

  /** The selection and every file with `id` share the window `[s, e]`. */
  predicate InSync(files: seq<MediaFile>, selected: Option<MediaFile>, id: string, s: real, e: real) {
    && CutsAgree(files, id, s, e)
    && (selected.Some? && selected.value.id == id ==> selected.value.startCut == s && selected.value.endCut == e)
  }

  /** An entry that applies and whose effect its inverse entry exactly
      reverts: a reorder, or a cut of a present, non-empty id whose files
      (and the selection, if it is one of them) share one window. */
  predicate Revertible(files: seq<MediaFile>, selected: Option<MediaFile>, entry: UndoState) {
    match entry
    case ReorderEntry(_) => true
    case CutEntry(id, _, _) =>
      id != "" && Find(files, id).Some?
      && InSync(files, selected, id, Find(files, id).value.startCut, Find(files, id).value.endCut)
  }

  /** Applying an entry and then the inverse it produced gives back the files,
      the selection and the entry itself. */
  lemma ApplyEntryInverse(files: seq<MediaFile>, selected: Option<MediaFile>, entry: UndoState)
    requires Revertible(files, selected, entry)
    ensures ApplyEntry(files, selected, entry).Some?
    ensures var a := ApplyEntry(files, selected, entry).value;
      ApplyEntry(a.files, a.selected, a.inverse) == Some(Applied(files, selected, entry))
  {
    match entry
    case ReorderEntry(_) =>
    case CutEntry(id, s, e) =>
      var f := Find(files, id).value;
      FindSetCut(files, id, s, e);
      SetCutRestore(files, id, f.startCut, f.endCut, s, e);
  }

  /** Undo followed by redo gives back the session (the post-edit state). */
  lemma UndoThenRedo(st: Session)
    requires st.undoStack != []
    requires Revertible(st.files, st.selected, st.undoStack[|st.undoStack| - 1])
    ensures RedoStep(UndoStep(st)) == st
  {
    var n := |st.undoStack| - 1;
    ApplyEntryInverse(st.files, st.selected, st.undoStack[n]);
    var a := ApplyEntry(st.files, st.selected, st.undoStack[n]).value;
    var u := UndoStep(st);
    assert u.redoStack[|u.redoStack| - 1] == a.inverse;
    assert u.redoStack[..|u.redoStack| - 1] == st.redoStack;
    assert st.undoStack[..n] + [st.undoStack[n]] == st.undoStack;
  }

  /** Redo followed by undo gives back the session. */
  lemma RedoThenUndo(st: Session)
    requires st.redoStack != []
    requires Revertible(st.files, st.selected, st.redoStack[|st.redoStack| - 1])
    ensures UndoStep(RedoStep(st)) == st
  {
    var n := |st.redoStack| - 1;
    ApplyEntryInverse(st.files, st.selected, st.redoStack[n]);
    var a := ApplyEntry(st.files, st.selected, st.redoStack[n]).value;
    var r := RedoStep(st);
    assert r.undoStack[|r.undoStack| - 1] == a.inverse;
    assert r.undoStack[..|r.undoStack| - 1] == st.undoStack;
    assert st.redoStack[..n] + [st.redoStack[n]] == st.redoStack;
  }

  /** A cut change followed by undo gives back the file list, the selection
      and the undo stack; the new window waits on the redo stack. This needs
      the selected file's window to be the one its list entries hold. */
  lemma CutChangeThenUndo(st: Session, s: real, e: real)
    requires st.selected.Some? && st.selected.value.id != ""
    requires CutsAgree(st.files, st.selected.value.id, st.selected.value.startCut, st.selected.value.endCut)
    requires Find(st.files, st.selected.value.id).Some?
    ensures UndoStep(CutChangeStep(st, s, e)) == st.(redoStack := [CutEntry(st.selected.value.id, s, e)])
  {
    var sel := st.selected.value;
    var c := CutChangeStep(st, s, e);
    FindSetCut(st.files, sel.id, s, e);
    SetCutRestore(st.files, sel.id, sel.startCut, sel.endCut, s, e);
    assert c.undoStack[..|c.undoStack| - 1] == st.undoStack;
  }

  /** A cut change whose selected file is no longer in the list (an undone
      reorder can leave such a selection behind) changes no file, and undo
      then just drops its entry: the file list and the undo stack come back,
      while the selection keeps the new window. */
  lemma {:induction false} CutChangeThenUndoDangling(st: Session, s: real, e: real)
    requires st.selected.Some? && Find(st.files, st.selected.value.id).None?
    ensures var r := UndoStep(CutChangeStep(st, s, e));
      && r.files == st.files
      && r.undoStack == st.undoStack
      && r.redoStack == []
      && r.selected == Some(st.selected.value.(startCut := s, endCut := e))
  {
    var sel := st.selected.value;
    var c := CutChangeStep(st, s, e);
    assert SetCut(st.files, sel.id, s, e) == st.files by {
      forall i | 0 <= i < |st.files|
        ensures SetCut(st.files, sel.id, s, e)[i] == st.files[i]
      {
        assert st.files[i].id != sel.id;
      }
    }
    assert c.undoStack[..|c.undoStack| - 1] == st.undoStack;
  }

  /** A cut change leaves the selection and every file with its id sharing
      the new window, which is what `CutChangeThenUndo` asks of its session. */
  lemma CutChangeSyncs(st: Session, s: real, e: real)
    requires st.selected.Some?
    ensures var r := CutChangeStep(st, s, e);
      && r.selected.Some? && r.selected.value.id == st.selected.value.id
      && InSync(r.files, r.selected, st.selected.value.id, s, e)
  {
    SetCutEffect(st.files, st.selected.value.id, s, e);
  }

  /** A reorder followed by undo gives back the file list and the undo stack. */
  lemma ReorderThenUndo(st: Session, reordered: seq<MediaFile>)
    ensures UndoStep(ReorderStep(st, reordered)) == st.(redoStack := [ReorderEntry(reordered)])
  {
    var r := ReorderStep(st, reordered);
    assert r.undoStack[..|r.undoStack| - 1] == st.undoStack;
  }

  /** Removing a file deletes exactly the entries with its id; if it was
      selected, the first remaining file (or none) becomes selected. */
  lemma RemoveFacts(st: Session, id: string)
    ensures var r := RemoveStep(st, id);
      && (forall i | 0 <= i < |r.files| :: r.files[i].id != id)
      && (forall f | f in st.files && f.id != id :: f in r.files)
      && (forall f | f in r.files :: f in st.files)
      && (st.selected.Some? && st.selected.value.id == id ==>
            r.selected == if r.files == [] then None else Some(r.files[0]))
      && (st.selected.None? || st.selected.value.id != id ==> r.selected == st.selected)
      && r.undoStack == st.undoStack && r.redoStack == st.redoStack
  {
  }

  /** Adding files appends the successfully probed ones after the existing
      list, each with an order above every existing order and the whole file
      as its window; the first of them becomes selected when nothing was. */
  lemma AddFacts(st: Session, paths: seq<string>, probes: seq<ProbeOutcome>, ids: seq<string>)
    requires |probes| == |paths| && |ids| == |paths|
    ensures var r := AddStep(st, paths, probes, ids);
      && r.files[..|st.files|] == st.files
      && (forall k, j | |st.files| <= k < |r.files| && 0 <= j < |st.files| ::
            st.files[j].order < r.files[k].order)
      && (forall k | |st.files| <= k < |r.files| ::
            r.files[k].startCut == 0.0 && r.files[k].endCut == r.files[k].duration)
      && (st.selected.None? && |r.files| > |st.files| ==> r.selected == Some(r.files[|st.files|]))
      && (st.selected.Some? ==> r.selected == st.selected)
      && r.undoStack == st.undoStack && r.redoStack == st.redoStack
  {
    var added := NewFiles(paths, probes, ids, OrderBase(st.files));
    NewFilesWindow(paths, probes, ids, OrderBase(st.files));
    NewOrdersExceedExisting(st.files, paths, probes, ids);
    var r := AddStep(st, paths, probes, ids);
    if added != [] {
      assert r.files == st.files + added;
      forall k, j | |st.files| <= k < |r.files| && 0 <= j < |st.files|
        ensures st.files[j].order < r.files[k].order
      {
        assert r.files[k] == added[k - |st.files|];
        assert st.files[j].order < added[k - |st.files|].order;
      }
      forall k | |st.files| <= k < |r.files|
        ensures r.files[k].startCut == 0.0 && r.files[k].endCut == r.files[k].duration
      {
        assert r.files[k] == added[k - |st.files|];
      }
    }
  }

  // ---------------------------------------------------------------------
  // The application state as an object

  /** The probing loop of `handleFilesAdded`: the path at index `i` that
      probes successfully becomes a file with order `maxOrder + i + 1`; the
      others are collected as failed. */
  method ProbePaths(paths: seq<string>, probes: seq<ProbeOutcome>, ids: seq<string>, maxOrder: int)
    returns (newFiles: seq<MediaFile>, failed: seq<string>)
    requires |probes| == |paths| && |ids| == |paths|
    ensures newFiles == NewFiles(paths, probes, ids, maxOrder)
    ensures failed == FailedPaths(paths, probes)
  {
    newFiles, failed := [], [];
    for i := 0 to |paths|
      invariant newFiles == NewFiles(paths[..i], probes[..i], ids[..i], maxOrder)
      invariant failed == FailedPaths(paths[..i], probes[..i])
    {
      ProbeOneMore(paths, probes, ids, maxOrder, i);
      match probes[i]
      case Probed(info) =>
        newFiles := newFiles + [FileFromProbe(paths[i], ids[i], info, maxOrder + i + 1)];
      case ProbeFailed =>
        failed := failed + [paths[i]];
    }
    assert paths[..|paths|] == paths && probes[..|paths|] == probes && ids[..|paths|] == ids;
  }

  class Editor {
    var files: seq<MediaFile>
    var selected: Option<MediaFile>
    var undoStack: seq<UndoState>
    var redoStack: seq<UndoState>
    var recentProjects: seq<string>

    function State(): Session
      reads this
    {
      Session(files, selected, undoStack, redoStack)
    }

    /** The state on start-up, with the recent projects read from the settings. */
    constructor (recent: seq<string>)
      ensures State() == Session([], None, [], []) && recentProjects == recent
    {
      files, selected, undoStack, redoStack := [], None, [], [];
      recentProjects := recent;
    }

    /** `handleFilesAdded`: probes every path in turn (the outcomes are given),
        collects the new files and the failed paths, then appends the new files. */
    method HandleFilesAdded(paths: seq<string>, probes: seq<ProbeOutcome>, ids: seq<string>)
      returns (failed: seq<string>)
      requires |probes| == |paths| && |ids| == |paths|
      modifies this
      ensures State() == AddStep(old(State()), paths, probes, ids)
      ensures failed == FailedPaths(paths, probes)
      ensures recentProjects == old(recentProjects)
    {
      var maxOrder := OrderBase(files);
      var newFiles;
      newFiles, failed := ProbePaths(paths, probes, ids, maxOrder);
      if |newFiles| > 0 {
        files := files + newFiles;
        if selected.None? {
          selected := Some(newFiles[0]);
        }
      }
    }

    /** `handleFileSelect` */
    method HandleFileSelect(file: MediaFile)
      modifies this
      ensures State() == SelectStep(old(State()), file)
      ensures recentProjects == old(recentProjects)
    {
      selected := Some(file);
    }

    /** `handleFileRemove` */
    method HandleFileRemove(id: string)
      modifies this
      ensures State() == RemoveStep(old(State()), id)
      ensures recentProjects == old(recentProjects)
    {
      var updated := Without(files, id);
      files := updated;
      if selected.Some? && selected.value.id == id {
        selected := if |updated| > 0 then Some(updated[0]) else None;
      }
    }

    /** `pushUndo` */
    method PushUndoEntry(entry: UndoState)
      modifies this
      ensures State() == PushUndo(old(State()), entry)
      ensures recentProjects == old(recentProjects)
    {
      undoStack := undoStack + [entry];
      redoStack := [];
    }

    /** `handleFilesReorder` */
    method HandleFilesReorder(reordered: seq<MediaFile>)
      modifies this
      ensures State() == ReorderStep(old(State()), reordered)
      ensures recentProjects == old(recentProjects)
    {
      PushUndoEntry(ReorderEntry(files));
      files := reordered;
    }

    /** `handleCutChange` */
    method HandleCutChange(startCut: real, endCut: real)
      modifies this
      ensures State() == CutChangeStep(old(State()), startCut, endCut)
      ensures recentProjects == old(recentProjects)
    {
      if selected.None? {
        return;
      }
      var sel := selected.value;
      PushUndoEntry(CutEntry(sel.id, sel.startCut, sel.endCut));
      files := SetCut(files, sel.id, startCut, endCut);
      selected := Some(sel.(startCut := startCut, endCut := endCut));
    }

    /** `handleUndo` */
    method HandleUndo()
      modifies this
      ensures State() == UndoStep(old(State()))
      ensures recentProjects == old(recentProjects)
    {
      if |undoStack| == 0 {
        return;
      }
      var entry := undoStack[|undoStack| - 1];
      undoStack := undoStack[..|undoStack| - 1];
      var applied := ApplyEntry(files, selected, entry);
      if applied.Some? {
        redoStack := redoStack + [applied.value.inverse];
        files := applied.value.files;
        selected := applied.value.selected;
      }
    }

    /** `handleRedo` */
    method HandleRedo()
      modifies this
      ensures State() == RedoStep(old(State()))
      ensures recentProjects == old(recentProjects)
    {
      if |redoStack| == 0 {
        return;
      }
      var entry := redoStack[|redoStack| - 1];
      redoStack := redoStack[..|redoStack| - 1];
      var applied := ApplyEntry(files, selected, entry);
      if applied.Some? {
        undoStack := undoStack + [applied.value.inverse];
        files := applied.value.files;
        selected := applied.value.selected;
      }
    }

    /** `handleSaveProject` once the project file has been written: `savedPath`
        is what the save dialog returned, `settingsStored` whether persisting
        the new settings succeeded (`saveSettings` only then updates them). */
    method HandleSaveProject(savedPath: Option<string>, settingsStored: bool)
      modifies this
      ensures State() == old(State())
      ensures recentProjects ==
        if savedPath.Some? && savedPath.value != "" && settingsStored
        then RecentAfterSave(old(recentProjects), savedPath.value)
        else old(recentProjects)
    {
      if savedPath.Some? && savedPath.value != "" {
        var recent := RecentAfterSave(recentProjects, savedPath.value);
        if settingsStored {
          recentProjects := recent;
        }
      }
    }
  }
}
