/**
 * `Project`: an open image file, the image being edited, the two
 * snapshot stacks behind undo and redo, and the unsaved-changes flag.
 *
 * The stacks are sequences whose top is the last element. Despite its
 * name, `undoHistory` holds the snapshots redo brings back; `stateHistory`
 * holds the ones undo brings back.
 */
module ProjectState {
  import opened FileNames
  import opened Raster
  import opened Editor

  /** The part of a project undo and redo act on. */
  datatype History = History(current: Image, stateHistory: seq<Image>, undoHistory: seq<Image>)

  /**
   * After `storeState`: the current image pushed onto `stateHistory`. It
   * stays current and redo is untouched.
   */
  function Stored(h: History): (r: History)
    ensures r.current == h.current && r.undoHistory == h.undoHistory
    ensures |r.stateHistory| == |h.stateHistory| + 1
  {
    h.(stateHistory := h.stateHistory + [h.current])
  }

  /**
   * After `undo`: the current image pushed onto `undoHistory`, the top of
   * `stateHistory` popped into current, so one snapshot moves from one
   * stack to the other.
   */
  function Undone(h: History): (r: History)
    requires h.stateHistory != []
    ensures |r.stateHistory| == |h.stateHistory| - 1 && |r.undoHistory| == |h.undoHistory| + 1
  {
    History(h.stateHistory[|h.stateHistory| - 1], h.stateHistory[..|h.stateHistory| - 1], h.undoHistory + [h.current])
  }

  /**
   * After `redo`: the current image pushed onto `stateHistory`, the top of
   * `undoHistory` popped into current, so one snapshot moves from one
   * stack to the other.
   */
  function Redone(h: History): (r: History)
    requires h.undoHistory != []
    ensures |r.undoHistory| == |h.undoHistory| - 1 && |r.stateHistory| == |h.stateHistory| + 1
  {
    History(h.undoHistory[|h.undoHistory| - 1], h.stateHistory + [h.current], h.undoHistory[..|h.undoHistory| - 1])
  }

  /** Every image a history holds: the current one and both stacks. */
  function Snapshots(h: History): multiset<Image> {
    multiset{h.current} + multiset(h.stateHistory) + multiset(h.undoHistory)
  }

  /** `storeState` adds one copy of the current image and loses nothing. */
  lemma StoredKeepsSnapshots(h: History)
    ensures Snapshots(Stored(h)) == Snapshots(h) + multiset{h.current}
  {
  }

  /** Undo only moves images: it loses none and gains none. */
  lemma UndoneKeepsSnapshots(h: History)
    requires h.stateHistory != []
    ensures Snapshots(Undone(h)) == Snapshots(h)
  {
    var n := |h.stateHistory|;
    assert h.stateHistory == h.stateHistory[..n - 1] + [h.stateHistory[n - 1]];
  }

  /** Redo only moves images: it loses none and gains none. */
  lemma RedoneKeepsSnapshots(h: History)
    requires h.undoHistory != []
    ensures Snapshots(Redone(h)) == Snapshots(h)
  {
    var n := |h.undoHistory|;
    assert h.undoHistory == h.undoHistory[..n - 1] + [h.undoHistory[n - 1]];
  }

  /** An edit as its callers perform it: `storeState`, then an editing function installs `edited`. */
  function Edited(h: History, edited: Image): History {
    Stored(h).(current := edited)
  }

  /** Undo followed by redo restores the history exactly. */
  lemma UndoThenRedo(h: History)
    requires h.stateHistory != []
    ensures Undone(h).undoHistory != [] && Redone(Undone(h)) == h
  {
    assert h.stateHistory[..|h.stateHistory| - 1] + [h.stateHistory[|h.stateHistory| - 1]] == h.stateHistory;
  }

  /** Redo followed by undo restores the history exactly. */
  lemma RedoThenUndo(h: History)
    requires h.undoHistory != []
    ensures Redone(h).stateHistory != [] && Undone(Redone(h)) == h
  {
    assert h.undoHistory[..|h.undoHistory| - 1] + [h.undoHistory[|h.undoHistory| - 1]] == h.undoHistory;
  }

  /** An edit followed by undo brings back the pre-edit image and `stateHistory`; the edited image becomes redoable. */
  lemma EditThenUndo(h: History, edited: Image)
    ensures Undone(Edited(h, edited)) == History(h.current, h.stateHistory, h.undoHistory + [edited])
  {
    assert (h.stateHistory + [h.current])[..|h.stateHistory|] == h.stateHistory;
  }

  /** The result of the edits `es`, applied in order. */
  function EditedAll(h: History, es: seq<Image>): History
    decreases |es|
  {
    if es == [] then h else EditedAll(Edited(h, es[0]), es[1..])
  }

  /** The result of `n` undos in a row. */
  function UndoneTimes(h: History, n: nat): History
    requires n <= |h.stateHistory|
    decreases n
  {
    if n == 0 then h else UndoneTimes(Undone(h), n - 1)
  }

  function Reverse<T>(s: seq<T>): seq<T>
    decreases |s|
  {
    if s == [] then [] else Reverse(s[1..]) + [s[0]]
  }

  lemma {:induction false} EditedAllGrows(h: History, es: seq<Image>)
    ensures |EditedAll(h, es).stateHistory| == |h.stateHistory| + |es|
    decreases |es|
  {
    if es != [] {
      EditedAllGrows(Edited(h, es[0]), es[1..]);
    }
  }

  lemma {:induction false} UndoneTimesLast(h: History, n: nat)
    requires n < |h.stateHistory|
    ensures UndoneTimes(h, n).stateHistory != []
    ensures |UndoneTimes(h, n).stateHistory| == |h.stateHistory| - n
    ensures UndoneTimes(h, n + 1) == Undone(UndoneTimes(h, n))
    decreases n
  {
    if n > 0 {
      UndoneTimesLast(Undone(h), n - 1);
    }
  }

  /**
   * N edits followed by N undos bring back the image and `stateHistory`
   * from before the edits; the edited images lie on `undoHistory`, most
   * recent edit lowest.
   */
  lemma {:induction false} EditsThenUndos(h: History, es: seq<Image>)
    ensures |es| <= |EditedAll(h, es).stateHistory|
    ensures UndoneTimes(EditedAll(h, es), |es|) == History(h.current, h.stateHistory, h.undoHistory + Reverse(es))
    decreases |es|
  {
    EditedAllGrows(h, es);
    if es != [] {
      var h1 := Edited(h, es[0]);
      var rest := es[1..];
      EditsThenUndos(h1, rest);
      EditedAllGrows(h1, rest);
      UndoneTimesLast(EditedAll(h1, rest), |rest|);
      var mid := UndoneTimes(EditedAll(h1, rest), |rest|);
      assert mid == History(es[0], h.stateHistory + [h.current], h.undoHistory + Reverse(rest));
      assert (h.stateHistory + [h.current])[..|h.stateHistory|] == h.stateHistory;
      assert Undone(mid) == History(h.current, h.stateHistory, h.undoHistory + Reverse(rest) + [es[0]]);
    }
  }

  /** Outcome of an `ImageIO.write` call: it completed, or it threw. */
  datatype IoOutcome = Completed | Threw

  /**
   * One `ImageIO.write` call of `saveAs`: whether the image is first drawn
   * over white into an RGB copy, and the format name passed.
   */
  datatype WriteCall = WriteCall(flattenOnWhite: bool, format: string)

  /**
   * Java's `==` on two strings: reference identity. `saveAs` compares the
   * extension, a string `substring` builds at run time, with a literal, so
   * the two are never the same object.
   */
  predicate SameReference(computed: string, literal: string) {
    false
  }

  /**
   * The writes `saveAs` performs for a target extension, as the code is
   * written: at most one flattened write, in "jpg" or "bmp", followed by
   * at most one more, and never nothing.
   */
  function SaveAsWritesAsWritten(ext: string): (plan: seq<WriteCall>)
    ensures 1 <= |plan| <= 2
    ensures forall c :: c in plan && c.flattenOnWhite ==> c.format in {"jpg", "bmp"}
  {
    (if SameReference(ext, "JPG") || SameReference(ext, "jpg") then [WriteCall(true, "jpg")] else [])
    + (if SameReference(ext, "BMP") || SameReference(ext, "bmp") then [WriteCall(true, "bmp")] else [WriteCall(false, ext)])
  }

  /** As written, `saveAs` never flattens: every extension gets one plain write in its own format. */
  lemma SaveAsNeverFlattens(ext: string)
    ensures SaveAsWritesAsWritten(ext) == [WriteCall(false, ext)]
  {
  }

  /**
   * The write `saveAs` is meant to perform: JPG and BMP have no alpha
   * channel, so the image is drawn over white first and written once, in
   * lower-case format; every other extension is written as is, in its own
   * format.
   */
  function SaveAsWrite(ext: string): (call: WriteCall)
    ensures call.flattenOnWhite <==> ext in {"JPG", "jpg", "BMP", "bmp"}
    ensures call.flattenOnWhite ==> call.format == (if ext in {"JPG", "jpg"} then "jpg" else "bmp")
    ensures !call.flattenOnWhite ==> call.format == ext
  {
    if ext == "JPG" || ext == "jpg" then WriteCall(true, "jpg")
    else if ext == "BMP" || ext == "bmp" then WriteCall(true, "bmp")
    else WriteCall(false, ext)
  }

  /** The image a write call hands to the encoder. */
  function Written(call: WriteCall, img: Image): Image {
    if call.flattenOnWhite then FlattenOnWhite(img) else img
  }

  class Project {
    /** The inherited `ImageEditor` state, held by composition. */
    const editor: ImageEditor
    var imageFile: File
    var stateHistory: seq<Image>
    var undoHistory: seq<Image>
    var hasUnsavedChanges: bool

    function State(): History
      reads this, editor
    {
      History(editor.bufferedImage, stateHistory, undoHistory)
    }

    /** Opens a project on `imageFile`, whose decoded content is `image`. */
    constructor (imageFile: File, image: Image)
      ensures fresh(editor) && editor.bufferedImage == image && this.imageFile == imageFile
      ensures stateHistory == [] && undoHistory == [] && !hasUnsavedChanges
    {
      editor := new ImageEditor(image);
      this.imageFile := imageFile;
      stateHistory := [];
      undoHistory := [];
      hasUnsavedChanges := false;
    }

    /** `getName()`. */
    function Name(): string
      reads this
    {
      imageFile.name
    }

    predicate StateHistoryIsEmpty()
      reads this
    {
      stateHistory == []
    }

    predicate UndoHistoryIsEmpty()
      reads this
    {
      undoHistory == []
    }

    method SetHasUnsavedChanges(unsavedChanges: bool)
      modifies this`hasUnsavedChanges
      ensures hasUnsavedChanges == unsavedChanges
    {
      hasUnsavedChanges := unsavedChanges;
    }

    /** Pushes the current image onto `stateHistory`; callers do this before every edit. */
    method StoreState()
      modifies this`stateHistory
      ensures State() == Stored(old(State()))
    {
      stateHistory := stateHistory + [editor.bufferedImage];
    }

    /** Reverts to the previous snapshot and returns it (`Stack.pop` throws on an empty `stateHistory`). */
    method Undo() returns (r: Image)
      requires stateHistory != []
      modifies this`stateHistory, this`undoHistory, editor`bufferedImage
      ensures State() == Undone(old(State())) && r == editor.bufferedImage
    {
      undoHistory := undoHistory + [editor.bufferedImage];
      editor.bufferedImage := stateHistory[|stateHistory| - 1];
      stateHistory := stateHistory[..|stateHistory| - 1];
      r := editor.bufferedImage;
    }

    /** Brings back the last undone snapshot and returns it (`Stack.pop` throws on an empty `undoHistory`). */
    method Redo() returns (r: Image)
      requires undoHistory != []
      modifies this`stateHistory, this`undoHistory, editor`bufferedImage
      ensures State() == Redone(old(State())) && r == editor.bufferedImage
    {
      stateHistory := stateHistory + [editor.bufferedImage];
      editor.bufferedImage := undoHistory[|undoHistory| - 1];
      undoHistory := undoHistory[..|undoHistory| - 1];
      r := editor.bufferedImage;
    }

    /** Empties the redo stack (`clearUndoHistory`, which the controller calls). */
    method ClearUndoHistory()
      modifies this`undoHistory
      ensures undoHistory == []
    {
      undoHistory := [];
    }

    /**
     * Writes the current image to `imageFile` in the format its extension
     * names; `write` stands for `ImageIO.write`. Succeeds iff the write
     * completes, and only then clears the unsaved-changes flag.
     */
    method Save(write: (Image, string, File) -> IoOutcome) returns (ok: bool)
      modifies this`hasUnsavedChanges
      ensures ok <==> write(editor.bufferedImage, FileExtension(imageFile.name), imageFile) == Completed
      ensures hasUnsavedChanges == (old(hasUnsavedChanges) && !ok)
    {
      var outcome := write(editor.bufferedImage, FileExtension(imageFile.name), imageFile);
      if outcome == Completed {
        hasUnsavedChanges := false;
        ok := true;
      } else {
        ok := false;
      }
    }

    /**
     * `saveAs` as written: its `==` tests of the extension against "JPG",
     * "jpg", "BMP" and "bmp" compare references and never hold, so the
     * only write is the trailing one: the current image, unflattened, in
     * the format the extension names. On success the project moves to
     * `newFile` and has no unsaved changes; on failure nothing changes.
     */
    method SaveAs(newFile: File, write: (Image, string, File) -> IoOutcome) returns (ok: bool)
      modifies this`imageFile, this`hasUnsavedChanges
      ensures ok <==> write(editor.bufferedImage, FileExtension(newFile.name), newFile) == Completed
      ensures ok ==> imageFile == newFile && !hasUnsavedChanges
      ensures !ok ==> imageFile == old(imageFile) && hasUnsavedChanges == old(hasUnsavedChanges)
    {
      var ext := FileExtension(newFile.name);
      var plan := SaveAsWritesAsWritten(ext);
      SaveAsNeverFlattens(ext);
      var call := plan[0];
      var outcome := write(Written(call, editor.bufferedImage), call.format, newFile);
      if outcome == Completed {
        imageFile := newFile;
        hasUnsavedChanges := false;
        ok := true;
      } else {
        ok := false;
      }
    }

    /**
     * The evidently intended `saveAs`: the current image is written to
     * `newFile` once, drawn over white first for JPG and BMP, which have
     * no alpha channel. On success the project moves to `newFile` and has
     * no unsaved changes; on failure nothing changes.
     */
    method SaveAsIntended(newFile: File, write: (Image, string, File) -> IoOutcome) returns (ok: bool)
      modifies this`imageFile, this`hasUnsavedChanges
      ensures var call := SaveAsWrite(FileExtension(newFile.name));
        ok <==> write(Written(call, editor.bufferedImage), call.format, newFile) == Completed
      ensures ok ==> imageFile == newFile && !hasUnsavedChanges
      ensures !ok ==> imageFile == old(imageFile) && hasUnsavedChanges == old(hasUnsavedChanges)
    {
      var call := SaveAsWrite(FileExtension(newFile.name));
      var outcome := write(Written(call, editor.bufferedImage), call.format, newFile);
      if outcome == Completed {
        imageFile := newFile;
        hasUnsavedChanges := false;
        ok := true;
      } else {
        ok := false;
      }
    }
  }
}
