/**
 * `GUI`: the controller behind the editor window. It sequences each edit
 * on the open `Project` (snapshot, edit, mark unsaved, drop the redo
 * history), drives undo and redo, keeps the buttons and the name label in
 * step with the project, validates opened file names and gates the
 * resize confirmation.
 */
module GuiController {
  import opened Wrappers
  import opened Numerics
  import opened FileNames
  import opened Raster
  import opened Editor
  import opened ProjectState
  import opened Selection
  import Reel

  /** The file-chooser patterns the controller accepts (`COMPATIBLE_FORMATS`). */
  const CompatiblePatterns: seq<string> := ["*.jpg", "*.png", "*.bmp", "*.gif"]

  /** The error alerts the controller shows. */
  datatype Alert = CouldNotSave | UnsupportedExtension(extension: string) | CouldNotRead

  /** The text of an alert. */
  function Message(alert: Alert): string {
    match alert
    case CouldNotSave => "Error: could not save image"
    case UnsupportedExtension(extension) => "JIVE does not support ." + extension + " files."
    case CouldNotRead => "Error: could not read image file."
  }

  /** Which row of controls is in front of the function pane. */
  datatype Panel = Editing | Cropping | Resizing

  /** An edit as the controller commits it: snapshot, edit, then the redo history is dropped. */
  function Committed(h: History, edited: Image): (c: History)
    ensures c.current == edited && c.stateHistory == h.stateHistory + [h.current] && c.undoHistory == []
  {
    Edited(h, edited).(undoHistory := [])
  }

  /**
   * Undo right after a committed edit brings back the image and
   * `stateHistory` from before the edit, and only the edit can be redone.
   */
  lemma CommittedThenUndo(h: History, edited: Image)
    ensures Committed(h, edited).stateHistory != []
    ensures Undone(Committed(h, edited)) == History(h.current, h.stateHistory, [edited])
  {
    assert (h.stateHistory + [h.current])[..|h.stateHistory|] == h.stateHistory;
  }

  /** The extension `openFile` checks, as written: the text after the last '.', the whole name when there is none. */
  function OpenExtensionAsWritten(name: string): (ext: string)
    ensures '.' in name ==> ext == FileExtension(name)
    ensures '.' !in name ==> ext == name
  {
    name[LastIndexOf(name, '.') + 1..]
  }

  /**
   * `openFile`'s test as written: "*." + extension is one of the patterns,
   * so what it accepts as an extension has three characters.
   */
  predicate OpenAcceptsAsWritten(name: string)
    ensures OpenAcceptsAsWritten(name) ==> |OpenExtensionAsWritten(name)| == 3
  {
    "*." + OpenExtensionAsWritten(name) in CompatiblePatterns
  }

  /** As written, a name with no '.' at all, such as "png", passes the check although it names no image file. */
  lemma DotlessNamePassesAsWritten()
    ensures OpenAcceptsAsWritten("png") && !Reel.IsImageName("png")
  {
    assert '.' !in "png" by {
      assert "png" == ['p', 'n', 'g'];
    }
    assert OpenExtensionAsWritten("png") == "png";
    assert "*." + "png" == ['*', '.', 'p', 'n', 'g'];
    assert CompatiblePatterns[1] == ['*', '.', 'p', 'n', 'g'];
    ShortNameIsNoImage("png");
  }

  /** Every suffix the reel keeps has four characters, so a shorter name ends with none of them. */
  lemma ShortNameIsNoImage(name: string)
    requires |name| < 4
    ensures !Reel.IsImageName(name)
  {
    forall i | 0 <= i < |Reel.CompatibleFormats|
      ensures !EndsWith(name, Reel.CompatibleFormats[i])
    {
      assert |Reel.CompatibleFormats[i]| == 4;
    }
  }

  /**
   * The evidently intended test: the name has an extension and "*." +
   * extension is one of the patterns, so an accepted name has a '.' and
   * an extension of three characters.
   */
  predicate OpenAccepts(name: string)
    ensures OpenAccepts(name) ==> '.' in name && |FileExtension(name)| == 3
  {
    '.' in name && "*." + FileExtension(name) in CompatiblePatterns
  }

  /** The two tests differ only on names without '.'. */
  lemma OpenAcceptsAgreesWithDot(name: string)
    requires '.' in name
    ensures OpenAccepts(name) <==> OpenAcceptsAsWritten(name)
  {
  }

  /** "*." + ext is a pattern iff "." + ext is one of the reel's suffixes. */
  lemma PatternIffSuffix(ext: string)
    ensures "*." + ext in CompatiblePatterns <==> "." + ext in Reel.CompatibleFormats
  {
    if "*." + ext in CompatiblePatterns {
      var k :| 0 <= k < |CompatiblePatterns| && CompatiblePatterns[k] == "*." + ext;
      assert ("*." + ext)[1..] == "." + ext;
      assert CompatiblePatterns[k][1..] == Reel.CompatibleFormats[k];
    }
    if "." + ext in Reel.CompatibleFormats {
      var k :| 0 <= k < |Reel.CompatibleFormats| && Reel.CompatibleFormats[k] == "." + ext;
      assert "*" + Reel.CompatibleFormats[k] == CompatiblePatterns[k];
      assert "*" + ("." + ext) == "*." + ext;
    }
  }

  /** A name the corrected open check accepts ends with one of the reel's suffixes. */
  lemma OpenAcceptedIsImageName(name: string)
    requires OpenAccepts(name)
    ensures Reel.IsImageName(name)
  {
    var ext := FileExtension(name);
    PatternIffSuffix(ext);
    var k :| 0 <= k < |Reel.CompatibleFormats| && Reel.CompatibleFormats[k] == "." + ext;
    EndsWithDotIff(name, ext);
  }

  /** A name ending with one of the reel's suffixes passes the corrected open check. */
  lemma ImageNameOpenAccepted(name: string)
    requires Reel.IsImageName(name)
    ensures OpenAccepts(name)
  {
    var k :| 0 <= k < |Reel.CompatibleFormats| && EndsWith(name, Reel.CompatibleFormats[k]);
    SuffixIsDotExtension(k);
    var ext := Reel.CompatibleFormats[k][1..];
    EndsWithDotIff(name, ext);
    PatternIffSuffix(ext);
  }

  /** Each of the reel's suffixes is a '.' followed by an extension without '.'. */
  lemma SuffixIsDotExtension(k: int)
    requires 0 <= k < |Reel.CompatibleFormats|
    ensures var suffix := Reel.CompatibleFormats[k];
      |suffix| == 4 && suffix == "." + suffix[1..] && '.' !in suffix[1..]
  {
    var suffix := Reel.CompatibleFormats[k];
    assert suffix[0] == '.' && suffix[1] != '.' && suffix[2] != '.' && suffix[3] != '.';
    assert suffix[1..] == [suffix[1], suffix[2], suffix[3]];
  }

  /**
   * The corrected open check accepts exactly the names the photo reel
   * keeps, so a file the reel would step to can also be opened directly.
   */
  lemma OpenAcceptsIffImageName(name: string)
    ensures OpenAccepts(name) <==> Reel.IsImageName(name)
  {
    if OpenAccepts(name) {
      OpenAcceptedIsImageName(name);
    }
    if Reel.IsImageName(name) {
      ImageNameOpenAccepted(name);
    }
  }

  /** The scale the slider selects: its value rounded to a whole percentage, over 100. */
  function SliderScale(sliderValue: real): (scale: real)
    ensures scale * 100.0 - 0.5 <= sliderValue < scale * 100.0 + 0.5
    ensures 0.0 <= sliderValue <= 100.0 ==> 0.0 <= scale <= 1.0
  {
    Round(sliderValue) as real / 100.0
  }

  /**
   * One side of the resized image: `(int) (size * scale)`. For a
   * non-negative scale it is a whole number of pixels, at most the exact
   * scaled size.
   */
  function ResizedSide(size: nat, scale: real): (side: int)
    ensures 0.0 <= scale ==> 0 <= side && side as real <= size as real * scale
  {
    ToJavaInt(size as real * scale)
  }

  /**
   * The slider listener's test: confirm is disabled for an empty result or
   * a scale of exactly 1, so an enabled confirm has a positive scale other
   * than 1.
   */
  predicate ResizeDisabled(width: nat, height: nat, scale: real)
    ensures !ResizeDisabled(width, height, scale) ==> 0.0 < scale && scale != 1.0
  {
    ResizedSide(width, scale) < 1 || ResizedSide(height, scale) < 1 || scale == 1.0
  }

  /** A scale in [0, 1) strictly shrinks a side of at most `IntMax` pixels. */
  lemma ResizedSideShrinks(size: nat, scale: real)
    requires 0 < size <= IntMax && 0.0 <= scale < 1.0
    ensures 0 <= ResizedSide(size, scale) < size
  {
    TruncatedProductBelow(size, scale);
  }

  /** Truncating `size * scale` for a scale in [0, 1) gives a whole number below `size`. */
  lemma TruncatedProductBelow(size: nat, scale: real)
    requires 0 < size && 0.0 <= scale < 1.0
    ensures 0 <= Truncate(size as real * scale) < size
  {
    var x := size as real * scale;
    assert size as real - x == size as real * (1.0 - scale);
    assert 0.0 <= x < size as real;
  }

  /**
   * For a slider between 0 and 100, confirm is enabled exactly when the
   * resized image is non-empty and not the original size.
   */
  lemma ResizeEnabledIff(width: nat, height: nat, sliderValue: real)
    requires 0 < width <= IntMax && 0 < height <= IntMax && 0.0 <= sliderValue <= 100.0
    ensures var s := SliderScale(sliderValue);
      var w, h := ResizedSide(width, s), ResizedSide(height, s);
      !ResizeDisabled(width, height, s) <==> 1 <= w && 1 <= h && (w, h) != (width, height)
  {
    var p := Round(sliderValue);
    var s := SliderScale(sliderValue);
    assert 0 <= p <= 100;
    if p == 100 {
      assert s == 1.0;
      assert ResizedSide(width, s) == width;
      assert ResizedSide(height, s) == height;
    } else {
      assert 0.0 <= s < 1.0;
      ResizedSideShrinks(width, s);
      ResizedSideShrinks(height, s);
    }
  }

  class Gui {
    var project: Project?
    var cropSelector: CropSelector?
    /** Redo is available only right after undo or redo. */
    var redoAvailable: bool
    var front: Panel
    /** The image the viewer shows (`imageViewer.update`), none after a failed open. */
    var shownImage: Option<Image>
    /** The disabled state of save-as and the rotate, flip, crop, resize and metadata buttons, enabled together on open. */
    var editingDisabled: bool
    var saveDisabled: bool
    var undoDisabled: bool
    var redoDisabled: bool
    var confirmResizeDisabled: bool
    var resizeSliderValue: real
    const resizeSliderMax: real
    var nameLabel: string
    /** The width and height the size label shows. */
    var sizeLabel: (nat, nat)
    /** The width and height the new-dimensions label shows. */
    var newDimensionsLabel: (int, int)
    var resizePercentLabel: int
    /** The last error alert shown. */
    var lastAlert: Option<Alert>

    /**
     * With a project open, the viewer shows its image and the buttons and
     * labels agree with it: save and the "*" mark iff unsaved changes,
     * undo iff `stateHistory` is non-empty, redo iff `undoHistory` is
     * non-empty, and redo history only while redo is available.
     */
    ghost predicate Valid()
      reads this, project, cropSelector, if project != null then {project.editor} else {}
    {
      (project == null ==> shownImage == None)
      && (project != null ==>
            shownImage == Some(project.editor.bufferedImage)
            && sizeLabel == (project.editor.GetWidth(), project.editor.GetHeight())
            && saveDisabled == !project.hasUnsavedChanges
            && nameLabel == (if project.hasUnsavedChanges then project.Name() + "*" else project.Name())
            && undoDisabled == project.StateHistoryIsEmpty()
            && redoDisabled == project.UndoHistoryIsEmpty()
            && (!redoAvailable ==> project.undoHistory == []))
      && (cropSelector != null ==> cropSelector.Valid())
    }

    /** The window before any file is opened: every editing control disabled. */
    constructor (resizeSliderMax: real)
      ensures Valid() && project == null && cropSelector == null && !redoAvailable
      ensures editingDisabled && saveDisabled && undoDisabled && redoDisabled
    {
      project := null;
      cropSelector := null;
      redoAvailable := false;
      front := Editing;
      shownImage := None;
      editingDisabled, saveDisabled, undoDisabled, redoDisabled := true, true, true, true;
      confirmResizeDisabled := true;
      resizeSliderValue := resizeSliderMax;
      this.resizeSliderMax := resizeSliderMax;
      nameLabel := "";
      sizeLabel := (0, 0);
      newDimensionsLabel := (0, 0);
      resizePercentLabel := 0;
      lastAlert := None;
    }

    /**
     * `updateGUI`: refreshes the labels and the save, undo and redo
     * buttons from the project, first dropping the redo history unless
     * redo is available.
     */
    method UpdateGui()
      requires project != null && (cropSelector != null ==> cropSelector.Valid())
      requires shownImage == Some(project.editor.bufferedImage)
      modifies this`sizeLabel, this`newDimensionsLabel, this`saveDisabled, this`nameLabel
      modifies this`undoDisabled, this`redoDisabled, project`undoHistory
      ensures Valid()
      ensures project.undoHistory == (if redoAvailable then old(project.undoHistory) else [])
      ensures newDimensionsLabel == sizeLabel
    {
      ShowSizeAndName();
      ShowHistoryButtons();
    }

    /** The first half of `updateGUI`: the size labels, the save button and the name label. */
    method ShowSizeAndName()
      requires project != null
      modifies this`sizeLabel, this`newDimensionsLabel, this`saveDisabled, this`nameLabel
      ensures sizeLabel == (project.editor.GetWidth(), project.editor.GetHeight()) && newDimensionsLabel == sizeLabel
      ensures saveDisabled == !project.hasUnsavedChanges
      ensures nameLabel == (if project.hasUnsavedChanges then project.Name() + "*" else project.Name())
    {
      sizeLabel := (project.editor.GetWidth(), project.editor.GetHeight());
      newDimensionsLabel := (project.editor.GetWidth(), project.editor.GetHeight());
      if project.hasUnsavedChanges {
        saveDisabled := false;
        nameLabel := project.Name() + "*";
      } else {
        saveDisabled := true;
        nameLabel := project.Name();
      }
    }

    /** The second half of `updateGUI`: the undo button, the redo history and the redo button. */
    method ShowHistoryButtons()
      requires project != null
      modifies this`undoDisabled, this`redoDisabled, project`undoHistory
      ensures undoDisabled == project.StateHistoryIsEmpty()
      ensures project.undoHistory == (if redoAvailable then old(project.undoHistory) else [])
      ensures redoDisabled == project.UndoHistoryIsEmpty()
    {
      undoDisabled := project.StateHistoryIsEmpty();
      if !redoAvailable {
        project.ClearUndoHistory();
      }
      redoDisabled := project.UndoHistoryIsEmpty();
    }

    /** The common tail of every edit: show the new image, mark unsaved, end redo availability, refresh. */
    method FinishEdit()
      requires project != null && (cropSelector != null ==> cropSelector.Valid())
      modifies this`shownImage, this`redoAvailable, this`sizeLabel, this`newDimensionsLabel
      modifies this`saveDisabled, this`nameLabel, this`undoDisabled, this`redoDisabled
      modifies project`hasUnsavedChanges, project`undoHistory
      ensures Valid()
      ensures shownImage == Some(project.editor.bufferedImage)
      ensures project.hasUnsavedChanges && !redoAvailable && project.undoHistory == []
      ensures !saveDisabled && redoDisabled && nameLabel == project.Name() + "*"
    {
      shownImage := Some(project.editor.bufferedImage);
      project.SetHasUnsavedChanges(true);
      redoAvailable := false;
      UpdateGui();
    }

    /** `rotateRightAction`: snapshot, rotate a quarter turn clockwise, commit. */
    method RotateRightAction()
      requires Valid() && project != null
      modifies this`shownImage, this`redoAvailable, this`sizeLabel, this`newDimensionsLabel
      modifies this`saveDisabled, this`nameLabel, this`undoDisabled, this`redoDisabled
      modifies project`hasUnsavedChanges, project`stateHistory, project`undoHistory, project.editor
      ensures Valid()
      ensures project.State() == Committed(old(project.State()), Raster.RotateRight(old(project.editor.bufferedImage)))
      ensures project.hasUnsavedChanges && !redoAvailable && !undoDisabled && redoDisabled && !saveDisabled
    {
      project.StoreState();
      var _ := project.editor.RotateRight();
      FinishEdit();
    }

    /** `rotateLeftAction`: snapshot, rotate a quarter turn counter-clockwise, commit. */
    method RotateLeftAction()
      requires Valid() && project != null
      modifies this`shownImage, this`redoAvailable, this`sizeLabel, this`newDimensionsLabel
      modifies this`saveDisabled, this`nameLabel, this`undoDisabled, this`redoDisabled
      modifies project`hasUnsavedChanges, project`stateHistory, project`undoHistory, project.editor
      ensures Valid()
      ensures project.State() == Committed(old(project.State()), Raster.RotateLeft(old(project.editor.bufferedImage)))
      ensures project.hasUnsavedChanges && !redoAvailable && !undoDisabled && redoDisabled && !saveDisabled
    {
      project.StoreState();
      var _ := project.editor.RotateLeft();
      FinishEdit();
    }

    /** `flipHorizontalAction`: snapshot, mirror left to right, commit. */
    method FlipHorizontalAction()
      requires Valid() && project != null
      modifies this`shownImage, this`redoAvailable, this`sizeLabel, this`newDimensionsLabel
      modifies this`saveDisabled, this`nameLabel, this`undoDisabled, this`redoDisabled
      modifies project`hasUnsavedChanges, project`stateHistory, project`undoHistory, project.editor
      ensures Valid()
      ensures project.State() == Committed(old(project.State()), Raster.FlipHorizontal(old(project.editor.bufferedImage)))
      ensures project.hasUnsavedChanges && !redoAvailable && !undoDisabled && redoDisabled && !saveDisabled
    {
      project.StoreState();
      var _ := project.editor.FlipHorizontal();
      FinishEdit();
    }

    /** `flipVerticalAction`: snapshot, mirror top to bottom, commit. */
    method FlipVerticalAction()
      requires Valid() && project != null
      modifies this`shownImage, this`redoAvailable, this`sizeLabel, this`newDimensionsLabel
      modifies this`saveDisabled, this`nameLabel, this`undoDisabled, this`redoDisabled
      modifies project`hasUnsavedChanges, project`stateHistory, project`undoHistory, project.editor
      ensures Valid()
      ensures project.State() == Committed(old(project.State()), Raster.FlipVertical(old(project.editor.bufferedImage)))
      ensures project.hasUnsavedChanges && !redoAvailable && !undoDisabled && redoDisabled && !saveDisabled
    {
      project.StoreState();
      var _ := project.editor.FlipVertical();
      FinishEdit();
    }

    /**
     * `undoButtonAction`, reachable while the undo button is enabled:
     * undo, mark unsaved (even when the restored image is the saved one)
     * and make redo available.
     */
    method UndoAction()
      requires Valid() && project != null && !undoDisabled
      modifies this`shownImage, this`redoAvailable, this`sizeLabel, this`newDimensionsLabel
      modifies this`saveDisabled, this`nameLabel, this`undoDisabled, this`redoDisabled
      modifies project`hasUnsavedChanges, project`stateHistory, project`undoHistory, project.editor`bufferedImage
      ensures Valid()
      ensures old(project.stateHistory) != [] && project.State() == Undone(old(project.State()))
      ensures project.hasUnsavedChanges && redoAvailable && !redoDisabled && !saveDisabled
    {
      var newImage := project.Undo();
      shownImage := Some(newImage);
      project.SetHasUnsavedChanges(true);
      redoAvailable := true;
      UpdateGui();
    }

    /**
     * `redoButtonAction`, reachable while the redo button is enabled:
     * redo, mark unsaved and keep redo available.
     */
    method RedoAction()
      requires Valid() && project != null && !redoDisabled
      modifies this`shownImage, this`redoAvailable, this`sizeLabel, this`newDimensionsLabel
      modifies this`saveDisabled, this`nameLabel, this`undoDisabled, this`redoDisabled
      modifies project`hasUnsavedChanges, project`stateHistory, project`undoHistory, project.editor`bufferedImage
      ensures Valid()
      ensures old(project.undoHistory) != [] && project.State() == Redone(old(project.State()))
      ensures project.hasUnsavedChanges && redoAvailable && !undoDisabled && !saveDisabled
    {
      var newImage := project.Redo();
      shownImage := Some(newImage);
      project.SetHasUnsavedChanges(true);
      redoAvailable := true;
      UpdateGui();
    }

    /** Undo followed by redo through the buttons restores the project's images and stacks. */
    method UndoThenRedo()
      requires Valid() && project != null && !undoDisabled
      modifies this`shownImage, this`redoAvailable, this`sizeLabel, this`newDimensionsLabel
      modifies this`saveDisabled, this`nameLabel, this`undoDisabled, this`redoDisabled
      modifies project`hasUnsavedChanges, project`stateHistory, project`undoHistory, project.editor`bufferedImage
      ensures Valid() && project.State() == old(project.State()) && redoAvailable
    {
      ghost var before := project.State();
      UndoAction();
      ProjectState.UndoThenRedo(before);
      RedoAction();
    }

    /** Any edit followed by undo through the buttons: the pre-edit image and stack return, and only the edit is redoable. */
    method RotateRightThenUndo()
      requires Valid() && project != null
      modifies this`shownImage, this`redoAvailable, this`sizeLabel, this`newDimensionsLabel
      modifies this`saveDisabled, this`nameLabel, this`undoDisabled, this`redoDisabled
      modifies project`hasUnsavedChanges, project`stateHistory, project`undoHistory, project.editor
      ensures Valid()
      ensures project.State() == History(old(project.editor.bufferedImage), old(project.stateHistory),
                                         [Raster.RotateRight(old(project.editor.bufferedImage))])
      ensures project.hasUnsavedChanges && !redoDisabled
    {
      ghost var before := project.State();
      RotateRightAction();
      CommittedThenUndo(before, Raster.RotateRight(before.current));
      UndoAction();
    }

    /** `saveButtonAction`: save; refresh on success, alert on failure. */
    method SaveAction(write: (Image, string, File) -> IoOutcome) returns (ok: bool)
      requires Valid() && project != null
      modifies this`sizeLabel, this`newDimensionsLabel, this`saveDisabled, this`nameLabel
      modifies this`undoDisabled, this`redoDisabled, this`lastAlert, project`hasUnsavedChanges, project`undoHistory
      ensures Valid() && project.State() == old(project.State())
      ensures ok <==> write(project.editor.bufferedImage, FileExtension(project.imageFile.name), project.imageFile) == Completed
      ensures ok ==> !project.hasUnsavedChanges && saveDisabled && nameLabel == project.Name() && lastAlert == old(lastAlert)
      ensures !ok ==> project.hasUnsavedChanges == old(project.hasUnsavedChanges)
                      && lastAlert == Some(CouldNotSave)
    {
      ok := project.Save(write);
      if ok {
        UpdateGui();
        assert project.undoHistory == old(project.undoHistory);
      } else {
        lastAlert := Some(CouldNotSave);
      }
    }

    /**
     * `saveAsAction` once the dialog returned `chosen` (none when it was
     * cancelled): save as that file; refresh on success, alert on failure.
     */
    method SaveAsAction(chosen: Option<File>, write: (Image, string, File) -> IoOutcome) returns (ok: bool)
      requires Valid() && project != null
      modifies this`sizeLabel, this`newDimensionsLabel, this`saveDisabled, this`nameLabel
      modifies this`undoDisabled, this`redoDisabled, this`lastAlert
      modifies project`imageFile, project`hasUnsavedChanges, project`undoHistory
      ensures Valid() && project.State() == old(project.State())
      ensures chosen == None ==> !ok && project.imageFile == old(project.imageFile) && lastAlert == old(lastAlert)
      ensures chosen.Some? ==>
        (ok <==> write(project.editor.bufferedImage, FileExtension(chosen.value.name), chosen.value) == Completed)
      ensures ok ==> project.imageFile == chosen.value && !project.hasUnsavedChanges && nameLabel == chosen.value.name
      ensures chosen.Some? && !ok ==> project.imageFile == old(project.imageFile)
                                      && lastAlert == Some(CouldNotSave)
    {
      ok := false;
      if chosen.Some? {
        ok := project.SaveAs(chosen.value, write);
        if ok {
          UpdateGui();
          assert project.undoHistory == old(project.undoHistory);
        } else {
          lastAlert := Some(CouldNotSave);
        }
      }
    }

    /**
     * `openFile` once the dialog returned `chosen` (none when it was
     * cancelled); `read` stands for decoding the file, none when that
     * throws. A name that fails the extension check is refused with an
     * alert and nothing else changes. A file that cannot be read leaves no
     * project and an empty viewer, with the editing controls as they
     * were. Otherwise a fresh project on the file is shown, redo is
     * unavailable, the editing controls are enabled and any crop
     * selection is detached.
     */
    method OpenFile(chosen: Option<File>, read: File -> Option<Image>)
      requires Valid()
      modifies this, if cropSelector != null then {cropSelector} else {}
      ensures Valid()
      ensures chosen == None ==> unchanged(this)
      ensures chosen.Some? && !OpenAcceptsAsWritten(chosen.value.name) ==>
        lastAlert == Some(UnsupportedExtension(OpenExtensionAsWritten(chosen.value.name)))
        && project == old(project) && shownImage == old(shownImage) && editingDisabled == old(editingDisabled)
      ensures chosen.Some? && OpenAcceptsAsWritten(chosen.value.name) && read(chosen.value) == None ==>
        project == null && shownImage == None && lastAlert == Some(CouldNotRead)
        && editingDisabled == old(editingDisabled) && front == old(front)
      ensures chosen.Some? && OpenAcceptsAsWritten(chosen.value.name) && read(chosen.value).Some? ==>
        project != null && fresh(project) && fresh(project.editor)
        && project.State() == History(read(chosen.value).value, [], [])
        && project.imageFile == chosen.value && !project.hasUnsavedChanges
        && !redoAvailable && !editingDisabled && saveDisabled && undoDisabled && redoDisabled
        && front == Editing && nameLabel == chosen.value.name
        && (old(cropSelector) != null ==> !old(cropSelector).handlersAttached)
      ensures cropSelector == old(cropSelector)
    {
      if chosen == None {
        return;
      }
      var file := chosen.value;
      if !OpenAcceptsAsWritten(file.name) {
        lastAlert := Some(UnsupportedExtension(OpenExtensionAsWritten(file.name)));
        return;
      }
      var image := read(file);
      if image == None {
        OpenFailed();
      } else {
        Install(file, image.value);
      }
    }

    /** The file could not be read: no project, an empty viewer and an alert. */
    method OpenFailed()
      requires cropSelector != null ==> cropSelector.Valid()
      modifies this`shownImage, this`project, this`lastAlert
      ensures Valid() && project == null && shownImage == None && lastAlert == Some(CouldNotRead)
    {
      shownImage := None;
      project := null;
      lastAlert := Some(CouldNotRead);
    }

    /** The file was read as `image`: show it in a fresh project, enable editing and detach any crop selection. */
    method Install(file: File, image: Image)
      requires cropSelector != null ==> cropSelector.Valid()
      modifies this`shownImage, this`project, this`sizeLabel, this`newDimensionsLabel, this`saveDisabled
      modifies this`nameLabel, this`undoDisabled, this`redoDisabled, this`front, this`redoAvailable, this`editingDisabled
      modifies if cropSelector != null then {cropSelector} else {}
      ensures Valid()
      ensures project != null && fresh(project) && fresh(project.editor)
      ensures project.State() == History(image, [], []) && project.imageFile == file && !project.hasUnsavedChanges
      ensures !redoAvailable && !editingDisabled && saveDisabled && undoDisabled && redoDisabled
      ensures front == Editing && nameLabel == file.name
      ensures cropSelector != null ==> !cropSelector.handlersAttached
    {
      shownImage := Some(image);
      project := new Project(file, image);
      UpdateGui();
      EnableEditing();
    }

    /** The tail of a successful open: editing controls forward and enabled, redo unavailable, crop selection detached. */
    method EnableEditing()
      requires Valid() && project != null && project.undoHistory == []
      modifies this`front, this`redoAvailable, this`editingDisabled
      modifies if cropSelector != null then {cropSelector} else {}
      ensures Valid() && front == Editing && !redoAvailable && !editingDisabled
      ensures cropSelector != null ==> !cropSelector.handlersAttached
    {
      front := Editing;
      redoAvailable := false;
      editingDisabled := false;
      if cropSelector != null {
        cropSelector.Remove();
      }
    }

    /** `cropAction`: bring the crop controls forward and start a selector over the view at `bounds`. */
    method CropAction(bounds: Bounds, fitWidth: real, fitHeight: real)
      requires Valid() && project != null
      requires 0 < project.editor.GetWidth() && 0 < project.editor.GetHeight() && 0.0 < fitWidth && 0.0 < fitHeight
      modifies this`front, this`cropSelector
      ensures Valid() && front == Cropping && cropSelector != null && fresh(cropSelector)
      ensures cropSelector.handlersAttached && cropSelector.confirmDisabled && cropSelector.rectangleBounds == bounds
      ensures cropSelector.imageWidth == project.editor.GetWidth() as real
      ensures cropSelector.imageHeight == project.editor.GetHeight() as real
    {
      front := Cropping;
      cropSelector := new CropSelector(bounds, project.editor.GetWidth() as real, project.editor.GetHeight() as real,
                                       fitWidth, fitHeight);
    }

    /**
     * `confirmCropAction`: snapshot, replace the image with its crop to the
     * selected area (`crop` stands for the cropping operation), commit,
     * detach the selector and bring the editing controls back.
     */
    method ConfirmCropAction(crop: (Image, CropArea) -> Image)
      requires Valid() && project != null && cropSelector != null
      modifies this`shownImage, this`redoAvailable, this`sizeLabel, this`newDimensionsLabel
      modifies this`saveDisabled, this`nameLabel, this`undoDisabled, this`redoDisabled, this`front
      modifies project`hasUnsavedChanges, project`stateHistory, project`undoHistory, project.editor`bufferedImage
      modifies cropSelector`handlersAttached, cropSelector`rectangleShown
      ensures Valid() && front == Editing && !cropSelector.handlersAttached
      ensures project.State() == Committed(old(project.State()), crop(old(project.editor.bufferedImage), cropSelector.crop))
      ensures project.hasUnsavedChanges && !redoAvailable && !undoDisabled && redoDisabled
    {
      project.StoreState();
      var area := CropArea(cropSelector.GetCropX(), cropSelector.GetCropY(),
                           cropSelector.GetCropWidth(), cropSelector.GetCropHeight());
      project.editor.bufferedImage := crop(project.editor.bufferedImage, area);
      FinishEdit();
      cropSelector.Remove();
      front := Editing;
    }

    /** `cancelCropAction`: bring the editing controls back and detach the selector; the image is untouched. */
    method CancelCropAction()
      requires Valid() && cropSelector != null
      modifies this`front, cropSelector`handlersAttached, cropSelector`rectangleShown
      ensures Valid() && front == Editing && !cropSelector.handlersAttached && !cropSelector.rectangleShown
    {
      front := Editing;
      cropSelector.Remove();
    }

    /**
     * `sliderListener`, run when the slider moves to `value`: show the
     * rounded percentage and the resulting size, and disable confirm for
     * an empty result or an unchanged size.
     */
    method SliderMoved(value: real)
      requires project != null
      modifies this`resizeSliderValue, this`resizePercentLabel, this`newDimensionsLabel, this`confirmResizeDisabled
      ensures resizeSliderValue == value && resizePercentLabel == ToJavaInt(Round(value) as real)
      ensures var s := SliderScale(value);
        newDimensionsLabel == (ResizedSide(project.editor.GetWidth(), s), ResizedSide(project.editor.GetHeight(), s))
        && confirmResizeDisabled == ResizeDisabled(project.editor.GetWidth(), project.editor.GetHeight(), s)
    {
      resizeSliderValue := value;
      var sliderValue := Round(value) as real;
      var scale := sliderValue / 100.0;
      var newWidth := ResizedSide(project.editor.GetWidth(), scale);
      var newHeight := ResizedSide(project.editor.GetHeight(), scale);
      resizePercentLabel := ToJavaInt(sliderValue);
      newDimensionsLabel := (newWidth, newHeight);
      confirmResizeDisabled := newWidth < 1 || newHeight < 1 || scale == 1.0;
    }

    /**
     * `resizeAction`: move the slider to its maximum (which runs the
     * listener if the value changes), disable confirm and bring the resize
     * controls forward.
     */
    method ResizeAction()
      requires Valid() && project != null
      modifies this`resizeSliderValue, this`resizePercentLabel, this`newDimensionsLabel, this`confirmResizeDisabled
      modifies this`front
      ensures Valid() && resizeSliderValue == resizeSliderMax && confirmResizeDisabled && front == Resizing
      ensures old(resizeSliderValue) != resizeSliderMax ==>
        resizePercentLabel == ToJavaInt(Round(resizeSliderMax) as real)
        && newDimensionsLabel == (ResizedSide(project.editor.GetWidth(), SliderScale(resizeSliderMax)),
                                  ResizedSide(project.editor.GetHeight(), SliderScale(resizeSliderMax)))
    {
      if resizeSliderValue != resizeSliderMax {
        SliderMoved(resizeSliderMax);
      }
      confirmResizeDisabled := true;
      front := Resizing;
    }

    /**
     * `confirmResizeAction`: snapshot, replace the image with its resize
     * by the rounded slider percentage (`resize` stands for the resizing
     * operation), commit and bring the editing controls back.
     */
    method ConfirmResizeAction(resize: (Image, real) -> Image)
      requires Valid() && project != null
      modifies this`shownImage, this`redoAvailable, this`sizeLabel, this`newDimensionsLabel
      modifies this`saveDisabled, this`nameLabel, this`undoDisabled, this`redoDisabled, this`front
      modifies project`hasUnsavedChanges, project`stateHistory, project`undoHistory, project.editor`bufferedImage
      ensures Valid() && front == Editing
      ensures project.State() == Committed(old(project.State()),
                                           resize(old(project.editor.bufferedImage), SliderScale(resizeSliderValue)))
      ensures project.hasUnsavedChanges && !redoAvailable && !undoDisabled && redoDisabled
    {
      project.StoreState();
      var percentage := Round(resizeSliderValue) as real;
      var scaleFactor := percentage / 100.0;
      project.editor.bufferedImage := resize(project.editor.bufferedImage, scaleFactor);
      FinishEdit();
      front := Editing;
    }

    /** `cancelResizeAction`: bring the editing controls back; the image is untouched. */
    method CancelResizeAction()
      requires Valid()
      modifies this`front
      ensures Valid() && front == Editing
    {
      front := Editing;
    }
  }
}
