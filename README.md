# JIVE image editor: a Dafny model of its editing core

JIVE is a JavaFX desktop image viewer and editor. This project models its
editing and project-state engine, together with the small state machines
around it:

- **`ImageEditor`** holds the current image. It replaces the image with a
  quarter-turn rotation or a mirror image. Each of those is built as a
  `java.awt.geom.AffineTransform` from the integer width and height, so it
  uses Java's truncating `/`.
- **`Project`** adds the open file, two snapshot stacks and the
  unsaved-changes flag. `stateHistory` holds the images undo brings back.
  `undoHistory`, despite its name, holds the images redo brings back.
  `Project` also writes the image through an abstract `ImageIO.write`.
- **`GUI`** is the controller. It sequences every edit (snapshot, edit, mark
  unsaved, drop the redo history). It drives undo and redo, and keeps the
  save, undo and redo buttons and the name label in step with the project.
  It also validates the names of opened files and gates the resize
  confirmation on the slider value.
- **`CropSelector`** is the mouse-driven selection rectangle drawn over the
  displayed image. It is clamped to the image's on-screen bounds, and on
  release it is translated into an image-pixel crop area.
- **`PhotoReel`** is the list of image files in the opened file's directory,
  with a cursor for stepping to the next and previous image.

How the Java is represented:

- Images are pixel grids (`Raster.Image`). A pixel outside the grid reads as
  transparent, so every transform is total.
- Each rotation and flip is the affine map the Java code builds
  (`Affine`). Each destination pixel is proved to be the source pixel whose
  centre the map sends onto it.
- The stacks are sequences whose top is the last element. The classes keep
  the source's fields and update them in place. Each state change is stated
  against a function on a `History` value: `Stored`, `Undone`, `Redone`,
  `Edited` and `Committed`.
- Java's `(int)` cast, `Math.round` and integer `/` are written out in
  `Numerics`.

`GuiController.Gui.Valid` is the controller's invariant. With a project
open, the following hold:

- the viewer shows the project's image;
- the save button is enabled iff there are unsaved changes, and only then
  does the name label carry a "*";
- the undo button is enabled iff `stateHistory` is non-empty;
- the redo button is enabled iff `undoHistory` is non-empty;
- the redo history is empty unless redo is available.

Every action preserves this invariant.

Where the code's behaviour differs from what its names suggest, the model
follows the code:

- Unsaved changes are a boolean flag that undo and redo set. So an undo
  back to the saved image still reports unsaved changes
  (`GuiController.Gui.UndoAction`).
- The redo history is dropped by the controller's `updateGUI`, not by the
  project's edit operation.
- File names are matched case-sensitively, both by the open check and by
  the photo reel.
- `saveAs`, `openFile`'s extension check and the crop selector's mouse
  press are modelled as written, so the defects recorded under
  "## Findings" show in the model's behaviour. The evidently intended
  versions are modelled beside them, with their properties proved.

## Model

| member | source | states |
|---|---|---|
| Numerics.Quot | JIVE/src/jive/java/ImageEditor.java:34-36 | Java integer division truncates toward zero: for each of the four sign combinations the quotient is the magnitude quotient, negated when the signs differ |
| Numerics.Truncate | JIVE/src/jive/java/CropSelector.java:198-201 | the truncation of a double toward zero is the integer at most one unit closer to zero than it, with the same sign |
| Numerics.ToJavaInt | JIVE/src/jive/java/CropSelector.java:198-201 | `(int)` of a double lies in the int range, equals the truncation when that fits, and saturates at the bound it overflows |
| Numerics.Round | JIVE/src/jive/java/GUI.java:412 | `Math.round` gives the integer within half a unit, ties going up |
| FileNames.LastIndexOf | JIVE/src/jive/java/Project.java:69 | `lastIndexOf` is -1 or an index holding the character, with no occurrence after it |
| FileNames.FileExtension | JIVE/src/jive/java/Project.java:67-74 | the extension never contains '.', and is empty for a name without '.' |
| FileNames.ExtensionSplitsName | JIVE/src/jive/java/Project.java:67-74 | a name with a '.' is exactly its stem, a '.', and its extension |
| FileNames.EndsWithDotIff | JIVE/src/jive/java/Project.java:67-74 | for an `ext` without '.', the name ends with "." + ext iff it has a '.' and its extension is ext |
| Affine.ConcatenateApplies | JIVE/src/jive/java/ImageEditor.java:32-36 | applying `t.concatenate(u)` to a point is applying `u`, then `t` |
| Affine.ConcatenateAppliesX | JIVE/src/jive/java/ImageEditor.java:32-36 | the x coordinate of that identity |
| Affine.ConcatenateAppliesY | JIVE/src/jive/java/ImageEditor.java:32-36 | the y coordinate of that identity |
| Affine.ConcatenatedRow | JIVE/src/jive/java/ImageEditor.java:32-36 | one row of a concatenated matrix, applied to a point, is that row applied after the other transform |
| Affine.RotateRightTransform | JIVE/src/jive/java/ImageEditor.java:32-36 | rotateRight's three steps compose to the matrix [0 −1 2·(h/2); 1 0 0]: a clockwise quarter turn shifted along x |
| Affine.RotateLeftTransform | JIVE/src/jive/java/ImageEditor.java:49-53 | rotateLeft's three steps compose to the matrix [0 1 0; −1 0 2·(w/2)]: an anticlockwise quarter turn shifted along y |
| Affine.FlipHorizontalTransform | JIVE/src/jive/java/ImageEditor.java:62-63 | flipHorizontal's scale and translate compose to [−1 0 w; 0 1 0] |
| Affine.FlipVerticalTransform | JIVE/src/jive/java/ImageEditor.java:73-74 | flipVertical's scale and translate compose to [1 0 0; 0 −1 h] |
| Affine.RotateRightMaps | JIVE/src/jive/java/ImageEditor.java:32-36 | rotateRight's transform sends (x, y) to (2·(h/2) − y, x), with integer division |
| Affine.RotateLeftMaps | JIVE/src/jive/java/ImageEditor.java:49-53 | rotateLeft's transform sends (x, y) to (y, 2·(w/2) − x) |
| Affine.FlipHorizontalMaps | JIVE/src/jive/java/ImageEditor.java:62-63 | flipHorizontal's transform sends x to w − x and keeps y |
| Affine.FlipVerticalMaps | JIVE/src/jive/java/ImageEditor.java:73-74 | flipVertical's transform keeps x and sends y to h − y |
| Affine.RotationsInverse | JIVE/src/jive/java/ImageEditor.java:27-58 | rotateLeft's map built for the rotated image undoes rotateRight's map at every point, and the other way round, whatever the parity of the sides |
| Affine.FlipsInvolutive | JIVE/src/jive/java/ImageEditor.java:60-79 | each flip's map is its own inverse |
| Raster.FlipHorizontal | JIVE/src/jive/java/ImageEditor.java:60-69 | the horizontally mirrored grid is well formed and keeps the image's size |
| Raster.FlipVertical | JIVE/src/jive/java/ImageEditor.java:71-79 | the vertically mirrored grid is well formed and keeps the image's size |
| Raster.RotateRight | JIVE/src/jive/java/ImageEditor.java:27-42 | the right-rotated grid is well formed, h wide and w tall |
| Raster.RotateLeft | JIVE/src/jive/java/ImageEditor.java:44-58 | the left-rotated grid is well formed, h wide and w tall |
| Raster.FlipHorizontalSamples | JIVE/src/jive/java/ImageEditor.java:60-69 | flipHorizontal keeps the size; its pixel (x, y) is source pixel (w−1−x, y), whose centre the flip's map sends onto (x, y) |
| Raster.FlipVerticalSamples | JIVE/src/jive/java/ImageEditor.java:71-79 | flipVertical keeps the size; its pixel (x, y) is source pixel (x, h−1−y), whose centre the flip's map sends onto (x, y) |
| Raster.RotateRightSamples | JIVE/src/jive/java/ImageEditor.java:27-42 | rotateRight swaps width and height; its pixel (x, y) is source pixel (y, 2·(h/2)−1−x), whose centre the rotation's map sends onto (x, y) |
| Raster.RotateRightCentre | JIVE/src/jive/java/ImageEditor.java:32-36 | rotateRight's map sends the centre of pixel (y, 2·(h/2)−1−x) onto the centre of (x, y) |
| Raster.RotateLeftSamples | JIVE/src/jive/java/ImageEditor.java:44-58 | rotateLeft swaps width and height; its pixel (x, y) is source pixel (2·(w/2)−1−y, x), whose centre the rotation's map sends onto (x, y) |
| Raster.RotateLeftCentre | JIVE/src/jive/java/ImageEditor.java:49-53 | rotateLeft's map sends the centre of pixel (2·(w/2)−1−y, x) onto the centre of (x, y) |
| Raster.FlipHorizontalTwice | JIVE/src/jive/java/ImageEditor.java:60-69 | flipping horizontally twice gives back the image |
| Raster.FlipVerticalTwice | JIVE/src/jive/java/ImageEditor.java:71-79 | flipping vertically twice gives back the image |
| Raster.RotateLeftUndoesRight | JIVE/src/jive/java/ImageEditor.java:27-58 | for an even height, rotating left after rotating right gives back the image |
| Raster.RotateRightUndoesLeft | JIVE/src/jive/java/ImageEditor.java:27-58 | for an even width, rotating right after rotating left gives back the image |
| Raster.OddHeightRotationLosesRow | JIVE/src/jive/java/ImageEditor.java:27-58 | with h x w destinations and an odd height h, rotating right then left keeps the size and every pixel above the bottom row, but leaves the bottom row transparent, because h/2 rounds down |
| Raster.OverWhiteFlattens | JIVE/src/jive/java/Project.java:83-85 | drawing a pixel over white gives a valid opaque pixel: a transparent one becomes white and an opaque one is unchanged |
| Raster.ChannelOverWhite | JIVE/src/jive/java/Project.java:85 | one channel drawn over white stays in 0..255, is 255 at zero opacity and unchanged at full opacity |
| Raster.FlattenOnWhite | JIVE/src/jive/java/Project.java:83-85 | the copy drawn over white has the image's size and every pixel of it is opaque |
| Editor.ImageEditor.constructor | JIVE/src/jive/java/ImageEditor.java:22-25 | the editor holds the given image |
| Editor.ImageEditor.RotateRight | JIVE/src/jive/java/ImageEditor.java:27-42 | the field becomes the rotated grid, which is returned, and width and height swap |
| Editor.ImageEditor.RotateLeft | JIVE/src/jive/java/ImageEditor.java:44-58 | the field becomes the rotated grid, which is returned, and width and height swap |
| Editor.ImageEditor.FlipHorizontal | JIVE/src/jive/java/ImageEditor.java:60-69 | the field becomes the mirrored grid, which is returned, and the size is kept |
| Editor.ImageEditor.FlipVertical | JIVE/src/jive/java/ImageEditor.java:71-79 | the field becomes the mirrored grid, which is returned, and the size is kept |
| Editor.ImageEditor.Crop | JIVE/src/jive/java/ImageEditor.java:81-85 | the stub returns null and changes nothing |
| Editor.ImageEditor.Resize | JIVE/src/jive/java/ImageEditor.java:87-90 | the stub returns null and changes nothing |
| Editor.ImageEditor.EditMetadata | JIVE/src/jive/java/ImageEditor.java:92-95 | the stub returns null and changes nothing |
| ProjectState.Stored | JIVE/src/jive/java/Project.java:172-175 | storeState keeps the current image and the redo stack, and grows stateHistory by one |
| ProjectState.Undone | JIVE/src/jive/java/Project.java:150-155 | undo needs a non-empty stateHistory and moves one snapshot from stateHistory to undoHistory |
| ProjectState.Redone | JIVE/src/jive/java/Project.java:161-166 | redo needs a non-empty undoHistory and moves one snapshot from undoHistory to stateHistory |
| ProjectState.StoredKeepsSnapshots | JIVE/src/jive/java/Project.java:172-175 | storeState adds one copy of the current image to what the history holds and loses nothing |
| ProjectState.UndoneKeepsSnapshots | JIVE/src/jive/java/Project.java:150-155 | undo loses no image and gains none: the current image and both stacks hold the same images as before, as a multiset |
| ProjectState.RedoneKeepsSnapshots | JIVE/src/jive/java/Project.java:161-166 | redo loses no image and gains none |
| ProjectState.UndoThenRedo | JIVE/src/jive/java/Project.java:150-166 | undo followed by redo restores the current image and both stacks exactly |
| ProjectState.RedoThenUndo | JIVE/src/jive/java/Project.java:150-166 | redo followed by undo restores the current image and both stacks exactly |
| ProjectState.EditThenUndo | JIVE/src/jive/java/Project.java:150-175 | storeState, an edit, then undo brings back the pre-edit image and stateHistory, and leaves the edited image on the redo stack |
| ProjectState.EditedAllGrows | JIVE/src/jive/java/Project.java:172-175 | each edit of a sequence grows stateHistory by one |
| ProjectState.UndoneTimesLast | JIVE/src/jive/java/Project.java:150-155 | n undos shrink stateHistory by n, and the next undo extends the sequence |
| ProjectState.EditsThenUndos | JIVE/src/jive/java/Project.java:150-175 | n edits followed by n undos bring back the image and stateHistory from before them; the edited images lie on the redo stack, latest lowest |
| ProjectState.SaveAsWritesAsWritten | JIVE/src/jive/java/Project.java:81-107 | as written, saveAs performs one or two writes, and any flattened one is in "jpg" or "bmp" |
| ProjectState.SaveAsNeverFlattens | JIVE/src/jive/java/Project.java:81-107 | as written, saveAs performs one unflattened write in the target's own format for every extension, JPG and BMP included |
| ProjectState.SaveAsWrite | JIVE/src/jive/java/Project.java:77-116 | the intended saveAs flattens exactly the extensions JPG, jpg, BMP and bmp, writing them as "jpg" or "bmp"; every other extension is written unflattened in its own format |
| ProjectState.Project.constructor | JIVE/src/jive/java/Project.java:44-52 | a new project holds the decoded image and its file, both stacks are empty, and there are no unsaved changes |
| ProjectState.Project.SetHasUnsavedChanges | JIVE/src/jive/java/Project.java:217-220 | the flag takes the given value |
| ProjectState.Project.StoreState | JIVE/src/jive/java/Project.java:172-175 | the current image is pushed onto stateHistory; the image and undoHistory are unchanged |
| ProjectState.Project.Undo | JIVE/src/jive/java/Project.java:150-155 | needs a non-empty stateHistory; pushes the current image onto undoHistory, pops stateHistory into the current image and returns it |
| ProjectState.Project.Redo | JIVE/src/jive/java/Project.java:161-166 | needs a non-empty undoHistory; pushes the current image onto stateHistory, pops undoHistory into the current image and returns it |
| ProjectState.Project.ClearUndoHistory | JIVE/src/jive/java/GUI.java:375 | the redo stack is emptied and nothing else changes |
| ProjectState.Project.Save | JIVE/src/jive/java/Project.java:55-66 | writes the image to its file in the format its extension names; succeeds iff the write completes, and only success clears the unsaved flag |
| ProjectState.Project.SaveAs | JIVE/src/jive/java/Project.java:77-116 | as written: the image is written unflattened to the new file in the format its extension names, JPG and BMP included; success moves the project to the new file and clears the flag, failure changes nothing |
| ProjectState.Project.SaveAsIntended | JIVE/src/jive/java/Project.java:77-116 | the intended saveAs: the image is written once, flattened on white for JPG and BMP; success moves the project to the new file and clears the flag, failure changes nothing |
| Reel.ImagesOf | JIVE/src/jive/java/PhotoReel.java:33-42 | the kept files are exactly the listed files whose name ends with a compatible suffix, and there are no more of them than listed files |
| Reel.ImagesOfSorted | JIVE/src/jive/java/PhotoReel.java:33-44 | filtering a name-sorted listing leaves it name-sorted |
| Reel.IsCompatible | JIVE/src/jive/java/PhotoReel.java:35-41 | the listFiles filter accepts a name iff it ends with ".jpg", ".png", ".bmp" or ".gif", case-sensitively |
| Reel.ListImages | JIVE/src/jive/java/PhotoReel.java:33-42 | the filtering loop returns exactly the accepted files in listing order |
| Reel.PositionOf | JIVE/src/jive/java/PhotoReel.java:46-55 | the position is the index of the first file with the given name, or 0 when there is none |
| Reel.PhotoReel.constructor | JIVE/src/jive/java/PhotoReel.java:29-56 | the reel holds the compatible files (sorted if the listing is); the cursor is on the first file named like the opened one, or on 0 |
| Reel.PhotoReel.GetNext | JIVE/src/jive/java/PhotoReel.java:65-76 | returns a file iff hasNext held; it then advances by one and returns the new entry, otherwise it stays; the cursor stays in range |
| Reel.PhotoReel.GetPrevious | JIVE/src/jive/java/PhotoReel.java:85-96 | returns a file iff hasPrevious held; it then steps back by one and returns the new entry, otherwise it stays; the cursor stays in range |
| Reel.NextThenPrevious | JIVE/src/jive/java/PhotoReel.java:65-96 | the step forward succeeds iff hasNext held; a successful getNext followed by getPrevious leaves the cursor where it was |
| Selection.DisplayKeepsAspect | JIVE/src/jive/java/CropSelector.java:81-85 | the display size is positive, fits the view, touches it on one side, and has the image's aspect ratio |
| Selection.DragAxis | JIVE/src/jive/java/CropSelector.java:145-178 | on one axis, an in-bounds drag spans from press point to mouse; past the far bound the far edge is pinned to it; before the near bound the start is pinned and the previous length kept |
| Selection.DragStaysWithin | JIVE/src/jive/java/CropSelector.java:145-178 | a drag from a press inside the bounds keeps the rectangle inside the bounds |
| Selection.ScaleAxis | JIVE/src/jive/java/CropSelector.java:197-216 | a selection at a non-negative offset with a non-negative length maps to a non-negative pixel offset and length |
| Selection.TruncatesFitWithin | JIVE/src/jive/java/CropSelector.java:198-201 | two non-negative lengths that fit a bound still fit after truncation |
| Selection.CastsFitWithin | JIVE/src/jive/java/CropSelector.java:198-201 | two non-negative lengths that fit a bound still fit after `(int)` casts |
| Selection.ScaleAxisWithinImage | JIVE/src/jive/java/CropSelector.java:197-216 | a selection within a display at most full size maps to a pixel span within the image |
| Selection.CorrectionFactor | JIVE/src/jive/java/CropSelector.java:206 | the correction factor is positive and takes the display size to the image size |
| Selection.ScaledSpanFits | JIVE/src/jive/java/CropSelector.java:206-208 | pixel offsets that fit the display still fit the image after scaling by the correction factor and casting |
| Selection.ScaledTruncatesFit | JIVE/src/jive/java/CropSelector.java:206-208 | the same, for the truncated scaled values |
| Selection.ScaledFitsWithin | JIVE/src/jive/java/CropSelector.java:206-208 | scaling two lengths that fit the display by the factor makes them fit the image |
| Selection.ScaleAxisHalfSizeDisplay | JIVE/src/jive/java/CropSelector.java:204-216 | on a display half the image's size, a selection at offset 10 of length 50 becomes pixels 20 to 120 |
| Selection.CropSelector.constructor | JIVE/src/jive/java/CropSelector.java:56-86 | a new selector has its handlers attached, confirm disabled, no rectangle, the given bounds and image size, and the display size fitted to the view |
| Selection.CropSelector.MousePress | JIVE/src/jive/java/CropSelector.java:88-132 | a press hides the rectangle and disables confirm; a press outside the bounds marks an illegal start and zeroes the rectangle; one inside starts a zero-size rectangle at the press point and stores the new bounds only when their top-left corner moved |
| Selection.CropSelector.MousePressRefreshing | JIVE/src/jive/java/CropSelector.java:88-132 | the intended press: as above, but a legal press always stores the view's current bounds, so the press point and the new rectangle lie inside them |
| Selection.CropSelector.MouseDrag | JIVE/src/jive/java/CropSelector.java:134-180 | after an illegal start, or with the secondary button, nothing changes; otherwise each axis follows DragAxis against the stored bounds, and the rectangle stays inside them whenever the press point lies inside them |
| Selection.CropSelector.MouseRelease | JIVE/src/jive/java/CropSelector.java:182-220 | an empty rectangle is removed and the crop area kept; otherwise the crop area is the scaled, truncated selection and confirm is enabled |
| Selection.CropSelector.PaneResized | JIVE/src/jive/java/CropSelector.java:222-228 | a pane resize hides the rectangle, disables confirm and recomputes the display size |
| Selection.CropSelector.Remove | JIVE/src/jive/java/CropSelector.java:233-239 | the handlers are detached and the rectangle hidden |
| Selection.StaleBoundsDrag | JIVE/src/jive/java/CropSelector.java:114-120 | as written, a press after the view grew with its top-left corner fixed keeps the old bounds, and a drag past them leaves a rectangle of width −50 outside them |
| Selection.FreshBoundsDrag | JIVE/src/jive/java/CropSelector.java:114-120 | with the intended press, the same gestures select the 10 x 10 square inside the current bounds |
| Selection.PressThenDragRefreshing | JIVE/src/jive/java/CropSelector.java:88-180 | with the intended press, a legal press followed by a drag always leaves the rectangle inside the view's bounds at the press |
| GuiController.Committed | JIVE/src/jive/java/GUI.java:184-192 | a committed edit pushes the old image onto stateHistory, installs the edited image and empties the redo stack |
| GuiController.CommittedThenUndo | JIVE/src/jive/java/GUI.java:166-192 | an undo right after a committed edit brings back the old image and stateHistory, and only the edit is redoable |
| GuiController.OpenExtensionAsWritten | JIVE/src/jive/java/GUI.java:307-309 | as written, openFile's extension is the file extension when the name has a '.', and the whole name when it has none |
| GuiController.OpenAcceptsAsWritten | JIVE/src/jive/java/GUI.java:306-315 | as written, the open check accepts only names whose extension, or whole name when there is no '.', has three characters |
| GuiController.DotlessNamePassesAsWritten | JIVE/src/jive/java/GUI.java:306-315 | as written, a file named "png", with no '.', passes the open check although the photo reel would not take it as an image |
| GuiController.ShortNameIsNoImage | JIVE/src/jive/java/PhotoReel.java:20 | a name shorter than four characters ends with none of the reel's suffixes |
| GuiController.OpenAccepts | JIVE/src/jive/java/GUI.java:306-315 | the intended open check accepts only names with a '.' and a three-character extension |
| GuiController.OpenAcceptsAgreesWithDot | JIVE/src/jive/java/GUI.java:306-315 | on names with a '.', the corrected and the as-written checks agree |
| GuiController.PatternIffSuffix | JIVE/src/jive/java/GUI.java:38 | "*." + ext is an open pattern iff "." + ext is one of the reel's suffixes |
| GuiController.OpenAcceptedIsImageName | JIVE/src/jive/java/GUI.java:306-315 | a name the corrected open check accepts ends with one of the reel's suffixes |
| GuiController.ImageNameOpenAccepted | JIVE/src/jive/java/GUI.java:306-315 | a name ending with one of the reel's suffixes passes the corrected open check |
| GuiController.SuffixIsDotExtension | JIVE/src/jive/java/PhotoReel.java:20 | each reel suffix is a '.' followed by a three-character extension without '.' |
| GuiController.OpenAcceptsIffImageName | JIVE/src/jive/java/GUI.java:306-315 | the corrected open check accepts exactly the names the photo reel keeps |
| GuiController.SliderScale | JIVE/src/jive/java/GUI.java:412-413 | the scale is the slider value rounded to whole percent: within half a percent of it, and in [0, 1] for a slider in [0, 100] |
| GuiController.ResizedSide | JIVE/src/jive/java/GUI.java:414-415 | for a non-negative scale, a new side is a non-negative whole number at most the exact scaled size |
| GuiController.ResizeDisabled | JIVE/src/jive/java/GUI.java:419-422 | confirm can be enabled only for a positive scale other than 1 |
| GuiController.ResizedSideShrinks | JIVE/src/jive/java/GUI.java:414-415 | a scale in [0, 1) gives a new side that is non-negative and strictly smaller |
| GuiController.TruncatedProductBelow | JIVE/src/jive/java/GUI.java:414-415 | truncating size · scale for a scale in [0, 1) gives a whole number below the size |
| GuiController.ResizeEnabledIff | JIVE/src/jive/java/GUI.java:410-423 | for a slider in [0, 100], confirm is enabled iff both new sides are at least 1 and the size differs from the current one |
| GuiController.Gui.constructor | JIVE/src/jive/java/GUI.java:44 | before any file is opened there is no project, redo is unavailable, and every editing, save, undo and redo control is disabled |
| GuiController.Gui.UpdateGui | JIVE/src/jive/java/GUI.java:353-381 | re-establishes the invariant: size labels, save button and "*" follow the project, undo and redo buttons follow the stacks, and the redo stack is emptied unless redo is available |
| GuiController.Gui.ShowSizeAndName | JIVE/src/jive/java/GUI.java:355-367 | both size labels show the image size; save is enabled and the name carries "*" iff there are unsaved changes |
| GuiController.Gui.ShowHistoryButtons | JIVE/src/jive/java/GUI.java:369-380 | undo is enabled iff stateHistory is non-empty; the redo stack is emptied unless redo is available; redo is enabled iff it is then non-empty |
| GuiController.Gui.FinishEdit | JIVE/src/jive/java/GUI.java:188-191 | the tail of an edit shows the new image, marks it unsaved, ends redo availability and empties the redo stack |
| GuiController.Gui.RotateRightAction | JIVE/src/jive/java/GUI.java:184-192 | the project is the committed rotate-right of its old state; unsaved, undo enabled, redo disabled |
| GuiController.Gui.RotateLeftAction | JIVE/src/jive/java/GUI.java:194-202 | the project is the committed rotate-left of its old state; unsaved, undo enabled, redo disabled |
| GuiController.Gui.FlipHorizontalAction | JIVE/src/jive/java/GUI.java:204-212 | the project is the committed horizontal flip of its old state; unsaved, undo enabled, redo disabled |
| GuiController.Gui.FlipVerticalAction | JIVE/src/jive/java/GUI.java:214-222 | the project is the committed vertical flip of its old state; unsaved, undo enabled, redo disabled |
| GuiController.Gui.UndoAction | JIVE/src/jive/java/GUI.java:166-173 | with undo enabled, the project is undone, marked unsaved even when back at the saved image, and redo becomes available and enabled |
| GuiController.Gui.RedoAction | JIVE/src/jive/java/GUI.java:175-182 | with redo enabled, the project is redone, marked unsaved, redo stays available and undo is enabled |
| GuiController.Gui.UndoThenRedo | JIVE/src/jive/java/GUI.java:166-182 | pressing undo then redo restores the project's image and both stacks |
| GuiController.Gui.RotateRightThenUndo | JIVE/src/jive/java/GUI.java:166-192 | an edit then undo through the buttons brings back the old image and stateHistory, with only the edit redoable |
| GuiController.Gui.SaveAction | JIVE/src/jive/java/GUI.java:158-164 | succeeds iff the write completes; success clears the "*" and disables save; failure shows the could-not-save alert and keeps the flag |
| GuiController.Gui.SaveAsAction | JIVE/src/jive/java/GUI.java:140-148 | a cancelled dialog changes nothing; otherwise, as written, the image is written unflattened in the chosen extension's format; success moves the project to the chosen file and relabels it, and failure shows the could-not-save alert |
| GuiController.Gui.OpenFile | JIVE/src/jive/java/GUI.java:286-347 | the as-written extension check decides: a refused name alerts with its extension and keeps the project; an unreadable file leaves no project and an empty viewer; otherwise a fresh clean project is shown, editing is enabled, redo is unavailable and any crop selector is detached |
| GuiController.Gui.OpenFailed | JIVE/src/jive/java/GUI.java:324-331 | an unreadable file leaves no project, an empty viewer and the could-not-read alert |
| GuiController.Gui.Install | JIVE/src/jive/java/GUI.java:317-345 | a readable file becomes a fresh project with empty stacks and no unsaved changes, shown with every history button disabled and editing enabled |
| GuiController.Gui.EnableEditing | JIVE/src/jive/java/GUI.java:333-345 | the editing controls come forward enabled, redo becomes unavailable and any crop selector is detached |
| GuiController.Gui.CropAction | JIVE/src/jive/java/GUI.java:224-228 | the crop controls come forward and a fresh selector is attached over the current image's size with confirm disabled |
| GuiController.Gui.ConfirmCropAction | JIVE/src/jive/java/GUI.java:230-244 | the project is the committed crop of its old image to the selected area; the selector is detached and the editing controls return |
| GuiController.Gui.CancelCropAction | JIVE/src/jive/java/GUI.java:246-250 | the editing controls return and the selector is detached; the project is untouched |
| GuiController.Gui.SliderMoved | JIVE/src/jive/java/GUI.java:410-423 | the labels show the rounded percentage and the truncated new size; confirm is disabled iff a side would be below 1 or the scale is exactly 1 |
| GuiController.Gui.ResizeAction | JIVE/src/jive/java/GUI.java:252-257 | the slider moves to its maximum (running the listener if it moved), confirm is disabled and the resize controls come forward |
| GuiController.Gui.ConfirmResizeAction | JIVE/src/jive/java/GUI.java:259-270 | the project is the committed resize of its old image by the rounded slider percentage over 100; the editing controls return |
| GuiController.Gui.CancelResizeAction | JIVE/src/jive/java/GUI.java:272-275 | the editing controls return and the project is untouched |

## Left out

- Pixel decoding and encoding (`ImageIO.read`, `ImageIO.write`, the JavaFX `Image` constructor) are library I/O. The write is a function parameter that completes or throws. Decoding is one `read` parameter that yields an image or nothing, and it stands for both decoders `openFile` uses.
- `ImageIO.read` returning null, and `ImageIO.write` returning false for a format without a writer, are not modelled. In the code the first dereferences null later; the second still counts as a successful save.
- `Raster.RotateRight`: bilinear resampling and the library's choice of destination size are not modelled. Both rotations take an image of h x w, sampled at the pixel centres the affine map sends exactly onto destination centres. The library sizes the destination from the transformed bounding box, which for an odd side does not start at 0. For an image one pixel tall (or, rotating left, one pixel wide) that box leaves no pixel and the library throws; the model does not capture this.
- Colour-model promotion by `AffineTransformOp`, `dropAlphaChannel` and `convertColorspace` are left out. The last two are not called.
- `Raster.OverWhiteFlattens`: `drawImage`'s compositing arithmetic is taken as integer source-over blending on white. The library's rounding may differ by one level per channel.
- Doubles are modelled as exact reals, so there is no IEEE rounding, NaN or infinity.
- `Selection.CropSelector.constructor`, `Selection.CropSelector.PaneResized` and `GuiController.Gui.CropAction` require a positive image size and a positive fit size. For an empty image the code would divide by zero.
- The on-screen bounds of the selection rectangle (`getBoundsInParent`, which include the stroke) are inputs of `MouseRelease`. The view's bounds and fit size are inputs of the press, the constructor and the resize listener.
- `Reel.PhotoReel.constructor` does not sort. The directory listing is an input, and the reel is proved sorted when that listing is name-sorted. `File.compareTo` orders by platform-dependent path comparison, and `listFiles` can return null; neither is modelled.
- `FileNames.NameAtMost` orders names by character code, not by UTF-16 code units with the platform's case rules.
- Crop and resize have no implementation in the code: `ImageEditor.crop` and `resize` are null-returning stubs, and `GUI` calls a four-argument `crop` that does not exist. The controller's crop and resize are function parameters that replace the image. As written, `confirmResizeAction` (GUI.java lines 259-270) never reaches the commit that `GuiController.Gui.ConfirmResizeAction` models. It first pushes a snapshot with `storeState`, then passes the stub's null to `SwingFXUtils.toFXImage`, which throws. So the view is not updated and the unsaved flag is not set, but the extra snapshot stays on `stateHistory`.
- Widgets are boolean and value fields. Showing alerts (including the window blur), panel layout and the image viewer's scaling are left out. Alerts are recorded as the last alert shown.
- The slider's maximum comes from the FXML layout, which is not part of this model, so it is a constructor parameter.
- `GuiController.Gui.SaveAsAction` does not model the dialog's extension filters or initial name. It starts once the dialog has returned. The code that builds the filters calls a zero-argument `getFileExtension` that `Project` does not declare.
- After a failed open, the code keeps the editing buttons enabled with a null project, and pressing one would fail. The model's actions require an open project.
- Help, metadata editing, brightness and contrast have no behaviour in the code and are left out. `Controller.java`, `ImageViewer.java`, `UserManual.java` and `Main.java` are not part of this model.
- The listeners' registration and the JavaFX event dispatch are not modelled. Each handler is a method that is called directly, and `handlersAttached` records whether the crop selector's mouse handlers are still registered.

## Findings

| source | as written | input that shows it | evidently intended | confidence | as-written member | corrected member |
|---|---|---|---|---|---|---|
| JIVE/src/jive/java/Project.java:81-107 | `saveAs` compares the computed extension with "JPG", "jpg", "BMP" and "bmp" using `==`. That is reference equality, and a fresh `substring` is never one of those literals, so the flattening branches never run. Also, the second `if` has an `else` the first lacks, so even a matching JPG would then be written a second time unflattened | saving as `photo.jpg` an image with transparency: it is handed to the JPEG writer with its alpha channel | JPG and BMP targets are drawn over white and written once as "jpg" or "bmp"; other extensions are written as they are | high, not executed | `ProjectState.SaveAsWritesAsWritten`, shown by `ProjectState.SaveAsNeverFlattens` and performed by `ProjectState.Project.SaveAs` | `ProjectState.SaveAsWrite`, whose contract states the intended flattening, performed by `ProjectState.Project.SaveAsIntended` |
| JIVE/src/jive/java/GUI.java:306-315 | `openFile` takes the extension as `substring(lastIndexOf(".") + 1)`. For a name without '.' that is the whole name, so a file named `png` passes the check | a file named `png` | only names with a '.' whose extension is jpg, png, bmp or gif are accepted, which is exactly the names the photo reel keeps | high, not executed | `GuiController.OpenAcceptsAsWritten`, shown by `GuiController.DotlessNamePassesAsWritten` | `GuiController.OpenAccepts`, proved by `GuiController.OpenAcceptsIffImageName` |
| JIVE/src/jive/java/CropSelector.java:114-120 | the mouse press stores the view's new bounds only when their minimum x or minimum y changed, so a view that grew or shrank with its top-left corner fixed leaves stale maximum bounds, against which the drag pins the far edges (lines 149-150 and 168-178) | stored bounds 0..100 on both axes, a press at (150, 150) in a view now 0..200, then a drag to (160, 160): the rectangle gets width and height 100 − 150 = −50 | every legal press stores all four of the view's current bounds, so a drag keeps the rectangle inside the view | medium, not executed; needs the view to change size with its top-left corner fixed, as when the window grows while the image fills it | `Selection.CropSelector.MousePress`, shown by `Selection.StaleBoundsDrag` | `Selection.CropSelector.MousePressRefreshing`, proved by `Selection.PressThenDragRefreshing` and `Selection.FreshBoundsDrag` |
