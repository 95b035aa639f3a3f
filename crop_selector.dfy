/**
 * `CropSelector`: the mouse-driven rectangle drawn over the displayed
 * image, kept within the image's on-screen bounds, and its translation
 * into an image-pixel crop area. Coordinates are reals; Java's `(int)`
 * casts are `ToJavaInt`.
 */
module Selection {
  import opened Numerics

  /** A JavaFX `Bounds` box (`getMinX()` ... `getMaxY()`). */
  datatype Bounds = Bounds(minX: real, minY: real, maxX: real, maxY: real)

  /** `Bounds.contains(x, y)`: false for an empty box, otherwise edges included. */
  predicate Contains(b: Bounds, x: real, y: real) {
    !(b.maxX < b.minX || b.maxY < b.minY) && b.minX <= x <= b.maxX && b.minY <= y <= b.maxY
  }

  /** The selection rectangle's geometry (the `Rectangle` node's x, y, width and height). */
  datatype Rect = Rect(x: real, y: real, width: real, height: real)

  /** The crop area handed to the controller, in image pixels. */
  datatype CropArea = CropArea(x: int, y: int, width: int, height: int)

  /** One axis of the rectangle: where it starts and how long it is. */
  datatype Span = Span(start: real, length: real)

  /** One axis of the crop area, in image pixels. */
  datatype PixelSpan = PixelSpan(start: int, length: int)

  function Min(a: real, b: real): real { if a <= b then a else b }
  function Max(a: real, b: real): real { if a <= b then b else a }
  function Abs(a: real): real { if a < 0.0 then -a else a }

  /** Displayed width of an image with aspect ratio `aspectRatio` fitted into `fitWidth` x `fitHeight`. */
  function DisplayWidth(fitWidth: real, fitHeight: real, aspectRatio: real): real {
    Min(fitWidth, fitHeight * aspectRatio)
  }

  /** Displayed height of an image with aspect ratio `aspectRatio` fitted into `fitWidth` x `fitHeight`. */
  function DisplayHeight(fitWidth: real, fitHeight: real, aspectRatio: real): real
    requires aspectRatio != 0.0
  {
    Min(fitHeight, fitWidth / aspectRatio)
  }

  /**
   * The display size is the largest box of the image's proportions that
   * fits: positive, within the fit size, touching it on one side, and
   * with the image's aspect ratio.
   */
  lemma DisplayKeepsAspect(fitWidth: real, fitHeight: real, imageWidth: real, imageHeight: real)
    requires 0.0 < fitWidth && 0.0 < fitHeight && 0.0 < imageWidth && 0.0 < imageHeight
    ensures var a := imageWidth / imageHeight;
      var w, h := DisplayWidth(fitWidth, fitHeight, a), DisplayHeight(fitWidth, fitHeight, a);
      0.0 < w <= fitWidth && 0.0 < h <= fitHeight && (w == fitWidth || h == fitHeight)
      && w * imageHeight == h * imageWidth
  {
    var a := imageWidth / imageHeight;
    assert a * imageHeight == imageWidth;
    assert 0.0 < a;
    if fitWidth <= fitHeight * a {
      assert fitWidth / a <= fitHeight;
      assert fitWidth / a * a == fitWidth;
      assert fitWidth * imageHeight == fitWidth / a * a * imageHeight;
    } else {
      assert fitHeight < fitWidth / a;
    }
  }

  /**
   * One axis of a drag: the rectangle from the press point `start` to the
   * mouse, with the near edge pinned to `minBound` (keeping the previous
   * length) when the span would start before it, and the far edge pinned
   * to `maxBound` when the mouse is past it.
   */
  function DragAxis(start: real, mouse: real, minBound: real, maxBound: real, previous: Span): (s: Span)
    ensures minBound <= Min(start, mouse) && mouse <= maxBound ==>
      s.start == Min(start, mouse) && s.start + s.length == Max(start, mouse)
    ensures minBound <= Min(start, mouse) && maxBound < mouse ==> s.start + s.length == maxBound
    ensures Min(start, mouse) < minBound ==> s.start == minBound
    ensures Min(start, mouse) < minBound && mouse <= maxBound ==> s.length == previous.length
  {
    var newStart := Min(start, mouse);
    var length := Abs(mouse - start);
    var maxLength := maxBound - newStart;
    var s := if newStart < minBound then Span(minBound, previous.length) else Span(newStart, length);
    if mouse > maxBound then s.(length := maxLength) else s
  }

  /** A span lies within [minBound, maxBound]. */
  predicate Within(s: Span, minBound: real, maxBound: real) {
    minBound <= s.start && 0.0 <= s.length && s.start + s.length <= maxBound
  }

  /** A drag that started within the bounds keeps a span that was within them within them. */
  lemma DragStaysWithin(start: real, mouse: real, minBound: real, maxBound: real, previous: Span)
    requires minBound <= start <= maxBound
    requires Within(previous, minBound, maxBound)
    ensures Within(DragAxis(start, mouse, minBound, maxBound, previous), minBound, maxBound)
  {
  }

  /**
   * One axis of a released selection in image pixels: the offset from the
   * image's on-screen edge and the length, truncated, then scaled by
   * imageSize / displaySize and truncated again when the image is shown
   * smaller than its size.
   */
  function ScaleAxis(offset: real, length: real, imageSize: real, displaySize: real): (p: PixelSpan)
    requires 0.0 < displaySize
    ensures 0.0 <= offset && 0.0 <= length ==> 0 <= p.start && 0 <= p.length
  {
    var start, len := ToJavaInt(offset), ToJavaInt(length);
    if displaySize < imageSize then
      var correctionFactor := imageSize / displaySize;
      PixelSpan(Scaled(start, correctionFactor), Scaled(len, correctionFactor))
    else PixelSpan(start, len)
  }

  /** `(int) (n * factor)`. */
  function Scaled(n: int, factor: real): int {
    ToJavaInt(n as real * factor)
  }

  /** Two non-negative lengths that fit together within `bound` still do after truncation. */
  lemma TruncatesFitWithin(a: real, b: real, bound: real)
    requires 0.0 <= a && 0.0 <= b && a + b <= bound
    ensures 0 <= Truncate(a) && 0 <= Truncate(b) && (Truncate(a) + Truncate(b)) as real <= bound
  {
  }

  /** Two non-negative lengths that fit together within `bound` still do after `(int)` casts. */
  lemma CastsFitWithin(a: real, b: real, bound: real)
    requires 0.0 <= a && 0.0 <= b && a + b <= bound < IntMax as real
    ensures 0 <= ToJavaInt(a) && 0 <= ToJavaInt(b) && (ToJavaInt(a) + ToJavaInt(b)) as real <= bound
  {
    TruncatesFitWithin(a, b, bound);
  }

  /**
   * A selection within the displayed image, shown at most at full size,
   * maps to a pixel span within the image.
   */
  lemma ScaleAxisWithinImage(offset: real, length: real, imageSize: real, displaySize: real)
    requires 0.0 <= offset && 0.0 <= length && offset + length <= displaySize
    requires 0.0 < displaySize <= imageSize < IntMax as real
    ensures var p := ScaleAxis(offset, length, imageSize, displaySize);
      0 <= p.start && 0 <= p.length && (p.start + p.length) as real <= imageSize
  {
    CastsFitWithin(offset, length, displaySize);
    var start, len := ToJavaInt(offset), ToJavaInt(length);
    if displaySize < imageSize {
      CorrectionFactor(imageSize, displaySize);
      ScaledSpanFits(start, len, imageSize / displaySize, displaySize, imageSize);
    }
  }

  /** The correction factor is positive and scales the display size to the image size. */
  lemma CorrectionFactor(imageSize: real, displaySize: real)
    requires 0.0 < displaySize < imageSize
    ensures 0.0 < imageSize / displaySize && displaySize * (imageSize / displaySize) == imageSize
  {
  }

  /** Pixel lengths that fit the display, scaled by a factor taking the display size to the image size, fit the image. */
  lemma ScaledSpanFits(start: int, len: int, f: real, displaySize: real, imageSize: real)
    requires 0 <= start && 0 <= len && (start + len) as real <= displaySize
    requires 0.0 < f && displaySize * f == imageSize && imageSize < IntMax as real
    ensures 0 <= Scaled(start, f) && 0 <= Scaled(len, f) && (Scaled(start, f) + Scaled(len, f)) as real <= imageSize
  {
    ScaledTruncatesFit(start, len, f, displaySize, imageSize);
  }

  /** The same, for the truncated products. */
  lemma ScaledTruncatesFit(start: int, len: int, f: real, displaySize: real, imageSize: real)
    requires 0 <= start && 0 <= len && (start + len) as real <= displaySize
    requires 0.0 < f && displaySize * f == imageSize
    ensures 0 <= Truncate(start as real * f) && 0 <= Truncate(len as real * f)
      && (Truncate(start as real * f) + Truncate(len as real * f)) as real <= imageSize
  {
    ScaledFitsWithin(start as real, len as real, f, displaySize, imageSize);
    TruncatesFitWithin(start as real * f, len as real * f, imageSize);
  }

  /** Scaling two lengths that fit within `displaySize` by `f` fits them within `displaySize * f`. */
  lemma ScaledFitsWithin(a: real, b: real, f: real, displaySize: real, imageSize: real)
    requires 0.0 <= a && 0.0 <= b && a + b <= displaySize && 0.0 < f && displaySize * f == imageSize
    ensures 0.0 <= a * f && 0.0 <= b * f && a * f + b * f <= imageSize
  {
    assert a * f + b * f == (a + b) * f;
    assert (a + b) * f <= displaySize * f;
  }

  /** A drag across (10, 60) on a display half the image's size selects pixels 20 to 120. */
  lemma ScaleAxisHalfSizeDisplay()
    ensures ScaleAxis(10.0, 50.0, 200.0, 100.0) == PixelSpan(20, 100)
  {
    assert ToJavaInt(10.0) == 10 && ToJavaInt(50.0) == 50;
    assert ToJavaInt(20.0) == 20 && ToJavaInt(100.0) == 100;
  }

  class CropSelector {
    /** Whether the mouse handlers are registered on the pane. */
    var handlersAttached: bool
    /** Whether the rectangle is a child of the pane (drawn). */
    var rectangleShown: bool
    /** The disabled state of the confirm-crop button. */
    var confirmDisabled: bool
    var rectangle: Rect
    var illegalStart: bool
    var startX: real
    var startY: real
    /** The image's on-screen bounds as last stored (`rectangleMinBoundX` ... `rectangleMaxBoundY`). */
    var rectangleBounds: Bounds
    const imageWidth: real
    const imageHeight: real
    const aspectRatio: real
    var displayWidth: real
    var displayHeight: real
    var crop: CropArea

    /** The press point lies within the stored bounds. */
    predicate StartInside()
      reads this
    {
      rectangleBounds.minX <= startX <= rectangleBounds.maxX && rectangleBounds.minY <= startY <= rectangleBounds.maxY
    }

    /** The rectangle lies within the stored bounds. */
    predicate RectangleInside()
      reads this
    {
      Within(Span(rectangle.x, rectangle.width), rectangleBounds.minX, rectangleBounds.maxX)
      && Within(Span(rectangle.y, rectangle.height), rectangleBounds.minY, rectangleBounds.maxY)
    }

    /**
     * The display size is positive and keeps the image's proportions, and
     * a rectangle drawn from a press inside the stored bounds stays inside
     * them.
     */
    ghost predicate Valid()
      reads this
    {
      0.0 < imageWidth && 0.0 < imageHeight && aspectRatio == imageWidth / imageHeight
      && 0.0 < displayWidth && 0.0 < displayHeight
      && (!illegalStart && StartInside() ==> RectangleInside())
    }

    /**
     * A selector over an image of `imageWidth` x `imageHeight` pixels whose
     * view is fitted into `fitWidth` x `fitHeight` and lies at `bounds`.
     */
    constructor (bounds: Bounds, imageWidth: real, imageHeight: real, fitWidth: real, fitHeight: real)
      requires 0.0 < imageWidth && 0.0 < imageHeight && 0.0 < fitWidth && 0.0 < fitHeight
      ensures Valid()
      ensures this.imageWidth == imageWidth && this.imageHeight == imageHeight
      ensures handlersAttached && confirmDisabled && !rectangleShown && !illegalStart
      ensures rectangle == Rect(0.0, 0.0, 0.0, 0.0) && rectangleBounds == bounds
      ensures displayWidth == DisplayWidth(fitWidth, fitHeight, imageWidth / imageHeight)
      ensures displayHeight == DisplayHeight(fitWidth, fitHeight, imageWidth / imageHeight)
      ensures crop == CropArea(0, 0, 0, 0)
    {
      handlersAttached := true;
      rectangleShown := false;
      confirmDisabled := true;
      rectangle := Rect(0.0, 0.0, 0.0, 0.0);
      illegalStart := false;
      startX, startY := 0.0, 0.0;
      rectangleBounds := bounds;
      this.imageWidth := imageWidth;
      this.imageHeight := imageHeight;
      aspectRatio := imageWidth / imageHeight;
      displayWidth := DisplayWidth(fitWidth, fitHeight, imageWidth / imageHeight);
      displayHeight := DisplayHeight(fitWidth, fitHeight, imageWidth / imageHeight);
      crop := CropArea(0, 0, 0, 0);
      new;
      DisplayKeepsAspect(fitWidth, fitHeight, imageWidth, imageHeight);
    }

    /**
     * Mouse press at (x, y) while the image lies at `bounds`. Hides the
     * rectangle and disables confirm; a primary press outside the image
     * marks an illegal start and zeroes the rectangle, one inside starts a
     * zero-size rectangle there, refreshing the stored bounds when their
     * top-left corner moved.
     */
    method MousePress(x: real, y: real, secondaryDown: bool, bounds: Bounds)
      requires Valid()
      modifies this`rectangleShown, this`confirmDisabled, this`illegalStart, this`startX, this`startY
      modifies this`rectangle, this`rectangleBounds
      ensures Valid()
      ensures !handlersAttached ==>
        rectangleShown == old(rectangleShown) && confirmDisabled == old(confirmDisabled)
        && illegalStart == old(illegalStart) && rectangle == old(rectangle)
      ensures handlersAttached ==> !rectangleShown || (!secondaryDown && Contains(bounds, x, y))
      ensures handlersAttached ==> confirmDisabled
      ensures (!handlersAttached || secondaryDown) ==>
        illegalStart == old(illegalStart) && rectangle == old(rectangle)
        && startX == old(startX) && startY == old(startY) && rectangleBounds == old(rectangleBounds)
      ensures handlersAttached && !secondaryDown && !Contains(bounds, x, y) ==>
        illegalStart && rectangle == old(rectangle).(width := 0.0, height := 0.0)
        && startX == old(startX) && startY == old(startY) && rectangleBounds == old(rectangleBounds)
      ensures handlersAttached && !secondaryDown && Contains(bounds, x, y) ==>
        !illegalStart && rectangleShown && startX == x && startY == y && rectangle == Rect(x, y, 0.0, 0.0)
        && rectangleBounds == (if old(rectangleBounds).minX != bounds.minX || old(rectangleBounds).minY != bounds.minY
                               then bounds else old(rectangleBounds))
      ensures handlersAttached && !secondaryDown && Contains(bounds, x, y) && rectangleBounds == bounds ==>
        StartInside() && RectangleInside()
    {
      if !handlersAttached {
        return;
      }
      rectangleShown := false;
      confirmDisabled := true;
      if secondaryDown {
        return;
      }
      if !Contains(bounds, x, y) {
        illegalStart := true;
        rectangle := rectangle.(width := 0.0, height := 0.0);
        return;
      }
      illegalStart := false;
      if rectangleBounds.minX != bounds.minX || rectangleBounds.minY != bounds.minY {
        rectangleBounds := bounds;
      }
      startX, startY := x, y;
      rectangle := Rect(startX, startY, 0.0, 0.0);
      rectangleShown := true;
    }

    /**
     * The evidently intended press: as `MousePress`, except that a legal
     * press always stores the image's current bounds, so the press point
     * and the new rectangle lie inside them.
     */
    method MousePressRefreshing(x: real, y: real, secondaryDown: bool, bounds: Bounds)
      requires Valid()
      modifies this`rectangleShown, this`confirmDisabled, this`illegalStart, this`startX, this`startY
      modifies this`rectangle, this`rectangleBounds
      ensures Valid()
      ensures !handlersAttached ==>
        rectangleShown == old(rectangleShown) && confirmDisabled == old(confirmDisabled)
        && illegalStart == old(illegalStart) && rectangle == old(rectangle)
      ensures handlersAttached ==> !rectangleShown || (!secondaryDown && Contains(bounds, x, y))
      ensures handlersAttached ==> confirmDisabled
      ensures (!handlersAttached || secondaryDown) ==>
        illegalStart == old(illegalStart) && rectangle == old(rectangle)
        && startX == old(startX) && startY == old(startY) && rectangleBounds == old(rectangleBounds)
      ensures handlersAttached && !secondaryDown && !Contains(bounds, x, y) ==>
        illegalStart && rectangle == old(rectangle).(width := 0.0, height := 0.0)
        && startX == old(startX) && startY == old(startY) && rectangleBounds == old(rectangleBounds)
      ensures handlersAttached && !secondaryDown && Contains(bounds, x, y) ==>
        !illegalStart && rectangleShown && startX == x && startY == y && rectangle == Rect(x, y, 0.0, 0.0)
        && rectangleBounds == bounds && StartInside() && RectangleInside()
    {
      if !handlersAttached {
        return;
      }
      rectangleShown := false;
      confirmDisabled := true;
      if secondaryDown {
        return;
      }
      if !Contains(bounds, x, y) {
        illegalStart := true;
        rectangle := rectangle.(width := 0.0, height := 0.0);
        return;
      }
      illegalStart := false;
      rectangleBounds := bounds;
      startX, startY := x, y;
      rectangle := Rect(startX, startY, 0.0, 0.0);
      rectangleShown := true;
    }

    /**
     * Mouse drag to (x, y): after a legal primary press, the rectangle
     * spans from the press point to the mouse, clamped to the stored
     * bounds axis by axis.
     */
    method MouseDrag(x: real, y: real, secondaryDown: bool)
      requires Valid()
      modifies this`rectangle
      ensures Valid()
      ensures !handlersAttached || secondaryDown || illegalStart ==> rectangle == old(rectangle)
      ensures handlersAttached && !secondaryDown && !illegalStart ==>
        var sx := DragAxis(startX, x, rectangleBounds.minX, rectangleBounds.maxX, Span(old(rectangle).x, old(rectangle).width));
        var sy := DragAxis(startY, y, rectangleBounds.minY, rectangleBounds.maxY, Span(old(rectangle).y, old(rectangle).height));
        rectangle == Rect(sx.start, sy.start, sx.length, sy.length)
    {
      if !handlersAttached || secondaryDown || illegalStart {
        return;
      }
      var sx := DragAxis(startX, x, rectangleBounds.minX, rectangleBounds.maxX, Span(rectangle.x, rectangle.width));
      var sy := DragAxis(startY, y, rectangleBounds.minY, rectangleBounds.maxY, Span(rectangle.y, rectangle.height));
      if StartInside() {
        DragStaysWithin(startX, x, rectangleBounds.minX, rectangleBounds.maxX, Span(rectangle.x, rectangle.width));
        DragStaysWithin(startY, y, rectangleBounds.minY, rectangleBounds.maxY, Span(rectangle.y, rectangle.height));
      }
      rectangle := Rect(sx.start, sy.start, sx.length, sy.length);
    }

    /**
     * Mouse release, with the rectangle's on-screen bounds starting at
     * (boundsMinX, boundsMinY). An empty rectangle is removed and the crop
     * area kept; otherwise the crop area is computed in image pixels and
     * confirm is enabled.
     */
    method MouseRelease(secondaryDown: bool, boundsMinX: real, boundsMinY: real)
      requires Valid()
      modifies this`rectangleShown, this`crop, this`confirmDisabled
      ensures Valid()
      ensures !handlersAttached || secondaryDown ==>
        rectangleShown == old(rectangleShown) && crop == old(crop) && confirmDisabled == old(confirmDisabled)
      ensures handlersAttached && !secondaryDown && (rectangle.width == 0.0 || rectangle.height == 0.0) ==>
        !rectangleShown && crop == old(crop) && confirmDisabled == old(confirmDisabled)
      ensures handlersAttached && !secondaryDown && rectangle.width != 0.0 && rectangle.height != 0.0 ==>
        var px := ScaleAxis(boundsMinX - rectangleBounds.minX, rectangle.width, imageWidth, displayWidth);
        var py := ScaleAxis(boundsMinY - rectangleBounds.minY, rectangle.height, imageHeight, displayHeight);
        crop == CropArea(px.start, py.start, px.length, py.length)
        && !confirmDisabled && rectangleShown == old(rectangleShown)
    {
      if !handlersAttached || secondaryDown {
        return;
      }
      if rectangle.width == 0.0 || rectangle.height == 0.0 {
        rectangleShown := false;
        return;
      }
      var px := ScaleAxis(boundsMinX - rectangleBounds.minX, rectangle.width, imageWidth, displayWidth);
      var py := ScaleAxis(boundsMinY - rectangleBounds.minY, rectangle.height, imageHeight, displayHeight);
      crop := CropArea(px.start, py.start, px.length, py.length);
      confirmDisabled := false;
    }

    /**
     * The pane was resized and the view is now fitted into `fitWidth` x
     * `fitHeight`: the rectangle is hidden, confirm disabled and the
     * display size recomputed.
     */
    method PaneResized(fitWidth: real, fitHeight: real)
      requires Valid()
      requires 0.0 < fitWidth && 0.0 < fitHeight
      modifies this`rectangleShown, this`confirmDisabled, this`displayWidth, this`displayHeight
      ensures Valid()
      ensures !rectangleShown && confirmDisabled
      ensures displayWidth == DisplayWidth(fitWidth, fitHeight, aspectRatio)
      ensures displayHeight == DisplayHeight(fitWidth, fitHeight, aspectRatio)
    {
      rectangleShown := false;
      confirmDisabled := true;
      DisplayKeepsAspect(fitWidth, fitHeight, imageWidth, imageHeight);
      displayWidth := DisplayWidth(fitWidth, fitHeight, aspectRatio);
      displayHeight := DisplayHeight(fitWidth, fitHeight, aspectRatio);
    }

    /** `remove()`: unregisters the mouse handlers and hides the rectangle; the resize listener stays. */
    method Remove()
      requires Valid()
      modifies this`handlersAttached, this`rectangleShown
      ensures Valid() && !handlersAttached && !rectangleShown
    {
      handlersAttached := false;
      rectangleShown := false;
    }

    function GetCropX(): int reads this { crop.x }
    function GetCropY(): int reads this { crop.y }
    function GetCropWidth(): int reads this { crop.width }
    function GetCropHeight(): int reads this { crop.height }
  }

  /**
   * With the press as written, a drag can leave the image: a selector
   * whose stored bounds are the 100 x 100 box at the origin, pressed at
   * (150, 150) after the view grew to 200 x 200 at the same corner, keeps
   * the stale bounds, and a drag to (160, 160) pins the far edges to the
   * old maximum, giving a rectangle of negative width outside them.
   */
  method StaleBoundsDrag() returns (s: CropSelector)
    ensures s.rectangleBounds == Bounds(0.0, 0.0, 100.0, 100.0)
    ensures s.rectangle == Rect(150.0, 150.0, -50.0, -50.0) && !s.RectangleInside()
  {
    s := new CropSelector(Bounds(0.0, 0.0, 100.0, 100.0), 100.0, 100.0, 100.0, 100.0);
    s.MousePress(150.0, 150.0, false, Bounds(0.0, 0.0, 200.0, 200.0));
    s.MouseDrag(160.0, 160.0, false);
  }

  /**
   * With the intended press, the same gestures select the 10 x 10 square
   * from (150, 150) inside the view's current bounds.
   */
  method FreshBoundsDrag() returns (s: CropSelector)
    ensures s.rectangleBounds == Bounds(0.0, 0.0, 200.0, 200.0)
    ensures s.rectangle == Rect(150.0, 150.0, 10.0, 10.0) && s.RectangleInside()
  {
    s := new CropSelector(Bounds(0.0, 0.0, 100.0, 100.0), 100.0, 100.0, 100.0, 100.0);
    s.MousePressRefreshing(150.0, 150.0, false, Bounds(0.0, 0.0, 200.0, 200.0));
    s.MouseDrag(160.0, 160.0, false);
  }

  /**
   * With the intended press, a legal press followed by a drag keeps the
   * rectangle inside the image's bounds as they were at the press; a drag
   * changes only the rectangle, so every further drag keeps it there too.
   */
  method PressThenDragRefreshing(s: CropSelector, x: real, y: real, bounds: Bounds, dragX: real, dragY: real)
    requires s.Valid() && s.handlersAttached && Contains(bounds, x, y)
    modifies s
    ensures s.Valid() && !s.illegalStart && s.rectangleBounds == bounds
    ensures s.StartInside() && s.RectangleInside()
  {
    s.MousePressRefreshing(x, y, false, bounds);
    s.MouseDrag(dragX, dragY, false);
  }
}
