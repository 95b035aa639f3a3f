/**
 * The pixel grid behind a `BufferedImage`, and the grid each geometric
 * edit of `ImageEditor` produces. A destination pixel takes the value of
 * the source pixel whose centre the edit's affine map sends onto the
 * destination pixel's centre (for the flips' nearest-neighbour sampling
 * and for the rotations' bilinear sampling alike, since the maps send
 * centres exactly onto centres); where no source pixel exists the
 * destination is transparent.
 */
module Raster {
  import opened Numerics
  import opened Affine

  /** An ARGB pixel, each channel 0..255. */
  datatype Pixel = Pixel(alpha: int, red: int, green: int, blue: int)

  const Transparent: Pixel := Pixel(0, 0, 0, 0)
  const White: Pixel := Pixel(255, 255, 255, 255)

  /** An image `width` pixels wide and `height` tall; `rows[y][x]` is the pixel in column x of row y. */
  datatype Image = Image(width: nat, height: nat, rows: seq<seq<Pixel>>)

  predicate WellFormed(img: Image) {
    |img.rows| == img.height && forall y :: 0 <= y < |img.rows| ==> |img.rows[y]| == img.width
  }

  /** The pixel in column x of row y, transparent outside the grid. */
  function At(img: Image, x: int, y: int): Pixel {
    if 0 <= y < |img.rows| && 0 <= x < |img.rows[y]| then img.rows[y][x] else Transparent
  }

  /** The centre of the pixel in column x of row y. */
  function Centre(x: int, y: int): Point {
    Point(x as real + 0.5, y as real + 0.5)
  }

  /** The `width` x `height` image whose pixel (x, y) is `f(x, y)`. */
  function Generate(width: nat, height: nat, f: (int, int) -> Pixel): (r: Image)
    ensures WellFormed(r) && r.width == width && r.height == height
    ensures forall x, y :: 0 <= x < width && 0 <= y < height ==> At(r, x, y) == f(x, y)
  {
    Image(width, height, seq(height, y => seq(width, x => f(x, y))))
  }

  /** Two well-formed images of the same size that agree on every pixel are equal. */
  lemma {:induction false} SameImage(a: Image, b: Image)
    requires WellFormed(a) && WellFormed(b)
    requires a.width == b.width && a.height == b.height
    requires forall x, y :: 0 <= x < a.width && 0 <= y < a.height ==> At(a, x, y) == At(b, x, y)
    ensures a == b
  {
    forall y | 0 <= y < a.height
      ensures a.rows[y] == b.rows[y]
    {
      forall x | 0 <= x < a.width
        ensures a.rows[y][x] == b.rows[y][x]
      {
        assert At(a, x, y) == At(b, x, y);
      }
    }
  }

  /** The grid `ImageEditor.flipHorizontal` produces: column x takes column width-1-x. */
  function FlipHorizontal(img: Image): (r: Image)
    ensures WellFormed(r) && r.width == img.width && r.height == img.height
  {
    Generate(img.width, img.height, (x, y) => At(img, img.width - 1 - x, y))
  }

  /** The grid `ImageEditor.flipVertical` produces: row y takes row height-1-y. */
  function FlipVertical(img: Image): (r: Image)
    ensures WellFormed(r) && r.width == img.width && r.height == img.height
  {
    Generate(img.width, img.height, (x, y) => At(img, x, img.height - 1 - y))
  }

  /**
   * The grid `ImageEditor.rotateRight` produces: `height` wide and `width`
   * tall, pixel (x, y) taken from column y of row 2 * (height / 2) - 1 - x.
   */
  function RotateRight(img: Image): (r: Image)
    ensures WellFormed(r) && r.width == img.height && r.height == img.width
  {
    Generate(img.height, img.width, (x, y) => At(img, y, 2 * Quot(img.height, 2) - 1 - x))
  }

  /**
   * The grid `ImageEditor.rotateLeft` produces: `height` wide and `width`
   * tall, pixel (x, y) taken from column 2 * (width / 2) - 1 - y of row x.
   */
  function RotateLeft(img: Image): (r: Image)
    ensures WellFormed(r) && r.width == img.height && r.height == img.width
  {
    Generate(img.height, img.width, (x, y) => At(img, 2 * Quot(img.width, 2) - 1 - y, x))
  }

  /**
   * flipHorizontal keeps the dimensions, and each of its pixels is the
   * source pixel whose centre the flip's affine map sends onto it.
   */
  lemma FlipHorizontalSamples(img: Image, x: int, y: int)
    requires 0 <= x < img.width && 0 <= y < img.height
    ensures FlipHorizontal(img).width == img.width && FlipHorizontal(img).height == img.height
    ensures Apply(FlipHorizontalTransform(img.width), Centre(img.width - 1 - x, y)) == Centre(x, y)
    ensures At(FlipHorizontal(img), x, y) == At(img, img.width - 1 - x, y)
  {
    FlipHorizontalMaps(img.width, Centre(img.width - 1 - x, y));
  }

  /**
   * flipVertical keeps the dimensions, and each of its pixels is the
   * source pixel whose centre the flip's affine map sends onto it.
   */
  lemma FlipVerticalSamples(img: Image, x: int, y: int)
    requires 0 <= x < img.width && 0 <= y < img.height
    ensures FlipVertical(img).width == img.width && FlipVertical(img).height == img.height
    ensures Apply(FlipVerticalTransform(img.height), Centre(x, img.height - 1 - y)) == Centre(x, y)
    ensures At(FlipVertical(img), x, y) == At(img, x, img.height - 1 - y)
  {
    FlipVerticalMaps(img.height, Centre(x, img.height - 1 - y));
  }

  /**
   * rotateRight swaps the dimensions, and each of its pixels is the source
   * pixel whose centre the rotation's affine map sends onto it.
   */
  lemma RotateRightSamples(img: Image, x: int, y: int)
    requires 0 <= x < img.height && 0 <= y < img.width
    ensures RotateRight(img).width == img.height && RotateRight(img).height == img.width
    ensures Apply(RotateRightTransform(img.width, img.height), Centre(y, 2 * (img.height / 2) - 1 - x)) == Centre(x, y)
    ensures At(RotateRight(img), x, y) == At(img, y, 2 * (img.height / 2) - 1 - x)
  {
    RotateRightCentre(img.width, img.height, x, y);
    assert Quot(img.height, 2) == img.height / 2;
    assert At(RotateRight(img), x, y) == At(img, y, 2 * Quot(img.height, 2) - 1 - x);
  }

  /** rotateRight's map sends the centre of pixel (y, 2 * (height / 2) - 1 - x) onto that of (x, y). */
  lemma RotateRightCentre(width: nat, height: nat, x: int, y: int)
    ensures Apply(RotateRightTransform(width, height), Centre(y, 2 * (height / 2) - 1 - x)) == Centre(x, y)
  {
    var k := 2 * (height / 2) - 1 - x;
    RotateRightMaps(width, height, Centre(y, k));
    assert (2 * (height / 2)) as real - (k as real + 0.5) == x as real + 0.5;
  }

  /**
   * rotateLeft swaps the dimensions, and each of its pixels is the source
   * pixel whose centre the rotation's affine map sends onto it.
   */
  lemma RotateLeftSamples(img: Image, x: int, y: int)
    requires 0 <= x < img.height && 0 <= y < img.width
    ensures RotateLeft(img).width == img.height && RotateLeft(img).height == img.width
    ensures Apply(RotateLeftTransform(img.width, img.height), Centre(2 * (img.width / 2) - 1 - y, x)) == Centre(x, y)
    ensures At(RotateLeft(img), x, y) == At(img, 2 * (img.width / 2) - 1 - y, x)
  {
    RotateLeftCentre(img.width, img.height, x, y);
    assert Quot(img.width, 2) == img.width / 2;
    assert At(RotateLeft(img), x, y) == At(img, 2 * Quot(img.width, 2) - 1 - y, x);
  }

  /** rotateLeft's map sends the centre of pixel (2 * (width / 2) - 1 - y, x) onto that of (x, y). */
  lemma RotateLeftCentre(width: nat, height: nat, x: int, y: int)
    ensures Apply(RotateLeftTransform(width, height), Centre(2 * (width / 2) - 1 - y, x)) == Centre(x, y)
  {
    var k := 2 * (width / 2) - 1 - y;
    RotateLeftMaps(width, height, Centre(k, x));
    assert (2 * (width / 2)) as real - (k as real + 0.5) == y as real + 0.5;
  }

  /** Flipping horizontally twice gives back the image. */
  lemma FlipHorizontalTwice(img: Image)
    requires WellFormed(img)
    ensures FlipHorizontal(FlipHorizontal(img)) == img
  {
    var f := FlipHorizontal(img);
    var ff := FlipHorizontal(f);
    forall x, y | 0 <= x < img.width && 0 <= y < img.height
      ensures At(ff, x, y) == At(img, x, y)
    {
      assert At(ff, x, y) == At(f, img.width - 1 - x, y);
    }
    SameImage(ff, img);
  }

  /** Flipping vertically twice gives back the image. */
  lemma FlipVerticalTwice(img: Image)
    requires WellFormed(img)
    ensures FlipVertical(FlipVertical(img)) == img
  {
    var f := FlipVertical(img);
    var ff := FlipVertical(f);
    forall x, y | 0 <= x < img.width && 0 <= y < img.height
      ensures At(ff, x, y) == At(img, x, y)
    {
      assert At(ff, x, y) == At(f, x, img.height - 1 - y);
    }
    SameImage(ff, img);
  }

  /** For an even height, rotating left undoes rotating right. */
  lemma RotateLeftUndoesRight(img: Image)
    requires WellFormed(img) && img.height % 2 == 0
    ensures RotateLeft(RotateRight(img)) == img
  {
    var r := RotateRight(img);
    var rl := RotateLeft(r);
    assert 2 * Quot(img.height, 2) == img.height;
    forall x, y | 0 <= x < img.width && 0 <= y < img.height
      ensures At(rl, x, y) == At(img, x, y)
    {
      assert At(rl, x, y) == At(r, img.height - 1 - y, x);
      assert At(r, img.height - 1 - y, x) == At(img, x, y);
    }
    SameImage(rl, img);
  }

  /** For an even width, rotating right undoes rotating left. */
  lemma RotateRightUndoesLeft(img: Image)
    requires WellFormed(img) && img.width % 2 == 0
    ensures RotateRight(RotateLeft(img)) == img
  {
    var l := RotateLeft(img);
    var lr := RotateRight(l);
    assert 2 * Quot(img.width, 2) == img.width;
    forall x, y | 0 <= x < img.width && 0 <= y < img.height
      ensures At(lr, x, y) == At(img, x, y)
    {
      assert At(lr, x, y) == At(l, y, img.width - 1 - x);
      assert At(l, y, img.width - 1 - x) == At(img, x, y);
    }
    SameImage(lr, img);
  }

  /**
   * For an odd height the round trip loses the bottom row, because
   * height / 2 rounds down: rotating right and then left gives an image
   * of the same size that agrees with the original above the bottom row
   * and is transparent along it.
   */
  lemma OddHeightRotationLosesRow(img: Image)
    requires WellFormed(img) && img.height % 2 == 1
    ensures var rl := RotateLeft(RotateRight(img));
      WellFormed(rl) && rl.width == img.width && rl.height == img.height
      && (forall x, y :: 0 <= x < img.width && 0 <= y < img.height - 1 ==> At(rl, x, y) == At(img, x, y))
      && (forall x, y :: 0 <= x < img.width && y == img.height - 1 ==> At(rl, x, y) == Transparent)
  {
    var r := RotateRight(img);
    var rl := RotateLeft(r);
    assert 2 * Quot(img.height, 2) == img.height - 1;
    forall x, y | 0 <= x < img.width && 0 <= y < img.height - 1
      ensures At(rl, x, y) == At(img, x, y)
    {
      assert At(rl, x, y) == At(r, img.height - 2 - y, x);
      assert At(r, img.height - 2 - y, x) == At(img, x, y);
    }
    forall x, y | 0 <= x < img.width && y == img.height - 1
      ensures At(rl, x, y) == Transparent
    {
      assert At(rl, x, y) == At(r, -1, x);
    }
  }

  /** One channel of a pixel with opacity `alpha` drawn over opaque white (`drawImage` with a white background). */
  function OverWhiteChannel(channel: int, alpha: int): int {
    (channel * alpha + 255 * (255 - alpha)) / 255
  }

  /** A pixel drawn over opaque white: the result is opaque. */
  function OverWhite(p: Pixel): Pixel {
    Pixel(255, OverWhiteChannel(p.red, p.alpha), OverWhiteChannel(p.green, p.alpha), OverWhiteChannel(p.blue, p.alpha))
  }

  predicate ValidPixel(p: Pixel) {
    0 <= p.alpha <= 255 && 0 <= p.red <= 255 && 0 <= p.green <= 255 && 0 <= p.blue <= 255
  }

  /**
   * Compositing a pixel over white yields a valid opaque pixel; a fully
   * transparent pixel becomes pure white and an opaque one is unchanged.
   */
  lemma OverWhiteFlattens(p: Pixel)
    requires ValidPixel(p)
    ensures ValidPixel(OverWhite(p)) && OverWhite(p).alpha == 255
    ensures p.alpha == 0 ==> OverWhite(p) == White
    ensures p.alpha == 255 ==> OverWhite(p) == p
  {
    ChannelOverWhite(p.red, p.alpha);
    ChannelOverWhite(p.green, p.alpha);
    ChannelOverWhite(p.blue, p.alpha);
  }

  lemma ChannelOverWhite(c: int, a: int)
    requires 0 <= c <= 255 && 0 <= a <= 255
    ensures 0 <= OverWhiteChannel(c, a) <= 255
    ensures a == 0 ==> OverWhiteChannel(c, a) == 255
    ensures a == 255 ==> OverWhiteChannel(c, a) == c
  {
    assert 0 <= c * a <= 255 * a;
    assert c * a + 255 * (255 - a) <= 255 * 255;
  }

  /**
   * The alpha-free copy a format without transparency receives: every
   * pixel drawn over white, so the copy has the image's size and is
   * opaque throughout.
   */
  function FlattenOnWhite(img: Image): (r: Image)
    ensures WellFormed(r) && r.width == img.width && r.height == img.height
    ensures forall x, y :: 0 <= x < r.width && 0 <= y < r.height ==> At(r, x, y).alpha == 255
  {
    Generate(img.width, img.height, (x, y) => OverWhite(At(img, x, y)))
  }
}
