/**
 * The `java.awt.geom.AffineTransform` arithmetic `ImageEditor` uses to
 * build its rotations and flips. A transform is the 2x3 matrix
 * [m00 m01 m02; m10 m11 m12] acting on points of the continuous image
 * plane; `translate`, `rotate` and `scale` post-concatenate, so the step
 * written last is the one applied to a point first.
 */
module Affine {
  import opened Numerics

  datatype Point = Point(x: real, y: real)

  datatype Transform = Transform(m00: real, m01: real, m02: real, m10: real, m11: real, m12: real)

  /** `new AffineTransform()`. */
  const Identity: Transform := Transform(1.0, 0.0, 0.0, 0.0, 1.0, 0.0)

  function Apply(t: Transform, p: Point): Point {
    Point(t.m00 * p.x + t.m01 * p.y + t.m02, t.m10 * p.x + t.m11 * p.y + t.m12)
  }

  /** `t.concatenate(u)`: the transform that applies `u`, then `t`. */
  function Concatenate(t: Transform, u: Transform): Transform {
    Transform(
      t.m00 * u.m00 + t.m01 * u.m10, t.m00 * u.m01 + t.m01 * u.m11, t.m00 * u.m02 + t.m01 * u.m12 + t.m02,
      t.m10 * u.m00 + t.m11 * u.m10, t.m10 * u.m01 + t.m11 * u.m11, t.m10 * u.m02 + t.m11 * u.m12 + t.m12)
  }

  /** Applying a concatenation is applying its two factors in turn. */
  lemma ConcatenateApplies(t: Transform, u: Transform, p: Point)
    ensures Apply(Concatenate(t, u), p) == Apply(t, Apply(u, p))
  {
    ConcatenateAppliesX(t, u, p);
    ConcatenateAppliesY(t, u, p);
  }

  lemma ConcatenateAppliesX(t: Transform, u: Transform, p: Point)
    ensures Apply(Concatenate(t, u), p).x == Apply(t, Apply(u, p)).x
  {
    ConcatenatedRow(t.m00, t.m01, t.m02, u, p);
  }

  lemma ConcatenateAppliesY(t: Transform, u: Transform, p: Point)
    ensures Apply(Concatenate(t, u), p).y == Apply(t, Apply(u, p)).y
  {
    ConcatenatedRow(t.m10, t.m11, t.m12, u, p);
  }

  /** One output coordinate of a concatenation: the row (a, b, c) of `t` applied after `u`. */
  lemma ConcatenatedRow(a: real, b: real, c: real, u: Transform, p: Point)
    ensures (a * u.m00 + b * u.m10) * p.x + (a * u.m01 + b * u.m11) * p.y + (a * u.m02 + b * u.m12 + c)
         == a * (u.m00 * p.x + u.m01 * p.y + u.m02) + b * (u.m10 * p.x + u.m11 * p.y + u.m12) + c
  {
    assert (a * u.m00 + b * u.m10) * p.x == a * (u.m00 * p.x) + b * (u.m10 * p.x);
    assert (a * u.m01 + b * u.m11) * p.y == a * (u.m01 * p.y) + b * (u.m11 * p.y);
    assert a * (u.m00 * p.x + u.m01 * p.y + u.m02) == a * (u.m00 * p.x) + a * (u.m01 * p.y) + a * u.m02;
    assert b * (u.m10 * p.x + u.m11 * p.y + u.m12) == b * (u.m10 * p.x) + b * (u.m11 * p.y) + b * u.m12;
  }

  /** `t.translate(tx, ty)`. */
  function Translate(t: Transform, tx: real, ty: real): Transform {
    Concatenate(t, Transform(1.0, 0.0, tx, 0.0, 1.0, ty))
  }

  /**
   * `t.rotate(Math.PI / 2)` when `clockwise`, `t.rotate(-Math.PI / 2)`
   * otherwise (clockwise on screen, where y grows downward). For these two
   * angles `Math.sin` is exactly 1.0 or -1.0, and `rotate` then installs the
   * exact quarter-turn matrix.
   */
  function QuarterTurn(t: Transform, clockwise: bool): Transform {
    if clockwise then Concatenate(t, Transform(0.0, -1.0, 0.0, 1.0, 0.0, 0.0))
    else Concatenate(t, Transform(0.0, 1.0, 0.0, -1.0, 0.0, 0.0))
  }

  /** `AffineTransform.getScaleInstance(sx, sy)`. */
  function ScaleInstance(sx: real, sy: real): Transform {
    Transform(sx, 0.0, 0.0, 0.0, sy, 0.0)
  }

  /**
   * The transform `ImageEditor.rotateRight` builds for a `width` x `height`
   * image: the three steps compose to a clockwise quarter turn followed by
   * a shift of 2 * (height / 2) along x.
   */
  function RotateRightTransform(width: nat, height: nat): (t: Transform)
    ensures t == Transform(0.0, -1.0, (2 * (height / 2)) as real, 1.0, 0.0, 0.0)
  {
    var t := Translate(Identity, Quot(height, 2) as real, Quot(width, 2) as real);
    var t := QuarterTurn(t, true);
    Translate(t, Quot(width, -2) as real, Quot(height, -2) as real)
  }

  /**
   * The transform `ImageEditor.rotateLeft` builds for a `width` x `height`
   * image: the three steps compose to an anticlockwise quarter turn
   * followed by a shift of 2 * (width / 2) along y.
   */
  function RotateLeftTransform(width: nat, height: nat): (t: Transform)
    ensures t == Transform(0.0, 1.0, 0.0, -1.0, 0.0, (2 * (width / 2)) as real)
  {
    var t := Translate(Identity, Quot(height, 2) as real, Quot(width, 2) as real);
    var t := QuarterTurn(t, false);
    Translate(t, Quot(width, -2) as real, Quot(height, -2) as real)
  }

  /**
   * The transform `ImageEditor.flipHorizontal` builds for an image `width`
   * wide: a mirror in x shifted by the width.
   */
  function FlipHorizontalTransform(width: nat): (t: Transform)
    ensures t == Transform(-1.0, 0.0, width as real, 0.0, 1.0, 0.0)
  {
    Translate(ScaleInstance(-1.0, 1.0), -(width as real), 0.0)
  }

  /**
   * The transform `ImageEditor.flipVertical` builds for an image `height`
   * tall: a mirror in y shifted by the height.
   */
  function FlipVerticalTransform(height: nat): (t: Transform)
    ensures t == Transform(1.0, 0.0, 0.0, 0.0, -1.0, height as real)
  {
    Translate(ScaleInstance(1.0, -1.0), 0.0, -(height as real))
  }

  /** rotateRight sends (x, y) to (2 * (height / 2) - y, x), with integer division. */
  lemma RotateRightMaps(width: nat, height: nat, p: Point)
    ensures Apply(RotateRightTransform(width, height), p) == Point((2 * (height / 2)) as real - p.y, p.x)
  {
  }

  /** rotateLeft sends (x, y) to (y, 2 * (width / 2) - x), with integer division. */
  lemma RotateLeftMaps(width: nat, height: nat, p: Point)
    ensures Apply(RotateLeftTransform(width, height), p) == Point(p.y, (2 * (width / 2)) as real - p.x)
  {
  }

  /** flipHorizontal sends x to width - x and keeps y. */
  lemma FlipHorizontalMaps(width: nat, p: Point)
    ensures Apply(FlipHorizontalTransform(width), p) == Point(width as real - p.x, p.y)
  {
  }

  /** flipVertical keeps x and sends y to height - y. */
  lemma FlipVerticalMaps(height: nat, p: Point)
    ensures Apply(FlipVerticalTransform(height), p) == Point(p.x, height as real - p.y)
  {
  }

  /**
   * rotateLeft's map, built for the rotated image (whose width is the old
   * height), undoes rotateRight's map at every point, whatever the parity
   * of the dimensions; and the other way round.
   */
  lemma RotationsInverse(width: nat, height: nat, p: Point)
    ensures Apply(RotateLeftTransform(height, width), Apply(RotateRightTransform(width, height), p)) == p
    ensures Apply(RotateRightTransform(height, width), Apply(RotateLeftTransform(width, height), p)) == p
  {
    RotateRightMaps(width, height, p);
    RotateLeftMaps(height, width, Apply(RotateRightTransform(width, height), p));
    RotateLeftMaps(width, height, p);
    RotateRightMaps(height, width, Apply(RotateLeftTransform(width, height), p));
  }

  /** Each flip's map is its own inverse. */
  lemma FlipsInvolutive(width: nat, height: nat, p: Point)
    ensures Apply(FlipHorizontalTransform(width), Apply(FlipHorizontalTransform(width), p)) == p
    ensures Apply(FlipVerticalTransform(height), Apply(FlipVerticalTransform(height), p)) == p
  {
    FlipHorizontalMaps(width, p);
    FlipHorizontalMaps(width, Apply(FlipHorizontalTransform(width), p));
    FlipVerticalMaps(height, p);
    FlipVerticalMaps(height, Apply(FlipVerticalTransform(height), p));
  }
}
