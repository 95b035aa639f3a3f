/**
 * `ImageEditor`: holds the current image and replaces it with the result
 * of each geometric edit. Crop, resize and metadata editing are stubs.
 */
module Editor {
  import opened Wrappers
  import opened Raster

  class ImageEditor {
    /** The image being edited (`bufferedImage`). */
    var bufferedImage: Image

    constructor (image: Image)
      ensures bufferedImage == image
    {
      bufferedImage := image;
    }

    /** `getWidth()`. */
    function GetWidth(): nat
      reads this
    {
      bufferedImage.width
    }

    /** `getHeight()`. */
    function GetHeight(): nat
      reads this
    {
      bufferedImage.height
    }

    /** Rotates the image a quarter turn clockwise, stores and returns the result. */
    method RotateRight() returns (r: Image)
      modifies this
      ensures bufferedImage == Raster.RotateRight(old(bufferedImage)) && r == bufferedImage
      ensures GetWidth() == old(GetHeight()) && GetHeight() == old(GetWidth())
    {
      bufferedImage := Raster.RotateRight(bufferedImage);
      r := bufferedImage;
    }

    /** Rotates the image a quarter turn counter-clockwise, stores and returns the result. */
    method RotateLeft() returns (r: Image)
      modifies this
      ensures bufferedImage == Raster.RotateLeft(old(bufferedImage)) && r == bufferedImage
      ensures GetWidth() == old(GetHeight()) && GetHeight() == old(GetWidth())
    {
      bufferedImage := Raster.RotateLeft(bufferedImage);
      r := bufferedImage;
    }

    /** Mirrors the image left to right, stores and returns the result. */
    method FlipHorizontal() returns (r: Image)
      modifies this
      ensures bufferedImage == Raster.FlipHorizontal(old(bufferedImage)) && r == bufferedImage
      ensures GetWidth() == old(GetWidth()) && GetHeight() == old(GetHeight())
    {
      bufferedImage := Raster.FlipHorizontal(bufferedImage);
      r := bufferedImage;
    }

    /** Mirrors the image top to bottom, stores and returns the result. */
    method FlipVertical() returns (r: Image)
      modifies this
      ensures bufferedImage == Raster.FlipVertical(old(bufferedImage)) && r == bufferedImage
      ensures GetWidth() == old(GetWidth()) && GetHeight() == old(GetHeight())
    {
      bufferedImage := Raster.FlipVertical(bufferedImage);
      r := bufferedImage;
    }

    /** `crop(x, y)` is not implemented: it returns null and leaves the image alone. */
    method Crop(x: int, y: int) returns (r: Option<Image>)
      ensures r == None
    {
      r := None;
    }

    /** `resize(percentage)` is not implemented: it returns null and leaves the image alone. */
    method Resize(percentage: real) returns (r: Option<Image>)
      ensures r == None
    {
      r := None;
    }

    /** `editMetadata()` is not implemented: it returns null and leaves the image alone. */
    method EditMetadata() returns (r: Option<Image>)
      ensures r == None
    {
      r := None;
    }
  }
}
