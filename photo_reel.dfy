/**
 * `PhotoReel`: the image files of the opened file's directory, in name
 * order, and a cursor on the one currently shown.
 */
module Reel {
  import opened Wrappers
  import opened FileNames

  /** The name suffixes the reel keeps (`COMPATIBLE_FORMATS`). */
  const CompatibleFormats: seq<string> := [".jpg", ".png", ".bmp", ".gif"]

  /** A name the reel keeps: it ends with one of the compatible suffixes (case-sensitive). */
  predicate IsImageName(name: string) {
    exists i :: 0 <= i < |CompatibleFormats| && EndsWith(name, CompatibleFormats[i])
  }

  /** The files of `listing` the reel keeps, in listing order. */
  function ImagesOf(listing: seq<File>): (images: seq<File>)
    ensures |images| <= |listing|
    ensures forall f :: f in images <==> f in listing && IsImageName(f.name)
    decreases |listing|
  {
    if listing == [] then []
    else
      var last := listing[|listing| - 1];
      ImagesOf(listing[..|listing| - 1]) + (if IsImageName(last.name) then [last] else [])
  }

  /** Filtering keeps a name-sorted listing sorted. */
  lemma {:induction false} ImagesOfSorted(listing: seq<File>)
    requires SortedByName(listing)
    ensures SortedByName(ImagesOf(listing))
    decreases |listing|
  {
    if listing != [] {
      var init := listing[..|listing| - 1];
      var last := listing[|listing| - 1];
      assert SortedByName(init);
      ImagesOfSorted(init);
      var front := ImagesOf(init);
      forall i | 0 <= i < |front|
        ensures NameAtMost(front[i].name, last.name)
      {
        assert front[i] in init;
        var k :| 0 <= k < |init| && init[k] == front[i];
        assert listing[k] == front[i];
      }
    }
  }

  /**
   * The filter `PhotoReel` hands to `listFiles`: true iff the name ends
   * with one of the compatible suffixes, tried in order.
   */
  method IsCompatible(fileName: string) returns (accepted: bool)
    ensures accepted <==> IsImageName(fileName)
  {
    for i := 0 to |CompatibleFormats|
      invariant forall j :: 0 <= j < i ==> !EndsWith(fileName, CompatibleFormats[j])
    {
      if EndsWith(fileName, CompatibleFormats[i]) {
        return true;
      }
    }
    return false;
  }

  /** `listFiles` with that filter: the files of `listing` it accepts, in order. */
  method ListImages(listing: seq<File>) returns (images: seq<File>)
    ensures images == ImagesOf(listing)
  {
    images := [];
    for i := 0 to |listing|
      invariant images == ImagesOf(listing[..i])
    {
      var keep := IsCompatible(listing[i].name);
      assert listing[..i + 1][..i] == listing[..i];
      if keep {
        images := images + [listing[i]];
      }
    }
    assert listing[..|listing|] == listing;
  }

  /**
   * The constructor's search: the index of the first file named `name`,
   * or 0 when there is none.
   */
  method PositionOf(images: seq<File>, name: string) returns (position: int)
    ensures 0 <= position && (position < |images| || position == 0)
    ensures (exists i :: 0 <= i < |images| && images[i].name == name) ==>
      position < |images| && images[position].name == name
      && forall j :: 0 <= j < position ==> images[j].name != name
    ensures (forall i :: 0 <= i < |images| ==> images[i].name != name) ==> position == 0
  {
    position := 0;
    var i := 0;
    while i < |images|
      invariant 0 <= i <= |images|
      invariant forall j :: 0 <= j < i ==> images[j].name != name
    {
      if images[i].name == name {
        position := i;
        return;
      }
      i := i + 1;
    }
  }

  class PhotoReel {
    const directoryImages: seq<File>
    var currentPosition: int

    /** The cursor stays on an entry, or at 0 on an empty reel. */
    ghost predicate Valid()
      reads this
    {
      0 <= currentPosition && (currentPosition < |directoryImages| || currentPosition == 0)
    }

    /**
     * The reel for `imageFile`, built from `listing`, its directory's files
     * in name order (`Arrays.sort`): the image files, with the cursor on
     * the first one named like `imageFile`, or on 0.
     */
    constructor (imageFile: File, listing: seq<File>)
      ensures Valid()
      ensures directoryImages == ImagesOf(listing)
      ensures SortedByName(listing) ==> SortedByName(directoryImages)
      ensures (exists i :: 0 <= i < |directoryImages| && directoryImages[i].name == imageFile.name) ==>
        directoryImages[currentPosition].name == imageFile.name
        && forall j :: 0 <= j < currentPosition ==> directoryImages[j].name != imageFile.name
      ensures (forall i :: 0 <= i < |directoryImages| ==> directoryImages[i].name != imageFile.name) ==>
        currentPosition == 0
    {
      var images := ListImages(listing);
      if SortedByName(listing) {
        ImagesOfSorted(listing);
      }
      var position := PositionOf(images, imageFile.name);
      directoryImages := images;
      currentPosition := position;
    }

    predicate HasNext()
      reads this
    {
      currentPosition + 1 < |directoryImages|
    }

    predicate HasPrevious()
      reads this
    {
      currentPosition - 1 >= 0
    }

    /** Steps to the next file and returns it; at the last file returns null and stays. */
    method GetNext() returns (next: Option<File>)
      requires Valid()
      modifies this
      ensures Valid()
      ensures next.Some? <==> old(HasNext())
      ensures next.Some? ==> currentPosition == old(currentPosition) + 1 && next.value == directoryImages[currentPosition]
      ensures next.None? ==> currentPosition == old(currentPosition)
    {
      var newPosition := currentPosition + 1;
      if newPosition < |directoryImages| {
        currentPosition := newPosition;
        next := Some(directoryImages[newPosition]);
      } else {
        next := None;
      }
    }

    /** Steps to the previous file and returns it; at the first file returns null and stays. */
    method GetPrevious() returns (previous: Option<File>)
      requires Valid()
      modifies this
      ensures Valid()
      ensures previous.Some? <==> old(HasPrevious())
      ensures previous.Some? ==> currentPosition == old(currentPosition) - 1 && previous.value == directoryImages[currentPosition]
      ensures previous.None? ==> currentPosition == old(currentPosition)
    {
      var newPosition := currentPosition - 1;
      if newPosition >= 0 {
        currentPosition := newPosition;
        previous := Some(directoryImages[newPosition]);
      } else {
        previous := None;
      }
    }
  }

  /** A successful step forward, then a step back, returns to the starting file. */
  method NextThenPrevious(reel: PhotoReel) returns (moved: bool)
    requires reel.Valid()
    modifies reel
    ensures reel.Valid() && reel.currentPosition == old(reel.currentPosition)
    ensures moved <==> old(reel.HasNext())
  {
    var next := reel.GetNext();
    moved := next.Some?;
    if moved {
      var previous := reel.GetPrevious();
      assert previous.Some?;
    }
  }
}
