/** The image gallery of `src/components/molecules/ImageGallery.jsx`: the
    selected index and the fullscreen flag, changed by the arrow, thumbnail and
    fullscreen handlers. */
module ImageGallery {
  import opened JsText

  /** `(prev + 1) % images.length`. */
  function Next(i: int, n: int): (r: int)
    requires 0 <= i < n
    ensures 0 <= r < n
    ensures r == if i == n - 1 then 0 else i + 1
  {
    Rem(i + 1, n)
  }

  /** `(prev - 1 + images.length) % images.length`. */
  function Prev(i: int, n: int): (r: int)
    requires 0 <= i < n
    ensures 0 <= r < n
    ensures r == if i == 0 then n - 1 else i - 1
  {
    Rem(i - 1 + n, n)
  }

  /** Stepping back undoes stepping forward, and the other way round. */
  lemma PrevUndoesNext(i: int, n: int)
    requires 0 <= i < n
    ensures Prev(Next(i, n), n) == i
    ensures Next(Prev(i, n), n) == i
  {
  }

  /** `k` presses of the next arrow. */
  function NextTimes(i: int, n: int, k: nat): (r: int)
    requires 0 <= i < n
    ensures 0 <= r < n
  {
    if k == 0 then i else Next(NextTimes(i, n, k - 1), n)
  }

  /** Up to one full round, `k` presses move `k` places forward, wrapping once past the end. */
  lemma {:induction false} NextTimesIsShift(i: int, n: int, k: nat)
    requires 0 <= i < n && k <= n
    ensures NextTimes(i, n, k) == if i + k < n then i + k else i + k - n
  {
    if k > 0 {
      NextTimesIsShift(i, n, k - 1);
    }
  }

  /** `n` presses of the next arrow come back to the starting image. */
  lemma NextCycles(i: int, n: int)
    requires 0 <= i < n
    ensures NextTimes(i, n, n) == i
  {
    NextTimesIsShift(i, n, n);
  }

  /** When the arrows are hidden (a single image), next and previous could not
      move the index anyway. */
  lemma HiddenArrowsAreIdle(g: GalleryState)
    requires g.Valid() && |g.images| > 0 && !g.ShowsNavigation()
    ensures Next(g.selectedImage, |g.images|) == g.selectedImage
    ensures Prev(g.selectedImage, |g.images|) == g.selectedImage
  {
  }

  /** The gallery's state. `images` is the component's prop. */
  class GalleryState {
    const images: seq<string>
    var selectedImage: int
    var isFullscreen: bool

    /** The index names an image (or is the initial 0 of an empty gallery). */
    ghost predicate Valid()
      reads this
    {
      selectedImage == 0 || 0 <= selectedImage < |images|
    }

    constructor (images: seq<string>)
      ensures this.images == images
      ensures selectedImage == 0 && !isFullscreen
      ensures Valid()
    {
      this.images := images;
      selectedImage := 0;
      isFullscreen := false;
    }

    method NextImage()
      requires Valid() && |images| > 0
      modifies this
      ensures Valid()
      ensures selectedImage == Next(old(selectedImage), |images|)
      ensures isFullscreen == old(isFullscreen)
    {
      selectedImage := Next(selectedImage, |images|);
    }

    method PrevImage()
      requires Valid() && |images| > 0
      modifies this
      ensures Valid()
      ensures selectedImage == Prev(old(selectedImage), |images|)
      ensures isFullscreen == old(isFullscreen)
    {
      selectedImage := Prev(selectedImage, |images|);
    }

    /** A thumbnail's `onClick`: `setSelectedImage(index)`; afterwards exactly that
        thumbnail is highlighted. */
    method SelectThumbnail(index: int)
      requires 0 <= index < |images|
      modifies this
      ensures Valid()
      ensures selectedImage == index
      ensures forall k :: 0 <= k < |images| ==> (IsHighlighted(k) <==> k == index)
      ensures isFullscreen == old(isFullscreen)
    {
      selectedImage := index;
    }

    method OpenFullscreen()
      modifies this
      ensures isFullscreen
      ensures selectedImage == old(selectedImage)
    {
      isFullscreen := true;
    }

    method CloseFullscreen()
      modifies this
      ensures !isFullscreen
      ensures selectedImage == old(selectedImage)
    {
      isFullscreen := false;
    }

    /** The thumbnail at `index` carries the highlight ring. */
    predicate IsHighlighted(index: int)
      reads this
    {
      selectedImage == index
    }

    /** The counter's first number, `selectedImage + 1`, ranges over `1..images.length`. */
    function Counter(): (shown: int)
      reads this
      requires Valid() && |images| > 0
      ensures 1 <= shown <= |images|
    {
      selectedImage + 1
    }

    /** Arrows and thumbnails are rendered only for more than one image. */
    predicate ShowsNavigation()
      reads this
    {
      |images| > 1
    }
  }
}
