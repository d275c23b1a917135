/** The admin image slider, src/app/admin/components/ImageSlider.jsx: the
    stored images of a product, then the images picked in this session, then
    an upload tile, shown one slide at a time. */
module ImageSlider {
  import opened Wrappers

  /** A file picked in the browser; only its identity matters here. */
  datatype File = File(name: string)

  /** What the preview shows: a stored image (resolved to a download URL by
      `useImageUrl`, "No Image" until it resolves), a local preview of a newly
      picked file, or the upload tile. */
  datatype Slide = Stored(path: string) | Preview(file: File) | UploadTile

  /** `handleNext`: one slide on, except on the last slide. */
  function NextIndex(index: int, totalSlides: int): (r: int)
    ensures 0 <= index < totalSlides ==> 0 <= r < totalSlides
    ensures r == index <==> index >= totalSlides - 1
    ensures r != index ==> r == index + 1
  {
    if index < totalSlides - 1 then index + 1 else index
  }

  /** `handlePrev`: one slide back, except on the first slide. */
  function PrevIndex(index: int): (r: int)
    ensures 0 <= index ==> 0 <= r <= index
    ensures r == index <==> index <= 0
    ensures r != index ==> r == index - 1
  {
    if index > 0 then index - 1 else index
  }

  /** Going on and back again returns to the same slide, away from the ends. */
  lemma NextThenPrev(index: int, totalSlides: int)
    requires 0 <= index < totalSlides - 1
    ensures PrevIndex(NextIndex(index, totalSlides)) == index
    ensures NextIndex(PrevIndex(index + 1), totalSlides) == index + 1
  {
  }

  /** The slide at `index` of `imageUrls.length + newImages.length + 1`
      slides: the upload tile is the last; before it come the stored images,
      then the new ones. */
  function SlideAt(imageUrls: seq<string>, newImages: seq<File>, index: int): (s: Slide)
    requires 0 <= index <= |imageUrls| + |newImages|
    ensures s.UploadTile? <==> index == |imageUrls| + |newImages|
    ensures s.Stored? <==> index < |imageUrls|
    ensures s.Stored? ==> s.path == imageUrls[index]
    ensures s.Preview? ==> s.file == newImages[index - |imageUrls|]
  {
    if index == |imageUrls| + |newImages| then UploadTile
    else if index < |imageUrls| then Stored(imageUrls[index])
    else Preview(newImages[index - |imageUrls|])
  }

  /** The slot `handleImageSelect` moves to, the old upload slot, holds the
      file just picked, and every other slide keeps its content. */
  lemma PickedFileShown(imageUrls: seq<string>, newImages: seq<File>, file: File)
    ensures SlideAt(imageUrls, newImages + [file], |imageUrls| + |newImages|) == Preview(file)
    ensures forall i :: 0 <= i < |imageUrls| + |newImages| ==>
              SlideAt(imageUrls, newImages + [file], i) == SlideAt(imageUrls, newImages, i)
  {
  }

  /** The component's state: the `imageUrls` prop, the `newImages` and
      `currentIndex` state, and the files passed to `onAddImage` so far. */
  class Slider {
    const imageUrls: seq<string>
    var newImages: seq<File>
    var currentIndex: int
    var added: seq<File>

    /** `totalSlides`. */
    function TotalSlides(): int
      reads this
    {
      |imageUrls| + |newImages| + 1
    }

    /** `currentIndex` names a slide. */
    predicate Valid()
      reads this
    {
      0 <= currentIndex < TotalSlides()
    }

    /** `isUploadSlide`. */
    predicate IsUploadSlide()
      reads this
    {
      currentIndex == TotalSlides() - 1
    }

    /** The slide on show. */
    function Content(): (s: Slide)
      requires Valid()
      reads this
      ensures s.UploadTile? <==> IsUploadSlide()
    {
      SlideAt(imageUrls, newImages, currentIndex)
    }

    constructor (imageUrls: seq<string>)
      ensures this.imageUrls == imageUrls && newImages == [] && added == [] && currentIndex == 0
      ensures Valid() && TotalSlides() == |imageUrls| + 1
    {
      this.imageUrls := imageUrls;
      newImages := [];
      currentIndex := 0;
      added := [];
    }

    method HandleNext()
      requires Valid()
      modifies this
      ensures Valid()
      ensures currentIndex == NextIndex(old(currentIndex), old(TotalSlides()))
      ensures newImages == old(newImages) && added == old(added)
    {
      if currentIndex < TotalSlides() - 1 {
        currentIndex := currentIndex + 1;
      }
    }

    method HandlePrev()
      requires Valid()
      modifies this
      ensures Valid()
      ensures currentIndex == PrevIndex(old(currentIndex))
      ensures newImages == old(newImages) && added == old(added)
    {
      if currentIndex > 0 {
        currentIndex := currentIndex - 1;
      }
    }

    /** `handleImageSelect`: `file` is `e.target.files?.[0]`. A picked file
        is appended, passed to `onAddImage` once, and shown. */
    method HandleImageSelect(file: Option<File>)
      requires Valid()
      modifies this
      ensures Valid()
      ensures file.None? ==>
        newImages == old(newImages) && added == old(added) && currentIndex == old(currentIndex)
      ensures file.Some? ==>
        && newImages == old(newImages) + [file.value]
        && added == old(added) + [file.value]
        && currentIndex == old(TotalSlides()) - 1
        && Content() == Preview(file.value)
    {
      if file.Some? {
        var total := TotalSlides();
        PickedFileShown(imageUrls, newImages, file.value);
        newImages := newImages + [file.value];
        added := added + [file.value];
        currentIndex := total - 1;
      }
    }
  }
}
