/**
 * The trip banner (src/components/TripImage.tsx): it shows the trip's own
 * image unless that is missing, a placeholder, or failed to load, in which
 * case it shows the themed default image for the trip's title and
 * locations.
 */
module TripImageView {
  import opened Text
  import opened DefaultImages

  /** An image source that stands for "no real image": empty, or a placeholder service or size label. */
  predicate IsPlaceholder(src: string) {
    Contains(src, "placehold.co") || Contains(src, "600 \U{00D7} 400") || src == []
  }

  class TripImage {
    const src: string
    const alt: string
    const title: string
    const locations: seq<string>
    var imageError: bool
    var isLoading: bool

    constructor (src: string, alt: string, title: string, locations: seq<string>)
      ensures this.src == src && this.alt == alt && this.title == title && this.locations == locations
      ensures !imageError && isLoading
    {
      this.src := src;
      this.alt := alt;
      this.title := title;
      this.locations := locations;
      imageError := false;
      isLoading := true;
    }

    /** `handleImageError`: loading stops and the default takes over for good. */
    method HandleImageError()
      modifies this
      ensures imageError && !isLoading
      ensures ShouldUseDefault()
    {
      imageError := true;
      isLoading := false;
    }

    /** `handleImageLoad`: loading stops, the error flag is kept. */
    method HandleImageLoad()
      modifies this
      ensures !isLoading && imageError == old(imageError)
    {
      isLoading := false;
    }

    predicate ShouldUseDefault()
      reads this
    {
      imageError || IsPlaceholder(src)
    }

    /** The source shown: either the trip's own or the default image's. */
    function ImageSrc(): (r: string)
      reads this
      ensures r == src || r == PexelsUrl
      ensures ShouldUseDefault() ==> r == GetDefaultImage(title, locations).url
      ensures !ShouldUseDefault() ==> r == src
    {
      ResultInTable(title, locations);
      if ShouldUseDefault() then GetDefaultImage(title, locations).url else src
    }

    /**
     * The alt text shown, taken from the same place as the source. Its
     * ensures only unfold the body; `ShownPair` is the property it serves.
     */
    function ImageAlt(): (r: string)
      reads this
      ensures ShouldUseDefault() ==> r == GetDefaultImage(title, locations).alt
      ensures !ShouldUseDefault() ==> r == alt
    {
      if ShouldUseDefault() then GetDefaultImage(title, locations).alt else alt
    }

    /** The loading shimmer is shown only while a real image is still on its way. */
    predicate ShowsLoadingState()
      reads this
    {
      isLoading && !imageError && !IsPlaceholder(src)
    }

    /** The fallback card with the title and locations is shown exactly when the default is used. */
    predicate ShowsFallbackCard()
      reads this
    {
      imageError || IsPlaceholder(src)
    }
  }

  /**
   * The shown source and alt come as a pair: both from the default image or
   * both from the trip, never one of each; a real source that loads is
   * shown unchanged.
   */
  lemma ShownPair(img: TripImage)
    ensures (img.ImageSrc(), img.ImageAlt()) == (GetDefaultImage(img.title, img.locations).url, GetDefaultImage(img.title, img.locations).alt)
         || (img.ImageSrc(), img.ImageAlt()) == (img.src, img.alt)
    ensures !img.imageError && !IsPlaceholder(img.src) ==> img.ImageSrc() == img.src && img.ImageAlt() == img.alt
    ensures img.ShowsFallbackCard() <==> img.ShouldUseDefault()
    ensures img.ShowsLoadingState() ==> !img.ShouldUseDefault()
  {
  }

  /** An empty source and the two placeholder markers each make a source a placeholder. */
  lemma PlaceholderCases(src: string)
    ensures src == [] ==> IsPlaceholder(src)
    ensures (exists i :: OccursAt(src, "placehold.co", i)) ==> IsPlaceholder(src)
    ensures (exists i :: OccursAt(src, "600 \U{00D7} 400", i)) ==> IsPlaceholder(src)
    ensures IsPlaceholder(src) ==> src == [] || (exists i :: OccursAt(src, "placehold.co", i))
                                   || (exists i :: OccursAt(src, "600 \U{00D7} 400", i))
  {
    ContainsIff(src, "placehold.co");
    ContainsIff(src, "600 \U{00D7} 400");
  }
}
