/**
 * The feed card of one post (src/components/shared/PostCard.tsx): the image
 * list it derives from the post, its carousel index, and what it shows.
 */
module PostCard {
  import opened Wrappers
  import opened Documents
  import Carousel

  /**
   * `images` (PostCard.tsx:23-25): the post's `imageUrls` when that is a
   * non-empty array, else its truthy `imageUrl` alone, else the placeholder.
   */
  function CardImages(post: Post): (r: seq<string>)
    ensures |r| >= 1
    ensures post.imageUrls.Some? && post.imageUrls.value != [] ==> r == post.imageUrls.value
    ensures (post.imageUrls.None? || post.imageUrls.value == []) && HasText(post.imageUrl) ==> r == [post.imageUrl.value]
    ensures (post.imageUrls.None? || post.imageUrls.value == []) && !HasText(post.imageUrl) ==> r == [PLACEHOLDER]
  {
    if post.imageUrls.Some? && |post.imageUrls.value| > 0 then post.imageUrls.value
    else if HasText(post.imageUrl) then [post.imageUrl.value]
    else [PLACEHOLDER]
  }

  /** What the card shows for a given carousel index. */
  datatype CardView = CardView(
    currentImage: Option<string>,    // `images[currentImageIndex]`
    showArrows: bool,                // previous/next buttons
    counter: Option<(int, int)>,     // "index+1 / len"
    showEdit: bool)                  // the edit link

  /**
   * The rendered card: nothing at all for a falsy creator (PostCard.tsx:21);
   * otherwise arrows and counter only for more than one image, and the edit
   * link only for the post's own creator (PostCard.tsx:106-108, 139-185).
   */
  function RenderCard(post: Post, userId: string, index: int): (r: Option<CardView>)
    ensures r.None? <==> !Truthy(post.creator)
    ensures r.Some? ==>
      var images := CardImages(post);
      && (r.value.showArrows <==> |images| > 1)
      && (r.value.counter.Some? <==> |images| > 1)
      && (r.value.counter.Some? ==> r.value.counter.value == (index + 1, |images|))
      && (r.value.showEdit <==> Owns(userId, post))
      && (0 <= index < |images| ==> r.value.currentImage == Some(images[index]))
      && (r.value.currentImage.None? <==> !(0 <= index < |images|))
  {
    if !Truthy(post.creator) then None
    else
      var images := CardImages(post);
      var multiple := |images| > 1;
      Some(CardView(
        if 0 <= index < |images| then Some(images[index]) else None,
        multiple,
        if multiple then Some((index + 1, |images|)) else None,
        Owns(userId, post)))
  }

  /** A creator stored as a bare id string never gets the edit link. */
  lemma StringCreatorHidesEdit(post: Post, userId: string, index: int)
    requires post.creator.Str? && post.creator.s != ""
    ensures RenderCard(post, userId, index).Some?
    ensures !RenderCard(post, userId, index).value.showEdit
  {
  }

  /**
   * The carousel state of one card. The post is a property, so the images
   * are fixed for the lifetime of the state; only the index moves.
   */
  class CardCarousel {
    const images: seq<string>
    var index: int

    /** The index always points at an image. */
    predicate Valid()
      reads this
    {
      0 <= index < |images|
    }

    /** `useState(0)` (PostCard.tsx:17). */
    constructor(post: Post)
      ensures images == CardImages(post) && index == 0
      ensures Valid()
    {
      images := CardImages(post);
      index := 0;
    }

    /** `handleNext` (PostCard.tsx:67-71). */
    method HandleNext()
      requires Valid()
      modifies this
      ensures Valid()
      ensures index == Carousel.Next(old(index), |images|)
      ensures index == (old(index) + 1) % |images|
    {
      index := if index == |images| - 1 then 0 else index + 1;
    }

    /** `handlePrevious` (PostCard.tsx:61-65). */
    method HandlePrevious()
      requires Valid()
      modifies this
      ensures Valid()
      ensures index == Carousel.Previous(old(index), |images|)
      ensures index == (old(index) - 1) % |images|
    {
      index := if index == 0 then |images| - 1 else index - 1;
    }

    /** What the card shows now. */
    function View(post: Post, userId: string): (r: Option<CardView>)
      requires Valid()
      reads this
      ensures images == CardImages(post) && Truthy(post.creator) ==>
        r.Some? && r.value.currentImage == Some(images[index])
    {
      RenderCard(post, userId, index)
    }
  }
}
