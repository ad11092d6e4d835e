/**
 * The post details page (src/_root/pages/PostDetails.tsx): its image list
 * and carousel, the related-posts list, the owner controls and the
 * delete-confirmation flow.
 */
module PostDetails {
  import opened Wrappers
  import opened Documents
  import Seqs
  import Carousel
  import Uploads
  import PostCard
  import Resolver

  /**
   * `images` (PostDetails.tsx:133-135): `imageUrls` when that is a non-empty
   * array, else the truthy `imageUrl` alone, else nothing.
   */
  function DetailImages(post: Post): (r: seq<string>)
    ensures post.imageUrls.Some? && post.imageUrls.value != [] ==> r == post.imageUrls.value
    ensures r == [] <==> (post.imageUrls.None? || post.imageUrls.value == []) && !HasText(post.imageUrl)
  {
    if post.imageUrls.Some? && |post.imageUrls.value| > 0 then post.imageUrls.value
    else if HasText(post.imageUrl) then [post.imageUrl.value]
    else []
  }

  /**
   * The page and the feed card derive the same images, except that the page
   * has no placeholder: where the page has none, the card shows the placeholder.
   */
  lemma DetailImagesMatchCard(post: Post)
    ensures DetailImages(post) != [] ==> DetailImages(post) == PostCard.CardImages(post)
    ensures DetailImages(post) == [] ==> PostCard.CardImages(post) == [PLACEHOLDER]
  {
  }

  /**
   * `images[currentImageIndex] || post?.imageUrl` (PostDetails.tsx:137): the
   * indexed image when it exists and is non-empty, else the post's `imageUrl`.
   */
  function CurrentImage(images: seq<string>, index: int, imageUrl: Option<string>): (r: Option<string>)
    ensures 0 <= index < |images| && images[index] != "" ==> r == Some(images[index])
    ensures !(0 <= index < |images|) ==> r == imageUrl
    ensures r.Some? ==> r.value in images || imageUrl == r
  {
    if 0 <= index < |images| && images[index] != "" then Some(images[index]) else imageUrl
  }

  /** A post without images still shows its `imageUrl` field, whatever it holds. */
  lemma NoImagesFallsBack(post: Post, index: int)
    requires DetailImages(post) == []
    ensures CurrentImage(DetailImages(post), index, post.imageUrl) == post.imageUrl
  {
  }

  /**
   * `relatedPosts` (PostDetails.tsx:59-61): the creator's posts without the
   * one on the page, in their order; `None` while the list is not loaded.
   */
  function RelatedPosts(userPosts: Option<PostList>, routeId: Option<string>): (r: Option<seq<Post>>)
    ensures r.None? <==> userPosts.None?
    ensures r.Some? ==> Seqs.SubseqOf(r.value, userPosts.value.documents)
    ensures r.Some? ==> forall p :: p in r.value <==> p in userPosts.value.documents && Some(p.id) != routeId
  {
    match userPosts
    case None => None
    case Some(list) => Some(Seqs.Filter(list.documents, (p: Post) => Some(p.id) != routeId))
  }

  /** Without a route id (`id` undefined) nothing is removed. */
  lemma RelatedPostsWithoutRoute(userPosts: PostList)
    ensures RelatedPosts(Some(userPosts), None) == Some(userPosts.documents)
  {
    KeepAllIsIdentity(userPosts.documents, (p: Post) => Some(p.id) != None);
  }

  lemma {:induction false} KeepAllIsIdentity<T(!new)>(s: seq<T>, keep: T -> bool)
    requires forall x :: keep(x)
    ensures Seqs.Filter(s, keep) == s
    decreases |s|
  {
    if s != [] {
      KeepAllIsIdentity(s[1..], keep);
      assert s == [s[0]] + s[1..];
    }
  }

  /**
   * `post?.imageIds || post?.imageId` (PostDetails.tsx:71): the id array
   * whenever it is present (even empty), else the single id, else nothing.
   */
  function DeleteImageArg(post: Post): (r: Uploads.ImageArg)
    ensures post.imageIds.Some? ==> r == Uploads.Ids(post.imageIds.value)
    ensures post.imageIds.None? && post.imageId.Some? ==> r == Uploads.One(post.imageId.value)
    ensures r.NoImage? <==> post.imageIds.None? && post.imageId.None?
  {
    if post.imageIds.Some? then Uploads.Ids(post.imageIds.value)
    else if post.imageId.Some? then Uploads.One(post.imageId.value)
    else Uploads.NoImage
  }

  /**
   * Deleting from the page removes every stored image of a post with an id
   * array, and nothing when the route has no id.
   */
  lemma DeleteFromPageRemovesImages(post: Post, routeId: Option<string>, id: string)
    requires post.imageIds.Some? && id in post.imageIds.value && id != ""
    requires HasText(routeId)
    ensures id in Uploads.FilesToDelete(routeId, true, DeleteImageArg(post))
    ensures Uploads.FilesToDelete(None, true, DeleteImageArg(post)) == []
  {
  }

  /** A `deletePost` mutation issued by the page. */
  datatype DeleteCall = DeleteCall(postId: Option<string>, image: Uploads.ImageArg)

  /** What the page shows around the post. */
  datatype DetailView = DetailView(
    currentImage: Option<string>,
    showArrows: bool,
    showEdit: bool,
    showDelete: bool,
    showModal: bool)

  /**
   * The page's state: the carousel index, the confirmation flag, and the
   * delete mutations issued so far. The post and the route id are fixed for
   * the lifetime of the state.
   */
  class DetailsPage {
    const post: Post
    const routeId: Option<string>
    const images: seq<string>
    var index: int
    var showDeleteConfirm: bool
    var deleteCalls: seq<DeleteCall>

    /** The index points at an image, or is 0 for a post without images. */
    predicate Valid()
      reads this
    {
      images == DetailImages(post) && (index == 0 || 0 <= index < |images|)
    }

    /** `useState(0)` and `useState(false)` (PostDetails.tsx:24-26). */
    constructor(p: Post, route: Option<string>)
      ensures post == p && routeId == route
      ensures index == 0 && !showDeleteConfirm && deleteCalls == []
      ensures Valid()
    {
      post := p;
      routeId := route;
      images := DetailImages(p);
      index := 0;
      showDeleteConfirm := false;
      deleteCalls := [];
    }

    /**
     * What the page shows now for the signed-in user; `None` when rendering
     * throws, because the profile link reads `post?.creator.$id`
     * (PostDetails.tsx:184) with no `?.` after a null or undefined creator.
     */
    function View(userId: string): (r: Option<DetailView>)
      reads this
      ensures r.None? <==> post.creator.Null?
      ensures r.Some? ==> (r.value.showArrows <==> |images| > 1)
      ensures r.Some? ==> r.value.showEdit == r.value.showDelete
      ensures r.Some? ==> (r.value.showDelete <==> Owns(userId, post))
      ensures r.Some? ==> r.value.showModal == showDeleteConfirm
      ensures r.Some? ==> r.value.currentImage == CurrentImage(images, index, post.imageUrl)
    {
      if post.creator.Null? then None
      else
        Some(DetailView(CurrentImage(images, index, post.imageUrl), |images| > 1,
                        Owns(userId, post), Owns(userId, post), showDeleteConfirm))
    }

    /** `handleNext` (PostDetails.tsx:143-145); the button exists only for several images. */
    method HandleNext()
      requires Valid() && |images| > 1
      modifies this
      ensures Valid() && 0 <= index < |images|
      ensures index == Carousel.Next(old(index), |images|)
      ensures showDeleteConfirm == old(showDeleteConfirm) && deleteCalls == old(deleteCalls)
    {
      index := if index == |images| - 1 then 0 else index + 1;
    }

    /** `handlePrevious` (PostDetails.tsx:139-141). */
    method HandlePrevious()
      requires Valid() && |images| > 1
      modifies this
      ensures Valid() && 0 <= index < |images|
      ensures index == Carousel.Previous(old(index), |images|)
      ensures showDeleteConfirm == old(showDeleteConfirm) && deleteCalls == old(deleteCalls)
    {
      index := if index == 0 then |images| - 1 else index - 1;
    }

    /** `handleDeletePost` (PostDetails.tsx:63-65): opens the dialog, deletes nothing. */
    method HandleDeletePost()
      requires Valid()
      modifies this
      ensures Valid() && showDeleteConfirm
      ensures index == old(index) && deleteCalls == old(deleteCalls)
    {
      showDeleteConfirm := true;
    }

    /** `cancelDeletePost` (PostDetails.tsx:98-100): closes the dialog, deletes nothing. */
    method CancelDeletePost()
      requires Valid()
      modifies this
      ensures Valid() && !showDeleteConfirm
      ensures index == old(index) && deleteCalls == old(deleteCalls)
    {
      showDeleteConfirm := false;
    }

    /**
     * `confirmDeletePost` (PostDetails.tsx:67-96), reachable from the open
     * dialog: closes it and issues exactly one delete, for the route's id
     * and the post's image ids.
     */
    method ConfirmDeletePost()
      requires Valid() && showDeleteConfirm
      modifies this
      ensures Valid() && !showDeleteConfirm
      ensures index == old(index)
      ensures deleteCalls == old(deleteCalls) + [DeleteCall(routeId, DeleteImageArg(post))]
    {
      showDeleteConfirm := false;
      deleteCalls := deleteCalls + [DeleteCall(routeId, DeleteImageArg(post))];
    }
  }

  /**
   * The first discrepancy of the resolution block reaches this page: a post
   * whose creator id cannot be fetched comes back with an undefined creator,
   * and the page then fails to render.
   */
  lemma FailedFetchBreaksDetails(page: DetailsPage, post: Post, id: string, userId: string)
    requires id != "" && post.creator == Str(id)
    requires page.post == Resolver.ResolveCreatorAsWritten(map[], post)
    ensures page.View(userId).None?
  {
    Resolver.FailedFetchBlanksCreator(post, id);
  }
}
