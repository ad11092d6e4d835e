/**
 * The post grid (src/components/shared/GridPostList.tsx): one item per post,
 * each with a thumbnail, optionally the creator's avatar and name, and
 * optionally the post's stats.
 */
module GridPostList {
  import opened Wrappers
  import opened Documents
  import PostCard
  import SavedPosts

  /**
   * The thumbnail (GridPostList.tsx:24-26): the first of a non-empty
   * `imageUrls` array, else the truthy `imageUrl`, else the placeholder.
   */
  function Thumbnail(post: Post): (r: string)
    ensures post.imageUrls.Some? && post.imageUrls.value != [] ==> r == post.imageUrls.value[0]
    ensures (post.imageUrls.None? || post.imageUrls.value == []) ==>
      r == (if HasText(post.imageUrl) then post.imageUrl.value else PLACEHOLDER)
  {
    if post.imageUrls.Some? && |post.imageUrls.value| > 0 then post.imageUrls.value[0]
    else if HasText(post.imageUrl) then post.imageUrl.value
    else PLACEHOLDER
  }

  /** The grid shows the image the feed card opens on. */
  lemma ThumbnailIsFirstCardImage(post: Post)
    ensures Thumbnail(post) == PostCard.CardImages(post)[0]
  {
  }

  /** `post.creator?.name || "Unknown"` (GridPostList.tsx:49). */
  function CreatorName(creator: Ref): (r: string)
    ensures r != ""
    ensures creator.Obj? && HasText(creator.name) ==> r == creator.name.value
    ensures !(creator.Obj? && HasText(creator.name)) ==> r == "Unknown"
  {
    if creator.Obj? && HasText(creator.name) then creator.name.value else "Unknown"
  }

  /** `post.creator?.imageUrl || placeholder` (GridPostList.tsx:42-45). */
  function CreatorAvatar(creator: Ref): (r: string)
    ensures r != ""
    ensures creator.Obj? && HasText(creator.imageUrl) ==> r == creator.imageUrl.value
    ensures !(creator.Obj? && HasText(creator.imageUrl)) ==> r == PLACEHOLDER
  {
    if creator.Obj? && HasText(creator.imageUrl) then creator.imageUrl.value else PLACEHOLDER
  }

  /** The creator row of an item: avatar and name. */
  datatype UserRow = UserRow(avatar: string, name: string)

  /** One `<li>`. */
  datatype GridItem = GridItem(key: string, thumbnail: string, user: Option<UserRow>, showStats: bool)

  /** One grid item for one post. */
  function Item(post: Post, showUser: bool, showStats: bool): (r: GridItem)
    ensures r.key == post.id && r.thumbnail == Thumbnail(post)
    ensures r.user.Some? <==> showUser
    ensures r.user.Some? ==> r.user.value == UserRow(CreatorAvatar(post.creator), CreatorName(post.creator))
    ensures r.showStats == showStats
  {
    GridItem(post.id, Thumbnail(post),
             if showUser then Some(UserRow(CreatorAvatar(post.creator), CreatorName(post.creator))) else None,
             showStats)
  }

  /**
   * The whole list (GridPostList.tsx:13-29): the flags default to `true` when
   * not passed, and the items follow the posts one to one and in order.
   */
  function GridItems(posts: seq<Post>, showUser: Option<bool>, showStats: Option<bool>): (r: seq<GridItem>)
    ensures |r| == |posts|
    ensures forall i :: 0 <= i < |posts| ==> r[i].key == posts[i].id && r[i].thumbnail == Thumbnail(posts[i])
    ensures forall i :: 0 <= i < |posts| ==>
      (r[i].user.Some? <==> showUser != Some(false)) && (r[i].showStats <==> showStats != Some(false))
    ensures forall i :: 0 <= i < |posts| ==>
      r[i].user.Some? ==> r[i].user.value == UserRow(CreatorAvatar(posts[i].creator), CreatorName(posts[i].creator))
    ensures forall i :: 0 <= i < |posts| ==> r[i] == Item(posts[i], showUser != Some(false), showStats != Some(false))
  {
    var user := if showUser.Some? then showUser.value else true;
    var stats := if showStats.Some? then showStats.value else true;
    seq(|posts|, i requires 0 <= i < |posts| => Item(posts[i], user, stats))
  }

  /**
   * A grid of saved posts has pairwise distinct keys, because the saved-posts
   * reader removes duplicate post ids.
   */
  lemma SavedGridKeysDistinct(posts: PostStore, users: UserStore, saves: seq<Save>, showUser: Option<bool>, showStats: Option<bool>)
    ensures var items := GridItems(SavedPosts.FirstById(SavedPosts.ResolvedSaves(posts, users, saves)), showUser, showStats);
      forall i, j :: 0 <= i < j < |items| ==> items[i].key != items[j].key
  {
    SavedPosts.FirstByIdKeepsFirsts(SavedPosts.ResolvedSaves(posts, users, saves));
  }
}
