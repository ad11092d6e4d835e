/**
 * Creator resolution (src/lib/appwrite/api.ts:245-259, repeated at 293-307,
 * 350-364, 644-658 and 694-708) and the list readers that apply it to every
 * post they return.
 */
module Resolver {
  import opened Wrappers
  import opened Documents
  import opened Refs
  import Seqs

  /** `typeof c === 'object' && c?.$id && c.name`: the creator is already a user. */
  predicate IsPopulated(creator: Ref)
  {
    creator.Obj? && HasText(creator.id) && HasText(creator.name)
  }

  /** The id the resolution block extracts, and whether it is worth a fetch. */
  predicate HasCreatorId(post: Post)
  {
    Truthy(CreatorId(post.creator))
  }

  /**
   * The resolution block exactly as written. `getUserById` catches its own
   * errors and resolves `undefined`, so the surrounding `catch` that would
   * return the post unchanged is never reached: a failed fetch replaces the
   * creator by `undefined` (here `Null`).
   */
  function ResolveCreatorAsWritten(users: UserStore, post: Post): (r: Post)
    ensures r.(creator := post.creator) == post
    ensures IsPopulated(post.creator) || !HasCreatorId(post) ==> r == post
    ensures !IsPopulated(post.creator) && HasCreatorId(post) ==>
      r.creator == (match GetUserById(users, CreatorId(post.creator))
                    case Some(u) => u
                    case None => Null)
  {
    if IsPopulated(post.creator) then post
    else
      var creatorId := CreatorId(post.creator);
      if !Truthy(creatorId) then post
      else
        match GetUserById(users, creatorId)
        case Some(u) => post.(creator := u)
        case None => post.(creator := Null)
  }

  /**
   * A post whose creator id cannot be fetched loses its creator in the code
   * as written, and PostCard (src/components/shared/PostCard.tsx:21) then
   * renders nothing for it; the corrected rule leaves the post as it was.
   */
  lemma FailedFetchBlanksCreator(post: Post, id: string)
    requires id != "" && post.creator == Str(id)
    ensures Truthy(post.creator)
    ensures ResolveCreatorAsWritten(map[], post).creator == Null
    ensures !Truthy(ResolveCreatorAsWritten(map[], post).creator)
    ensures ResolveCreator(map[], post) == post
  {
  }

  /**
   * Creator resolution as intended: the post is left untouched when the
   * creator is already populated, when no truthy id can be extracted, or when
   * the lookup yields nothing; otherwise only `creator` is replaced, by the
   * user object.
   */
  function ResolveCreator(users: UserStore, post: Post): (r: Post)
    ensures r.(creator := post.creator) == post
    ensures IsPopulated(post.creator) ==> r == post
    ensures !HasCreatorId(post) ==> r == post
    ensures GetUserById(users, CreatorId(post.creator)).None? ==> r == post
    ensures !IsPopulated(post.creator) && HasCreatorId(post) && GetUserById(users, CreatorId(post.creator)).Some?
      ==> r == post.(creator := GetUserById(users, CreatorId(post.creator)).value)
    ensures r != post ==> Some(r.creator) == GetUserById(users, CreatorId(post.creator))
    ensures r != post ==> r.creator.Obj?
    ensures Truthy(post.creator) ==> Truthy(r.creator)
  {
    if IsPopulated(post.creator) then post
    else
      var creatorId := CreatorId(post.creator);
      if !Truthy(creatorId) then post
      else
        match GetUserById(users, creatorId)
        case Some(u) => post.(creator := u)
        case None => post
  }

  /** Whenever the lookup succeeds the two rules agree; they differ only on a failed lookup. */
  lemma AsWrittenAgreesOnSuccess(users: UserStore, post: Post)
    requires GetUserById(users, CreatorId(post.creator)).Some? || !HasCreatorId(post)
    ensures ResolveCreatorAsWritten(users, post) == ResolveCreator(users, post)
  {
  }

  /**
   * The three shapes of one creator id (a string, an array starting with it,
   * an object with that `$id` but no name) resolve to the same post.
   */
  lemma SameResultForEveryShape(users: UserStore, post: Post, id: string, rest: seq<Ref>, img: Option<string>)
    requires id != ""
    ensures ResolveCreator(users, post.(creator := Str(id)))
         == ResolveCreator(users, post.(creator := Lst([Str(id)] + rest))).(creator := ResolveCreator(users, post.(creator := Str(id))).creator)
    ensures ResolveCreator(users, post.(creator := Lst([Str(id)] + rest))).creator
         == ResolveCreator(users, post.(creator := Obj(Some(id), None, img))).creator
         || id !in users
    ensures id in users ==>
      ResolveCreator(users, post.(creator := Str(id))).creator == UserRef(users[id])
      && ResolveCreator(users, post.(creator := Lst([Str(id)] + rest))).creator == UserRef(users[id])
      && ResolveCreator(users, post.(creator := Obj(Some(id), None, img))).creator == UserRef(users[id])
  {
  }

  /**
   * Resolving twice is resolving once, in a collection keyed by `$id`, unless
   * the creator is an array whose first element is an unnamed user object
   * (which `getUserById` hands back as it is, and which a second pass fetches).
   */
  lemma {:induction false} ResolveCreatorIdempotent(users: UserStore, post: Post)
    requires UsersKeyedById(users)
    requires !(post.creator.Lst? && |post.creator.items| > 0 && post.creator.items[0].Obj?)
    ensures ResolveCreator(users, ResolveCreator(users, post)) == ResolveCreator(users, post)
  {
    var r := ResolveCreator(users, post);
    if r != post {
      var cid := CreatorId(post.creator);
      assert Some(r.creator) == GetUserById(users, cid);
      var arg := NormalizeUserArg(cid);
      assert arg.ById?;
      var id := arg.id;
      assert id in users && r.creator == UserRef(users[id]);
      assert users[id].id == id;
      if !IsPopulated(r.creator) {
        assert CreatorId(r.creator) == Str(id);
        assert GetUserById(users, Str(id)) == Some(r.creator);
        assert ResolveCreator(users, r) == r.(creator := r.creator);
      }
    }
  }

  /** The unnamed-object corner: the second pass fetches the user the first pass did not. */
  lemma UnnamedObjectInArrayIsRefetched(users: UserStore, post: Post, id: string, u: User)
    requires UsersKeyedById(users) && id != "" && id in users && users[id] == u && HasText(u.name)
    requires post.creator == Lst([Obj(Some(id), None, None)])
    ensures ResolveCreator(users, post).creator == Obj(Some(id), None, None)
    ensures ResolveCreator(users, ResolveCreator(users, post)).creator == UserRef(u)
  {
    assert u.id == id;
  }

  /**
   * `Promise.all(documents.map(resolve))`: one result per post, in input
   * order, each resolved on its own.
   */
  function ResolveCreators(users: UserStore, posts: seq<Post>): (r: seq<Post>)
    ensures |r| == |posts|
    ensures forall i :: 0 <= i < |posts| ==> r[i] == ResolveCreator(users, posts[i])
    decreases |posts|
  {
    if posts == [] then []
    else [ResolveCreator(users, posts[0])] + ResolveCreators(users, posts[1..])
  }

  /** Batch resolution keeps every post's `$id` in place and changes nothing but creators. */
  lemma ResolveCreatorsKeepsOrder(users: UserStore, posts: seq<Post>)
    ensures forall i :: 0 <= i < |posts| ==>
      ResolveCreators(users, posts)[i].id == posts[i].id
      && ResolveCreators(users, posts)[i].(creator := posts[i].creator) == posts[i]
  {
  }

  /** Resolutions are isolated: resolving a concatenation resolves each part. */
  lemma {:induction false} ResolveCreatorsAppend(users: UserStore, a: seq<Post>, b: seq<Post>)
    ensures ResolveCreators(users, a + b) == ResolveCreators(users, a) + ResolveCreators(users, b)
    decreases |a|
  {
    if a == [] {
      assert a + b == b;
    } else {
      assert (a + b)[1..] == a[1..] + b;
      ResolveCreatorsAppend(users, a[1..], b);
    }
  }

  /** `Promise.all(documents.map(resolve))` with the resolution block as written. */
  function ResolveCreatorsAsWritten(users: UserStore, posts: seq<Post>): (r: seq<Post>)
    ensures |r| == |posts|
    ensures forall i :: 0 <= i < |posts| ==> r[i] == ResolveCreatorAsWritten(users, posts[i])
  {
    seq(|posts|, i requires 0 <= i < |posts| => ResolveCreatorAsWritten(users, posts[i]))
  }

  /**
   * The batch as written and the corrected batch differ exactly at the posts
   * that have a creator id whose fetch fails; there the code as written has
   * blanked the creator, and nothing but the creator differs anywhere.
   */
  lemma AsWrittenBatchBlanksFailures(users: UserStore, posts: seq<Post>)
    ensures forall i :: 0 <= i < |posts| ==>
      var written := ResolveCreatorsAsWritten(users, posts)[i];
      var intended := ResolveCreators(users, posts)[i];
      && written.(creator := intended.creator) == intended
      && (written != intended <==>
            !IsPopulated(posts[i].creator) && HasCreatorId(posts[i])
            && GetUserById(users, CreatorId(posts[i].creator)).None?)
      && (written != intended ==> written.creator == Null && intended == posts[i])
  {
  }

  /**
   * The intended behaviour of a batch: a post whose creator cannot be fetched
   * comes back unchanged and its neighbours are still resolved.
   */
  lemma OneFailureDoesNotSpoilBatch(users: UserStore, posts: seq<Post>, k: nat)
    requires k < |posts|
    requires GetUserById(users, CreatorId(posts[k].creator)).None?
    ensures ResolveCreators(users, posts)[k] == posts[k]
    ensures forall i :: 0 <= i < |posts| && i != k ==>
      ResolveCreators(users, posts)[i] == ResolveCreator(users, posts[i])
  {
  }

  /**
   * The shape shared by searchPosts, getInfinitePosts, getUserPosts and
   * getRecentPosts: a failed listing resolves `undefined`, otherwise the
   * envelope is kept and only `documents` is replaced.
   */
  function ResolveListing(users: UserStore, listing: Option<PostList>): (r: Option<PostList>)
    ensures r.Some? <==> listing.Some?
    ensures r.Some? ==> r.value == listing.value.(documents := ResolveCreators(users, listing.value.documents))
    ensures r.Some? ==>
      r.value.total == listing.value.total
      && |r.value.documents| == |listing.value.documents|
      && forall i :: 0 <= i < |r.value.documents| ==>
           r.value.documents[i].id == listing.value.documents[i].id
  {
    match listing
    case None => None
    case Some(l) =>
      ResolveCreatorsKeepsOrder(users, l.documents);
      Some(l.(documents := ResolveCreators(users, l.documents)))
  }

  /** The outcome of a call that may also reject before its own `try`. */
  datatype Reply<T> = Data(value: T) | NoData | Rejected

  /**
   * `getPostById`: an absent or empty id rejects (the guard sits outside the
   * `try`); a failed fetch resolves `undefined`; otherwise the post with its
   * creator resolved.
   */
  function GetPostById(posts: PostStore, users: UserStore, postId: Option<string>): (r: Reply<Post>)
    ensures r.Rejected? <==> !HasText(postId)
    ensures r.NoData? <==> HasText(postId) && postId.value !in posts
    ensures r.Data? ==> r.value == ResolveCreator(users, posts[postId.value])
    ensures r.Data? ==> r.value.(creator := posts[postId.value].creator) == posts[postId.value]
  {
    if !HasText(postId) then Rejected
    else if postId.value !in posts then NoData
    else Data(ResolveCreator(users, posts[postId.value]))
  }

  /** `post.likes && post.likes.includes(userId)` */
  predicate LikedBy(post: Post, userId: string)
  {
    post.likes.Some? && userId in post.likes.value
  }

  /**
   * `getUserLikedPosts`: no user id gives `undefined`; otherwise exactly the
   * listed posts whose likes contain the id, in listing order, creators resolved.
   */
  function GetUserLikedPosts(users: UserStore, listing: Option<PostList>, userId: Option<string>): (r: Option<PostList>)
    ensures r.Some? <==> HasText(userId) && listing.Some?
    ensures r.Some? ==>
      var liked := Seqs.Filter(listing.value.documents, (p: Post) => LikedBy(p, userId.value));
      && r.value.total == listing.value.total
      && r.value.documents == ResolveCreators(users, liked)
      && Seqs.SubseqOf(liked, listing.value.documents)
      && (forall p :: p in liked <==> p in listing.value.documents && LikedBy(p, userId.value))
  {
    if !HasText(userId) then None
    else
      match listing
      case None => None
      case Some(l) =>
        var liked := Seqs.Filter(l.documents, (p: Post) => LikedBy(p, userId.value));
        Some(l.(documents := ResolveCreators(users, liked)))
  }
}
