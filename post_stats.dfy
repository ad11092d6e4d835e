/**
 * The like and save controls under a post (src/components/shared/PostStats.tsx):
 * a local copy of the post's likes that the like button toggles, and the
 * saved status derived from the user's saved posts.
 */
module PostStats {
  import opened Wrappers
  import opened Documents
  import Seqs
  import SavedPosts

  /**
   * The like toggle (PostStats.tsx:57-63): every occurrence of `userId` is
   * removed when it is there, otherwise it is appended at the end.
   */
  function ToggledLikes(likes: seq<string>, userId: string): (r: seq<string>)
    ensures userId in r <==> userId !in likes
    ensures forall id :: id != userId ==> multiset(r)[id] == multiset(likes)[id]
    ensures userId in likes ==> Seqs.SubseqOf(r, likes)
    ensures userId !in likes ==> r == likes + [userId] && |r| == |likes| + 1
  {
    if userId in likes then Seqs.RemoveAll(likes, userId) else likes + [userId]
  }

  /** Liking and unliking a post the user had not liked restores the list. */
  lemma ToggleTwiceRestores(likes: seq<string>, userId: string)
    requires userId !in likes
    ensures ToggledLikes(ToggledLikes(likes, userId), userId) == likes
  {
    Seqs.RemoveAllAfterAddIfAbsent(likes, userId);
  }

  /**
   * From a list that held the user's like (possibly several times), two
   * toggles leave a single like at the end.
   */
  lemma ToggleTwiceFromLiked(likes: seq<string>, userId: string)
    requires userId in likes
    ensures ToggledLikes(ToggledLikes(likes, userId), userId) == Seqs.RemoveAll(likes, userId) + [userId]
  {
  }

  /** A toggle leaves the user's like in the list at most once. */
  lemma ToggleNeverDoubles(likes: seq<string>, userId: string)
    ensures multiset(ToggledLikes(likes, userId))[userId] <= 1
  {
    if userId !in likes {
      assert multiset(likes + [userId]) == multiset(likes) + multiset{userId};
    }
  }

  /** `n` successive clicks of the like button. */
  function ToggledTimes(likes: seq<string>, userId: string, n: nat): (r: seq<string>)
    decreases n
  {
    if n == 0 then likes else ToggledLikes(ToggledTimes(likes, userId, n - 1), userId)
  }

  lemma ParityStep(n: nat)
    requires n > 0
    ensures n % 2 == 0 <==> (n - 1) % 2 != 0
  {
  }

  /** After any number of toggles the like is there iff the parity says so. */
  lemma {:induction false} ToggleParity(likes: seq<string>, userId: string, n: nat)
    ensures userId in ToggledTimes(likes, userId, n) <==> (userId in likes <==> n % 2 == 0)
    decreases n
  {
    if n > 0 {
      ToggleParity(likes, userId, n - 1);
      var prev := ToggledTimes(likes, userId, n - 1);
      assert ToggledTimes(likes, userId, n) == ToggledLikes(prev, userId);
      var wasIn, isIn := userId in prev, userId in ToggledTimes(likes, userId, n);
      assert isIn == !wasIn;
      ParityStep(n);
    }
  }

  /** However often the user toggles, every other user's likes are untouched. */
  lemma {:induction false} ToggleKeepsOthers(likes: seq<string>, userId: string, n: nat, id: string)
    requires id != userId
    ensures multiset(ToggledTimes(likes, userId, n))[id] == multiset(likes)[id]
    decreases n
  {
    if n > 0 {
      ToggleKeepsOthers(likes, userId, n - 1, id);
      var prev := ToggledTimes(likes, userId, n - 1);
      assert ToggledTimes(likes, userId, n) == ToggledLikes(prev, userId);
      assert multiset(ToggledLikes(prev, userId))[id] == multiset(prev)[id];
    }
  }

  /** After at least one toggle the user's like is counted at most once. */
  lemma ToggleCountsOnce(likes: seq<string>, userId: string, n: nat)
    requires n > 0
    ensures multiset(ToggledTimes(likes, userId, n))[userId] <= 1
  {
    var prev := ToggledTimes(likes, userId, n - 1);
    assert ToggledTimes(likes, userId, n) == ToggledLikes(prev, userId);
    ToggleNeverDoubles(prev, userId);
  }

  /** What `handleSavePost` asks the backend to do. */
  datatype SaveRequest = DeleteSave(saveId: string) | CreateSave(userId: string, postId: string)

  /**
   * The state of the controls for one post (PostStats.tsx:25-27). The post
   * and the signed-in user are properties and fixed here.
   */
  class StatsState {
    const post: Post
    const userId: string
    var likes: seq<string>
    var isSaved: bool
    var savedPostId: Option<string>

    /** The likes start as the post's array, or `[]` (PostStats.tsx:23). */
    constructor(p: Post, user: string)
      ensures post == p && userId == user
      ensures likes == (if p.likes.Some? then p.likes.value else [])
      ensures !isSaved && savedPostId.None?
    {
      post := p;
      userId := user;
      likes := if p.likes.Some? then p.likes.value else [];
      isSaved := false;
      savedPostId := None;
    }

    /**
     * The effect of PostStats.tsx:39-50: the post is saved iff some saved
     * post has its `$id`; `savedPostId` is the first such post's truthy
     * `saveId`, or `null`.
     */
    method SyncSaved(savedPostsData: Option<PostList>)
      modifies this
      ensures var saved := if savedPostsData.Some? then savedPostsData.value.documents else [];
        var found := SavedPosts.FirstWithId(saved, post.id);
        && (isSaved <==> exists p :: p in saved && p.id == post.id)
        && savedPostId == (if found.Some? && HasText(found.value.saveId) then found.value.saveId else None)
      ensures likes == old(likes)
    {
      var saved := if savedPostsData.Some? then savedPostsData.value.documents else [];
      var savedPost := SavedPosts.FirstWithId(saved, post.id);
      if savedPost.Some? {
        isSaved := true;
        savedPostId := if HasText(savedPost.value.saveId) then savedPost.value.saveId else None;
      } else {
        isSaved := false;
        savedPostId := None;
      }
    }

    /**
     * `handleLikePost` (PostStats.tsx:52-67): the copy is filtered or pushed
     * onto, becomes the new state, and is the list sent to `likePost`.
     */
    method HandleLikePost() returns (sent: seq<string>)
      modifies this
      ensures likes == ToggledLikes(old(likes), userId)
      ensures sent == likes
      ensures userId in likes <==> userId !in old(likes)
      ensures userId !in old(likes) ==> |likes| == |old(likes)| + 1
      ensures userId in old(likes) ==> |likes| < |old(likes)|
      ensures isSaved == old(isSaved) && savedPostId == old(savedPostId)
    {
      var likesArray := likes;
      if userId in likesArray {
        likesArray := Seqs.RemoveAll(likesArray, userId);
      } else {
        likesArray := likesArray + [userId];
      }
      likes := likesArray;
      sent := likesArray;
    }

    /**
     * `handleSavePost` (PostStats.tsx:69-81): a saved post with a known save
     * id is unsaved; in every other case a save is requested. `savedPostId`
     * is left as it was.
     */
    method HandleSavePost() returns (request: SaveRequest)
      modifies this
      ensures old(isSaved) && HasText(old(savedPostId)) ==>
        !isSaved && request == DeleteSave(old(savedPostId).value)
      ensures !(old(isSaved) && HasText(old(savedPostId))) ==>
        isSaved && request == CreateSave(userId, post.id)
      ensures likes == old(likes) && savedPostId == old(savedPostId)
    {
      if isSaved && HasText(savedPostId) {
        isSaved := false;
        return DeleteSave(savedPostId.value);
      }
      request := CreateSave(userId, post.id);
      isSaved := true;
    }
  }
}
