/**
 * `getSavedPosts` (src/lib/appwrite/api.ts:524-607): the user's save records,
 * newest first, are turned into the posts they point at; unresolvable saves
 * are dropped and a post saved more than once appears once, for its newest
 * save.
 */
module SavedPosts {
  import opened Wrappers
  import opened Documents
  import opened Refs
  import Seqs

  /**
   * The post id of a save record (api.ts:541-552): an object with a truthy
   * `$id` gives that id, an array gives its first element, anything else is
   * taken as it is; the result is kept only when it is a non-empty string.
   */
  function SavePostId(post: Ref): (r: Option<string>)
    ensures r.Some? ==> r.value != ""
    ensures post.Str? ==> r == (if post.s != "" then Some(post.s) else None)
    ensures post.Obj? ==> r == (if HasText(post.id) then post.id else None)
    ensures post.Lst? ==>
      r == (if |post.items| > 0 && post.items[0].Str? && post.items[0].s != "" then Some(post.items[0].s) else None)
    ensures post.Null? || post.Other? ==> r.None?
  {
    var candidate :=
      if post.Obj? && HasText(post.id) then Str(post.id.value)
      else if post.Lst? then (if |post.items| > 0 then post.items[0] else Null)
      else post;
    if candidate.Str? && candidate.s != "" then Some(candidate.s) else None
  }

  /**
   * The save-record extraction and `getCreatorId` agree on every reference
   * that holds a non-empty string id; they differ only where `getCreatorId`
   * would hand back an object found inside an array.
   */
  lemma SavePostIdAgreesWithCreatorId(ref: Ref, id: string)
    requires id != ""
    ensures SavePostId(ref) == Some(id) <==> CreatorId(ref) == Str(id)
  {
  }

  /**
   * The creator attached to a saved post (api.ts:563-570): looked up by
   * `getCreatorId` whenever the stored creator is truthy, `null` when there
   * is no id and `undefined` (also `Null` here) when the lookup fails. Unlike
   * the resolution block, a populated creator is fetched again.
   */
  function SavedCreator(users: UserStore, creator: Ref): (r: Ref)
    ensures r.Obj? || r.Null?
    ensures !Truthy(creator) ==> r == Null
    ensures r.Obj? ==> Some(r) == GetUserById(users, CreatorId(creator))
    ensures Truthy(creator) && Truthy(CreatorId(creator)) && GetUserById(users, CreatorId(creator)).Some?
      ==> r == GetUserById(users, CreatorId(creator)).value
    ensures !Truthy(CreatorId(creator)) ==> r == Null
  {
    if Truthy(creator) && Truthy(CreatorId(creator)) then
      match GetUserById(users, CreatorId(creator))
      case Some(u) => u
      case None => Null
    else Null
  }

  /**
   * One save record: `None` (the `null` the mapper returns) when it has no
   * usable post id or the post cannot be fetched; otherwise the post with its
   * creator attached and `saveId` set to the save record's own id.
   */
  function ResolveSave(posts: PostStore, users: UserStore, save: Save): (r: Option<Post>)
    ensures r.Some? <==> SavePostId(save.post).Some? && SavePostId(save.post).value in posts
    ensures r.Some? ==>
      var stored := posts[SavePostId(save.post).value];
      && r.value.saveId == Some(save.id)
      && r.value.creator == SavedCreator(users, stored.creator)
      && r.value.(creator := stored.creator, saveId := stored.saveId) == stored
  {
    match SavePostId(save.post)
    case None => None
    case Some(postId) =>
      if postId in posts then
        var post := posts[postId];
        Some(post.(creator := SavedCreator(users, post.creator), saveId := Some(save.id)))
      else None
  }

  /** `Promise.all(saves.map(...))` followed by `filter(Boolean)`. */
  function ResolvedSaves(posts: PostStore, users: UserStore, saves: seq<Save>): (r: seq<Post>)
    ensures |r| <= |saves|
    decreases |saves|
  {
    if saves == [] then []
    else
      var rest := ResolvedSaves(posts, users, saves[1..]);
      match ResolveSave(posts, users, saves[0])
      case Some(p) => [p] + rest
      case None => rest
  }

  /** The resolved posts are exactly the results of the saves that resolve. */
  lemma {:induction false} ResolvedSavesMembers(posts: PostStore, users: UserStore, saves: seq<Save>)
    ensures forall p :: p in ResolvedSaves(posts, users, saves) ==>
      exists s :: s in saves && ResolveSave(posts, users, s) == Some(p)
    ensures forall s :: s in saves && ResolveSave(posts, users, s).Some? ==>
      ResolveSave(posts, users, s).value in ResolvedSaves(posts, users, saves)
    decreases |saves|
  {
    if saves != [] {
      ResolvedSavesMembers(posts, users, saves[1..]);
      assert forall s :: s in saves ==> s == saves[0] || s in saves[1..];
      assert forall s :: s in saves[1..] ==> s in saves;
    }
  }

  /** The ids of a list of posts. */
  function IdsOf(ps: seq<Post>): (r: set<string>)
    ensures forall p :: p in ps ==> p.id in r
    ensures forall id :: id in r ==> exists p :: p in ps && p.id == id
  {
    set p | p in ps :: p.id
  }

  /**
   * Deduplication by `$id` keeping the first occurrence, defined element by
   * element from the front of the list as the `forEach` visits it; a post with
   * an empty `$id` is skipped.
   */
  function FirstById(ps: seq<Post>): (r: seq<Post>)
    ensures |r| <= |ps|
    decreases |ps|
  {
    if ps == [] then []
    else
      var prev := FirstById(ps[..|ps| - 1]);
      var last := ps[|ps| - 1];
      if last.id == "" || last.id in IdsOf(prev) then prev else prev + [last]
  }

  /** The first post of `ps` with the given id. */
  function FirstWithId(ps: seq<Post>, id: string): (r: Option<Post>)
    ensures r.Some? <==> exists p :: p in ps && p.id == id
    ensures r.Some? ==> r.value in ps && r.value.id == id
    decreases |ps|
  {
    if ps == [] then None
    else if ps[0].id == id then Some(ps[0])
    else
      assert forall p :: p in ps ==> p == ps[0] || p in ps[1..];
      FirstWithId(ps[1..], id)
  }

  lemma {:induction false} FirstWithIdSnoc(ps: seq<Post>, x: Post, id: string)
    ensures FirstWithId(ps + [x], id) ==
      (if FirstWithId(ps, id).Some? then FirstWithId(ps, id)
       else if x.id == id then Some(x) else None)
    decreases |ps|
  {
    if ps == [] {
      assert ps + [x] == [x];
    } else {
      assert (ps + [x])[1..] == ps[1..] + [x];
      if ps[0].id != id {
        FirstWithIdSnoc(ps[1..], x, id);
      }
    }
  }

  /**
   * What the deduplication promises: the survivors have pairwise distinct,
   * non-empty ids, keep their relative order, and are exactly the first
   * occurrence of each non-empty id of the input.
   */
  lemma {:induction false} FirstByIdKeepsFirsts(ps: seq<Post>)
    ensures var r := FirstById(ps);
      && (forall i, j :: 0 <= i < j < |r| ==> r[i].id != r[j].id)
      && (forall p :: p in r ==> p.id != "")
      && Seqs.SubseqOf(r, ps)
      && (forall p :: p in r <==> p.id != "" && FirstWithId(ps, p.id) == Some(p))
    decreases |ps|
  {
    if ps == [] {
    } else {
      var init := ps[..|ps| - 1];
      var last := ps[|ps| - 1];
      assert ps == init + [last];
      FirstByIdKeepsFirsts(init);
      var prev := FirstById(init);
      forall id { FirstWithIdSnoc(init, last, id); }
      if last.id == "" || last.id in IdsOf(prev) {
        Seqs.SubseqOfExtend(prev, init, last);
        if last.id != "" {
          var q :| q in prev && q.id == last.id;
          assert FirstWithId(init, last.id).Some?;
        }
      } else {
        Seqs.SubseqOfSnoc(prev, init, last);
        assert FirstWithId(init, last.id).None?;
        var r := prev + [last];
        forall i, j | 0 <= i < j < |r| ensures r[i].id != r[j].id {
          if j == |prev| {
            assert r[i] in prev;
          }
        }
      }
    }
  }

  /** Every non-empty id that occurs among the resolved posts is represented. */
  lemma EveryIdRepresented(ps: seq<Post>, p: Post)
    requires p in ps && p.id != ""
    ensures p.id in IdsOf(FirstById(ps))
  {
    FirstByIdKeepsFirsts(ps);
    var q := FirstWithId(ps, p.id).value;
    assert q in FirstById(ps);
  }

  /**
   * The `Map` loop of api.ts:588-596: `seen` holds the map's keys and
   * `unique` its values in insertion order.
   */
  method DedupById(ps: seq<Post>) returns (unique: seq<Post>)
    ensures unique == FirstById(ps)
  {
    unique := [];
    var seen: set<string> := {};
    var i := 0;
    while i < |ps|
      invariant 0 <= i <= |ps|
      invariant unique == FirstById(ps[..i])
      invariant seen == IdsOf(unique)
    {
      var post := ps[i];
      assert ps[..i + 1][..i] == ps[..i];
      if post.id != "" && post.id !in seen {
        seen := seen + {post.id};
        unique := unique + [post];
      }
      i := i + 1;
    }
    assert ps[..|ps|] == ps;
  }

  /** The save records page `listDocuments` returns. */
  datatype SaveList = SaveList(total: int, documents: seq<Save>)

  /**
   * `getSavedPosts`: `None` when the listing of save records fails (the
   * function logs and resolves `undefined`), otherwise the listing with its
   * documents replaced by the resolved, deduplicated posts. The `total` of the
   * save listing is passed through unchanged.
   */
  method GetSavedPosts(posts: PostStore, users: UserStore, listing: Option<SaveList>)
    returns (r: Option<PostList>)
    ensures listing.None? <==> r.None?
    ensures r.Some? ==>
      && r.value.total == listing.value.total
      && r.value.documents == FirstById(ResolvedSaves(posts, users, listing.value.documents))
  {
    if listing.None? {
      return None;
    }
    var valid := ResolvedSaves(posts, users, listing.value.documents);
    var unique := DedupById(valid);
    r := Some(PostList(listing.value.total, unique));
  }

  /**
   * Every post returned carries the id of a save record that points at it,
   * and no post id appears twice.
   */
  lemma SavedPostsCarryTheirSave(posts: PostStore, users: UserStore, saves: seq<Save>)
    ensures var r := FirstById(ResolvedSaves(posts, users, saves));
      && (forall i, j :: 0 <= i < j < |r| ==> r[i].id != r[j].id)
      && (forall p :: p in r ==> exists s :: s in saves && ResolveSave(posts, users, s) == Some(p) && p.saveId == Some(s.id))
  {
    FirstByIdKeepsFirsts(ResolvedSaves(posts, users, saves));
    ResolvedSavesMembers(posts, users, saves);
  }

  /**
   * The earliest save record in listing order (newest first) that resolves
   * to a post with the given `$id`.
   */
  function FirstSaveFor(posts: PostStore, users: UserStore, saves: seq<Save>, id: string): (r: Option<Save>)
    ensures r.Some? ==>
      && r.value in saves
      && ResolveSave(posts, users, r.value).Some?
      && ResolveSave(posts, users, r.value).value.id == id
    decreases |saves|
  {
    if saves == [] then None
    else
      var p := ResolveSave(posts, users, saves[0]);
      if p.Some? && p.value.id == id then Some(saves[0])
      else FirstSaveFor(posts, users, saves[1..], id)
  }

  /** The first resolved post with an id is the result of the first save resolving to that id. */
  lemma {:induction false} FirstResolvedIsFirstSave(posts: PostStore, users: UserStore, saves: seq<Save>, id: string)
    ensures var first := FirstSaveFor(posts, users, saves, id);
      FirstWithId(ResolvedSaves(posts, users, saves), id)
        == (if first.Some? then ResolveSave(posts, users, first.value) else None)
    decreases |saves|
  {
    if saves != [] {
      FirstResolvedIsFirstSave(posts, users, saves[1..], id);
      var rest := ResolvedSaves(posts, users, saves[1..]);
      match ResolveSave(posts, users, saves[0])
      case Some(p) =>
        assert ResolvedSaves(posts, users, saves) == [p] + rest;
        assert ([p] + rest)[1..] == rest;
      case None =>
    }
  }

  /**
   * For every post id, the post that survives carries the id of the newest
   * save record that resolves to it (the first in the listing), and a post id
   * that no save resolves to does not appear.
   */
  lemma NewestSaveWins(posts: PostStore, users: UserStore, saves: seq<Save>, id: string)
    requires id != ""
    ensures var r := FirstById(ResolvedSaves(posts, users, saves));
      var first := FirstSaveFor(posts, users, saves, id);
      && (first.None? ==> forall p :: p in r ==> p.id != id)
      && (first.Some? ==>
            && ResolveSave(posts, users, first.value).value in r
            && forall p :: p in r && p.id == id ==>
                 p == ResolveSave(posts, users, first.value).value && p.saveId == Some(first.value.id))
  {
    var resolved := ResolvedSaves(posts, users, saves);
    FirstByIdKeepsFirsts(resolved);
    FirstResolvedIsFirstSave(posts, users, saves, id);
  }

  /** A save whose post reference is unusable or whose post is gone is dropped. */
  lemma UnresolvableSaveDropped(posts: PostStore, users: UserStore, saves: seq<Save>, bad: Save)
    requires SavePostId(bad.post).None? || SavePostId(bad.post).value !in posts
    ensures ResolvedSaves(posts, users, saves + [bad]) == ResolvedSaves(posts, users, saves)
  {
    assert ResolveSave(posts, users, bad).None?;
    ResolvedSavesAppend(posts, users, saves, [bad]);
    assert ResolvedSaves(posts, users, [bad]) == [] by {
      assert [bad][1..] == [];
    }
  }

  lemma {:induction false} ResolvedSavesAppend(posts: PostStore, users: UserStore, a: seq<Save>, b: seq<Save>)
    ensures ResolvedSaves(posts, users, a + b) == ResolvedSaves(posts, users, a) + ResolvedSaves(posts, users, b)
    decreases |a|
  {
    if a == [] {
      assert a + b == b;
    } else {
      assert (a + b)[1..] == a[1..] + b;
      assert (a + b)[0] == a[0];
      ResolvedSavesAppend(posts, users, a[1..], b);
    }
  }
}
