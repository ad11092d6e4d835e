/**
 * `followUser` and `unfollowUser` (src/lib/appwrite/api.ts:881-938 and
 * 941-994): both users are fetched, the follower's `following` list and the
 * followed user's `followers` list are parsed, patched and written back by
 * two separate document updates.
 */
module Follows {
  import opened Wrappers
  import opened Documents
  import opened Refs
  import Seqs

  /** What `JSON.parse` makes of a stored text: an array of ids, a string, another JSON value, or an error. */
  datatype Parsed = JsonArray(ids: seq<string>) | JsonString(s: string) | JsonOther | Malformed

  /** What `parseList` hands back: a list of ids, a string, or some other value. */
  datatype Listed = Ids(ids: seq<string>) | Text(s: string) | NonList

  /**
   * `parseList` (api.ts:892-902): an array is used as it is, text is parsed
   * (a parse error gives `[]`), any other value gives `[]`.
   */
  function ParseList(field: ListField, parse: string -> Parsed): (r: Listed)
    ensures field.Arr? ==> r == Ids(field.ids)
    ensures field.NotAList? ==> r == Ids([])
    ensures field.Json? && parse(field.text).JsonArray? ==> r == Ids(parse(field.text).ids)
    ensures field.Json? && parse(field.text).Malformed? ==> r == Ids([])
    ensures r.Text? <==> field.Json? && parse(field.text).JsonString?
    ensures r.Text? ==> parse(field.text) == JsonString(r.s)
    ensures r.NonList? <==> field.Json? && parse(field.text).JsonOther?
  {
    match field
    case Arr(ids) => Ids(ids)
    case NotAList => Ids([])
    case Json(text) =>
      match parse(text)
      case JsonArray(ids) => Ids(ids)
      case JsonString(str) => Text(str)
      case Malformed => Ids([])
      case JsonOther => NonList
  }

  /** `String.prototype.includes`: `x` occurs in `s` as a contiguous piece. */
  predicate Contains(s: string, x: string)
    decreases |s|
  {
    x <= s || (s != [] && Contains(s[1..], x))
  }

  /** Every piece of a string is found by `includes`. */
  lemma {:induction false} ContainsInfix(a: string, x: string, b: string)
    ensures Contains(a + x + b, x)
    decreases |a|
  {
    if a == [] {
      assert a + x + b == x + b;
    } else {
      assert (a + x + b)[1..] == a[1..] + x + b;
      ContainsInfix(a[1..], x, b);
    }
  }

  /** A string never contains a longer one. */
  lemma {:induction false} ContainsNoLonger(s: string, x: string)
    requires Contains(s, x)
    ensures |x| <= |s|
    decreases |s|
  {
    if !(x <= s) {
      ContainsNoLonger(s[1..], x);
    }
  }

  /**
   * `if (!list.includes(x)) list.push(x)` on what `parseList` returned, and
   * the value then written back; `None` is the `TypeError` thrown when the
   * value has no `includes`, or is a string (which has no `push`) that does
   * not contain `x`. A string containing `x` is written back as it is.
   */
  function AddTo(v: Listed, x: string): (r: Option<ListField>)
    ensures r.Some? <==> v.Ids? || (v.Text? && Contains(v.s, x))
    ensures v.Ids? ==> r == Some(Arr(Seqs.AddIfAbsent(v.ids, x)))
    ensures v.Text? && r.Some? ==> r.value == Json(v.s)
  {
    match v
    case Ids(ids) => Some(Arr(Seqs.AddIfAbsent(ids, x)))
    case Text(str) => if Contains(str, x) then Some(Json(str)) else None
    case NonList => None
  }

  /**
   * `list.filter(id => id !== x)` on what `parseList` returned; only an array
   * has `filter`, so `None` is the `TypeError` of any other value.
   */
  function RemoveFrom(v: Listed, x: string): (r: Option<ListField>)
    ensures r.Some? <==> v.Ids?
    ensures r.Some? ==> r.value.Arr? && x !in r.value.ids && Seqs.SubseqOf(r.value.ids, v.ids)
    ensures r.Some? ==> forall y :: y != x ==> multiset(r.value.ids)[y] == multiset(v.ids)[y]
  {
    match v
    case Ids(ids) => Some(Arr(Seqs.RemoveAll(ids, x)))
    case _ => None
  }

  /** The list field records `x`: an array holding it, or text containing it. */
  predicate Mentions(field: ListField, x: string)
  {
    match field
    case Arr(ids) => x in ids
    case Json(text) => Contains(text, x)
    case NotAList => false
  }

  /**
   * The store after the call and the user document the call resolves to
   * (`None` for the `undefined` of a failure). A failure after the first
   * update leaves that update in the store.
   */
  datatype FollowResult = FollowResult(store: UserStore, updated: Option<User>)

  /** `updateDocument(..., id, { following })`: only that field changes. */
  function PatchFollowing(users: UserStore, id: string, value: ListField): (r: UserStore)
    requires id in users
    ensures r.Keys == users.Keys
    ensures r[id] == users[id].(following := value)
    ensures forall k :: k in users && k != id ==> r[k] == users[k]
  {
    users[id := users[id].(following := value)]
  }

  /** `updateDocument(..., id, { followers })`: only that field changes. */
  function PatchFollowers(users: UserStore, id: string, value: ListField): (r: UserStore)
    requires id in users
    ensures r.Keys == users.Keys
    ensures r[id] == users[id].(followers := value)
    ensures forall k :: k in users && k != id ==> r[k] == users[k]
  {
    users[id := users[id].(followers := value)]
  }

  /**
   * `followUser(cur, tgt)` as a function of the store: both users must be
   * fetched, then the follower's `following` is patched and written, then the
   * followed user's `followers`. Only the two documents can change, and a
   * call that fails before the first write changes nothing.
   */
  function Follow(users: UserStore, cur: string, tgt: string, parse: string -> Parsed): (r: FollowResult)
    ensures r.store.Keys == users.Keys
    ensures forall k :: k in users && k != cur && k != tgt ==> r.store[k] == users[k]
    ensures r.updated.Some? ==> tgt in r.store && r.updated == Some(r.store[tgt])
    ensures FetchUser(users, cur).None? || FetchUser(users, tgt).None? ==> r == FollowResult(users, None)    ensures cur in users && cur != tgt ==> r.store[cur] == users[cur].(following := r.store[cur].following)
    ensures tgt in users && cur != tgt ==> r.store[tgt] == users[tgt].(followers := r.store[tgt].followers)
    ensures cur in users && cur == tgt ==>
      r.store[cur] == users[cur].(following := r.store[cur].following, followers := r.store[cur].followers)
  {
    match (FetchUser(users, cur), FetchUser(users, tgt))
    case (Some(me), Some(them)) =>
      (match AddTo(ParseList(me.following, parse), tgt)
       case None => FollowResult(users, None)
       case Some(following) =>
         var store := PatchFollowing(users, cur, following);
         match AddTo(ParseList(them.followers, parse), cur)
         case None => FollowResult(store, None)
         case Some(followers) =>
           var done := PatchFollowers(store, tgt, followers);
           FollowResult(done, Some(done[tgt])))
    case _ => FollowResult(users, None)
  }

  /**
   * `unfollowUser(cur, tgt)` as a function of the store, with the same two
   * fetches and two writes as `Follow`.
   */
  function Unfollow(users: UserStore, cur: string, tgt: string, parse: string -> Parsed): (r: FollowResult)
    ensures r.store.Keys == users.Keys
    ensures forall k :: k in users && k != cur && k != tgt ==> r.store[k] == users[k]
    ensures r.updated.Some? ==> tgt in r.store && r.updated == Some(r.store[tgt])
    ensures FetchUser(users, cur).None? || FetchUser(users, tgt).None? ==> r == FollowResult(users, None)    ensures cur in users && cur != tgt ==> r.store[cur] == users[cur].(following := r.store[cur].following)
    ensures tgt in users && cur != tgt ==> r.store[tgt] == users[tgt].(followers := r.store[tgt].followers)
    ensures cur in users && cur == tgt ==>
      r.store[cur] == users[cur].(following := r.store[cur].following, followers := r.store[cur].followers)
  {
    match (FetchUser(users, cur), FetchUser(users, tgt))
    case (Some(me), Some(them)) =>
      (match RemoveFrom(ParseList(me.following, parse), tgt)
       case None => FollowResult(users, None)
       case Some(following) =>
         var store := PatchFollowing(users, cur, following);
         match RemoveFrom(ParseList(them.followers, parse), cur)
         case None => FollowResult(store, None)
         case Some(followers) =>
           var done := PatchFollowers(store, tgt, followers);
           FollowResult(done, Some(done[tgt])))
    case _ => FollowResult(users, None)
  }

  /**
   * A follow that succeeds leaves `tgt` recorded in the follower's
   * `following` and `cur` in the followed user's `followers`, and returns the
   * followed user's new document.
   */
  lemma FollowRecordsBothSides(users: UserStore, cur: string, tgt: string, parse: string -> Parsed)
    requires Follow(users, cur, tgt, parse).updated.Some?
    ensures var r := Follow(users, cur, tgt, parse);
      && cur in users && tgt in users
      && Mentions(r.store[cur].following, tgt)
      && Mentions(r.store[tgt].followers, cur)
      && r.updated == Some(r.store[tgt])
  {
  }

  /**
   * `following` after a successful follow: a list gets `tgt` appended when
   * it was absent and is kept otherwise; text is written back as it was.
   */
  lemma FollowAppendsOnlyWhenAbsent(users: UserStore, cur: string, tgt: string, parse: string -> Parsed)
    requires Follow(users, cur, tgt, parse).updated.Some?
    ensures var before := ParseList(users[cur].following, parse);
      var now := Follow(users, cur, tgt, parse).store[cur].following;
      && !before.NonList?
      && (before.Ids? && tgt in before.ids ==> now == Arr(before.ids))
      && (before.Ids? && tgt !in before.ids ==> now == Arr(before.ids + [tgt]))
      && (before.Text? ==> now == Json(before.s) && Contains(before.s, tgt))
  {
  }

  /**
   * `followers` after a successful follow: a list gets `cur` appended when it
   * was absent and is kept otherwise; text is written back as it was.
   */
  lemma FollowersAppendOnlyWhenAbsent(users: UserStore, cur: string, tgt: string, parse: string -> Parsed)
    requires Follow(users, cur, tgt, parse).updated.Some?
    ensures var before := ParseList(users[tgt].followers, parse);
      var now := Follow(users, cur, tgt, parse).store[tgt];
      && !before.NonList?
      && (before.Ids? && cur in before.ids ==> now.followers == Arr(before.ids))
      && (before.Ids? && cur !in before.ids ==> now.followers == Arr(before.ids + [cur]))
      && (before.Text? ==> now.followers == Json(before.s) && Contains(before.s, cur))
      && (cur != tgt ==> now == users[tgt].(followers := now.followers))
  {
  }

  /**
   * Text that parses to a string: `includes` looks for the id inside it, so a
   * string containing the id is written back unchanged, and one that does
   * not makes `push` throw before anything is written.
   */
  lemma FollowOnText(users: UserStore, cur: string, tgt: string, parse: string -> Parsed)
    requires FetchUser(users, cur).Some? && FetchUser(users, tgt).Some?
    requires ParseList(users[cur].following, parse).Text?
    ensures var str := ParseList(users[cur].following, parse).s;
      var r := Follow(users, cur, tgt, parse);
      && (!Contains(str, tgt) ==> r == FollowResult(users, None))
      && (Contains(str, tgt) ==> r.store[cur].following == Json(str))
  {
  }

  /** Any stored `following` that is not a list makes `unfollowUser` throw before it writes. */
  lemma UnfollowNeedsList(users: UserStore, cur: string, tgt: string, parse: string -> Parsed)
    requires cur in users
    requires !ParseList(users[cur].following, parse).Ids?
    ensures Unfollow(users, cur, tgt, parse) == FollowResult(users, None)
  {
  }

  /**
   * Following twice is the same as following once when both lists are kept
   * as lists: the second call changes nothing.
   */
  lemma FollowIdempotent(users: UserStore, cur: string, tgt: string, parse: string -> Parsed)
    requires UsersKeyedById(users)
    requires Follow(users, cur, tgt, parse).updated.Some?
    requires ParseList(users[cur].following, parse).Ids?
    requires ParseList(users[tgt].followers, parse).Ids?
    ensures var once := Follow(users, cur, tgt, parse);
      Follow(once.store, cur, tgt, parse) == once
  {
    var f1 := Arr(Seqs.AddIfAbsent(ParseList(users[cur].following, parse).ids, tgt));
    var g1 := Arr(Seqs.AddIfAbsent(ParseList(users[tgt].followers, parse).ids, cur));
    assert FetchUser(users, cur).Some? && FetchUser(users, tgt).Some?;
    FollowUnfold(users, cur, tgt, parse, f1, g1);
    var s2 := PatchFollowers(PatchFollowing(users, cur, f1), tgt, g1);
    // the second call reads back the lists the first one wrote, which already hold the ids
    assert s2[cur].following == f1 && s2[tgt].followers == g1;
    assert AddTo(ParseList(f1, parse), tgt) == Some(f1);
    assert AddTo(ParseList(g1, parse), cur) == Some(g1);
    FollowUnfold(s2, cur, tgt, parse, f1, g1);
    assert PatchFollowing(s2, cur, f1) == s2;
    assert PatchFollowers(s2, tgt, g1) == s2;
  }

  /** A follow whose two list updates succeed is the two patches in turn. */
  lemma FollowUnfold(users: UserStore, cur: string, tgt: string, parse: string -> Parsed, f: ListField, g: ListField)
    requires FetchUser(users, cur).Some? && FetchUser(users, tgt).Some?
    requires AddTo(ParseList(users[cur].following, parse), tgt) == Some(f)
    requires AddTo(ParseList(users[tgt].followers, parse), cur) == Some(g)
    ensures var done := PatchFollowers(PatchFollowing(users, cur, f), tgt, g);
      Follow(users, cur, tgt, parse) == FollowResult(done, Some(done[tgt]))
  {
  }

  /**
   * A successful unfollow removes every occurrence of `tgt` from
   * `following` and of `cur` from `followers`; in both lists the other ids
   * keep their number of occurrences and their order.
   */
  lemma UnfollowRemovesAll(users: UserStore, cur: string, tgt: string, parse: string -> Parsed)
    requires Unfollow(users, cur, tgt, parse).updated.Some?
    ensures var r := Unfollow(users, cur, tgt, parse);
      var before := ParseList(users[cur].following, parse);
      var fansBefore := ParseList(users[tgt].followers, parse);
      && before.Ids? && fansBefore.Ids?
      && r.store[cur].following.Arr? && r.store[tgt].followers.Arr?
      && var after := r.store[cur].following.ids;
      && var fansAfter := r.store[tgt].followers.ids;
      && tgt !in after
      && (forall id :: id != tgt ==> multiset(after)[id] == multiset(before.ids)[id])
      && Seqs.SubseqOf(after, before.ids)
      && cur !in fansAfter
      && (forall id :: id != cur ==> multiset(fansAfter)[id] == multiset(fansBefore.ids)[id])
      && Seqs.SubseqOf(fansAfter, fansBefore.ids)
  {
  }

  /** Unfollowing someone who is not followed leaves the list's ids as they were. */
  lemma UnfollowAbsentKeepsList(users: UserStore, cur: string, tgt: string, parse: string -> Parsed)
    requires Unfollow(users, cur, tgt, parse).updated.Some?
    requires tgt !in ParseList(users[cur].following, parse).ids
    ensures Unfollow(users, cur, tgt, parse).store[cur].following == Arr(ParseList(users[cur].following, parse).ids)
  {
  }

  /**
   * Unfollowing right after a first follow gives the original `following`
   * ids back, when both lists are kept as lists.
   */
  lemma UnfollowUndoesFollow(users: UserStore, cur: string, tgt: string, parse: string -> Parsed)
    requires UsersKeyedById(users)
    requires Follow(users, cur, tgt, parse).updated.Some?
    requires ParseList(users[cur].following, parse).Ids?
    requires ParseList(users[tgt].followers, parse).Ids?
    requires tgt !in ParseList(users[cur].following, parse).ids
    ensures var once := Follow(users, cur, tgt, parse);
      var back := Unfollow(once.store, cur, tgt, parse);
      && back.updated.Some?
      && back.store[cur].following == Arr(ParseList(users[cur].following, parse).ids)
  {
    var once := Follow(users, cur, tgt, parse);
    var following := ParseList(users[cur].following, parse).ids;
    Seqs.RemoveAllAfterAddIfAbsent(following, tgt);
    assert once.store[cur].following == Arr(Seqs.AddIfAbsent(following, tgt));
    assert FetchUser(once.store, cur).Some? && FetchUser(once.store, tgt).Some?;
    assert once.store[tgt].followers.Arr?;
  }

  /**
   * The backend's user collection as the two calls change it: each call
   * fetches both users, patches the follower's `following`, writes it, then
   * patches and writes the followed user's `followers`.
   */
  class UserCollection {
    var docs: UserStore

    constructor(initial: UserStore)
      ensures docs == initial
    {
      docs := initial;
    }

    /** `followUser`: the lists are grown with `includes` + `push`. */
    method FollowUser(cur: string, tgt: string, parse: string -> Parsed) returns (updated: Option<User>)
      modifies this
      ensures docs == Follow(old(docs), cur, tgt, parse).store
      ensures updated == Follow(old(docs), cur, tgt, parse).updated
    {
      var me := FetchUser(docs, cur);
      if me.None? { return None; }
      var them := FetchUser(docs, tgt);
      if them.None? { return None; }
      var following: ListField;
      match ParseList(me.value.following, parse) {
        case NonList => return None;
        case Text(str) =>
          if !Contains(str, tgt) { return None; }
          following := Json(str);
        case Ids(ids) =>
          var currentFollowing := ids;
          if tgt !in currentFollowing {
            currentFollowing := currentFollowing + [tgt];
          }
          following := Arr(currentFollowing);
      }
      docs := docs[cur := docs[cur].(following := following)];
      var followers: ListField;
      match ParseList(them.value.followers, parse) {
        case NonList => return None;
        case Text(str) =>
          if !Contains(str, cur) { return None; }
          followers := Json(str);
        case Ids(ids) =>
          var userFollowers := ids;
          if cur !in userFollowers {
            userFollowers := userFollowers + [cur];
          }
          followers := Arr(userFollowers);
      }
      docs := docs[tgt := docs[tgt].(followers := followers)];
      updated := Some(docs[tgt]);
    }

    /** `unfollowUser`: the lists are filtered. */
    method UnfollowUser(cur: string, tgt: string, parse: string -> Parsed) returns (updated: Option<User>)
      modifies this
      ensures docs == Unfollow(old(docs), cur, tgt, parse).store
      ensures updated == Unfollow(old(docs), cur, tgt, parse).updated
    {
      var me := FetchUser(docs, cur);
      if me.None? { return None; }
      var them := FetchUser(docs, tgt);
      if them.None? { return None; }
      var following := ParseList(me.value.following, parse);
      if !following.Ids? { return None; }
      docs := docs[cur := docs[cur].(following := Arr(Seqs.RemoveAll(following.ids, tgt)))];
      var followers := ParseList(them.value.followers, parse);
      if !followers.Ids? { return None; }
      docs := docs[tgt := docs[tgt].(followers := Arr(Seqs.RemoveAll(followers.ids, cur)))];
      updated := Some(docs[tgt]);
    }
  }
}
