/**
 * The document records the client reads from and writes to the hosted
 * document store, reduced to the fields the modelled rules look at.
 */
module Documents {
  import opened Wrappers

  /** Image shown when a post has no picture, and avatar of a creator without one. */
  const PLACEHOLDER: string := "/assets/icons/profile-placeholder.svg"

  /**
   * A reference field (`creator`, a save's `post`, a user argument) as it
   * arrives at run time: a bare id string, an array (a relationship stored
   * as `[id]`), an object carrying `$id` (and, for users, `name` and
   * `imageUrl`), `null`/`undefined`, or any other scalar (a number or a
   * boolean, with its JavaScript truthiness).
   */
  datatype Ref =
    | Str(s: string)
    | Lst(items: seq<Ref>)
    | Obj(id: Option<string>, name: Option<string>, imageUrl: Option<string>)
    | Null
    | Other(truthy: bool)

  /** JavaScript truthiness of a reference value. */
  predicate Truthy(r: Ref)
  {
    match r
    case Str(s) => s != ""
    case Lst(_) => true
    case Obj(_, _, _) => true
    case Null => false
    case Other(t) => t
  }

  /**
   * A post document. `imageUrls`, `imageIds` and `likes` are `None` when the
   * field is absent or not an array; the remaining fields of the document
   * (caption, tags, location, timestamps) are carried along unchanged by
   * every rule here and are left implicit.
   */
  datatype Post = Post(
    id: string,
    creator: Ref,
    imageUrls: Option<seq<string>>,
    imageUrl: Option<string>,
    imageIds: Option<seq<string>>,
    imageId: Option<string>,
    likes: Option<seq<string>>,
    saveId: Option<string>)

  /** A stored followers/following field: a native array, JSON text, or anything else. */
  datatype ListField = Arr(ids: seq<string>) | Json(text: string) | NotAList

  /** A user document. */
  datatype User = User(
    id: string,
    name: Option<string>,
    imageUrl: Option<string>,
    following: ListField,
    followers: ListField)

  /** A user document seen as the value of a reference field. */
  function UserRef(u: User): (r: Ref)
    ensures r.Obj? && r.id == Some(u.id) && r.name == u.name
  {
    Obj(Some(u.id), u.name, u.imageUrl)
  }

  /** A save record: the join between a user and the post they bookmarked. */
  datatype Save = Save(id: string, post: Ref)

  /** The envelope `listDocuments` returns: a total and the page of documents. */
  datatype PostList = PostList(total: int, documents: seq<Post>)

  /** The backend's collections as partial maps from `$id`; a missing key is a failed fetch. */
  type UserStore = map<string, User>
  type PostStore = map<string, Post>

  /** A collection stores every document under its own `$id`. */
  ghost predicate UsersKeyedById(users: UserStore)
  {
    forall k :: k in users ==> users[k].id == k
  }

  ghost predicate PostsKeyedById(posts: PostStore)
  {
    forall k :: k in posts ==> posts[k].id == k
  }

  /** `creator.$id`: only an object carries one. */
  function CreatorDollarId(creator: Ref): (r: Option<string>)
    ensures r.Some? ==> creator.Obj?
  {
    if creator.Obj? then creator.id else None
  }

  /** The edit and delete controls are shown iff `user.id === post.creator.$id`. */
  predicate Owns(userId: string, post: Post)
  {
    CreatorDollarId(post.creator) == Some(userId)
  }
}
