/**
 * Reduction of a reference field to the id the client fetches:
 * `getCreatorId` (src/lib/appwrite/api.ts:321-332) and the argument
 * normalisation at the head of `getUserById` (api.ts:789-806).
 */
module Refs {
  import opened Wrappers
  import opened Documents

  /**
   * `getCreatorId`: a string is returned as it is (even empty), an array gives
   * its first element when that is truthy, an object gives its truthy `$id`;
   * everything else gives `null`. A truthy non-string can only come from an
   * array whose first element is not a string.
   */
  function CreatorId(creator: Ref): (r: Ref)
    ensures creator.Str? ==> r == creator
    ensures creator.Lst? ==> r == (if |creator.items| > 0 && Truthy(creator.items[0]) then creator.items[0] else Null)
    ensures creator.Obj? ==> r == (if HasText(creator.id) then Str(creator.id.value) else Null)
    ensures creator.Null? || creator.Other? ==> r == Null
    ensures Truthy(r) ==> r.Str? || creator.Lst?
  {
    match creator
    case Str(_) => creator
    case Lst(items) => if |items| > 0 && Truthy(items[0]) then items[0] else Null
    case Obj(id, _, _) => if HasText(id) then Str(id.value) else Null
    case Null => Null
    case Other(_) => Null
  }

  /** What `getUserById` makes of its argument before any fetch. */
  datatype UserArg = AlreadyUser(user: Ref) | ById(id: string) | Invalid

  /**
   * An object with a truthy `$id` is taken to be the user itself; an array is
   * replaced by its first element; what is left must be a non-empty string.
   */
  function NormalizeUserArg(arg: Ref): (r: UserArg)
    ensures r.AlreadyUser? <==> arg.Obj? && HasText(arg.id)
    ensures r.AlreadyUser? ==> r.user == arg
    ensures r.ById? ==> r.id != ""
    ensures r.ById? ==> arg == Str(r.id) || (arg.Lst? && |arg.items| > 0 && arg.items[0] == Str(r.id))
    ensures arg.Str? ==> r == (if arg.s != "" then ById(arg.s) else Invalid)
  {
    if arg.Obj? && HasText(arg.id) then AlreadyUser(arg)
    else
      var actual := if arg.Lst? then (if |arg.items| > 0 then arg.items[0] else Null) else arg;
      if actual.Str? && actual.s != "" then ById(actual.s) else Invalid
  }

  /** `databases.getDocument` on the user collection; `None` is a thrown error. */
  function FetchUser(users: UserStore, id: string): (r: Option<User>)
    ensures r.Some? <==> id != "" && id in users
    ensures r.Some? ==> r.value == users[id]
  {
    if id != "" && id in users then Some(users[id]) else None
  }

  /**
   * `getUserById`: the already-populated object, the fetched user, or
   * `None` for both the `null` of an invalid argument and the `undefined`
   * the function resolves to after logging a failed fetch; it never throws.
   */
  function GetUserById(users: UserStore, arg: Ref): (r: Option<Ref>)
    ensures r.Some? ==> r.value.Obj?
    ensures NormalizeUserArg(arg).Invalid? ==> r.None?
    ensures NormalizeUserArg(arg).AlreadyUser? ==> r == Some(arg)
    ensures NormalizeUserArg(arg).ById? ==>
      var id := NormalizeUserArg(arg).id;
      r == (if id in users then Some(UserRef(users[id])) else None)
  {
    match NormalizeUserArg(arg)
    case AlreadyUser(u) => Some(u)
    case Invalid => None
    case ById(id) =>
      match FetchUser(users, id)
      case Some(u) => Some(UserRef(u))
      case None => None
  }

  /** In a collection keyed by `$id`, whatever `getUserById` returns carries a truthy `$id`. */
  lemma GetUserByIdHasId(users: UserStore, arg: Ref)
    requires UsersKeyedById(users)
    requires GetUserById(users, arg).Some?
    ensures HasText(GetUserById(users, arg).value.id)
  {
  }
}
