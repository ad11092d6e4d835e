/** Optional values: JavaScript's `undefined`/`null` next to a present value. */
module Wrappers {

  datatype Option<+T> = None | Some(value: T)

  /** A string that JavaScript treats as truthy: present and not empty. */
  predicate HasText(o: Option<string>)
  {
    o.Some? && o.value != ""
  }
}
