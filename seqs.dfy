/**
 * The list operations the client performs with `Array.prototype.filter`,
 * `includes` + `push` and index-based filtering, with the facts about them
 * that the rest of the model relies on.
 */
module Seqs {

  /** `a` can be obtained from `b` by deleting elements: order is preserved. */
  predicate SubseqOf<T(==)>(a: seq<T>, b: seq<T>)
    decreases |b|
  {
    if a == [] then true
    else if b == [] then false
    else if a[0] == b[0] then SubseqOf(a[1..], b[1..])
    else SubseqOf(a, b[1..])
  }

  lemma {:induction false} SubseqOfSelf<T>(s: seq<T>)
    ensures SubseqOf(s, s)
    decreases |s|
  {
    if s != [] {
      SubseqOfSelf(s[1..]);
    }
  }

  /** Appending to the longer list keeps a subsequence a subsequence. */
  lemma {:induction false} SubseqOfExtend<T>(a: seq<T>, b: seq<T>, x: T)
    requires SubseqOf(a, b)
    ensures SubseqOf(a, b + [x])
    decreases |b|
  {
    if a != [] {
      assert (b + [x])[1..] == b[1..] + [x];
      if a[0] == b[0] {
        SubseqOfExtend(a[1..], b[1..], x);
      } else {
        SubseqOfExtend(a, b[1..], x);
      }
    }
  }

  /** Appending the same element to both lists keeps a subsequence a subsequence. */
  lemma {:induction false} SubseqOfSnoc<T>(a: seq<T>, b: seq<T>, x: T)
    requires SubseqOf(a, b)
    ensures SubseqOf(a + [x], b + [x])
    decreases |b|
  {
    if a == [] {
      if b != [] && b[0] != x {
        assert (b + [x])[1..] == b[1..] + [x];
        SubseqOfSnoc(a, b[1..], x);
      }
    } else {
      assert (b + [x])[1..] == b[1..] + [x];
      assert (a + [x])[1..] == a[1..] + [x];
      if a[0] == b[0] {
        SubseqOfSnoc(a[1..], b[1..], x);
      } else {
        SubseqOfSnoc(a, b[1..], x);
      }
    }
  }

  /** `Array.prototype.filter` with a pure predicate. */
  function Filter<T(!new)>(s: seq<T>, p: T -> bool): (r: seq<T>)
    ensures |r| <= |s|
    ensures forall x :: x in r <==> x in s && p(x)
    ensures SubseqOf(r, s)
    decreases |s|
  {
    if s == [] then []
    else
      var rest := Filter(s[1..], p);
      assert s == [s[0]] + s[1..];
      if p(s[0]) then
        var r := [s[0]] + rest;
        assert r[1..] == rest;
        r
      else
        assert rest == [] || rest[0] != s[0] by {
          if rest != [] { assert rest[0] in rest; }
        }
        rest
  }

  /** Filtering keeps every occurrence of a kept element and none of the others. */
  lemma {:induction false} FilterCounts<T(!new)>(s: seq<T>, p: T -> bool, x: T)
    ensures multiset(Filter(s, p))[x] == if p(x) then multiset(s)[x] else 0
    decreases |s|
  {
    if s != [] {
      FilterCounts(s[1..], p, x);
      assert s == [s[0]] + s[1..];
      assert multiset(s) == multiset{s[0]} + multiset(s[1..]);
      if p(s[0]) {
        assert Filter(s, p) == [s[0]] + Filter(s[1..], p);
      }
    }
  }

  /** `s.filter(y => y !== x)`: every occurrence of `x` removed. */
  function RemoveAll<T(==,!new)>(s: seq<T>, x: T): (r: seq<T>)
    ensures x !in r
    ensures forall y :: y != x ==> multiset(r)[y] == multiset(s)[y]
    ensures SubseqOf(r, s)
    ensures x !in s ==> r == s
    ensures x in s ==> |r| < |s|
    decreases |s|
  {
    if s == [] then []
    else
      var rest := RemoveAll(s[1..], x);
      assert s == [s[0]] + s[1..];
      if s[0] == x then
        assert rest == [] || rest[0] != s[0] by {
          if rest != [] { assert rest[0] in rest; }
        }
        rest
      else [s[0]] + rest
  }

  lemma {:induction false} RemoveAllAppend<T(!new)>(s: seq<T>, t: seq<T>, x: T)
    ensures RemoveAll(s + t, x) == RemoveAll(s, x) + RemoveAll(t, x)
    decreases |s|
  {
    if s == [] {
      assert s + t == t;
    } else {
      assert (s + t)[1..] == s[1..] + t;
      RemoveAllAppend(s[1..], t, x);
    }
  }

  /** The `if (!list.includes(x)) list.push(x)` idiom. */
  function AddIfAbsent<T(==)>(s: seq<T>, x: T): (r: seq<T>)
    ensures x in r
    ensures |s| <= |r| <= |s| + 1 && r[..|s|] == s
    ensures x in s ==> r == s
    ensures x !in s ==> r[|s|] == x
  {
    if x in s then s else s + [x]
  }

  /** Adding an element and then removing all of its occurrences gives the
      original list back when it was not there before. */
  lemma RemoveAllAfterAddIfAbsent<T(!new)>(s: seq<T>, x: T)
    requires x !in s
    ensures RemoveAll(AddIfAbsent(s, x), x) == s
  {
    RemoveAllAppend(s, [x], x);
    assert RemoveAll([x], x) == [];
  }

  /** `s.filter((_, idx) => idx !== i)`: an out-of-range index removes nothing. */
  function RemoveIndex<T>(s: seq<T>, i: int): (r: seq<T>)
    ensures 0 <= i < |s| ==> |r| == |s| - 1
    ensures !(0 <= i < |s|) ==> r == s
    ensures forall k :: 0 <= k < |r| && k < i ==> r[k] == s[k]
    ensures 0 <= i < |s| ==> forall k :: i <= k < |r| ==> r[k] == s[k + 1]
  {
    if 0 <= i < |s| then s[..i] + s[i + 1..] else s
  }
}
