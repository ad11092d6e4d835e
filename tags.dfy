/**
 * Tag parsing, `post.tags?.replace(/ /g, "").split(",") || []`
 * (src/lib/appwrite/api.ts:152 and 396).
 */
module Tags {
  import opened Wrappers

  /** Occurrences of `c` in `s`. */
  function Count(s: string, c: char): (n: nat)
    ensures n <= |s|
    ensures n == 0 <==> c !in s
    decreases |s|
  {
    if s == [] then 0 else (if s[0] == c then 1 else 0) + Count(s[1..], c)
  }

  /** `replace(/ /g, "")`: every U+0020 space removed, nothing else touched. */
  function RemoveSpaces(s: string): (r: string)
    ensures ' ' !in r
    ensures forall c :: c != ' ' ==> multiset(r)[c] == multiset(s)[c]
    ensures ' ' !in s ==> r == s
    decreases |s|
  {
    if s == [] then ""
    else
      assert s == [s[0]] + s[1..];
      (if s[0] == ' ' then "" else [s[0]]) + RemoveSpaces(s[1..])
  }

  lemma {:induction false} RemoveSpacesAppend(a: string, b: string)
    ensures RemoveSpaces(a + b) == RemoveSpaces(a) + RemoveSpaces(b)
    decreases |a|
  {
    if a == [] {
      assert a + b == b;
    } else {
      assert (a + b)[1..] == a[1..] + b;
      RemoveSpacesAppend(a[1..], b);
    }
  }

  lemma {:induction false} CountAfterRemoveSpaces(s: string, c: char)
    requires c != ' '
    ensures Count(RemoveSpaces(s), c) == Count(s, c)
    decreases |s|
  {
    if s != [] {
      CountAfterRemoveSpaces(s[1..], c);
      assert s == [s[0]] + s[1..];
      RemoveSpacesAppend([s[0]], s[1..]);
      CountAppend(RemoveSpaces([s[0]]), RemoveSpaces(s[1..]), c);
    }
  }

  lemma {:induction false} CountAppend(a: string, b: string, c: char)
    ensures Count(a + b, c) == Count(a, c) + Count(b, c)
    decreases |a|
  {
    if a == [] {
      assert a + b == b;
    } else {
      assert (a + b)[1..] == a[1..] + b;
      CountAppend(a[1..], b, c);
    }
  }

  /**
   * `String.prototype.split` on a one-character separator: the pieces between
   * separators, empty pieces included, so one more piece than separators.
   */
  function Split(s: string, sep: char): (r: seq<string>)
    ensures |r| == Count(s, sep) + 1
    ensures forall t :: t in r ==> sep !in t
    decreases |s|
  {
    if s == [] then [""]
    else
      var rest := Split(s[1..], sep);
      if s[0] == sep then [""] + rest
      else
        assert sep !in rest[0] by { assert rest[0] in rest; }
        assert forall t :: t in rest[1..] ==> t in rest;
        [[s[0]] + rest[0]] + rest[1..]
  }

  /** `Array.prototype.join`, the inverse of `Split`. */
  function Join(parts: seq<string>, sep: char): string
    requires |parts| >= 1
    decreases |parts|
  {
    if |parts| == 1 then parts[0] else parts[0] + [sep] + Join(parts[1..], sep)
  }

  /** Prepending to the first piece prepends to the joined text. */
  lemma JoinExtendFirst(x: string, parts: seq<string>, sep: char)
    requires |parts| >= 1
    ensures Join([x + parts[0]] + parts[1..], sep) == x + Join(parts, sep)
  {
    var q := [x + parts[0]] + parts[1..];
    if |parts| > 1 {
      assert q[1..] == parts[1..];
    }
  }

  lemma JoinCons(p: string, rest: seq<string>, sep: char)
    requires |rest| >= 1
    ensures Join([p] + rest, sep) == p + [sep] + Join(rest, sep)
  {
    assert ([p] + rest)[1..] == rest;
  }

  /** Joining the pieces with the separator gives back the text. */
  lemma {:induction false} JoinSplit(s: string, sep: char)
    ensures Join(Split(s, sep), sep) == s
    decreases |s|
  {
    if s != [] {
      JoinSplit(s[1..], sep);
      var rest := Split(s[1..], sep);
      assert s == [s[0]] + s[1..];
      if s[0] == sep {
        var r := [""] + rest;
        assert Split(s, sep) == r;
        assert r[1..] == rest;
        assert Join(r, sep) == "" + [sep] + Join(rest, sep);
      } else {
        assert Split(s, sep) == [[s[0]] + rest[0]] + rest[1..];
        JoinExtendFirst([s[0]], rest, sep);
      }
    }
  }

  /** A piece without the separator followed by more text starts the first piece. */
  lemma {:induction false} SplitPrefix(p: string, t: string, sep: char)
    requires sep !in p
    ensures Split(p + t, sep) == [p + Split(t, sep)[0]] + Split(t, sep)[1..]
    decreases |p|
  {
    if p != [] {
      assert (p + t)[1..] == p[1..] + t;
      assert (p + t)[0] == p[0];
      SplitPrefix(p[1..], t, sep);
      assert [p[0]] + (p[1..] + Split(t, sep)[0]) == p + Split(t, sep)[0];
    } else {
      assert p + t == t;
      var st := Split(t, sep);
      assert p + st[0] == st[0];
      assert [st[0]] + st[1..] == st;
    }
  }

  /** Splitting the joined pieces gives back the pieces, when none contains the separator. */
  lemma {:induction false} SplitJoin(parts: seq<string>, sep: char)
    requires |parts| >= 1
    requires forall t :: t in parts ==> sep !in t
    ensures Split(Join(parts, sep), sep) == parts
    decreases |parts|
  {
    if |parts| == 1 {
      SplitPrefix(parts[0], "", sep);
      assert parts[0] + "" == parts[0];
    } else {
      assert forall t :: t in parts[1..] ==> t in parts;
      SplitJoin(parts[1..], sep);
      var tail := [sep] + Join(parts[1..], sep);
      assert Join(parts, sep) == parts[0] + tail;
      SplitPrefix(parts[0], tail, sep);
      assert Split(tail, sep) == [""] + parts[1..];
      assert parts[0] + "" == parts[0];
      assert [parts[0]] + parts[1..] == parts;
    }
  }

  /**
   * Absent tags give `[]`; otherwise the spaces are removed and the text is
   * split on commas, so no tag holds a space or a comma and there is one tag
   * more than there are commas (an empty string gives `[""]`).
   */
  function ParseTags(tags: Option<string>): (r: seq<string>)
    ensures tags.None? ==> r == []
    ensures tags.Some? ==> |r| == Count(tags.value, ',') + 1
    ensures forall t :: t in r ==> ' ' !in t && ',' !in t
  {
    match tags
    case None => []
    case Some(s) =>
      var r := Split(RemoveSpaces(s), ',');
      CountAfterRemoveSpaces(s, ',');
      assert forall t :: t in r ==> ' ' !in t by {
        forall t | t in r ensures ' ' !in t {
          SplitPieceIsSubstring(RemoveSpaces(s), ',', t);
        }
      }
      r
  }

  /** Every piece of a split is made of characters of the text. */
  lemma {:induction false} SplitPieceIsSubstring(s: string, sep: char, t: string)
    requires t in Split(s, sep)
    ensures forall c :: c in t ==> c in s
    decreases |s|
  {
    if s != [] {
      var rest := Split(s[1..], sep);
      if s[0] == sep {
        if t != "" {
          assert t in rest;
          SplitPieceIsSubstring(s[1..], sep, t);
        }
      } else {
        if t == [s[0]] + rest[0] {
          assert rest[0] in rest;
          SplitPieceIsSubstring(s[1..], sep, rest[0]);
        } else {
          assert t in rest;
          SplitPieceIsSubstring(s[1..], sep, t);
        }
      }
    }
  }

  /** The tags joined with commas are the input without its spaces. */
  lemma ParseTagsJoin(s: string)
    ensures Join(ParseTags(Some(s)), ',') == RemoveSpaces(s)
  {
    JoinSplit(RemoveSpaces(s), ',');
  }

  /** Removing spaces from two space-free texts around one space joins them. */
  lemma RemoveSpacesAround(a: string, b: string)
    requires ' ' !in a && ' ' !in b
    ensures RemoveSpaces(a + [' '] + b) == a + b
  {
    var space: string := [' '];
    assert RemoveSpaces(space) == "";
    RemoveSpacesAppend(a + space, b);
    RemoveSpacesAppend(a, space);
  }

  /** Three names without spaces or commas, separated by `", "` and `","`, parse to the three names. */
  lemma ParseTagsOfThree(x: string, y: string, z: string)
    requires ' ' !in x && ' ' !in y && ' ' !in z
    requires ',' !in x && ',' !in y && ',' !in z
    ensures ParseTags(Some(x + [','] + [' '] + y + [','] + z)) == [x, y, z]
  {
    var parts := [x, y, z];
    var a := x + [','];
    var b := y + [','] + z;
    assert x + [','] + [' '] + y + [','] + z == a + [' '] + b;
    RemoveSpacesAround(a, b);
    JoinCons(y, [z], ',');
    assert [y] + [z] == [y, z];
    JoinCons(x, [y, z], ',');
    assert [x] + [y, z] == parts;
    assert forall t :: t in parts ==> ',' !in t by {
      forall t | t in parts
        ensures ',' !in t
      {
        assert t == x || t == y || t == z;
      }
    }
    SplitJoin(parts, ',');
  }

  /** A worked example: `"travel, food,nature"` gives three tags. */
  lemma ParseTagsExample(input: string)
    requires input == "travel, food,nature"
    ensures ParseTags(Some(input)) == ["travel", "food", "nature"]
  {
    var travel: string, food: string, nature: string := "travel", "food", "nature";
    assert input == travel + [','] + [' '] + food + [','] + nature;
    ParseTagsOfThree(travel, food, nature);
  }
}
