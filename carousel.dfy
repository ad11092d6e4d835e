/**
 * The wrap-around image carousel shared by PostCard
 * (src/components/shared/PostCard.tsx:61-71) and PostDetails
 * (src/_root/pages/PostDetails.tsx:139-145): both step an index into a list
 * of `len` images with the same two updates.
 */
module Carousel {

  /** `prev === len - 1 ? 0 : prev + 1`. */
  function Next(i: int, len: int): (r: int)
    ensures 0 <= i < len ==> 0 <= r < len
    ensures 0 <= i < len ==> r == (i + 1) % len
  {
    if i == len - 1 then 0 else i + 1
  }

  /** `prev === 0 ? len - 1 : prev - 1`. */
  function Previous(i: int, len: int): (r: int)
    ensures 0 <= i < len ==> 0 <= r < len
    ensures 0 <= i < len ==> r == (i - 1) % len
  {
    if i == 0 then len - 1 else i - 1
  }

  /** Previous undoes next and next undoes previous. */
  lemma NextPreviousInverse(i: int, len: int)
    requires 0 <= i < len
    ensures Previous(Next(i, len), len) == i
    ensures Next(Previous(i, len), len) == i
  {
  }

  /** One button press of a carousel. */
  datatype Move = Forward | Back

  /** The index after a sequence of presses, the first press first. */
  function Walk(i: int, len: int, moves: seq<Move>): (r: int)
    ensures 0 <= i < len ==> 0 <= r < len
    decreases |moves|
  {
    if moves == [] then i
    else
      var j := if moves[0] == Forward then Next(i, len) else Previous(i, len);
      Walk(j, len, moves[1..])
  }

  /** Presses forward minus presses back. */
  function Net(moves: seq<Move>): (r: int)
    ensures -|moves| <= r <= |moves|
    decreases |moves|
  {
    if moves == [] then 0
    else (if moves[0] == Forward then 1 else -1) + Net(moves[1..])
  }

  lemma ModAbsorb(a: int, b: int, m: int)
    requires m > 0
    ensures (a % m + b) % m == (a + b) % m
  {
    var q := a / m;
    assert a == q * m + a % m;
    ModShift(a % m + b, q, m);
  }

  lemma ModPlusOnce(x: int, m: int)
    requires m > 0
    ensures (x + m) % m == x % m
  {
    var r := x % m;
    var q := x / m;
    assert x == q * m + r && 0 <= r < m;
    assert x + m == (q + 1) * m + r;
    ModUnique(x + m, q + 1, r, m);
  }

  lemma ModUnique(x: int, q: int, r: int, m: int)
    requires m > 0 && 0 <= r < m && x == q * m + r
    ensures x % m == r
  {
    var q' := x / m;
    var r' := x % m;
    assert x == q' * m + r';
    assert (q - q') * m == r' - r;
    if q > q' {
      MulAtLeast(q - q', m);
    } else if q < q' {
      assert (q' - q) * m == r - r';
      MulAtLeast(q' - q, m);
    }
  }

  lemma {:induction false} MulAtLeast(k: int, m: int)
    requires k >= 1 && m > 0
    ensures k * m >= m
    decreases k
  {
    if k > 1 {
      MulAtLeast(k - 1, m);
      assert k * m == (k - 1) * m + m;
    }
  }

  lemma {:induction false} ModShift(x: int, q: int, m: int)
    requires m > 0
    ensures (x + q * m) % m == x % m
    decreases if q < 0 then -q else q
  {
    if q > 0 {
      ModShift(x, q - 1, m);
      assert x + q * m == (x + (q - 1) * m) + m;
      ModPlusOnce(x + (q - 1) * m, m);
    } else if q < 0 {
      ModShift(x, q + 1, m);
      assert x + (q + 1) * m == (x + q * m) + m;
      ModPlusOnce(x + q * m, m);
    }
  }

  /**
   * Any sequence of presses lands where the net count of forward presses
   * says, modulo the number of images.
   */
  lemma {:induction false} WalkIsNetModLen(i: int, len: int, moves: seq<Move>)
    requires 0 <= i < len
    ensures Walk(i, len, moves) == (i + Net(moves)) % len
    decreases |moves|
  {
    if moves == [] {
      ModUnique(i, 0, i, len);
    } else {
      var step := if moves[0] == Forward then 1 else -1;
      var j := if moves[0] == Forward then Next(i, len) else Previous(i, len);
      WalkIsNetModLen(j, len, moves[1..]);
      WalkStep(i, j, step, len, Net(moves[1..]));
    }
  }

  /** One step of the walk, with the rest of the walk already known. */
  lemma WalkStep(i: int, j: int, step: int, len: int, rest: int)
    requires len > 0 && j == (i + step) % len
    ensures (j + rest) % len == (i + (step + rest)) % len
  {
    ModAbsorb(i + step, rest, len);
    assert i + step + rest == i + (step + rest);
  }

  /** `len` presses of next bring the carousel back to where it started. */
  lemma FullCycle(i: int, len: int)
    requires 0 <= i < len
    ensures Walk(i, len, seq(len, _ => Forward)) == i
  {
    var moves := seq(len, _ => Forward);
    NetAllForward(moves);
    WalkIsNetModLen(i, len, moves);
    ModPlusOnce(i, len);
    ModUnique(i, 0, i, len);
  }

  lemma {:induction false} NetAllForward(moves: seq<Move>)
    requires forall k :: 0 <= k < |moves| ==> moves[k] == Forward
    ensures Net(moves) == |moves|
    decreases |moves|
  {
    if moves != [] {
      NetAllForward(moves[1..]);
    }
  }
}
