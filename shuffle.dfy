/**
 * The in-place Fisher–Yates shuffle that the source writes out three times
 * (constants.ts:74-77, App.tsx:484-487 and App.tsx:786-789), with
 * `Math.random()` replaced by an oracle: a sequence of reals in [0, 1), the
 * k-th of which is the k-th value that `Math.random()` returns.
 */
module Shuffle {

  /** A value that `Math.random()` can return. */
  predicate IsRandom(r: real)
  {
    0.0 <= r < 1.0
  }

  predicate AllRandom(rnd: seq<real>)
  {
    forall k :: 0 <= k < |rnd| ==> IsRandom(rnd[k])
  }

  /** `Math.floor(r * k)`: an index below `k`. */
  function RandomBelow(r: real, k: nat): (j: int)
    requires IsRandom(r) && k > 0
    ensures 0 <= j < k
  {
    var x := r * (k as real);
    assert 0.0 <= x < k as real by {
      assert r * (k as real) < 1.0 * (k as real);
    }
    x.Floor
  }

  /** The destructuring swap `[s[i], s[j]] = [s[j], s[i]]`. */
  function Swap<T>(s: seq<T>, i: nat, j: nat): (r: seq<T>)
    requires i < |s| && j < |s|
    ensures |r| == |s|
  {
    s[i := s[j]][j := s[i]]
  }

  /** A swap exchanges two entries, keeps the others and so keeps the multiset. */
  lemma SwapPermutes<T>(s: seq<T>, i: nat, j: nat)
    requires i < |s| && j < |s|
    ensures Swap(s, i, j)[i] == s[j] && Swap(s, i, j)[j] == s[i]
    ensures forall k :: 0 <= k < |s| && k != i && k != j ==> Swap(s, i, j)[k] == s[k]
    ensures multiset(Swap(s, i, j)) == multiset(s)
  {}

  /**
   * The swap loop from index `i` down to 1: at index `i` it swaps with an
   * index drawn below `i + 1`, using the `(|s| - 1 - i)`-th draw.
   */
  function FisherYatesFrom<T>(s: seq<T>, rnd: seq<real>, i: nat): seq<T>
    requires i < |s| && |s| <= |rnd| + 1 && AllRandom(rnd)
    decreases i
  {
    if i == 0 then s
    else FisherYatesFrom(Swap(s, i, RandomBelow(rnd[|s| - 1 - i], i + 1)), rnd, i - 1)
  }

  /** The whole shuffle: `for (let i = s.length - 1; i > 0; i--)`. */
  function FisherYates<T>(s: seq<T>, rnd: seq<real>): seq<T>
    requires |s| <= |rnd| + 1 && AllRandom(rnd)
  {
    if |s| == 0 then s else FisherYatesFrom(s, rnd, |s| - 1)
  }

  lemma {:induction false} FisherYatesFromPermutes<T>(s: seq<T>, rnd: seq<real>, i: nat)
    requires i < |s| && |s| <= |rnd| + 1 && AllRandom(rnd)
    ensures |FisherYatesFrom(s, rnd, i)| == |s|
    ensures multiset(FisherYatesFrom(s, rnd, i)) == multiset(s)
    decreases i
  {
    if i > 0 {
      var j := RandomBelow(rnd[|s| - 1 - i], i + 1);
      var t := Swap(s, i, j);
      assert FisherYatesFrom(s, rnd, i) == FisherYatesFrom(t, rnd, i - 1);
      SwapPermutes(s, i, j);
      FisherYatesFromPermutes(t, rnd, i - 1);
    }
  }

  /** The shuffle only reorders: the length and the multiset of cards are kept. */
  lemma FisherYatesPermutes<T>(s: seq<T>, rnd: seq<real>)
    requires |s| <= |rnd| + 1 && AllRandom(rnd)
    ensures |FisherYates(s, rnd)| == |s|
    ensures multiset(FisherYates(s, rnd)) == multiset(s)
  {
    if |s| > 0 {
      FisherYatesFromPermutes(s, rnd, |s| - 1);
    }
  }

  /** One swap of the loop body, in place. */
  method SwapInPlace<T>(a: array<T>, i: nat, j: nat)
    requires i < a.Length && j < a.Length
    modifies a
    ensures a[..] == Swap(old(a[..]), i, j)
  {
    a[i], a[j] := a[j], a[i];
  }

  /** The swap loop itself, run in place on an array. */
  method ShuffleInPlace<T>(a: array<T>, rnd: seq<real>)
    requires a.Length <= |rnd| + 1 && AllRandom(rnd)
    modifies a
    ensures a[..] == FisherYates(old(a[..]), rnd)
    ensures multiset(a[..]) == multiset(old(a[..]))
  {
    ghost var orig := a[..];
    FisherYatesPermutes(orig, rnd);
    if a.Length == 0 {
      return;
    }
    var i := a.Length - 1;
    while i > 0
      invariant 0 <= i < a.Length
      invariant FisherYatesFrom(a[..], rnd, i) == FisherYates(orig, rnd)
    {
      var j := RandomBelow(rnd[a.Length - 1 - i], i + 1);
      ghost var before := a[..];
      SwapInPlace(a, i, j);
      SwapStep(before, rnd, i, j);
      i := i - 1;
    }
    assert FisherYatesFrom(a[..], rnd, 0) == a[..];
  }

  /** One step of the loop: swapping at `i` leaves the rest of the loop to do from `i - 1`. */
  lemma SwapStep<T>(s: seq<T>, rnd: seq<real>, i: nat, j: int)
    requires 0 < i < |s| && |s| <= |rnd| + 1 && AllRandom(rnd)
    requires j == RandomBelow(rnd[|s| - 1 - i], i + 1)
    ensures FisherYatesFrom(s, rnd, i) == FisherYatesFrom(Swap(s, i, j), rnd, i - 1)
  {}

  /** Copies a sequence into a fresh array (`[...s]`), shuffles it and returns the result. */
  method Shuffled<T>(s: seq<T>, rnd: seq<real>) returns (r: seq<T>)
    requires |s| <= |rnd| + 1 && AllRandom(rnd)
    ensures r == FisherYates(s, rnd)
    ensures |r| == |s| && multiset(r) == multiset(s)
  {
    var a := new T[|s|](k requires 0 <= k < |s| => s[k]);
    assert a[..] == s;
    ShuffleInPlace(a, rnd);
    r := a[..];
    FisherYatesPermutes(s, rnd);
  }
}
