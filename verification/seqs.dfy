/** The array operations the handlers rely on (`findIndex`, `indexOf`, `filter`,
    `splice`), stated over sequences. */
module Seqs {
  import opened Results

  /** `i` is the position of the first element of `xs` satisfying `p`. */
  ghost predicate FirstMatch<T>(xs: seq<T>, p: T -> bool, i: int) {
    && 0 <= i < |xs|
    && p(xs[i])
    && forall j :: 0 <= j < i ==> !p(xs[j])
  }

  /** No element of `xs` satisfies `p`. */
  ghost predicate NoMatch<T>(xs: seq<T>, p: T -> bool) {
    forall j :: 0 <= j < |xs| ==> !p(xs[j])
  }

  /** `findIndex`: the first position whose element satisfies `p`, `None` for -1. */
  function FindIndex<T>(xs: seq<T>, p: T -> bool): (r: Option<nat>)
    ensures r.Some? ==> FirstMatch(xs, p, r.value)
    ensures r.None? <==> NoMatch(xs, p)
    decreases |xs|
  {
    if |xs| == 0 then None
    else if p(xs[0]) then Some(0)
    else match FindIndex(xs[1..], p)
      case None => None
      case Some(i) => Some(i + 1)
  }

  /** The search predicate of `indexOf(x)` and `includes(x)`. */
  function EqualTo<T(==)>(x: T): T -> bool {
    (y: T) => y == x
  }

  /** No value occurs twice in `xs`. */
  predicate NoDup<T(==)>(xs: seq<T>) {
    forall i, j :: 0 <= i < j < |xs| ==> xs[i] != xs[j]
  }

  /** `splice(i, 1)`: `xs` without its element at position `i`. */
  function RemoveAt<T>(xs: seq<T>, i: nat): (r: seq<T>)
    requires i < |xs|
    ensures |r| == |xs| - 1
    ensures forall j :: 0 <= j < i ==> r[j] == xs[j]
    ensures forall j :: i <= j < |r| ==> r[j] == xs[j + 1]
  {
    xs[..i] + xs[i + 1..]
  }

  /** Reference definition: `xs` with every occurrence of `x` dropped. */
  function Without<T(==)>(xs: seq<T>, x: T): (r: seq<T>)
    ensures x !in r
    ensures forall j :: 0 <= j < |r| ==> r[j] in xs
    ensures forall j :: 0 <= j < |xs| && xs[j] != x ==> xs[j] in r
    decreases |xs|
  {
    if |xs| == 0 then []
    else (if xs[0] == x then [] else [xs[0]]) + Without(xs[1..], x)
  }

  lemma {:induction false} WithoutAbsent<T>(xs: seq<T>, x: T)
    requires x !in xs
    ensures Without(xs, x) == xs
    decreases |xs|
  {
    if |xs| > 0 {
      WithoutAbsent(xs[1..], x);
      assert xs == [xs[0]] + xs[1..];
    }
  }

  /** On a duplicate-free sequence, splicing out the position of `x` is the
      same as dropping `x`: the other elements keep their relative order. */
  lemma {:induction false} SpliceIsWithout<T>(xs: seq<T>, i: nat)
    requires NoDup(xs) && i < |xs|
    ensures RemoveAt(xs, i) == Without(xs, xs[i])
    decreases |xs|
  {
    var x := xs[i];
    if i == 0 {
      assert x !in xs[1..];
      WithoutAbsent(xs[1..], x);
      assert RemoveAt(xs, 0) == xs[1..];
    } else {
      var tail := xs[1..];
      assert NoDup(tail);
      assert tail[i - 1] == x;
      SpliceIsWithout(tail, i - 1);
      assert xs[0] != x;
      assert RemoveAt(xs, i) == [xs[0]] + RemoveAt(tail, i - 1);
    }
  }

  /** Removing an element keeps a sequence duplicate-free. */
  lemma RemoveAtKeepsNoDup<T>(xs: seq<T>, i: nat)
    requires NoDup(xs) && i < |xs|
    ensures NoDup(RemoveAt(xs, i))
  {
    var r := RemoveAt(xs, i);
    forall a, b | 0 <= a < b < |r|
      ensures r[a] != r[b]
    {
      var a' := if a < i then a else a + 1;
      var b' := if b < i then b else b + 1;
      assert r[a] == xs[a'] && r[b] == xs[b'];
    }
  }

  /** `ix` lists, in increasing order, exactly the positions of `xs` whose
      element satisfies `p`: the positions `filter` keeps. */
  ghost predicate Enumerates<T>(ix: seq<nat>, xs: seq<T>, p: T -> bool) {
    && (forall k :: 0 <= k < |ix| ==> ix[k] < |xs| && p(xs[ix[k]]))
    && (forall k, l :: 0 <= k < l < |ix| ==> ix[k] < ix[l])
    && (forall i :: 0 <= i < |xs| && p(xs[i]) ==> i in ix)
  }

  /** The positions at or after `from` whose element satisfies `p`, in order. */
  function Positions<T>(xs: seq<T>, p: T -> bool, from: nat): (ix: seq<nat>)
    requires from <= |xs|
    ensures forall k :: 0 <= k < |ix| ==> from <= ix[k] < |xs| && p(xs[ix[k]])
    ensures forall k, l :: 0 <= k < l < |ix| ==> ix[k] < ix[l]
    ensures forall i :: from <= i < |xs| && p(xs[i]) ==> i in ix
    decreases |xs| - from
  {
    if from == |xs| then []
    else
      var rest := Positions(xs, p, from + 1);
      if p(xs[from]) then [from] + rest else rest
  }

  /** Appending one element adds its position at the end, if it matches. */
  lemma {:induction false} PositionsAppend<T>(xs: seq<T>, y: T, p: T -> bool, from: nat)
    requires from <= |xs|
    ensures Positions(xs + [y], p, from) == Positions(xs, p, from) + (if p(y) then [|xs|] else [])
    decreases |xs| - from
  {
    var ys := xs + [y];
    if from == |xs| {
      assert Positions(ys, p, from + 1) == [];
    } else {
      assert ys[from] == xs[from];
      PositionsAppend(xs, y, p, from + 1);
    }
  }
}
