/** Small value-level helpers shared by every module of the model: an optional
    value (JavaScript's `undefined`/`null` versus a present value) and the
    order-keeping `Array.prototype.filter`. */
module Common {

  datatype Option<+T> = None | Some(value: T) {
    /** The `x ?? d` / `x || d` idiom for a value that is either present or not. */
    function GetOr(default: T): T {
      match this
      case Some(v) => v
      case None => default
    }
  }

  /** `xs.filter(p)`: the elements satisfying `p`, in their original order. */
  function Filter<T(!new)>(xs: seq<T>, p: T -> bool): (r: seq<T>)
    ensures |r| <= |xs|
    ensures forall i :: 0 <= i < |r| ==> p(r[i])
    ensures forall x :: x in r <==> x in xs && p(x)
  {
    if xs == [] then []
    else (if p(xs[0]) then [xs[0]] else []) + Filter(xs[1..], p)
  }

  /** Filtering distributes over concatenation: the relative order of kept elements is the input's. */
  lemma {:induction false} FilterAppend<T(!new)>(xs: seq<T>, ys: seq<T>, p: T -> bool)
    ensures Filter(xs + ys, p) == Filter(xs, p) + Filter(ys, p)
  {
    if xs != [] {
      assert (xs + ys)[1..] == xs[1..] + ys;
      FilterAppend(xs[1..], ys, p);
    } else {
      assert xs + ys == ys;
    }
  }

  /** Inserting an element the filter drops leaves the filtered sequence as it was. */
  lemma {:induction false} FilterInsertDropped<T(!new)>(xs: seq<T>, x: T, q: nat, p: T -> bool)
    requires q <= |xs| && !p(x)
    ensures Filter(xs[..q] + [x] + xs[q..], p) == Filter(xs, p)
  {
    var n := xs[..q] + [x] + xs[q..];
    if q == 0 {
      assert n[1..] == xs;
    } else {
      assert n[0] == xs[0];
      assert n[1..] == xs[1..][..q - 1] + [x] + xs[1..][q - 1..];
      FilterInsertDropped(xs[1..], x, q - 1, p);
    }
  }

  /** A filter that keeps everything is the identity. */
  lemma {:induction false} FilterKeepsAll<T(!new)>(xs: seq<T>, p: T -> bool)
    requires forall i :: 0 <= i < |xs| ==> p(xs[i])
    ensures Filter(xs, p) == xs
  {
    if xs != [] {
      FilterKeepsAll(xs[1..], p);
    }
  }

  /** A filter that keeps nothing is empty. */
  lemma {:induction false} FilterDropsAll<T(!new)>(xs: seq<T>, p: T -> bool)
    requires forall i :: 0 <= i < |xs| ==> !p(xs[i])
    ensures Filter(xs, p) == []
  {
    if xs != [] {
      FilterDropsAll(xs[1..], p);
    }
  }

  /** What a loop builds when it skips the elements failing `p` and pushes `f` of the others:
      `xs.filter(p).map(f)`, written element by element from the front. */
  function FilterMap<T, U>(xs: seq<T>, p: T -> bool, f: T -> U): seq<U>
  {
    if xs == [] then []
    else
      var n := |xs| - 1;
      FilterMap(xs[..n], p, f) + (if p(xs[n]) then [f(xs[n])] else [])
  }

  /** One more element adds its image at the end, unless it fails `p`. */
  lemma FilterMapStep<T, U>(xs: seq<T>, p: T -> bool, f: T -> U, i: int)
    requires 0 <= i < |xs|
    ensures FilterMap(xs[..i + 1], p, f) == FilterMap(xs[..i], p, f) + (if p(xs[i]) then [f(xs[i])] else [])
  {
    assert xs[..i + 1][..i] == xs[..i];
  }

  /** The built sequence is `f` applied to each kept element, in order. */
  lemma {:induction false} FilterMapOfFilter<T(!new), U>(xs: seq<T>, p: T -> bool, f: T -> U)
    ensures |FilterMap(xs, p, f)| == |Filter(xs, p)|
    ensures forall i :: 0 <= i < |FilterMap(xs, p, f)| ==> FilterMap(xs, p, f)[i] == f(Filter(xs, p)[i])
  {
    if xs != [] {
      var n := |xs| - 1;
      FilterMapOfFilter(xs[..n], p, f);
      assert xs == xs[..n] + [xs[n]];
      FilterAppend(xs[..n], [xs[n]], p);
      assert [xs[n]][1..] == [];
    }
  }

  /** `xs.some(p)`: whether some element satisfies `p`. */
  function Any<T>(xs: seq<T>, p: T -> bool): (r: bool)
    ensures r <==> exists i :: 0 <= i < |xs| && p(xs[i])
  {
    if xs == [] then false
    else
      var rest := Any(xs[1..], p);
      assert forall i :: 1 <= i < |xs| ==> xs[i] == xs[1..][i - 1];
      p(xs[0]) || rest
  }

  /** `xs.some(p)` holds exactly when `xs.filter(p)` is not empty. */
  lemma {:induction false} AnyIffFilterNonEmpty<T(!new)>(xs: seq<T>, p: T -> bool)
    ensures Any(xs, p) <==> Filter(xs, p) != []
  {
    var r := Filter(xs, p);
    if Any(xs, p) {
      var i :| 0 <= i < |xs| && p(xs[i]);
      assert xs[i] in r;
    }
    if r != [] {
      assert r[0] in xs;
      var i :| 0 <= i < |xs| && xs[i] == r[0];
      assert p(xs[i]);
    }
  }

  /** Whether a sequence holds no element twice. */
  predicate NoDuplicates<T(==)>(xs: seq<T>) {
    forall i, j :: 0 <= i < j < |xs| ==> xs[i] != xs[j]
  }

  /** `Array.from(new Set(xs))`: each element once, at its first occurrence. */
  function Dedup<T(==,!new)>(xs: seq<T>): (r: seq<T>)
    ensures NoDuplicates(r)
    ensures forall x :: x in r <==> x in xs
  {
    if xs == [] then []
    else
      var r := Dedup(xs[..|xs| - 1]);
      assert xs == xs[..|xs| - 1] + [xs[|xs| - 1]];
      if xs[|xs| - 1] in r then r else r + [xs[|xs| - 1]]
  }

  /** A list that already holds each element once is its own deduplication. */
  lemma {:induction false} DedupDistinct<T(!new)>(xs: seq<T>)
    requires NoDuplicates(xs)
    ensures Dedup(xs) == xs
  {
    if xs != [] {
      var n := |xs| - 1;
      assert NoDuplicates(xs[..n]);
      DedupDistinct(xs[..n]);
      assert xs[n] !in xs[..n];
      assert xs[..n] + [xs[n]] == xs;
    }
  }

  function AsSet<T>(xs: seq<T>): set<T> {
    set x | x in xs
  }

  /** `xs.filter(y => y !== x)`: every occurrence of `x` dropped, the rest in order. */
  function RemoveAll<T(==,!new)>(xs: seq<T>, x: T): (r: seq<T>)
    ensures |r| <= |xs|
    ensures x !in r
    ensures forall y :: y != x ==> (y in r <==> y in xs)
    ensures NoDuplicates(xs) ==> NoDuplicates(r)
  {
    if xs == [] then []
    else
      var rest := RemoveAll(xs[1..], x);
      assert NoDuplicates(xs) ==> NoDuplicates(xs[1..]) && xs[0] !in xs[1..];
      (if xs[0] == x then [] else [xs[0]]) + rest
  }

  /** Removing from a concatenation removes from each part. */
  lemma {:induction false} RemoveAllAppend<T(!new)>(xs: seq<T>, ys: seq<T>, x: T)
    ensures RemoveAll(xs + ys, x) == RemoveAll(xs, x) + RemoveAll(ys, x)
  {
    if xs == [] {
      assert xs + ys == ys;
    } else {
      assert (xs + ys)[1..] == xs[1..] + ys;
      RemoveAllAppend(xs[1..], ys, x);
    }
  }

  /** Removing an element that does not occur changes nothing. */
  lemma {:induction false} RemoveAbsent<T(!new)>(xs: seq<T>, x: T)
    requires x !in xs
    ensures RemoveAll(xs, x) == xs
  {
    if xs != [] {
      RemoveAbsent(xs[1..], x);
    }
  }
}
