/** `Array.prototype.filter` and the facts the list operations of the pages
    rely on: membership, multiplicity, order. */
module Seqs {

  /** Number of occurrences of `x` in `xs`. */
  function Count<T(==)>(xs: seq<T>, x: T): nat
    decreases |xs|
  {
    if xs == [] then 0 else (if xs[0] == x then 1 else 0) + Count(xs[1..], x)
  }

  /** `a` is `b` with some elements dropped, the rest kept in order. */
  predicate IsSubseq<T(==)>(a: seq<T>, b: seq<T>)
    decreases |b|
  {
    if a == [] then true
    else if b == [] then false
    else if a[0] == b[0] then IsSubseq(a[1..], b[1..])
    else IsSubseq(a, b[1..])
  }

  /** `xs.filter(keep)`. */
  function Filter<T>(xs: seq<T>, keep: T -> bool): (r: seq<T>)
    ensures |r| <= |xs|
    ensures forall i :: 0 <= i < |r| ==> keep(r[i]) && r[i] in xs
    ensures forall i :: 0 <= i < |xs| && keep(xs[i]) ==> xs[i] in r
    decreases |xs|
  {
    if xs == [] then []
    else if keep(xs[0]) then [xs[0]] + Filter(xs[1..], keep)
    else Filter(xs[1..], keep)
  }

  /** `xs.filter((y) => y !== x)`. */
  function Remove<T(==)>(xs: seq<T>, x: T): seq<T> {
    Filter(xs, y => y != x)
  }

  lemma {:induction false} FilterCount<T>(xs: seq<T>, keep: T -> bool, y: T)
    ensures Count(Filter(xs, keep), y) == if keep(y) then Count(xs, y) else 0
    decreases |xs|
  {
    if xs != [] {
      FilterCount(xs[1..], keep, y);
      if keep(xs[0]) {
        assert ([xs[0]] + Filter(xs[1..], keep))[1..] == Filter(xs[1..], keep);
      }
    }
  }

  lemma {:induction false} FilterIsSubseq<T>(xs: seq<T>, keep: T -> bool)
    ensures IsSubseq(Filter(xs, keep), xs)
    decreases |xs|
  {
    if xs != [] {
      FilterIsSubseq(xs[1..], keep);
      if keep(xs[0]) {
        assert ([xs[0]] + Filter(xs[1..], keep))[1..] == Filter(xs[1..], keep);
      } else {
        SubseqOfTail(Filter(xs, keep), xs);
      }
    }
  }

  lemma SubseqOfTail<T>(a: seq<T>, b: seq<T>)
    requires b != [] && IsSubseq(a, b[1..])
    ensures IsSubseq(a, b)
    decreases |b|, |a|
  {
    if a != [] && a[0] == b[0] {
      SubseqDropHead(a, b[1..]);
    }
  }

  lemma {:induction false} SubseqDropHead<T>(a: seq<T>, b: seq<T>)
    requires a != [] && IsSubseq(a, b)
    ensures IsSubseq(a[1..], b)
    decreases |b|, |a|
  {
    if a[0] != b[0] {
      SubseqDropHead(a, b[1..]);
      SubseqOfTail(a[1..], b);
    } else if a[1..] != [] {
      SubseqOfTail(a[1..], b);
    }
  }

  /** Filtering a filtered list again changes nothing. */
  lemma {:induction false} FilterIdempotent<T>(xs: seq<T>, keep: T -> bool)
    ensures Filter(Filter(xs, keep), keep) == Filter(xs, keep)
    decreases |xs|
  {
    if xs != [] {
      FilterIdempotent(xs[1..], keep);
      if keep(xs[0]) {
        assert ([xs[0]] + Filter(xs[1..], keep))[1..] == Filter(xs[1..], keep);
      }
    }
  }

  /** A filter that keeps every element is the identity. */
  lemma {:induction false} FilterKeepsAll<T>(xs: seq<T>, keep: T -> bool)
    requires forall i :: 0 <= i < |xs| ==> keep(xs[i])
    ensures Filter(xs, keep) == xs
    decreases |xs|
  {
    if xs != [] {
      FilterKeepsAll(xs[1..], keep);
    }
  }

  /** Filtering distributes over concatenation: the filter keeps order. */
  lemma {:induction false} FilterConcat<T>(a: seq<T>, b: seq<T>, keep: T -> bool)
    ensures Filter(a + b, keep) == Filter(a, keep) + Filter(b, keep)
    decreases |a|
  {
    if a == [] {
      assert a + b == b;
    } else {
      assert (a + b)[0] == a[0];
      assert (a + b)[1..] == a[1..] + b;
      FilterConcat(a[1..], b, keep);
    }
  }

  /** What `Remove` keeps and drops: no `x` is left, every other value keeps
      its number of occurrences, and the survivors stay in order. */
  lemma RemoveSpec<T>(xs: seq<T>, x: T)
    ensures x !in Remove(xs, x)
    ensures forall y :: y != x ==> Count(Remove(xs, x), y) == Count(xs, y)
    ensures IsSubseq(Remove(xs, x), xs)
  {
    forall y | y != x
      ensures Count(Remove(xs, x), y) == Count(xs, y)
    {
      FilterCount(xs, y' => y' != x, y);
    }
    FilterIsSubseq(xs, y => y != x);
  }

  /** An element occurs exactly when it is counted. */
  lemma {:induction false} CountPositiveIff<T>(xs: seq<T>, x: T)
    ensures Count(xs, x) > 0 <==> x in xs
    decreases |xs|
  {
    if xs != [] {
      CountPositiveIff(xs[1..], x);
      assert xs == [xs[0]] + xs[1..];
    }
  }

  /** Appending one element adds one occurrence of it and none of anything
      else. */
  lemma {:induction false} CountAppend<T>(xs: seq<T>, y: T, x: T)
    ensures Count(xs + [y], x) == Count(xs, x) + (if y == x then 1 else 0)
    decreases |xs|
  {
    if xs == [] {
      assert [y][1..] == [];
    } else {
      assert (xs + [y])[1..] == xs[1..] + [y];
      CountAppend(xs[1..], y, x);
    }
  }

  /** Removing an element that was only appended gives the list back. */
  lemma {:induction false} RemoveAppended<T>(xs: seq<T>, x: T)
    requires x !in xs
    ensures Remove(xs + [x], x) == xs
    decreases |xs|
  {
    if xs == [] {
      assert [x][1..] == [];
    } else {
      assert (xs + [x])[1..] == xs[1..] + [x];
      assert xs[0] != x;
      RemoveAppended(xs[1..], x);
      assert xs == [xs[0]] + xs[1..];
    }
  }

  /** Removing twice is removing once. */
  lemma RemoveIdempotent<T>(xs: seq<T>, x: T)
    ensures Remove(Remove(xs, x), x) == Remove(xs, x)
  {
    FilterIdempotent(xs, y => y != x);
  }
}
