/** The array operations the storefront calls (`filter`, `find`, `findIndex`,
    `reverse`), as functions over sequences. */
module Seqs {
  import opened Wrappers

  /** `xs.filter(p)`: the elements satisfying `p`, in their original order. */
  function Filter<T>(xs: seq<T>, p: T -> bool): (r: seq<T>)
    ensures |r| <= |xs|
    ensures forall i :: 0 <= i < |r| ==> p(r[i])
  {
    if xs == [] then []
    else
      assert xs == [xs[0]] + xs[1..];
      if p(xs[0]) then [xs[0]] + Filter(xs[1..], p)
      else Filter(xs[1..], p)
  }

  /** An element survives the filter exactly when it occurs in the input and
      satisfies the predicate. */
  lemma {:induction false} FilterMember<T>(xs: seq<T>, p: T -> bool, x: T)
    ensures x in Filter(xs, p) <==> x in xs && p(x)
  {
    if xs != [] {
      FilterMember(xs[1..], p, x);
      assert xs == [xs[0]] + xs[1..];
    }
  }

  /** Filtering a concatenation filters each part: the result keeps the input's order. */
  lemma {:induction false} FilterAppend<T>(xs: seq<T>, ys: seq<T>, p: T -> bool)
    ensures Filter(xs + ys, p) == Filter(xs, p) + Filter(ys, p)
  {
    if xs == [] {
      assert xs + ys == ys;
    } else {
      assert (xs + ys)[0] == xs[0] && (xs + ys)[1..] == xs[1..] + ys;
      FilterAppend(xs[1..], ys, p);
    }
  }

  /** Filtering with a predicate that every element meets changes nothing. */
  lemma {:induction false} FilterAll<T>(xs: seq<T>, p: T -> bool)
    requires forall i :: 0 <= i < |xs| ==> p(xs[i])
    ensures Filter(xs, p) == xs
  {
    if xs != [] {
      FilterAll(xs[1..], p);
    }
  }

  /** Filtering with a predicate that no element meets leaves nothing. */
  lemma {:induction false} FilterNone<T>(xs: seq<T>, p: T -> bool)
    requires forall i :: 0 <= i < |xs| ==> !p(xs[i])
    ensures Filter(xs, p) == []
  {
    if xs != [] {
      FilterNone(xs[1..], p);
    }
  }

  /** When the elements satisfying `p` are exactly those of one block
      `xs[lo..hi]`, the filter yields that block. */
  lemma {:induction false} FilterBlock<T>(xs: seq<T>, p: T -> bool, lo: nat, hi: nat)
    requires lo <= hi <= |xs|
    requires forall i :: 0 <= i < |xs| ==> (p(xs[i]) <==> lo <= i < hi)
    ensures Filter(xs, p) == xs[lo..hi]
    decreases |xs|
  {
    if hi == 0 {
      FilterNone(xs, p);
    } else {
      var rest := xs[1..];
      assert forall i :: 0 <= i < |rest| ==> rest[i] == xs[i + 1];
      if lo == 0 {
        FilterBlock(rest, p, 0, hi - 1);
        assert xs[lo..hi] == [xs[0]] + rest[0..hi - 1];
      } else {
        FilterBlock(rest, p, lo - 1, hi - 1);
        assert xs[lo..hi] == rest[lo - 1..hi - 1];
      }
    }
  }

  /** The conjunction of two predicates. */
  function Both<T>(p: T -> bool, q: T -> bool): T -> bool {
    x => p(x) && q(x)
  }

  /** Filtering twice is filtering once with the conjunction. */
  lemma {:induction false} FilterFilter<T>(xs: seq<T>, p: T -> bool, q: T -> bool)
    ensures Filter(Filter(xs, p), q) == Filter(xs, Both(p, q))
  {
    if xs != [] {
      FilterFilter(xs[1..], p, q);
    }
  }

  /** The blocks of `gs` one after another. */
  function Concat<T>(gs: seq<seq<T>>): (r: seq<T>)
    ensures gs == [] ==> r == []
  {
    if gs == [] then [] else gs[0] + Concat(gs[1..])
  }

  /** Filtering a sequence of blocks where no element satisfies `p` leaves nothing. */
  lemma {:induction false} FilterNoBlock<T>(gs: seq<seq<T>>, p: T -> bool)
    requires forall i, j :: 0 <= i < |gs| && 0 <= j < |gs[i]| ==> !p(gs[i][j])
    ensures Filter(Concat(gs), p) == []
  {
    if gs != [] {
      FilterAppend(gs[0], Concat(gs[1..]), p);
      FilterNone(gs[0], p);
      FilterNoBlock(gs[1..], p);
    }
  }

  /** When exactly the elements of block `k` satisfy `p`, the filter of the
      blocks laid end to end is that block. */
  lemma {:induction false} FilterOneBlock<T>(gs: seq<seq<T>>, p: T -> bool, k: nat)
    requires k < |gs|
    requires forall i, j :: 0 <= i < |gs| && 0 <= j < |gs[i]| ==> (p(gs[i][j]) <==> i == k)
    ensures Filter(Concat(gs), p) == gs[k]
  {
    FilterAppend(gs[0], Concat(gs[1..]), p);
    if k == 0 {
      FilterAll(gs[0], p);
      FilterNoBlock(gs[1..], p);
    } else {
      FilterNone(gs[0], p);
      FilterOneBlock(gs[1..], p, k - 1);
    }
  }

  /** `xs.findIndex(p)`: the first index whose element satisfies `p`, or none
      (the source's -1). */
  function FirstIndex<T>(xs: seq<T>, p: T -> bool): (r: Option<nat>)
    ensures r.Some? ==> r.value < |xs| && p(xs[r.value])
                        && forall j :: 0 <= j < r.value ==> !p(xs[j])
    ensures r.None? <==> forall j :: 0 <= j < |xs| ==> !p(xs[j])
  {
    if xs == [] then None
    else if p(xs[0]) then Some(0)
    else match FirstIndex(xs[1..], p)
      case None => None
      case Some(i) => Some(i + 1)
  }

  /** `xs.find(p)`: the first element satisfying `p`, or none. */
  function Find<T>(xs: seq<T>, p: T -> bool): (r: Option<T>)
    ensures r.None? <==> forall i :: 0 <= i < |xs| ==> !p(xs[i])
    ensures r.Some? ==> exists k :: 0 <= k < |xs| && xs[k] == r.value && p(xs[k])
                                    && forall j :: 0 <= j < k ==> !p(xs[j])
  {
    match FirstIndex(xs, p)
    case None => None
    case Some(i) => Some(xs[i])
  }

  /** `find` yields the element at the first index that satisfies `p`. */
  lemma FindFirst<T>(xs: seq<T>, p: T -> bool, k: nat)
    requires k < |xs| && p(xs[k])
    requires forall j :: 0 <= j < k ==> !p(xs[j])
    ensures Find(xs, p) == Some(xs[k])
  {
  }

  /** `xs.slice().reverse()`. */
  function Reverse<T>(xs: seq<T>): (r: seq<T>)
    ensures |r| == |xs|
    ensures forall i :: 0 <= i < |xs| ==> r[i] == xs[|xs| - 1 - i]
  {
    if xs == [] then [] else Reverse(xs[1..]) + [xs[0]]
  }

  /** `xs.map(f)`. */
  function Map<T, U>(xs: seq<T>, f: T -> U): (r: seq<U>)
    ensures |r| == |xs|
    ensures forall i :: 0 <= i < |xs| ==> r[i] == f(xs[i])
  {
    if xs == [] then [] else [f(xs[0])] + Map(xs[1..], f)
  }

  /** Mapping a concatenation maps each part. */
  lemma {:induction false} MapAppend<T, U>(xs: seq<T>, ys: seq<T>, f: T -> U)
    ensures Map(xs + ys, f) == Map(xs, f) + Map(ys, f)
  {
    var l, r := Map(xs + ys, f), Map(xs, f) + Map(ys, f);
    assert |l| == |r|;
    forall i | 0 <= i < |l| ensures l[i] == r[i] {
      if i < |xs| {
        assert (xs + ys)[i] == xs[i];
      } else {
        assert (xs + ys)[i] == ys[i - |xs|];
      }
    }
  }
}
