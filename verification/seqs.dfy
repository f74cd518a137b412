/**
 * Generic sequence helpers. A SQL `SELECT ... WHERE` over a table is modelled
 * as `Filter` over the table's rows, and `fetchone` as `FirstIndex`.
 */
module Seqs {
  import opened Wrappers

  /** The position of the first element satisfying `p`, if any. */
  function FirstIndex<T>(xs: seq<T>, p: T -> bool): (r: Option<nat>)
    ensures r.Some? ==> r.value < |xs| && p(xs[r.value])
    ensures r.Some? ==> forall j :: 0 <= j < r.value ==> !p(xs[j])
    ensures r.None? <==> forall j :: 0 <= j < |xs| ==> !p(xs[j])
  {
    if |xs| == 0 then None
    else if p(xs[0]) then Some(0)
    else
      match FirstIndex(xs[1..], p)
      case None => None
      case Some(k) => Some(k + 1)
  }

  /** The elements satisfying `p`, in their original order. */
  function Filter<T(!new)>(xs: seq<T>, p: T -> bool): (r: seq<T>)
    ensures |r| <= |xs|
    ensures forall x :: x in r <==> x in xs && p(x)
  {
    if |xs| == 0 then []
    else (if p(xs[0]) then [xs[0]] else []) + Filter(xs[1..], p)
  }

  /** Filtering keeps each kept element exactly as often as it occurred. */
  lemma {:induction false} FilterCount<T(!new)>(xs: seq<T>, p: T -> bool, x: T)
    ensures multiset(Filter(xs, p))[x] == if p(x) then multiset(xs)[x] else 0
  {
    if |xs| > 0 {
      assert xs == [xs[0]] + xs[1..];
      FilterCount(xs[1..], p, x);
    }
  }

  /** Keys strictly increase along the sequence (so they are pairwise distinct). */
  predicate SortedBy<T>(xs: seq<T>, key: T -> nat)
  {
    forall i, j :: 0 <= i < j < |xs| ==> key(xs[i]) < key(xs[j])
  }

  /** Filtering keeps the relative order of the elements it keeps. */
  lemma {:induction false} FilterKeepsOrder<T(!new)>(xs: seq<T>, p: T -> bool, key: T -> nat)
    requires SortedBy(xs, key)
    ensures SortedBy(Filter(xs, p), key)
  {
    if |xs| > 0 {
      var tail := xs[1..];
      FilterKeepsOrder(tail, p, key);
      var rest := Filter(tail, p);
      var r := Filter(xs, p);
      if p(xs[0]) {
        assert r == [xs[0]] + rest;
        forall i, j | 0 <= i < j < |r|
          ensures key(r[i]) < key(r[j])
        {
          assert r[j] == rest[j - 1] && rest[j - 1] in tail;
          var m :| 0 <= m < |tail| && tail[m] == r[j];
          assert xs[m + 1] == r[j];
          if i > 0 {
            assert r[i] == rest[i - 1];
          }
        }
      } else {
        assert r == rest;
      }
    }
  }

  /** In a sequence with strictly increasing keys no element occurs twice. */
  lemma {:induction false} SortedOccursOnce<T>(xs: seq<T>, key: T -> nat, x: T)
    requires SortedBy(xs, key)
    requires x in xs
    ensures multiset(xs)[x] == 1
  {
    assert xs == [xs[0]] + xs[1..];
    var tail := xs[1..];
    if x == xs[0] {
      forall j | 0 <= j < |tail|
        ensures tail[j] != x
      {
        assert tail[j] == xs[j + 1];
      }
      assert x !in tail;
    } else {
      SortedOccursOnce(tail, key, x);
    }
  }

  /** Filtering out exactly the element at position `k` splices it out. */
  lemma {:induction false} FilterDropsOne<T(!new)>(xs: seq<T>, p: T -> bool, k: nat)
    requires k < |xs|
    requires forall i :: 0 <= i < |xs| ==> (p(xs[i]) <==> i != k)
    ensures Filter(xs, p) == xs[..k] + xs[k + 1..]
  {
    var tail := xs[1..];
    if k == 0 {
      assert Filter(xs, p) == Filter(tail, p);
      TailKeeps(xs, p);
      FilterAll(tail, p);
    } else {
      assert Filter(xs, p) == [xs[0]] + Filter(tail, p);
      TailDropsOne(xs, p, k);
      FilterDropsOne(tail, p, k - 1);
      SpliceTail(xs, k);
    }
  }

  lemma TailKeeps<T>(xs: seq<T>, p: T -> bool)
    requires 0 < |xs|
    requires forall i :: 1 <= i < |xs| ==> p(xs[i])
    ensures forall i :: 0 <= i < |xs[1..]| ==> p(xs[1..][i])
  {
    forall i | 0 <= i < |xs[1..]|
      ensures p(xs[1..][i])
    {
      assert xs[1..][i] == xs[i + 1];
    }
  }

  lemma TailDropsOne<T>(xs: seq<T>, p: T -> bool, k: nat)
    requires 0 < k < |xs|
    requires forall i :: 0 <= i < |xs| ==> (p(xs[i]) <==> i != k)
    ensures forall i :: 0 <= i < |xs[1..]| ==> (p(xs[1..][i]) <==> i != k - 1)
  {
    forall i | 0 <= i < |xs[1..]|
      ensures p(xs[1..][i]) <==> i != k - 1
    {
      assert xs[1..][i] == xs[i + 1];
    }
  }

  lemma SpliceTail<T>(xs: seq<T>, k: nat)
    requires 0 < k < |xs|
    ensures [xs[0]] + (xs[1..][..k - 1] + xs[1..][k..]) == xs[..k] + xs[k + 1..]
  {
    assert xs[1..][..k - 1] == xs[1..k];
    assert xs[1..][k..] == xs[k + 1..];
    assert [xs[0]] + xs[1..k] == xs[..k];
  }

  /** Filtering with a predicate that holds everywhere is the identity. */
  lemma {:induction false} FilterAll<T(!new)>(xs: seq<T>, p: T -> bool)
    requires forall i :: 0 <= i < |xs| ==> p(xs[i])
    ensures Filter(xs, p) == xs
  {
    if |xs| > 0 {
      FilterAll(xs[1..], p);
      assert [xs[0]] + xs[1..] == xs;
    }
  }

  /** Filtering distributes over concatenation. */
  lemma {:induction false} FilterAppend<T(!new)>(xs: seq<T>, ys: seq<T>, p: T -> bool)
    ensures Filter(xs + ys, p) == Filter(xs, p) + Filter(ys, p)
  {
    if |xs| == 0 {
      assert xs + ys == ys;
    } else {
      assert (xs + ys)[1..] == xs[1..] + ys;
      FilterAppend(xs[1..], ys, p);
    }
  }

  /** Filtering with a predicate that holds nowhere leaves nothing. */
  lemma {:induction false} FilterNone<T(!new)>(xs: seq<T>, p: T -> bool)
    requires forall i :: 0 <= i < |xs| ==> !p(xs[i])
    ensures Filter(xs, p) == []
  {
    if |xs| > 0 {
      assert forall i :: 0 <= i < |xs[1..]| ==> xs[1..][i] == xs[i + 1];
      FilterNone(xs[1..], p);
    }
  }

  /** Filtering around position `k`: the parts before and after `k` are filtered separately. */
  lemma FilterAround<T(!new)>(xs: seq<T>, k: nat, p: T -> bool)
    requires k < |xs|
    ensures Filter(xs, p) == Filter(xs[..k], p) + (Filter([xs[k]], p) + Filter(xs[k + 1..], p))
  {
    var a, b := xs[..k], xs[k + 1..];
    assert xs[k..] == [xs[k]] + b;
    assert xs == a + xs[k..];
    FilterAppend(a, xs[k..], p);
    FilterAppend([xs[k]], b, p);
  }

  /** Splicing out an element the filter rejects does not change the filtered sequence. */
  lemma FilterSpliceRejected<T(!new)>(xs: seq<T>, k: nat, p: T -> bool)
    requires k < |xs| && !p(xs[k])
    ensures Filter(xs[..k] + xs[k + 1..], p) == Filter(xs, p)
  {
    FilterAround(xs, k, p);
    FilterAppend(xs[..k], xs[k + 1..], p);
    assert Filter([xs[k]], p) == [];
    assert Filter([xs[k]], p) + Filter(xs[k + 1..], p) == Filter(xs[k + 1..], p);
  }

  /** Splicing out an element the filter keeps splices it out of the filtered sequence. */
  lemma FilterSpliceKept<T(!new)>(xs: seq<T>, k: nat, p: T -> bool)
    requires k < |xs| && p(xs[k])
    ensures Filter(xs, p) == Filter(xs[..k], p) + [xs[k]] + Filter(xs[k + 1..], p)
    ensures Filter(xs[..k] + xs[k + 1..], p) == Filter(xs[..k], p) + Filter(xs[k + 1..], p)
  {
    FilterAround(xs, k, p);
    FilterAppend(xs[..k], xs[k + 1..], p);
    assert Filter([xs[k]], p) == [xs[k]];
  }

  /**
   * Splicing out position `k` of a key-sorted sequence, where the filter keeps
   * that element at position `idx` of its result, splices position `idx` out
   * of the filtered sequence.
   */
  lemma FilterSpliceAt<T(!new)>(xs: seq<T>, k: nat, p: T -> bool, key: T -> nat, idx: nat)
    requires SortedBy(xs, key)
    requires k < |xs| && p(xs[k])
    requires idx < |Filter(xs, p)| && Filter(xs, p)[idx] == xs[k]
    ensures Filter(xs[..k] + xs[k + 1..], p) == Filter(xs, p)[..idx] + Filter(xs, p)[idx + 1..]
  {
    var before, after := Filter(xs[..k], p), Filter(xs[k + 1..], p);
    FilterSpliceKept(xs, k, p);
    FilterKeepsOrder(xs, p, key);
    SpliceAt(Filter(xs, p), before, xs[k], after, idx, key);
  }

  /** In a key-sorted `before + [x] + after`, the only position holding `x` is `|before|`. */
  lemma SpliceAt<T>(ys: seq<T>, before: seq<T>, x: T, after: seq<T>, idx: nat, key: T -> nat)
    requires SortedBy(ys, key)
    requires ys == before + [x] + after
    requires idx < |ys| && ys[idx] == x
    ensures ys[..idx] + ys[idx + 1..] == before + after
  {
    var j := |before|;
    assert ys[j] == x;
    assert idx == j;
    assert ys[..j] == before;
    assert ys[j + 1..] == after;
  }
}
