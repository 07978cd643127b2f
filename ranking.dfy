/**
 * Ranking and truncation of eigenpairs: an argsort of the eigenvalues
 * (ascending), reversed for a descending order, then cut to the first `dim`
 * indices.
 *
 * The argsort here is an insertion sort over indices, but nothing outside
 * this module relies on how ties are broken: every contract promises only
 * that the indices are a permutation and that they order the values.
 */
module Ranking {

  /** Every index of idx points into vals. */
  predicate InBounds(vals: seq<real>, idx: seq<nat>) {
    forall i | 0 <= i < |idx| :: idx[i] < |vals|
  }

  /** No index occurs twice. */
  predicate Distinct(idx: seq<nat>) {
    forall i, j | 0 <= i < j < |idx| :: idx[i] != idx[j]
  }

  /** idx lists each of 0, ..., n-1 exactly once. */
  predicate IsPermutation(idx: seq<nat>, n: nat) {
    && |idx| == n
    && (forall i | 0 <= i < |idx| :: idx[i] < n)
    && Distinct(idx)
    && (forall k | 0 <= k < n :: k in idx)
  }

  /** The values that idx points at are non-decreasing. */
  predicate Ascending(vals: seq<real>, idx: seq<nat>) {
    && InBounds(vals, idx)
    && forall i, j | 0 <= i < j < |idx| :: vals[idx[i]] <= vals[idx[j]]
  }

  /** The values that idx points at are non-increasing. */
  predicate Descending(vals: seq<real>, idx: seq<nat>) {
    && InBounds(vals, idx)
    && forall i, j | 0 <= i < j < |idx| :: vals[idx[i]] >= vals[idx[j]]
  }

  /**
   * Where index x goes in the ascending idx: after every index whose value
   * is not above that of x, before the first one whose value is.
   */
  function InsertPosition(vals: seq<real>, idx: seq<nat>, x: nat): (p: nat)
    requires InBounds(vals, idx) && x < |vals|
    ensures p <= |idx|
    ensures forall i | 0 <= i < p :: vals[idx[i]] <= vals[x]
    ensures p < |idx| ==> vals[x] < vals[idx[p]]
  {
    if |idx| == 0 then 0
    else if vals[x] < vals[idx[0]] then 0
    else 1 + InsertPosition(vals, idx[1..], x)
  }

  /** idx with x inserted so that the values stay in ascending order. */
  function Insert(vals: seq<real>, idx: seq<nat>, x: nat): (r: seq<nat>)
    requires Ascending(vals, idx) && x < |vals|
    ensures |r| == |idx| + 1
    ensures Ascending(vals, r)
    ensures multiset(r) == multiset(idx) + multiset{x}
    ensures Distinct(idx) && x !in idx ==> Distinct(r)
  {
    var p := InsertPosition(vals, idx, x);
    var r := idx[..p] + [x] + idx[p..];
    InsertKeepsAscending(vals, idx, x, p, r);
    InsertAddsOne(idx, x, p, r);
    InsertKeepsDistinct(idx, x, p, r);
    r
  }

  lemma InsertKeepsAscending(vals: seq<real>, idx: seq<nat>, x: nat, p: nat, r: seq<nat>)
    requires Ascending(vals, idx) && x < |vals| && p <= |idx|
    requires forall i | 0 <= i < p :: vals[idx[i]] <= vals[x]
    requires p < |idx| ==> vals[x] < vals[idx[p]]
    requires r == idx[..p] + [x] + idx[p..]
    ensures Ascending(vals, r)
  {
    forall i, j | 0 <= i < j < |r| ensures vals[r[i]] <= vals[r[j]] {
      if i == p && j > p {
        assert vals[x] < vals[idx[p]];
      }
    }
  }

  lemma InsertAddsOne(idx: seq<nat>, x: nat, p: nat, r: seq<nat>)
    requires p <= |idx| && r == idx[..p] + [x] + idx[p..]
    ensures multiset(r) == multiset(idx) + multiset{x}
  {
    assert idx == idx[..p] + idx[p..];
  }

  lemma InsertKeepsDistinct(idx: seq<nat>, x: nat, p: nat, r: seq<nat>)
    requires p <= |idx| && r == idx[..p] + [x] + idx[p..]
    ensures Distinct(idx) && x !in idx ==> Distinct(r)
  {
  }

  /** An ascending argsort of the first n values. */
  function SortPrefix(vals: seq<real>, n: nat): (idx: seq<nat>)
    requires n <= |vals|
    ensures IsPermutation(idx, n)
    ensures Ascending(vals, idx)
  {
    if n == 0 then []
    else
      var rest := SortPrefix(vals, n - 1);
      InsertExtendsPermutation(vals, rest, n);
      Insert(vals, rest, n - 1)
  }

  /** Inserting n - 1 into an ascending permutation of 0..n-2 gives one of 0..n-1. */
  lemma InsertExtendsPermutation(vals: seq<real>, rest: seq<nat>, n: nat)
    requires 0 < n <= |vals|
    requires IsPermutation(rest, n - 1) && Ascending(vals, rest)
    ensures IsPermutation(Insert(vals, rest, n - 1), n)
  {
    var r := Insert(vals, rest, n - 1);
    ExtendPermutation(rest, r, n - 1);
  }

  /** Adding n to a permutation of 0..n-1 gives a permutation of 0..n. */
  lemma ExtendPermutation(rest: seq<nat>, r: seq<nat>, n: nat)
    requires IsPermutation(rest, n)
    requires multiset(r) == multiset(rest) + multiset{n}
    requires Distinct(rest) && n !in rest ==> Distinct(r)
    ensures IsPermutation(r, n + 1)
  {
    assert |r| == |multiset(r)| == |rest| + 1;
    forall i | 0 <= i < |r| ensures r[i] < n + 1 {
      assert r[i] in multiset(r);
    }
    forall k | 0 <= k < n + 1 ensures k in r {
      if k < n {
        assert k in rest;
        assert k in multiset(rest);
      }
      assert k in multiset(r);
    }
  }

  /** An ascending argsort: the indices of vals, ordered by value. */
  function Argsort(vals: seq<real>): (idx: seq<nat>)
    ensures IsPermutation(idx, |vals|)
    ensures Ascending(vals, idx)
  {
    SortPrefix(vals, |vals|)
  }

  /** s back to front. */
  function Reversed(s: seq<nat>): (r: seq<nat>)
    ensures |r| == |s|
    ensures forall i | 0 <= i < |s| :: r[i] == s[|s| - 1 - i]
  {
    seq(|s|, i requires 0 <= i < |s| => s[|s| - 1 - i])
  }

  /** Reversing an ascending permutation gives a descending permutation. */
  lemma ReversedDescends(vals: seq<real>, idx: seq<nat>)
    requires IsPermutation(idx, |vals|) && Ascending(vals, idx)
    ensures IsPermutation(Reversed(idx), |vals|)
    ensures Descending(vals, Reversed(idx))
  {
    var r := Reversed(idx);
    var n := |idx|;
    forall k | 0 <= k < n ensures k in r {
      assert k in idx;
      var m :| 0 <= m < n && idx[m] == k;
      assert r[n - 1 - m] == k;
    }
  }

  /**
   * The ranking order: the argsort, reversed when a descending order is
   * asked for.
   */
  function RankOrder(vals: seq<real>, descending: bool): (idx: seq<nat>)
    ensures IsPermutation(idx, |vals|)
    ensures descending ==> Descending(vals, idx)
    ensures !descending ==> Ascending(vals, idx)
  {
    var sorted := Argsort(vals);
    if descending then
      ReversedDescends(vals, sorted);
      Reversed(sorted)
    else
      sorted
  }

  /**
   * The first dim indices of the ranking order: dim distinct indices, in
   * order. SelectRanksAhead adds that they are the dim extreme values.
   */
  function Select(vals: seq<real>, descending: bool, dim: nat): (sel: seq<nat>)
    requires dim <= |vals|
    ensures |sel| == dim
    ensures InBounds(vals, sel) && Distinct(sel)
    ensures descending ==> Descending(vals, sel)
    ensures !descending ==> Ascending(vals, sel)
  {
    var order := RankOrder(vals, descending);
    PrefixKeepsOrder(vals, order, descending, dim);
    order[..dim]
  }

  /**
   * No value left out of the selection ranks ahead of a value kept: for a
   * descending order the dim largest values are kept, for an ascending one
   * the dim smallest.
   */
  lemma SelectRanksAhead(vals: seq<real>, descending: bool, dim: nat)
    requires dim <= |vals|
    ensures var sel := Select(vals, descending, dim);
            descending ==>
              forall j, k | 0 <= j < dim && 0 <= k < |vals| && k !in sel :: vals[sel[j]] >= vals[k]
    ensures var sel := Select(vals, descending, dim);
            !descending ==>
              forall j, k | 0 <= j < dim && 0 <= k < |vals| && k !in sel :: vals[sel[j]] <= vals[k]
  {
    PrefixRanksAhead(vals, RankOrder(vals, descending), descending, dim);
  }

  /** The first dim entries of a ranking order are distinct and still in order. */
  lemma PrefixKeepsOrder(vals: seq<real>, order: seq<nat>, descending: bool, dim: nat)
    requires IsPermutation(order, |vals|) && dim <= |vals|
    requires descending ==> Descending(vals, order)
    requires !descending ==> Ascending(vals, order)
    ensures InBounds(vals, order[..dim]) && Distinct(order[..dim])
    ensures descending ==> Descending(vals, order[..dim])
    ensures !descending ==> Ascending(vals, order[..dim])
  {
  }

  /** No index beyond the first dim of a ranking order ranks ahead of one inside it. */
  lemma PrefixRanksAhead(vals: seq<real>, order: seq<nat>, descending: bool, dim: nat)
    requires IsPermutation(order, |vals|) && dim <= |vals|
    requires descending ==> Descending(vals, order)
    requires !descending ==> Ascending(vals, order)
    ensures descending ==>
              forall j, k | 0 <= j < dim && 0 <= k < |vals| && k !in order[..dim] :: vals[order[j]] >= vals[k]
    ensures !descending ==>
              forall j, k | 0 <= j < dim && 0 <= k < |vals| && k !in order[..dim] :: vals[order[j]] <= vals[k]
  {
    forall j, k | 0 <= j < dim && 0 <= k < |vals| && k !in order[..dim]
      ensures descending ==> vals[order[j]] >= vals[k]
      ensures !descending ==> vals[order[j]] <= vals[k]
    {
      assert k in order;
      var m :| 0 <= m < |order| && order[m] == k;
    }
  }
}
