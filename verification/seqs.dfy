/**
 * Sequence tools shared by the record pipeline: an order-preserving filter with
 * projection, concatenation of per-item results, removal of duplicates and a
 * stable insertion sort under a total preorder.
 */
module Seqs {
  import opened Wrappers

  // ---------------------------------------------------------------------------
  // Filter with projection
  // ---------------------------------------------------------------------------

  /** Keeps, in input order, the images of the elements that `f` maps to `Some`. */
  function FilterMap<A, B>(xs: seq<A>, f: A -> Option<B>): (r: seq<B>)
    ensures |r| <= |xs|
    ensures (forall x :: x in xs ==> f(x).Some?) ==> |r| == |xs|
    ensures (forall x :: x in xs ==> f(x).None?) ==> r == []
  {
    if |xs| == 0 then []
    else
      var rest := FilterMap(xs[1..], f);
      assert forall x :: x in xs[1..] ==> x in xs;
      match f(xs[0])
      case Some(y) => [y] + rest
      case None => rest
  }

  /** Positions that only grow. */
  ghost predicate Increasing(idx: seq<nat>) {
    forall k, l :: 0 <= k < l < |idx| ==> idx[k] < idx[l]
  }

  /** Each element of `r` is the image under `f` of the element of `xs` at the matching position. */
  ghost predicate ImagesAt<A, B>(xs: seq<A>, f: A -> Option<B>, r: seq<B>, idx: seq<nat>) {
    && |idx| == |r|
    && forall k :: 0 <= k < |idx| ==> idx[k] < |xs| && f(xs[idx[k]]) == Some(r[k])
  }

  /** Every position of `xs` that `f` accepts occurs in `idx`. */
  ghost predicate CoversAccepted<A, B>(xs: seq<A>, f: A -> Option<B>, idx: seq<nat>) {
    forall j :: 0 <= j < |xs| && f(xs[j]).Some? ==> j in idx
  }

  /**
   * `r` is `xs` filtered and projected by `f`, witnessed by the strictly
   * increasing positions `idx` in `xs` its elements come from: every kept
   * element is there, and every element `f` accepts is kept.
   */
  ghost predicate IsFilterMapping<A, B>(xs: seq<A>, f: A -> Option<B>, r: seq<B>, idx: seq<nat>) {
    Increasing(idx) && ImagesAt(xs, f, r, idx) && CoversAccepted(xs, f, idx)
  }

  function Shift(idx: seq<nat>): (r: seq<nat>)
    ensures |r| == |idx|
    ensures forall k :: 0 <= k < |idx| ==> r[k] == idx[k] + 1
  {
    seq(|idx|, k requires 0 <= k < |idx| => idx[k] + 1)
  }

  function Unshift(idx: seq<nat>): (r: seq<nat>)
    requires forall k :: 0 <= k < |idx| ==> idx[k] > 0
    ensures |r| == |idx|
    ensures forall k :: 0 <= k < |idx| ==> r[k] == idx[k] - 1
  {
    seq(|idx|, k requires 0 <= k < |idx| => idx[k] - 1)
  }

  /** A witness for the tail, moved one position right, is a witness for the whole minus its head. */
  lemma ShiftWitness<A, B>(xs: seq<A>, f: A -> Option<B>, r: seq<B>, idx: seq<nat>)
    requires |xs| > 0
    requires IsFilterMapping(xs[1..], f, r, idx)
    ensures Increasing(Shift(idx))
    ensures ImagesAt(xs, f, r, Shift(idx))
    ensures forall k :: 0 <= k < |Shift(idx)| ==> Shift(idx)[k] > 0
    ensures forall j :: 1 <= j < |xs| && f(xs[j]).Some? ==> j in Shift(idx)
  {
    var sh := Shift(idx);
    forall k | 0 <= k < |sh|
      ensures sh[k] < |xs| && f(xs[sh[k]]) == Some(r[k])
    {
      assert xs[sh[k]] == xs[1..][idx[k]];
    }
    forall j | 1 <= j < |xs| && f(xs[j]).Some?
      ensures j in sh
    {
      assert xs[1..][j - 1] == xs[j];
      assert j - 1 in idx;
      var k :| 0 <= k < |idx| && idx[k] == j - 1;
      assert sh[k] == j;
    }
  }

  /** Prepending an accepted head to a shifted witness gives a witness for the whole. */
  lemma ConsWitness<A, B>(xs: seq<A>, f: A -> Option<B>, y: B, rest: seq<B>, sh: seq<nat>)
    requires |xs| > 0 && f(xs[0]) == Some(y)
    requires Increasing(sh) && ImagesAt(xs, f, rest, sh)
    requires forall k :: 0 <= k < |sh| ==> sh[k] > 0
    requires forall j :: 1 <= j < |xs| && f(xs[j]).Some? ==> j in sh
    ensures IsFilterMapping(xs, f, [y] + rest, [0] + sh)
  {
    ConsIncreasing(sh);
    ConsImages(xs, f, y, rest, sh);
    ConsCovers(xs, f, sh);
  }

  lemma ConsIncreasing(sh: seq<nat>)
    requires Increasing(sh)
    requires forall k :: 0 <= k < |sh| ==> sh[k] > 0
    ensures Increasing([0] + sh)
  {
    var idx := [0] + sh;
    forall k, l | 0 <= k < l < |idx|
      ensures idx[k] < idx[l]
    {
      assert idx[l] == sh[l - 1];
      if k > 0 {
        assert idx[k] == sh[k - 1];
      }
    }
  }

  lemma ConsImages<A, B>(xs: seq<A>, f: A -> Option<B>, y: B, rest: seq<B>, sh: seq<nat>)
    requires |xs| > 0 && f(xs[0]) == Some(y)
    requires ImagesAt(xs, f, rest, sh)
    ensures ImagesAt(xs, f, [y] + rest, [0] + sh)
  {
    var idx := [0] + sh;
    var r := [y] + rest;
    forall k | 0 <= k < |idx|
      ensures idx[k] < |xs| && f(xs[idx[k]]) == Some(r[k])
    {
      if k > 0 {
        assert idx[k] == sh[k - 1] && r[k] == rest[k - 1];
      }
    }
  }

  lemma ConsCovers<A, B>(xs: seq<A>, f: A -> Option<B>, sh: seq<nat>)
    requires |xs| > 0
    requires forall j :: 1 <= j < |xs| && f(xs[j]).Some? ==> j in sh
    ensures CoversAccepted(xs, f, [0] + sh)
  {
    var idx := [0] + sh;
    forall j | 0 <= j < |xs| && f(xs[j]).Some?
      ensures j in idx
    {
      if j > 0 {
        assert j in sh;
        var k :| 0 <= k < |sh| && sh[k] == j;
        assert idx[k + 1] == j;
      } else {
        assert idx[0] == j;
      }
    }
  }

  /** One step of FilterMapSelects: a witness for the tail gives one for the whole. */
  lemma SelectsStep<A, B>(xs: seq<A>, f: A -> Option<B>, idx': seq<nat>)
    requires |xs| > 0
    requires IsFilterMapping(xs[1..], f, FilterMap(xs[1..], f), idx')
    ensures exists idx :: IsFilterMapping(xs, f, FilterMap(xs, f), idx)
  {
    var rest := FilterMap(xs[1..], f);
    ShiftWitness(xs, f, rest, idx');
    var sh := Shift(idx');
    if f(xs[0]).Some? {
      SelectsHead(xs, f, rest, sh);
      assert IsFilterMapping(xs, f, FilterMap(xs, f), [0] + sh);
    } else {
      SelectsSkip(xs, f, rest, sh);
      assert IsFilterMapping(xs, f, FilterMap(xs, f), sh);
    }
  }

  lemma SelectsHead<A, B>(xs: seq<A>, f: A -> Option<B>, rest: seq<B>, sh: seq<nat>)
    requires |xs| > 0 && f(xs[0]).Some? && rest == FilterMap(xs[1..], f)
    requires Increasing(sh) && ImagesAt(xs, f, rest, sh)
    requires forall k :: 0 <= k < |sh| ==> sh[k] > 0
    requires forall j :: 1 <= j < |xs| && f(xs[j]).Some? ==> j in sh
    ensures IsFilterMapping(xs, f, FilterMap(xs, f), [0] + sh)
  {
    assert FilterMap(xs, f) == [f(xs[0]).value] + rest;
    ConsWitness(xs, f, f(xs[0]).value, rest, sh);
  }

  lemma SelectsSkip<A, B>(xs: seq<A>, f: A -> Option<B>, rest: seq<B>, sh: seq<nat>)
    requires |xs| > 0 && f(xs[0]).None? && rest == FilterMap(xs[1..], f)
    requires Increasing(sh) && ImagesAt(xs, f, rest, sh)
    requires forall j :: 1 <= j < |xs| && f(xs[j]).Some? ==> j in sh
    ensures IsFilterMapping(xs, f, FilterMap(xs, f), sh)
  {
    assert FilterMap(xs, f) == rest;
    forall j | 0 <= j < |xs| && f(xs[j]).Some?
      ensures j in sh
    {
      assert j != 0;
    }
  }

  /** FilterMap keeps exactly the accepted elements, in their input order. */
  lemma {:induction false} FilterMapSelects<A, B>(xs: seq<A>, f: A -> Option<B>)
    ensures exists idx :: IsFilterMapping(xs, f, FilterMap(xs, f), idx)
  {
    if |xs| == 0 {
      var r := FilterMap(xs, f);
      assert Increasing([]) && ImagesAt(xs, f, r, []) && CoversAccepted(xs, f, []);
      assert IsFilterMapping(xs, f, r, []);
    } else {
      FilterMapSelects(xs[1..], f);
      var idx' :| IsFilterMapping(xs[1..], f, FilterMap(xs[1..], f), idx');
      SelectsStep(xs, f, idx');
    }
  }

  /** A witness for the whole that avoids position 0 gives, moved one left, a witness for the tail. */
  lemma UnshiftWitness<A, B>(xs: seq<A>, f: A -> Option<B>, r: seq<B>, idx: seq<nat>)
    requires |xs| > 0 && f(xs[0]).None?
    requires IsFilterMapping(xs, f, r, idx)
    ensures forall k :: 0 <= k < |idx| ==> idx[k] > 0
    ensures IsFilterMapping(xs[1..], f, r, Unshift(idx))
  {
    forall k | 0 <= k < |idx|
      ensures idx[k] > 0
    {
      assert f(xs[idx[k]]).Some?;
    }
    UnshiftImages(xs, f, r, idx);
    UnshiftCovers(xs, f, idx);
  }

  lemma UnshiftImages<A, B>(xs: seq<A>, f: A -> Option<B>, r: seq<B>, idx: seq<nat>)
    requires |xs| > 0
    requires forall k :: 0 <= k < |idx| ==> idx[k] > 0
    requires ImagesAt(xs, f, r, idx)
    ensures ImagesAt(xs[1..], f, r, Unshift(idx))
  {
    var tail := Unshift(idx);
    forall k | 0 <= k < |tail|
      ensures tail[k] < |xs[1..]| && f(xs[1..][tail[k]]) == Some(r[k])
    {
      assert xs[1..][tail[k]] == xs[idx[k]];
    }
  }

  lemma UnshiftCovers<A, B>(xs: seq<A>, f: A -> Option<B>, idx: seq<nat>)
    requires |xs| > 0
    requires forall k :: 0 <= k < |idx| ==> idx[k] > 0
    requires CoversAccepted(xs, f, idx)
    ensures CoversAccepted(xs[1..], f, Unshift(idx))
  {
    var tail := Unshift(idx);
    forall j | 0 <= j < |xs[1..]| && f(xs[1..][j]).Some?
      ensures j in tail
    {
      assert xs[1..][j] == xs[j + 1];
      assert j + 1 in idx;
      var k :| 0 <= k < |idx| && idx[k] == j + 1;
      assert tail[k] == j;
    }
  }

  /** A witness whose first position is 0 gives, without it and moved one left, a witness for the tails. */
  lemma DropHeadWitness<A, B>(xs: seq<A>, f: A -> Option<B>, r: seq<B>, idx: seq<nat>)
    requires |xs| > 0 && |idx| > 0 && idx[0] == 0
    requires IsFilterMapping(xs, f, r, idx)
    ensures forall k :: 0 <= k < |idx[1..]| ==> idx[1..][k] > 0
    ensures IsFilterMapping(xs[1..], f, r[1..], Unshift(idx[1..]))
  {
    var rest := idx[1..];
    forall k | 0 <= k < |rest|
      ensures rest[k] > 0
    {
      assert idx[0] < idx[k + 1];
    }
    var tail := Unshift(rest);
    forall k | 0 <= k < |tail|
      ensures tail[k] < |xs[1..]| && f(xs[1..][tail[k]]) == Some(r[1..][k])
    {
      assert xs[1..][tail[k]] == xs[idx[k + 1]];
    }
    forall j | 0 <= j < |xs[1..]| && f(xs[1..][j]).Some?
      ensures j in tail
    {
      assert xs[1..][j] == xs[j + 1];
      assert j + 1 in idx;
      var k :| 0 <= k < |idx| && idx[k] == j + 1;
      assert k > 0;
      assert tail[k - 1] == j;
    }
    assert Increasing(tail) by {
      forall k, l | 0 <= k < l < |tail|
        ensures tail[k] < tail[l]
      {
        assert idx[k + 1] < idx[l + 1];
      }
    }
  }

  lemma {:induction false} IncreasingFromZero(idx: seq<nat>, k: nat)
    requires Increasing(idx)
    requires k < |idx|
    ensures idx[k] >= k
  {
    if k > 0 {
      IncreasingFromZero(idx, k - 1);
    }
  }

  /** A witness never has more positions than `xs` has elements. */
  lemma WitnessLength<A, B>(xs: seq<A>, f: A -> Option<B>, r: seq<B>, idx: seq<nat>)
    requires IsFilterMapping(xs, f, r, idx)
    ensures |idx| <= |xs|
  {
    if |idx| > 0 {
      IncreasingFromZero(idx, |idx| - 1);
    }
  }

  /** Conversely, any filtering of `xs` by `f` with a position witness is FilterMap's result. */
  lemma {:induction false} FilterMappingUnique<A, B>(xs: seq<A>, f: A -> Option<B>, r: seq<B>, idx: seq<nat>)
    requires IsFilterMapping(xs, f, r, idx)
    ensures r == FilterMap(xs, f)
    decreases |xs|
  {
    if |xs| == 0 {
      WitnessLength(xs, f, r, idx);
    } else {
      match f(xs[0])
      case Some(y) =>
        assert 0 in idx;
        var k0 :| 0 <= k0 < |idx| && idx[k0] == 0;
        assert idx[0] <= idx[k0];
        DropHeadWitness(xs, f, r, idx);
        FilterMappingUnique(xs[1..], f, r[1..], Unshift(idx[1..]));
        assert r == [r[0]] + r[1..];
      case None =>
        UnshiftWitness(xs, f, r, idx);
        FilterMappingUnique(xs[1..], f, r, Unshift(idx));
    }
  }

  /** Whatever holds of every image `f` gives on `xs` holds of every element FilterMap keeps. */
  lemma {:induction false} FilterMapKeeps<A, B>(xs: seq<A>, f: A -> Option<B>, P: B -> bool)
    requires forall i :: 0 <= i < |xs| && f(xs[i]).Some? ==> P(f(xs[i]).value)
    ensures forall y :: y in FilterMap(xs, f) ==> P(y)
    decreases |xs|
  {
    if |xs| > 0 {
      FilterMapKeeps(xs[1..], f, P);
      assert forall i :: 0 <= i < |xs[1..]| ==> xs[1..][i] == xs[i + 1];
    }
  }

  /** Filtering distributes over concatenation: each element is judged on its own. */
  lemma {:induction false} FilterMapAppend<A, B>(a: seq<A>, b: seq<A>, f: A -> Option<B>)
    ensures FilterMap(a + b, f) == FilterMap(a, f) + FilterMap(b, f)
    decreases |a|
  {
    if |a| == 0 {
      assert a + b == b;
    } else {
      assert (a + b)[1..] == a[1..] + b;
      FilterMapAppend(a[1..], b, f);
    }
  }

  /** A rejected element splits FilterMap's result into the results of the parts around it. */
  lemma FilterMapSkipsRejected<A, B>(before: seq<A>, x: A, after: seq<A>, f: A -> Option<B>)
    requires f(x).None?
    ensures FilterMap(before + [x] + after, f) == FilterMap(before, f) + FilterMap(after, f)
  {
    FilterMapAppend(before + [x], after, f);
    FilterMapAppend(before, [x], f);
    assert [x][1..] == [];
    assert FilterMap([x], f) == [];
    assert FilterMap(before, f) + [] == FilterMap(before, f);
  }

  // ---------------------------------------------------------------------------
  // Concatenation of per-item results
  // ---------------------------------------------------------------------------

  /** The results of `f` on each element of `xs`, concatenated in order. */
  function FlatMap<A, B>(xs: seq<A>, f: A -> seq<B>): (r: seq<B>)
    ensures (forall x :: x in xs ==> f(x) == []) ==> r == []
  {
    if |xs| == 0 then []
    else
      assert forall x :: x in xs[1..] ==> x in xs;
      f(xs[0]) + FlatMap(xs[1..], f)
  }

  /** Whatever holds of every element of every `f(x)` holds of every element of FlatMap's result. */
  lemma {:induction false} FlatMapKeeps<A, B>(xs: seq<A>, f: A -> seq<B>, P: B -> bool)
    requires forall i, y :: 0 <= i < |xs| && y in f(xs[i]) ==> P(y)
    ensures forall y :: y in FlatMap(xs, f) ==> P(y)
    decreases |xs|
  {
    if |xs| > 0 {
      assert forall i :: 0 <= i < |xs[1..]| ==> xs[1..][i] == xs[i + 1];
      FlatMapKeeps(xs[1..], f, P);
    }
  }

  /** An element of FlatMap's result comes from `f` of some element, and every such element is in the result. */
  lemma {:induction false} FlatMapMembers<A, B>(xs: seq<A>, f: A -> seq<B>, y: B)
    ensures y in FlatMap(xs, f) <==> exists i :: 0 <= i < |xs| && y in f(xs[i])
    decreases |xs|
  {
    if |xs| > 0 {
      FlatMapMembers(xs[1..], f, y);
      if y in FlatMap(xs[1..], f) {
        var i :| 0 <= i < |xs[1..]| && y in f(xs[1..][i]);
        assert xs[1..][i] == xs[i + 1];
      }
      if exists i :: 0 <= i < |xs| && y in f(xs[i]) {
        var i :| 0 <= i < |xs| && y in f(xs[i]);
        if i > 0 {
          assert xs[1..][i - 1] == xs[i];
        }
      }
    }
  }

  lemma {:induction false} FlatMapAppend<A, B>(a: seq<A>, b: seq<A>, f: A -> seq<B>)
    ensures FlatMap(a + b, f) == FlatMap(a, f) + FlatMap(b, f)
    decreases |a|
  {
    if |a| == 0 {
      assert a + b == b;
    } else {
      assert (a + b)[1..] == a[1..] + b;
      FlatMapAppend(a[1..], b, f);
    }
  }

  /** An element that `f` maps to nothing can be removed without changing FlatMap's result. */
  lemma FlatMapSkipsEmpty<A, B>(before: seq<A>, x: A, after: seq<A>, f: A -> seq<B>)
    requires f(x) == []
    ensures FlatMap(before + [x] + after, f) == FlatMap(before + after, f)
  {
    FlatMapAppend(before + [x], after, f);
    FlatMapAppend(before, [x], f);
    FlatMapAppend(before, after, f);
    assert [x][1..] == [];
    assert FlatMap([x], f) == [];
    assert FlatMap(before, f) + [] == FlatMap(before, f);
  }

  // ---------------------------------------------------------------------------
  // Distinct elements
  // ---------------------------------------------------------------------------

  predicate NoDuplicates<T(==)>(xs: seq<T>) {
    forall i, j :: 0 <= i < j < |xs| ==> xs[i] != xs[j]
  }

  /** Each element of `xs` once, in order of first occurrence. */
  function Distinct<T(==)>(xs: seq<T>): (r: seq<T>)
    ensures NoDuplicates(r)
    ensures forall i :: 0 <= i < |r| ==> r[i] in xs
    ensures forall i :: 0 <= i < |xs| ==> xs[i] in r
  {
    if |xs| == 0 then []
    else
      var init := xs[..|xs| - 1];
      var last := xs[|xs| - 1];
      var rest := Distinct(init);
      assert xs == init + [last];
      if last in rest then rest else rest + [last]
  }

  /** Without duplicates, every element occurs at most once. */
  lemma {:induction false} NoDuplicatesCountsOne<T>(xs: seq<T>, x: T)
    requires NoDuplicates(xs)
    ensures multiset(xs)[x] <= 1
    decreases |xs|
  {
    if |xs| > 0 {
      assert xs == [xs[0]] + xs[1..];
      assert NoDuplicates(xs[1..]) by {
        forall i, j | 0 <= i < j < |xs[1..]|
          ensures xs[1..][i] != xs[1..][j]
        {
          assert xs[1..][i] == xs[i + 1] && xs[1..][j] == xs[j + 1];
        }
      }
      NoDuplicatesCountsOne(xs[1..], x);
      if x == xs[0] {
        assert x !in xs[1..] by {
          forall k | 0 <= k < |xs[1..]|
            ensures xs[1..][k] != x
          {
            assert xs[1..][k] == xs[k + 1];
          }
        }
      }
    }
  }

  /** An element at two positions occurs at least twice. */
  lemma TwiceCountsTwo<T>(xs: seq<T>, i: nat, j: nat)
    requires i < j < |xs| && xs[i] == xs[j]
    ensures multiset(xs)[xs[i]] >= 2
  {
    assert xs == xs[..j] + xs[j..];
    assert xs[..j] == xs[..i] + xs[i..j];
    assert xs[i..j][0] == xs[i];
    assert xs[j..][0] == xs[j];
    assert multiset(xs) == multiset(xs[..i]) + multiset(xs[i..j]) + multiset(xs[j..]);
  }

  /** Reordering cannot create duplicates. */
  lemma PermutationKeepsNoDuplicates<T>(a: seq<T>, b: seq<T>)
    requires NoDuplicates(a)
    requires multiset(a) == multiset(b)
    ensures NoDuplicates(b)
  {
    forall i, j | 0 <= i < j < |b|
      ensures b[i] != b[j]
    {
      NoDuplicatesCountsOne(a, b[i]);
      if b[i] == b[j] {
        TwiceCountsTwo(b, i, j);
      }
    }
  }

  /** Reordering keeps the same members. */
  lemma SameMembers<T>(a: seq<T>, b: seq<T>)
    requires multiset(a) == multiset(b)
    ensures forall x :: x in a <==> x in b
  {
    forall x
      ensures x in a <==> x in b
    {
      assert x in a <==> x in multiset(a);
      assert x in b <==> x in multiset(b);
    }
  }

  // ---------------------------------------------------------------------------
  // Stable insertion sort
  // ---------------------------------------------------------------------------

  ghost predicate TotalPreorder<T(!new)>(le: (T, T) -> bool) {
    && (forall a, b :: le(a, b) || le(b, a))
    && (forall a, b, c :: le(a, b) && le(b, c) ==> le(a, c))
  }

  ghost predicate SortedBy<T>(xs: seq<T>, le: (T, T) -> bool) {
    forall i, j :: 0 <= i < j < |xs| ==> le(xs[i], xs[j])
  }

  /** Inserts `x` before the first element it is not above, so after any equal ones it meets later. */
  function InsertBy<T>(x: T, s: seq<T>, le: (T, T) -> bool): (r: seq<T>)
    ensures multiset(r) == multiset(s) + multiset{x}
    ensures |r| == |s| + 1
  {
    if |s| == 0 then [x]
    else if le(x, s[0]) then [x] + s
    else
      assert s == [s[0]] + s[1..];
      [s[0]] + InsertBy(x, s[1..], le)
  }

  /** Insertion sort; earlier elements go in front of equivalent later ones. */
  function SortBy<T>(xs: seq<T>, le: (T, T) -> bool): (r: seq<T>)
    ensures multiset(r) == multiset(xs)
    ensures |r| == |xs|
  {
    if |xs| == 0 then []
    else
      assert xs == [xs[0]] + xs[1..];
      InsertBy(xs[0], SortBy(xs[1..], le), le)
  }

  lemma {:induction false} InsertBySorted<T(!new)>(x: T, s: seq<T>, le: (T, T) -> bool)
    requires TotalPreorder(le)
    requires SortedBy(s, le)
    ensures SortedBy(InsertBy(x, s, le), le)
    decreases |s|
  {
    if |s| > 0 && !le(x, s[0]) {
      InsertBySorted(x, s[1..], le);
      var r := InsertBy(x, s, le);
      var t := InsertBy(x, s[1..], le);
      assert r == [s[0]] + t;
      forall j | 1 <= j < |r|
        ensures le(s[0], r[j])
      {
        assert r[j] in multiset(t);
        assert r[j] in multiset(s[1..]) + multiset{x};
        if r[j] != x {
          assert r[j] in s[1..];
          var i :| 0 <= i < |s[1..]| && s[1..][i] == r[j];
          assert s[i + 1] == r[j];
        }
      }
    }
  }

  /** SortBy orders its input under any total preorder. */
  lemma {:induction false} SortBySorted<T(!new)>(xs: seq<T>, le: (T, T) -> bool)
    requires TotalPreorder(le)
    ensures SortedBy(SortBy(xs, le), le)
    decreases |xs|
  {
    if |xs| > 0 {
      SortBySorted(xs[1..], le);
      InsertBySorted(xs[0], SortBy(xs[1..], le), le);
    }
  }

  function Filter<T>(xs: seq<T>, p: T -> bool): (r: seq<T>)
    ensures forall x :: x in r ==> x in xs && p(x)
  {
    if |xs| == 0 then []
    else
      assert forall x :: x in xs[1..] ==> x in xs;
      (if p(xs[0]) then [xs[0]] else []) + Filter(xs[1..], p)
  }

  /** The elements equivalent to `e` under `le`. */
  function EquivalentTo<T>(le: (T, T) -> bool, e: T): T -> bool {
    y => le(y, e) && le(e, y)
  }

  lemma FilterCons<T>(x: T, s: seq<T>, p: T -> bool)
    ensures Filter([x] + s, p) == (if p(x) then [x] else []) + Filter(s, p)
  {
    assert ([x] + s)[1..] == s;
  }

  /** An element strictly above a member of an equivalence class is not in it. */
  lemma AboveLeavesClass<T(!new)>(x: T, y: T, le: (T, T) -> bool, e: T)
    requires TotalPreorder(le)
    requires EquivalentTo(le, e)(x) && !le(x, y)
    ensures !EquivalentTo(le, e)(y)
  {
  }

  lemma {:induction false} InsertByStable<T(!new)>(x: T, s: seq<T>, le: (T, T) -> bool, e: T)
    requires TotalPreorder(le)
    ensures Filter(InsertBy(x, s, le), EquivalentTo(le, e))
         == (if EquivalentTo(le, e)(x) then [x] else []) + Filter(s, EquivalentTo(le, e))
    decreases |s|
  {
    var p := EquivalentTo(le, e);
    if |s| == 0 {
      FilterCons(x, [], p);
      assert [x] + [] == [x];
    } else if le(x, s[0]) {
      FilterCons(x, s, p);
    } else {
      var t := InsertBy(x, s[1..], le);
      assert InsertBy(x, s, le) == [s[0]] + t;
      InsertByStable(x, s[1..], le, e);
      if p(x) {
        AboveLeavesClass(x, s[0], le, e);
      }
      StableStep(x, s[0], s[1..], t, p);
      assert s == [s[0]] + s[1..];
    }
  }

  /** Passing an element of another class does not change the class's order. */
  lemma StableStep<T>(x: T, head: T, rest: seq<T>, t: seq<T>, p: T -> bool)
    requires Filter(t, p) == (if p(x) then [x] else []) + Filter(rest, p)
    requires p(x) ==> !p(head)
    ensures Filter([head] + t, p) == (if p(x) then [x] else []) + Filter([head] + rest, p)
  {
    FilterCons(head, t, p);
    FilterCons(head, rest, p);
    if p(x) {
      assert Filter([head] + t, p) == Filter(t, p);
      assert Filter([head] + rest, p) == Filter(rest, p);
    } else {
      var h := if p(head) then [head] else [];
      assert Filter(t, p) == Filter(rest, p);
      assert Filter([head] + t, p) == h + Filter(rest, p) == Filter([head] + rest, p);
    }
  }

  /**
   * Stability: the elements equivalent to any `e` keep their input order, so
   * the sort only moves elements past elements of a different rank.
   */
  lemma {:induction false} SortByStable<T(!new)>(xs: seq<T>, le: (T, T) -> bool, e: T)
    requires TotalPreorder(le)
    ensures Filter(SortBy(xs, le), EquivalentTo(le, e)) == Filter(xs, EquivalentTo(le, e))
    decreases |xs|
  {
    if |xs| > 0 {
      SortByStable(xs[1..], le, e);
      InsertByStable(xs[0], SortBy(xs[1..], le), le, e);
    }
  }
}
