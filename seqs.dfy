/**
 * Generic sequence facts shared by the tag generator (duplicate removal and
 * the 13-tag cut), the grouping step and the run report (counts that add up).
 */
module Seqs {

  /** No element occurs twice. */
  predicate NoDup<T(==)>(xs: seq<T>) {
    forall i, j :: 0 <= i < j < |xs| ==> xs[i] != xs[j]
  }

  /**
   * Order-preserving duplicate removal, Python's `list(dict.fromkeys(xs))`:
   * the elements are inserted one after the other and an element already
   * present keeps its first position.
   */
  function Dedup<T(==)>(xs: seq<T>): (r: seq<T>)
    ensures NoDup(r)
    ensures forall i :: 0 <= i < |xs| ==> xs[i] in r
    ensures |r| <= |xs|
    decreases |xs|
  {
    if xs == [] then []
    else
      var d := Dedup(xs[..|xs| - 1]);
      var x := xs[|xs| - 1];
      assert xs == xs[..|xs| - 1] + [x];
      if x in d then d else d + [x]
  }

  /** `Dedup` keeps nothing that was not in its input. */
  lemma {:induction false} DedupFrom<T>(xs: seq<T>)
    ensures forall i :: 0 <= i < |Dedup(xs)| ==> Dedup(xs)[i] in xs
    decreases |xs|
  {
    if xs != [] {
      var init := xs[..|xs| - 1];
      DedupFrom(init);
      assert xs == init + [xs[|xs| - 1]];
    }
  }

  /** Inserting one more element: a new one goes to the end, a known one changes nothing. */
  lemma DedupSnoc<T>(xs: seq<T>, x: T)
    ensures Dedup(xs + [x]) == if x in Dedup(xs) then Dedup(xs) else Dedup(xs) + [x]
  {
    assert (xs + [x])[..|xs|] == xs;
  }

  /** Python's slice `xs[:n]`. */
  function Take<T>(xs: seq<T>, n: nat): (r: seq<T>)
    ensures |r| == if |xs| <= n then |xs| else n
    ensures r <= xs
  {
    if |xs| <= n then xs else xs[..n]
  }

  /** Python's slice `xs[lo:hi]` for non-negative bounds (clamped to the length). */
  function Slice<T>(xs: seq<T>, lo: nat, hi: nat): (r: seq<T>)
    ensures |r| == if hi <= lo || |xs| <= lo then 0 else (if hi <= |xs| then hi else |xs|) - lo
    ensures forall i :: 0 <= i < |r| ==> lo + i < |xs| && r[i] == xs[lo + i]
  {
    var top := if hi <= |xs| then hi else |xs|;
    if top <= lo then [] else xs[lo..top]
  }

  /** A sequence without duplicates is left as it is by `Dedup`. */
  lemma {:induction false} DedupOfNoDup<T>(xs: seq<T>)
    requires NoDup(xs)
    ensures Dedup(xs) == xs
    decreases |xs|
  {
    if xs != [] {
      var init := xs[..|xs| - 1];
      assert NoDup(init);
      DedupOfNoDup(init);
      assert xs[|xs| - 1] !in init;
      assert xs == init + [xs[|xs| - 1]];
    }
  }

  /** What `Dedup` keeps of a prefix stays, in the same order, at the front of the whole. */
  lemma {:induction false} DedupPrefix<T>(xs: seq<T>, ys: seq<T>)
    ensures |Dedup(xs)| <= |Dedup(xs + ys)|
    ensures Dedup(xs + ys)[..|Dedup(xs)|] == Dedup(xs)
    decreases |ys|
  {
    if ys == [] {
      assert xs + ys == xs;
    } else {
      var init := ys[..|ys| - 1];
      DedupPrefix(xs, init);
      assert (xs + ys)[..|xs + ys| - 1] == xs + init;
    }
  }

  /** Sum over `keys` of the number of times each key occurs in `xs`. */
  function SumCounts<T(==)>(keys: seq<T>, xs: seq<T>): nat
  {
    if keys == [] then 0 else multiset(xs)[keys[0]] + SumCounts(keys[1..], xs)
  }

  /** Adding a key at the end adds the number of times it occurs in `xs`. */
  lemma {:induction false} SumCountsKeySnoc<T>(keys: seq<T>, xs: seq<T>, k: T)
    ensures SumCounts(keys + [k], xs) == SumCounts(keys, xs) + multiset(xs)[k]
  {
    if keys != [] {
      assert (keys + [k])[1..] == keys[1..] + [k];
      SumCountsKeySnoc(keys[1..], xs, k);
    }
  }

  /** Counting the elements of `xs` that equal one of several distinct keys counts each element at most once. */
  lemma {:induction false} SumCountsAtMost<T>(keys: seq<T>, xs: seq<T>)
    requires NoDup(keys)
    ensures SumCounts(keys, xs) <= |xs|
    decreases |xs|
  {
    if xs == [] {
      SumCountsEmpty(keys);
    } else {
      var init := xs[..|xs| - 1];
      var x := xs[|xs| - 1];
      assert xs == init + [x];
      SumCountsAtMost(keys, init);
      SumCountsSnoc(keys, init, x);
      if x in keys {
        OccursOnce(keys, x);
      }
    }
  }

  /** Appending one element adds the number of times that element occurs among the keys. */
  lemma {:induction false} SumCountsSnoc<T>(keys: seq<T>, xs: seq<T>, x: T)
    ensures SumCounts(keys, xs + [x]) == SumCounts(keys, xs) + multiset(keys)[x]
  {
    if keys != [] {
      SumCountsSnoc(keys[1..], xs, x);
      assert keys == [keys[0]] + keys[1..];
    }
  }

  /** A key list without duplicates counts every member once. */
  lemma {:induction false} OccursOnce<T>(keys: seq<T>, x: T)
    requires NoDup(keys) && x in keys
    ensures multiset(keys)[x] == 1
  {
    assert keys == [keys[0]] + keys[1..];
    if keys[0] == x {
      assert x !in keys[1..];
    } else {
      assert NoDup(keys[1..]);
      OccursOnce(keys[1..], x);
    }
  }

  /** When the keys enumerate every element of `xs` exactly once, the counts add up to `|xs|`. */
  lemma {:induction false} SumCountsCovers<T>(keys: seq<T>, xs: seq<T>)
    requires NoDup(keys)
    requires forall i :: 0 <= i < |xs| ==> xs[i] in keys
    ensures SumCounts(keys, xs) == |xs|
    decreases |xs|
  {
    if xs == [] {
      SumCountsEmpty(keys);
    } else {
      var init := xs[..|xs| - 1];
      var x := xs[|xs| - 1];
      assert xs == init + [x];
      SumCountsCovers(keys, init);
      SumCountsSnoc(keys, init, x);
      OccursOnce(keys, x);
    }
  }

  lemma {:induction false} SumCountsEmpty<T>(keys: seq<T>)
    ensures SumCounts(keys, []) == 0
  {
    if keys != [] {
      SumCountsEmpty(keys[1..]);
    }
  }

  /**
   * Counting every distinct value once, in first-seen order, accounts for
   * every element: the per-value counts of a report add up to the total.
   */
  lemma CountsPartition<T>(xs: seq<T>)
    ensures SumCounts(Dedup(xs), xs) == |xs|
  {
    SumCountsCovers(Dedup(xs), xs);
  }
}
