/**
 * The grouping step of the run: every scanned file goes into the list of
 * its product key (a dictionary filled with `setdefault(key, []).append`),
 * and each list is then sorted in path order.
 *
 * The dictionary is modelled as a map together with the order in which its
 * keys were first inserted, which is the order Python iterates it in.
 */
module Grouping {
  import opened Seqs
  import opened Identity

  /** The key of every file, in scan order. */
  function KeyList(files: seq<SourcePath>, key: SourcePath -> string): (ks: seq<string>)
    ensures |ks| == |files|
    ensures forall i :: 0 <= i < |files| ==> ks[i] == key(files[i])
  {
    seq(|files|, i requires 0 <= i < |files| => key(files[i]))
  }

  /** The files whose key is `k`, in scan order: the list the dictionary holds under `k`. */
  function Members(files: seq<SourcePath>, key: SourcePath -> string, k: string): seq<SourcePath>
    decreases |files|
  {
    if files == [] then []
    else
      var init := files[..|files| - 1];
      var last := files[|files| - 1];
      Members(init, key, k) + (if key(last) == k then [last] else [])
  }

  /** A group holds as many files as there are files with its key, and only such files. */
  lemma {:induction false} MembersShape(files: seq<SourcePath>, key: SourcePath -> string, k: string)
    ensures |Members(files, key, k)| == multiset(KeyList(files, key))[k]
    ensures forall j :: 0 <= j < |Members(files, key, k)| ==> key(Members(files, key, k)[j]) == k && Members(files, key, k)[j] in files
    decreases |files|
  {
    if files != [] {
      var init := files[..|files| - 1];
      var last := files[|files| - 1];
      MembersShape(init, key, k);
      assert files == init + [last];
      KeyListSnoc(init, key, last);
    }
  }

  /** Sum of the sizes of the groups named in `keys`. */
  function TotalSize(groups: map<string, seq<SourcePath>>, keys: seq<string>): nat
    requires forall j :: 0 <= j < |keys| ==> keys[j] in groups
  {
    if keys == [] then 0 else |groups[keys[0]]| + TotalSize(groups, keys[1..])
  }

  /** The dictionary a pass over `files` builds: every key seen, in first-seen order, with its files. */
  ghost predicate Grouped(files: seq<SourcePath>, key: SourcePath -> string, groups: map<string, seq<SourcePath>>, order: seq<string>) {
    && order == Dedup(KeyList(files, key))
    && (forall k :: k in groups <==> k in order)
    && (forall k :: k in groups ==> groups[k] == Members(files, key, k))
  }

  /**
   * Lines 249-253: one pass over the scanned files. `groups` maps each key
   * to its files in scan order, `order` lists the keys in first-seen order,
   * `total` counts the files, and the group sizes add up to that count.
   */
  method CollectGroups(files: seq<SourcePath>, key: SourcePath -> string)
    returns (groups: map<string, seq<SourcePath>>, order: seq<string>, total: nat)
    ensures total == |files|
    ensures order == Dedup(KeyList(files, key))
    ensures forall k :: k in groups <==> k in order
    ensures forall k :: k in groups ==> groups[k] == Members(files, key, k)
    ensures TotalSize(groups, order) == total
  {
    groups, order, total := map[], [], 0;
    var i := 0;
    while i < |files|
      invariant 0 <= i <= |files| && total == i
      invariant Grouped(files[..i], key, groups, order)
    {
      var p := files[i];
      var k := key(p);
      if k in groups {
        GroupStepKnown(files, key, i, groups, order);
        groups := groups[k := groups[k] + [p]];
      } else {
        GroupStepNew(files, key, i, groups, order);
        groups := groups[k := [p]];
        order := order + [k];
      }
      total := total + 1;
      i := i + 1;
    }
    assert files[..i] == files;
    GroupSizes(files, key, groups, order);
  }

  /** One `setdefault(key, []).append(p)` keeps the dictionary in step with the files seen. */
  lemma GroupStepKnown(files: seq<SourcePath>, key: SourcePath -> string, i: nat, groups: map<string, seq<SourcePath>>, order: seq<string>)
    requires i < |files| && Grouped(files[..i], key, groups, order) && key(files[i]) in groups
    ensures Grouped(files[..i + 1], key, groups[key(files[i]) := groups[key(files[i])] + [files[i]]], order)
  {
    var before, p := files[..i], files[i];
    var seen := files[..i + 1];
    assert seen == before + [p];
    var k := key(p);
    KeyListSnoc(before, key, p);
    DedupSnoc(KeyList(before, key), k);
    var g := groups[k := groups[k] + [p]];
    assert order == Dedup(KeyList(seen, key));
    forall j | j in g ensures g[j] == Members(seen, key, j) {
      MembersSnoc(before, key, p, j);
    }
  }

  lemma GroupStepNew(files: seq<SourcePath>, key: SourcePath -> string, i: nat, groups: map<string, seq<SourcePath>>, order: seq<string>)
    requires i < |files| && Grouped(files[..i], key, groups, order) && key(files[i]) !in groups
    ensures Grouped(files[..i + 1], key, groups[key(files[i]) := [files[i]]], order + [key(files[i])])
  {
    var before, p := files[..i], files[i];
    assert files[..i + 1] == before + [p];
    var k := key(p);
    assert order + [k] == Dedup(KeyList(before + [p], key)) by {
      KeyListSnoc(before, key, p);
      DedupSnoc(KeyList(before, key), k);
    }
    forall j | 0 <= j < |before| ensures key(before[j]) in groups {
      assert KeyList(before, key)[j] == key(before[j]);
    }
    NewGroupMembers(before, key, groups, p);
  }

  lemma NewGroupMembers(before: seq<SourcePath>, key: SourcePath -> string, groups: map<string, seq<SourcePath>>, p: SourcePath)
    requires forall k :: k in groups ==> groups[k] == Members(before, key, k)
    requires forall i :: 0 <= i < |before| ==> key(before[i]) in groups
    requires key(p) !in groups
    ensures forall j :: j in groups[key(p) := [p]] ==> groups[key(p) := [p]][j] == Members(before + [p], key, j)
  {
    var k := key(p);
    var g := groups[k := [p]];
    forall j | j in g ensures g[j] == Members(before + [p], key, j) {
      MembersSnoc(before, key, p, j);
      if j == k {
        MembersOfUnseen(before, key, k);
      }
    }
  }

  /** No file has the key: its group would be empty. */
  lemma {:induction false} MembersOfUnseen(files: seq<SourcePath>, key: SourcePath -> string, k: string)
    requires k !in KeyList(files, key)
    ensures Members(files, key, k) == []
    decreases |files|
  {
    if files != [] {
      var init := files[..|files| - 1];
      assert KeyList(init, key) == KeyList(files, key)[..|init|];
      MembersOfUnseen(init, key, k);
      assert key(files[|files| - 1]) == KeyList(files, key)[|init|];
    }
  }

  lemma KeyListSnoc(before: seq<SourcePath>, key: SourcePath -> string, p: SourcePath)
    ensures KeyList(before + [p], key) == KeyList(before, key) + [key(p)]
  {
  }

  lemma MembersSnoc(before: seq<SourcePath>, key: SourcePath -> string, p: SourcePath, k: string)
    ensures Members(before + [p], key, k) == Members(before, key, k) + (if key(p) == k then [p] else [])
  {
    var files := before + [p];
    assert files[..|files| - 1] == before;
  }

  lemma GroupSizes(files: seq<SourcePath>, key: SourcePath -> string, groups: map<string, seq<SourcePath>>, order: seq<string>)
    requires Grouped(files, key, groups, order)
    ensures TotalSize(groups, order) == |files|
  {
    SizesAreCounts(groups, order, files, key);
    CountsPartition(KeyList(files, key));
  }

  lemma {:induction false} SizesAreCounts(groups: map<string, seq<SourcePath>>, keys: seq<string>, files: seq<SourcePath>, key: SourcePath -> string)
    requires forall j :: 0 <= j < |keys| ==> keys[j] in groups
    requires forall k :: k in groups ==> groups[k] == Members(files, key, k)
    ensures TotalSize(groups, keys) == SumCounts(keys, KeyList(files, key))
  {
    if keys != [] {
      MembersShape(files, key, keys[0]);
      SizesAreCounts(groups, keys[1..], files, key);
    }
  }

  /** A key that some file has names a non-empty group. */
  lemma GroupNotEmpty(files: seq<SourcePath>, key: SourcePath -> string, k: string)
    requires k in KeyList(files, key)
    ensures |Members(files, key, k)| > 0
  {
    MembersShape(files, key, k);
  }

  /**
   * Every scanned file belongs to the group of its own key and to no other
   * group.
   */
  lemma {:induction false} FileInOwnGroup(files: seq<SourcePath>, key: SourcePath -> string, i: nat, k: string)
    requires i < |files|
    ensures files[i] in Members(files, key, key(files[i]))
    ensures files[i] in Members(files, key, k) ==> k == key(files[i])
    decreases |files|
  {
    var init := files[..|files| - 1];
    if i < |files| - 1 {
      assert init[i] == files[i];
      FileInOwnGroup(init, key, i, k);
    }
    if files[i] in Members(files, key, k) {
      MembersShape(files, key, k);
      var j :| 0 <= j < |Members(files, key, k)| && Members(files, key, k)[j] == files[i];
    }
  }

  // ----- Path order -----

  /** Python's `<` on strings: lexicographic by code point. */
  predicate StrLt(s: string, t: string)
    decreases |s|
  {
    if s == [] then t != []
    else if t == [] then false
    else if s[0] == t[0] then StrLt(s[1..], t[1..])
    else s[0] < t[0]
  }

  lemma {:induction false} StrLtIrreflexive(s: string)
    ensures !StrLt(s, s)
    decreases |s|
  {
    if s != [] {
      StrLtIrreflexive(s[1..]);
    }
  }

  lemma {:induction false} StrLtTrans(s: string, t: string, u: string)
    requires StrLt(s, t) && StrLt(t, u)
    ensures StrLt(s, u)
    decreases |s|
  {
    if s != [] && s[0] == t[0] && t[0] == u[0] {
      StrLtTrans(s[1..], t[1..], u[1..]);
    }
  }

  lemma {:induction false} StrLtTotal(s: string, t: string)
    requires s != t
    ensures StrLt(s, t) || StrLt(t, s)
    decreases |s|
  {
    if s != [] && t != [] && s[0] == t[0] {
      assert s == [s[0]] + s[1..] && t == [t[0]] + t[1..];
      StrLtTotal(s[1..], t[1..]);
    }
  }

  lemma StrLtAsym(s: string, t: string)
    requires StrLt(s, t)
    ensures !StrLt(t, s)
  {
    if StrLt(t, s) {
      StrLtTrans(s, t, s);
      StrLtIrreflexive(s);
    }
  }

  /**
   * Lexicographic order of component lists, each component compared as a
   * string: the order `sort()` puts paths in.
   */
  predicate SegsLe(a: seq<string>, b: seq<string>)
    decreases |a|
  {
    if a == [] then true
    else if b == [] then false
    else if a[0] == b[0] then SegsLe(a[1..], b[1..])
    else StrLt(a[0], b[0])
  }

  predicate PathLe(p: SourcePath, q: SourcePath) {
    SegsLe(p.segments, q.segments)
  }

  lemma {:induction false} SegsLeTotal(a: seq<string>, b: seq<string>)
    ensures SegsLe(a, b) || SegsLe(b, a)
    decreases |a|
  {
    if a != [] && b != [] {
      if a[0] == b[0] {
        SegsLeTotal(a[1..], b[1..]);
      } else {
        StrLtTotal(a[0], b[0]);
      }
    }
  }

  lemma {:induction false} SegsLeTrans(a: seq<string>, b: seq<string>, c: seq<string>)
    requires SegsLe(a, b) && SegsLe(b, c)
    ensures SegsLe(a, c)
    decreases |a|
  {
    if a != [] {
      if a[0] == b[0] && b[0] == c[0] {
        SegsLeTrans(a[1..], b[1..], c[1..]);
      } else if a[0] != b[0] && b[0] != c[0] {
        StrLtTrans(a[0], b[0], c[0]);
        if a[0] == c[0] { StrLtIrreflexive(a[0]); }
      } else if a[0] == b[0] {
      } else {
      }
    }
  }

  lemma {:induction false} SegsLeAntisym(a: seq<string>, b: seq<string>)
    requires SegsLe(a, b) && SegsLe(b, a)
    ensures a == b
    decreases |a|
  {
    if a != [] {
      if a[0] == b[0] {
        SegsLeAntisym(a[1..], b[1..]);
        assert a == [a[0]] + a[1..] && b == [b[0]] + b[1..];
      } else {
        StrLtAsym(a[0], b[0]);
      }
    }
  }

  /** In path order. */
  predicate Sorted(xs: seq<SourcePath>) {
    forall i, j :: 0 <= i < j < |xs| ==> PathLe(xs[i], xs[j])
  }

  /** Places `x` in a sorted list after every element that is not above it. */
  function Insert(x: SourcePath, xs: seq<SourcePath>): (r: seq<SourcePath>)
    requires Sorted(xs)
    ensures Sorted(r)
    ensures multiset(r) == multiset(xs) + multiset{x}
  {
    if xs == [] then [x]
    else if PathLe(x, xs[0]) then
      InsertFront(x, xs);
      [x] + xs
    else
      SegsLeTotal(x.segments, xs[0].segments);
      var r := [xs[0]] + Insert(x, xs[1..]);
      assert xs == [xs[0]] + xs[1..];
      InsertBehind(xs[0], Insert(x, xs[1..]), xs[1..], x);
      r
  }

  lemma InsertFront(x: SourcePath, xs: seq<SourcePath>)
    requires Sorted(xs) && xs != [] && PathLe(x, xs[0])
    ensures Sorted([x] + xs)
  {
    forall j | 0 < j < |xs| ensures PathLe(x, xs[j]) {
      SegsLeTrans(x.segments, xs[0].segments, xs[j].segments);
    }
  }

  lemma InsertBehind(h: SourcePath, rest: seq<SourcePath>, old_: seq<SourcePath>, x: SourcePath)
    requires Sorted(rest)
    requires multiset(rest) == multiset(old_) + multiset{x}
    requires forall j :: 0 <= j < |old_| ==> PathLe(h, old_[j])
    requires PathLe(h, x)
    ensures Sorted([h] + rest)
  {
    forall j | 0 <= j < |rest| ensures PathLe(h, rest[j]) {
      assert rest[j] in multiset(rest);
      if rest[j] != x {
        assert rest[j] in multiset(old_);
        var k :| 0 <= k < |old_| && old_[k] == rest[j];
      }
    }
  }

  /** A list in path order with the same elements: what sorting it must give. */
  function SortSeq(xs: seq<SourcePath>): (r: seq<SourcePath>)
    ensures Sorted(r)
    ensures multiset(r) == multiset(xs)
  {
    if xs == [] then []
    else
      assert xs == xs[..|xs| - 1] + [xs[|xs| - 1]];
      Insert(xs[|xs| - 1], SortSeq(xs[..|xs| - 1]))
  }

  /** Lines 257-259 for one list: `files.sort()`. */
  method SortPaths(xs: seq<SourcePath>) returns (ys: seq<SourcePath>)
    ensures Sorted(ys)
    ensures multiset(ys) == multiset(xs)
  {
    ys := [];
    var i := 0;
    while i < |xs|
      invariant 0 <= i <= |xs|
      invariant Sorted(ys)
      invariant multiset(ys) == multiset(xs[..i])
    {
      assert xs[..i + 1] == xs[..i] + [xs[i]];
      ys := Insert(xs[i], ys);
      i := i + 1;
    }
    assert xs[..i] == xs;
  }

  /**
   * There is one sorted arrangement of a collection of paths: whatever
   * algorithm sorts a group, the result is the same list.
   */
  lemma {:induction false} SortedUnique(a: seq<SourcePath>, b: seq<SourcePath>)
    requires Sorted(a) && Sorted(b) && multiset(a) == multiset(b)
    ensures a == b
    decreases |a|
  {
    if a != [] || b != [] {
      assert a != [] && b != [] by {
        assert |multiset(a)| == |a| && |multiset(b)| == |b|;
      }
      HeadIsLeast(a, b[0]);
      HeadIsLeast(b, a[0]);
      SegsLeAntisym(a[0].segments, b[0].segments);
      assert a[0] == b[0];
      MultisetTail(a);
      MultisetTail(b);
      SortedTail(a);
      SortedTail(b);
      SortedUnique(a[1..], b[1..]);
      forall i | 0 < i < |a| ensures a[i] == b[i] {
        assert a[i] == a[1..][i - 1] && b[i] == b[1..][i - 1];
      }
    }
  }

  lemma SortedTail(a: seq<SourcePath>)
    requires Sorted(a) && a != []
    ensures Sorted(a[1..])
  {
    forall i, j | 0 <= i < j < |a| - 1 ensures PathLe(a[1..][i], a[1..][j]) {
      assert a[1..][i] == a[i + 1] && a[1..][j] == a[j + 1];
    }
  }

  /** The first element of a sorted list is not above any element of it. */
  lemma HeadIsLeast(a: seq<SourcePath>, x: SourcePath)
    requires Sorted(a) && x in multiset(a)
    ensures PathLe(a[0], x)
  {
    var i :| 0 <= i < |a| && a[i] == x;
    if i == 0 {
      SegsLeTotal(x.segments, x.segments);
    }
  }

  lemma MultisetTail(a: seq<SourcePath>)
    requires a != []
    ensures multiset(a[1..]) == multiset(a) - multiset{a[0]}
  {
    assert a == [a[0]] + a[1..];
  }

  /**
   * Lines 257-259: every group of the dictionary sorted in place. The keys
   * stay, each list becomes the sorted arrangement of its files.
   */
  method SortGroups(groups: map<string, seq<SourcePath>>, order: seq<string>) returns (sorted: map<string, seq<SourcePath>>)
    requires NoDup(order)
    requires forall k :: k in groups <==> k in order
    ensures sorted.Keys == groups.Keys
    ensures forall k :: k in sorted ==> Sorted(sorted[k]) && multiset(sorted[k]) == multiset(groups[k])
  {
    sorted := groups;
    var i := 0;
    while i < |order|
      invariant 0 <= i <= |order|
      invariant sorted.Keys == groups.Keys
      invariant forall k :: k in sorted ==> multiset(sorted[k]) == multiset(groups[k])
      invariant forall j :: 0 <= j < i ==> Sorted(sorted[order[j]])
    {
      var key := order[i];
      var s := SortPaths(sorted[key]);
      sorted := sorted[key := s];
      i := i + 1;
    }
  }
}
