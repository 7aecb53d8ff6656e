/**
 * The run as a whole (`main`, lines 237-400, without the printing): scan,
 * group by product key, sort each group, process the groups in the order
 * their keys were first seen, then flatten the website records and count
 * the report.
 */
module Pipeline {
  import opened Wrappers
  import opened Seqs
  import opened Identity
  import opened Grouping
  import opened Listing
  import opened Export

  /** `iter_images`: the scanned entries that are regular files with an image extension and no `listing_print_files` in their path, in scan order. */
  function Scan(entries: seq<SourcePath>, io: Io): (files: seq<SourcePath>)
    ensures |files| <= |entries|
    ensures forall i :: 0 <= i < |files| ==> files[i] in entries && io.isFile(files[i]) && IsImageCandidate(files[i])
    ensures forall i :: 0 <= i < |entries| && io.isFile(entries[i]) && IsImageCandidate(entries[i]) ==> entries[i] in files
  {
    if entries == [] then []
    else
      var init := entries[..|entries| - 1];
      var p := entries[|entries| - 1];
      assert entries == init + [p];
      Scan(init, io) + (if IsImageCandidate(p) && io.isFile(p) then [p] else [])
  }

  /** One entry is kept exactly when it is an image candidate and a regular file. */
  lemma ScanOne(p: SourcePath, io: Io)
    ensures Scan([p], io) == if IsImageCandidate(p) && io.isFile(p) then [p] else []
  {
    assert [p][..0] == [];
  }

  /**
   * Scanning two stretches of the walk one after the other gives the two
   * scans one after the other: with `ScanOne`, the scan keeps the accepted
   * entries in the order the walk yields them, each as often as it occurs.
   */
  lemma {:induction false} ScanAppend(a: seq<SourcePath>, b: seq<SourcePath>, io: Io)
    ensures Scan(a + b, io) == Scan(a, io) + Scan(b, io)
    decreases |b|
  {
    if b == [] {
      assert a + b == a;
    } else {
      var init := b[..|b| - 1];
      var p := b[|b| - 1];
      assert (a + b)[..|a + b| - 1] == a + init;
      assert (a + b)[|a + b| - 1] == p;
      ScanAppend(a, init, io);
    }
  }

  /** The product key of a file under the given product-name pattern. */
  function KeyFn(pattern: string -> Option<string>): SourcePath -> string {
    p => KeyOf(p, pattern)
  }

  /** The dictionary after line 259: each key with its files in path order. */
  function SortedGroups(files: seq<SourcePath>, key: SourcePath -> string): map<string, seq<SourcePath>> {
    map k | k in KeyList(files, key) :: SortSeq(Members(files, key, k))
  }

  /** What processing gives for each key of the dictionary. */
  function OutcomeOf(groups: map<string, seq<SourcePath>>, io: Io): string -> Outcome {
    k => if k in groups then GroupOutcome(k, groups[k], io) else Skipped
  }

  /** The outcomes of the groups named in `keys` that were processed, in that order. */
  function Made(keys: seq<string>, outcome: string -> Outcome): (os: seq<Outcome>)
    ensures forall i :: 0 <= i < |os| ==> os[i].Processed?
  {
    if keys == [] then []
    else
      var o := outcome(keys[|keys| - 1]);
      Made(keys[..|keys| - 1], outcome) + (if o.Processed? then [o] else [])
  }

  function ListingsOf(os: seq<Outcome>): (ls: seq<EtsyListing>)
    requires forall i :: 0 <= i < |os| ==> os[i].Processed?
    ensures |ls| == |os|
  {
    seq(|os|, i requires 0 <= i < |os| => os[i].listing)
  }

  function ProductsOf(os: seq<Outcome>): (ps: seq<WebsiteProduct>)
    requires forall i :: 0 <= i < |os| ==> os[i].Processed?
    ensures |ps| == |os|
  {
    seq(|os|, i requires 0 <= i < |os| => os[i].product)
  }

  /** The records the run makes of the scanned entries, group by group in first-seen key order. */
  function RunOutcomes(entries: seq<SourcePath>, pattern: string -> Option<string>, io: Io): seq<Outcome> {
    GroupRun(Scan(entries, io), KeyFn(pattern), io)
  }

  function Skus(listings: seq<EtsyListing>): (ks: seq<string>)
    ensures |ks| == |listings|
  {
    seq(|listings|, i requires 0 <= i < |listings| => listings[i].sku)
  }

  /**
   * Lines 237-398 without the output: the listings and website records of
   * the processed groups, the website import rows and the report.
   */
  method Run(entries: seq<SourcePath>, pattern: string -> Option<string>, io: Io)
    returns (listings: seq<EtsyListing>, products: seq<WebsiteProduct>, rows: seq<CsvRow>, report: Report)
    ensures listings == ListingsOf(RunOutcomes(entries, pattern, io))
    ensures products == ProductsOf(RunOutcomes(entries, pattern, io))
    ensures |rows| == |products| && forall i :: 0 <= i < |products| ==> rows[i] == ToRow(products[i])
    ensures report == BuildReport(listings)
  {
    var files := Scan(entries, io);
    var order, sorted := GroupAndSort(files, KeyFn(pattern));
    listings, products := ProcessAll(order, sorted, io);
    rows := FlattenWebsite(products);
    report := BuildReport(listings);
  }

  /** Lines 249-259: the dictionary of groups, each sorted, and its key order. */
  method GroupAndSort(files: seq<SourcePath>, key: SourcePath -> string)
    returns (order: seq<string>, sorted: map<string, seq<SourcePath>>)
    ensures order == Dedup(KeyList(files, key))
    ensures sorted == SortedGroups(files, key)
    ensures forall i :: 0 <= i < |order| ==> order[i] in sorted
  {
    var groups, total;
    groups, order, total := CollectGroups(files, key);
    DedupFrom(KeyList(files, key));
    sorted := SortGroups(groups, order);
    SortedIsSortedGroups(files, key, groups, order, sorted);
  }

  /** Lines 267-354: every group in key order, keeping the records of those that were processed. */
  method ProcessAll(order: seq<string>, groups: map<string, seq<SourcePath>>, io: Io)
    returns (listings: seq<EtsyListing>, products: seq<WebsiteProduct>)
    requires forall i :: 0 <= i < |order| ==> order[i] in groups
    ensures listings == ListingsOf(Made(order, OutcomeOf(groups, io)))
    ensures products == ProductsOf(Made(order, OutcomeOf(groups, io)))
  {
    listings, products := [], [];
    var j := 0;
    while j < |order|
      invariant 0 <= j <= |order|
      invariant listings == ListingsOf(Made(order[..j], OutcomeOf(groups, io)))
      invariant products == ProductsOf(Made(order[..j], OutcomeOf(groups, io)))
    {
      var k := order[j];
      var outcome := ProcessGroup(k, groups[k], io);
      assert outcome == OutcomeOf(groups, io)(k);
      MadeStep(order, j, OutcomeOf(groups, io));
      if outcome.Processed? {
        listings := listings + [outcome.listing];
        products := products + [outcome.product];
      }
      j := j + 1;
    }
    assert order[..j] == order;
  }

  /** Taking one more group appends its records when it is processed. */
  lemma MadeStep(keys: seq<string>, j: nat, outcome: string -> Outcome)
    requires j < |keys|
    ensures var o := outcome(keys[j]);
      var before := Made(keys[..j], outcome);
      && ListingsOf(Made(keys[..j + 1], outcome)) == ListingsOf(before) + (if o.Processed? then [o.listing] else [])
      && ProductsOf(Made(keys[..j + 1], outcome)) == ProductsOf(before) + (if o.Processed? then [o.product] else [])
  {
    assert keys[..j + 1][..j] == keys[..j];
  }

  /** Sorting the collected dictionary in place gives the dictionary `SortedGroups` describes. */
  lemma SortedIsSortedGroups(files: seq<SourcePath>, key: SourcePath -> string,
                             groups: map<string, seq<SourcePath>>, order: seq<string>, sorted: map<string, seq<SourcePath>>)
    requires order == Dedup(KeyList(files, key))
    requires forall k :: k in groups <==> k in order
    requires forall k :: k in groups ==> groups[k] == Members(files, key, k)
    requires sorted.Keys == groups.Keys
    requires forall k :: k in sorted ==> Sorted(sorted[k]) && multiset(sorted[k]) == multiset(groups[k])
    ensures sorted == SortedGroups(files, key)
  {
    SortedGroupsKeys(files, key, order);
    SortedKeys(files, key, groups, order, sorted);
    SortedValues(files, key, groups, sorted);
    SameMap(sorted, SortedGroups(files, key));
  }

  lemma SortedKeys(files: seq<SourcePath>, key: SourcePath -> string,
                   groups: map<string, seq<SourcePath>>, order: seq<string>, sorted: map<string, seq<SourcePath>>)
    requires forall k :: k in SortedGroups(files, key) <==> k in order
    requires forall k :: k in groups <==> k in order
    requires sorted.Keys == groups.Keys
    ensures sorted.Keys == SortedGroups(files, key).Keys
  {
  }

  lemma SortedValues(files: seq<SourcePath>, key: SourcePath -> string,
                     groups: map<string, seq<SourcePath>>, sorted: map<string, seq<SourcePath>>)
    requires sorted.Keys == SortedGroups(files, key).Keys
    requires forall k :: k in groups ==> groups[k] == Members(files, key, k)
    requires sorted.Keys == groups.Keys
    requires forall k :: k in sorted ==> Sorted(sorted[k]) && multiset(sorted[k]) == multiset(groups[k])
    ensures forall k :: k in sorted ==> sorted[k] == SortedGroups(files, key)[k]
  {
    forall k | k in sorted ensures sorted[k] == SortedGroups(files, key)[k] {
      SortedGroupAt(files, key, k, sorted[k]);
    }
  }

  /** Two maps with the same keys and the same value at every key are equal. */
  lemma SameMap(a: map<string, seq<SourcePath>>, b: map<string, seq<SourcePath>>)
    requires a.Keys == b.Keys
    requires forall k :: k in a ==> a[k] == b[k]
    ensures a == b
  {
  }

  lemma SortedGroupAt(files: seq<SourcePath>, key: SourcePath -> string, k: string, s: seq<SourcePath>)
    requires k in SortedGroups(files, key)
    requires Sorted(s) && multiset(s) == multiset(Members(files, key, k))
    ensures s == SortedGroups(files, key)[k]
  {
    SortedUnique(s, SortSeq(Members(files, key, k)));
  }

  lemma SortedGroupsKeys(files: seq<SourcePath>, key: SourcePath -> string, order: seq<string>)
    requires order == Dedup(KeyList(files, key))
    ensures forall k :: k in SortedGroups(files, key) <==> k in order
  {
    DedupFrom(KeyList(files, key));
  }

  // ----- What a run's records say -----

  // Collecting the processed outcomes of `keys`, when every processed
  // outcome of a key carries that key: each record is the outcome of its
  // own key, a key among `keys`; every key whose group is processed has a
  // record; and distinct keys give distinct skus.

  /** Each record kept is its own key's outcome, for a key of the run. */
  lemma {:induction false} MadeFrom(keys: seq<string>, outcome: string -> Outcome)
    requires forall k :: outcome(k).Processed? ==> outcome(k).listing.sku == k && outcome(k).product.id == k
    ensures RecordsFrom(Made(keys, outcome), keys, outcome)
    decreases |keys|
  {
    if keys != [] {
      var init := keys[..|keys| - 1];
      var k := keys[|keys| - 1];
      assert keys == init + [k];
      MadeFrom(init, outcome);
      var before := Made(init, outcome);
      var os := Made(keys, outcome);
      forall i | 0 <= i < |os| ensures os[i] == outcome(os[i].listing.sku) && os[i].listing.sku in keys {
        assert os == before + (if outcome(k).Processed? then [outcome(k)] else []);
        if i < |before| {
          assert os[i] == before[i];
        } else {
          assert os[i] == outcome(k);
        }
      }
    }
  }

  /** Every record is the outcome of its own key, a key of `keys`. */
  predicate RecordsFrom(os: seq<Outcome>, keys: seq<string>, outcome: string -> Outcome)
    requires forall i :: 0 <= i < |os| ==> os[i].Processed?
  {
    forall i :: 0 <= i < |os| ==> os[i] == outcome(os[i].listing.sku) && os[i].listing.sku in keys
  }

  /** Some record carries key `k`. */
  predicate HasRecord(os: seq<Outcome>, k: string)
    requires forall i :: 0 <= i < |os| ==> os[i].Processed?
  {
    exists i :: 0 <= i < |os| && os[i].listing.sku == k
  }

  /** Every key whose group is processed has a record. */
  lemma {:induction false} MadeCovers(keys: seq<string>, outcome: string -> Outcome)
    requires forall k :: outcome(k).Processed? ==> outcome(k).listing.sku == k && outcome(k).product.id == k
    ensures forall j :: 0 <= j < |keys| && outcome(keys[j]).Processed? ==> HasRecord(Made(keys, outcome), keys[j])
    decreases |keys|
  {
    if keys != [] {
      var init := keys[..|keys| - 1];
      var k := keys[|keys| - 1];
      assert keys == init + [k];
      MadeCovers(init, outcome);
      var before := Made(init, outcome);
      var os := Made(keys, outcome);
      assert os[..|before|] == before;
      forall j | 0 <= j < |keys| && outcome(keys[j]).Processed?
        ensures HasRecord(os, keys[j])
      {
        if j < |init| {
          assert init[j] == keys[j];
          var i :| 0 <= i < |before| && before[i].listing.sku == init[j];
          assert os[i] == before[i];
        } else {
          assert os[|before|] == outcome(k);
        }
      }
    }
  }

  /** Distinct keys give records with distinct keys. */
  lemma {:induction false} MadeDistinct(keys: seq<string>, outcome: string -> Outcome)
    requires forall k :: outcome(k).Processed? ==> outcome(k).listing.sku == k && outcome(k).product.id == k
    requires NoDup(keys)
    ensures NoDup(Skus(ListingsOf(Made(keys, outcome))))
    decreases |keys|
  {
    if keys != [] {
      var init := keys[..|keys| - 1];
      var k := keys[|keys| - 1];
      assert keys == init + [k];
      MadeDistinct(init, outcome);
      MadeFrom(init, outcome);
      var before := Made(init, outcome);
      var os := Made(keys, outcome);
      assert os[..|before|] == before;
      var ss := Skus(ListingsOf(os));
      forall a, b | 0 <= a < b < |ss| ensures ss[a] != ss[b] {
        if b < |before| {
          assert Skus(ListingsOf(before))[a] == ss[a];
          assert Skus(ListingsOf(before))[b] == ss[b];
        } else {
          assert ss[b] == k;
          assert before[a] == os[a] && ss[a] == before[a].listing.sku;
          var m :| 0 <= m < |init| && init[m] == ss[a];
          assert keys[m] == init[m];
        }
      }
    }
  }

  /**
   * A processed group's records carry its key, and its listing counts the
   * files of the group.
   */
  lemma OutcomeKeys(groups: map<string, seq<SourcePath>>, io: Io)
    ensures forall k :: OutcomeOf(groups, io)(k).Processed? ==>
      && OutcomeOf(groups, io)(k).listing.sku == k && OutcomeOf(groups, io)(k).product.id == k
      && k in groups && OutcomeOf(groups, io)(k).listing.sourceFiles == |groups[k]|
  {
    forall k | OutcomeOf(groups, io)(k).Processed?
      ensures OutcomeOf(groups, io)(k).listing.sku == k && OutcomeOf(groups, io)(k).product.id == k
      ensures k in groups && OutcomeOf(groups, io)(k).listing.sourceFiles == |groups[k]|
    {
      ProcessedRecords(k, groups[k], io);
    }
  }

  /** A sorted group has as many files as the scanned files with its key. */
  lemma SortedGroupSize(files: seq<SourcePath>, key: SourcePath -> string, k: string)
    requires k in SortedGroups(files, key)
    ensures |SortedGroups(files, key)[k]| == multiset(KeyList(files, key))[k]
  {
    MembersShape(files, key, k);
    assert |multiset(SortSeq(Members(files, key, k)))| == |multiset(Members(files, key, k))|;
  }

  /** Counting the listings' files one listing at a time is counting the scanned files by the listings' skus. */
  lemma {:induction false} SourceFileTotalIsCounts(listings: seq<EtsyListing>, ks: seq<string>)
    requires forall i :: 0 <= i < |listings| ==> listings[i].sourceFiles == multiset(ks)[listings[i].sku]
    ensures SourceFileTotal(listings) == SumCounts(Skus(listings), ks)
    decreases |listings|
  {
    if listings == [] {
      assert Skus(listings) == [];
    } else {
      var init := listings[..|listings| - 1];
      var l := listings[|listings| - 1];
      SourceFileTotalIsCounts(init, ks);
      assert Skus(listings) == Skus(init) + [l.sku];
      SumCountsKeySnoc(Skus(init), ks, l.sku);
    }
  }

  /** The outcomes of processing the sorted groups of `files` in first-seen key order. */
  function GroupRun(files: seq<SourcePath>, key: SourcePath -> string, io: Io): seq<Outcome> {
    Made(Dedup(KeyList(files, key)), OutcomeOf(SortedGroups(files, key), io))
  }

  /** Each record is that of its own key's sorted group, a key of some file, and counts all its files. */
  lemma GroupRunKeyed(files: seq<SourcePath>, key: SourcePath -> string, io: Io)
    ensures var os := GroupRun(files, key, io);
      var ks := KeyList(files, key);
      forall i :: 0 <= i < |os| ==>
        && os[i].listing.sku == os[i].product.id && os[i].listing.sku in ks
        && os[i].listing.sourceFiles == multiset(ks)[os[i].listing.sku]
  {
    var ks := KeyList(files, key);
    var groups := SortedGroups(files, key);
    var order := Dedup(ks);
    var os := Made(order, OutcomeOf(groups, io));
    OutcomeKeys(groups, io);
    MadeFrom(order, OutcomeOf(groups, io));
    DedupFrom(ks);
    forall i | 0 <= i < |os|
      ensures os[i].listing.sku == os[i].product.id && os[i].listing.sku in ks
      ensures os[i].listing.sourceFiles == multiset(ks)[os[i].listing.sku]
    {
      var k := os[i].listing.sku;
      assert os[i] == OutcomeOf(groups, io)(k);
      SortedGroupSize(files, key, k);
    }
  }

  /** No key is listed twice. */
  lemma GroupRunDistinct(files: seq<SourcePath>, key: SourcePath -> string, io: Io)
    ensures NoDup(Skus(ListingsOf(GroupRun(files, key, io))))
  {
    OutcomeKeys(SortedGroups(files, key), io);
    MadeDistinct(Dedup(KeyList(files, key)), OutcomeOf(SortedGroups(files, key), io));
  }

  /** A key of some file is listed exactly when its sorted group is processed. */
  lemma GroupRunComplete(files: seq<SourcePath>, key: SourcePath -> string, io: Io)
    ensures var os := GroupRun(files, key, io);
      var ks := KeyList(files, key);
      forall j :: 0 <= j < |ks| ==>
        (GroupOutcome(ks[j], SortSeq(Members(files, key, ks[j])), io).Processed? <==> HasRecord(os, ks[j]))
  {
    var ks := KeyList(files, key);
    var groups := SortedGroups(files, key);
    var outcome := OutcomeOf(groups, io);
    var order := Dedup(ks);
    var os := Made(order, outcome);
    OutcomeKeys(groups, io);
    MadeFrom(order, outcome);
    MadeCovers(order, outcome);
    forall j | 0 <= j < |ks|
      ensures GroupOutcome(ks[j], SortSeq(Members(files, key, ks[j])), io).Processed? <==> HasRecord(os, ks[j])
    {
      var m :| 0 <= m < |order| && order[m] == ks[j];
      assert outcome(ks[j]) == GroupOutcome(ks[j], SortSeq(Members(files, key, ks[j])), io);
    }
  }

  /** The report's image total never exceeds the number of scanned files. */
  lemma GroupRunImageBound(files: seq<SourcePath>, key: SourcePath -> string, io: Io)
    ensures BuildReport(ListingsOf(GroupRun(files, key, io))).totalImages <= |files|
  {
    var os := GroupRun(files, key, io);
    var ls := ListingsOf(os);
    var ks := KeyList(files, key);
    GroupRunKeyed(files, key, io);
    GroupRunDistinct(files, key, io);
    forall i | 0 <= i < |ls| ensures ls[i].sourceFiles == multiset(ks)[ls[i].sku] {
      assert ls[i] == os[i].listing;
    }
    SourceFileTotalIsCounts(ls, ks);
    SumCountsAtMost(Skus(ls), ks);
  }
}
