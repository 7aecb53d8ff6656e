/**
 * What the run writes out besides the images: the rows of the website
 * import file (lines 372-383) and the counts of the run report (lines
 * 389-398). Serialising them (CSV quoting, JSON layout, file writes) is not
 * part of this model.
 */
module Export {
  import opened Text
  import opened Seqs
  import opened Listing

  /** One row of the website import file. */
  datatype CsvRow = CsvRow(
    title: string, description: string, imageUrl: string, basePrice: nat,
    category: string, tags: string, width: nat, height: nat)

  /** The row written for one website product. */
  function ToRow(p: WebsiteProduct): CsvRow {
    CsvRow(p.title, p.description, p.webPath, p.basePrice, p.category, Join(", ", p.tags), p.dims.width, p.dims.height)
  }

  /** Lines 372-383: one row per website product, in order. */
  method FlattenWebsite(products: seq<WebsiteProduct>) returns (rows: seq<CsvRow>)
    ensures |rows| == |products|
    ensures forall i :: 0 <= i < |products| ==> rows[i] == ToRow(products[i])
  {
    rows := [];
    var i := 0;
    while i < |products|
      invariant 0 <= i <= |products|
      invariant |rows| == i
      invariant forall j :: 0 <= j < i ==> rows[j] == ToRow(products[j])
    {
      var product := products[i];
      rows := rows + [CsvRow(
        product.title, product.description, product.webPath, product.basePrice,
        product.category, Join(", ", product.tags), product.dims.width, product.dims.height)];
      i := i + 1;
    }
  }

  /**
   * A row carries its product's title, description, page image, price,
   * category and size, and its tag column reads back as the product's tags
   * when those are non-empty and free of commas.
   */
  lemma RowReadsBack(p: WebsiteProduct)
    requires |p.tags| >= 1
    requires forall k :: 0 <= k < |p.tags| ==> ',' !in p.tags[k]
    ensures var r := ToRow(p);
      && r.title == p.title && r.description == p.description && r.imageUrl == p.webPath && r.basePrice == p.basePrice
      && r.category == p.category && r.width == p.dims.width && r.height == p.dims.height
      && SplitList(r.tags) == p.tags
  {
    SplitListJoin(p.tags);
  }

  // ----- Report -----

  /** The counts of the run report (its time stamp and output paths are not modelled). */
  datatype Report = Report(totalProducts: nat, totalImages: nat, categories: map<string, nat>, locations: map<string, nat>)

  function CategoryColumn(listings: seq<EtsyListing>): (cs: seq<string>)
    ensures |cs| == |listings|
  {
    seq(|listings|, i requires 0 <= i < |listings| => listings[i].category)
  }

  function LocationColumn(listings: seq<EtsyListing>): (ls: seq<string>)
    ensures |ls| == |listings|
  {
    seq(|listings|, i requires 0 <= i < |listings| => listings[i].location)
  }

  /**
   * `{v: len([x for x in values if x == v]) for v in set(values)}`: every
   * value that occurs, with the number of times it occurs.
   */
  function CountMap(values: seq<string>): (m: map<string, nat>)
    ensures forall v :: v in m <==> v in values
  {
    map v | v in values :: multiset(values)[v]
  }

  /** `sum(listing["source_files"] for listing in etsy_listings)`. */
  function SourceFileTotal(listings: seq<EtsyListing>): nat {
    if listings == [] then 0 else SourceFileTotal(listings[..|listings| - 1]) + listings[|listings| - 1].sourceFiles
  }

  /** Lines 389-398: the report's counts. */
  function BuildReport(listings: seq<EtsyListing>): Report {
    Report(|listings|, SourceFileTotal(listings), CountMap(CategoryColumn(listings)), CountMap(LocationColumn(listings)))
  }

  /** Sum of the map's values over `keys`. */
  function MapSum(m: map<string, nat>, keys: seq<string>): nat
    requires forall i :: 0 <= i < |keys| ==> keys[i] in m
  {
    if keys == [] then 0 else m[keys[0]] + MapSum(m, keys[1..])
  }

  /**
   * The counts of a count map add up to the number of values, whatever the
   * order in which its keys are visited.
   */
  lemma CountMapSum(values: seq<string>, keys: seq<string>)
    requires NoDup(keys)
    requires forall v :: v in CountMap(values) <==> v in keys
    ensures MapSum(CountMap(values), keys) == |values|
  {
    MapSumIsSumCounts(values, keys);
    SumCountsCovers(keys, values);
  }

  lemma {:induction false} MapSumIsSumCounts(values: seq<string>, keys: seq<string>)
    requires forall i :: 0 <= i < |keys| ==> keys[i] in values
    ensures MapSum(CountMap(values), keys) == SumCounts(keys, values)
  {
    if keys != [] {
      MapSumIsSumCounts(values, keys[1..]);
    }
  }

  /**
   * What the report says: as many products as listings, the category
   * counts and the location counts each adding up to that number, and one
   * entry per category (location) that some listing has.
   */
  lemma ReportCounts(listings: seq<EtsyListing>, categoryKeys: seq<string>, locationKeys: seq<string>)
    requires NoDup(categoryKeys) && forall c :: c in BuildReport(listings).categories <==> c in categoryKeys
    requires NoDup(locationKeys) && forall l :: l in BuildReport(listings).locations <==> l in locationKeys
    ensures var r := BuildReport(listings);
      && r.totalProducts == |listings|
      && MapSum(r.categories, categoryKeys) == r.totalProducts
      && MapSum(r.locations, locationKeys) == r.totalProducts
      && (forall i :: 0 <= i < |listings| ==> listings[i].category in r.categories && listings[i].location in r.locations)
  {
    CountMapSum(CategoryColumn(listings), categoryKeys);
    CountMapSum(LocationColumn(listings), locationKeys);
    forall i | 0 <= i < |listings|
      ensures listings[i].category in CountMap(CategoryColumn(listings))
      ensures listings[i].location in CountMap(LocationColumn(listings))
    {
      assert CategoryColumn(listings)[i] == listings[i].category;
      assert LocationColumn(listings)[i] == listings[i].location;
    }
  }
}
