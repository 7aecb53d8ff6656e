/**
 * One product group through the body of the run's main loop (lines
 * 269-354): the output folder, the five variants of the primary image, up
 * to nine extra images, and the two records the group contributes, or
 * nothing when a step fails.
 *
 * The file system and the image library are a parameter (`Io`): whether a
 * file loads and how large it is, the digest of its bytes, and whether a
 * write succeeds.
 */
module Listing {
  import opened Wrappers
  import opened Text
  import opened Seqs
  import Config
  import opened Identity
  import Facets
  import Pricing
  import Tags
  import Description

  /** Width and height of a loaded image. */
  datatype Dims = Dims(width: nat, height: nat)

  /** What the run learns from the file system and the image library. */
  datatype Io = Io(
    /** `p.is_file()`. */
    isFile: SourcePath -> bool,
    /**
     * `load_rgb(p)`: the size of the opened image, `None` when `Image.open`
     * (or the conversion of a non-RGB image) fails. Opening reads only the
     * header, so a file whose pixel data is damaged can still load here.
     */
    load: SourcePath -> Option<Dims>,
    /** The hex MD5 digest of the file's bytes, `None` when it cannot be read. */
    digest: SourcePath -> Option<string>,
    /**
     * Creating the folder at this path succeeds, or, for an image path,
     * producing that image succeeds: decoding the source's pixels in
     * `pad_resize`, watermarking, and saving. A damaged source that opened
     * fine fails here, and the group fails with it.
     */
    writable: string -> bool)

  /** `md5hash(p)`: the first ten hex digits, or "unknown" when the file cannot be read. */
  function Md5Hash(io: Io, p: SourcePath): string {
    match io.digest(p)
    case Some(d) => Take(d, 10)
    case None => "unknown"
  }

  const EtsyImagesDir: string := Config.OutputRoot + "/etsy_images"

  /**
   * `OUTPUT_ROOT / "etsy_images" / key`. Joining an empty component adds
   * nothing, so an empty key names the images folder itself.
   */
  function ProductDir(key: string): string {
    if key == "" then EtsyImagesDir else EtsyImagesDir + "/" + key
  }

  /** `product_dir / f"{key}_{label}.jpg"`. */
  function VariantPath(key: string, name: string): string {
    ProductDir(key) + "/" + key + "_" + name + ".jpg"
  }

  /** `product_dir / f"{key}_extra_{i+1}_{md5hash(extra_file)}.jpg"`, for the extra at `index` in the group. */
  function ExtraPath(key: string, index: nat, hash: string): string {
    ProductDir(key) + "/" + key + "_extra_" + NatToString(index) + "_" + hash + ".jpg"
  }

  // ----- Variants -----

  /** The label → path map after the first `n` variants were saved. */
  function VariantMap(key: string, n: nat): map<string, string>
    requires n <= |Config.Variants|
  {
    if n == 0 then map[]
    else VariantMap(key, n - 1)[Config.Variants[n - 1].name := VariantPath(key, Config.Variants[n - 1].name)]
  }

  /** Every variant file of the group can be written. */
  predicate VariantsWritable(key: string, io: Io) {
    forall j :: 0 <= j < |Config.Variants| ==> io.writable(VariantPath(key, Config.Variants[j].name))
  }

  const VariantNames: set<string> := {"etsy_primary_3000x2400", "etsy_square_2000", "website_large_1600", "website_medium_1000", "website_thumb_400"}

  /**
   * `variant_paths` has one entry per variant label, and each label maps to
   * `{key}_{label}.jpg` in the product folder.
   */
  lemma {:induction false} VariantMapShape(key: string)
    ensures VariantMap(key, |Config.Variants|).Keys == VariantNames
    ensures forall name :: name in VariantNames ==> VariantMap(key, |Config.Variants|)[name] == VariantPath(key, name)
  {
    var m0 := VariantMap(key, 0);
    var m1 := VariantMap(key, 1);
    var m2 := VariantMap(key, 2);
    var m3 := VariantMap(key, 3);
    var m4 := VariantMap(key, 4);
    var m5 := VariantMap(key, 5);
    assert m0 == map[];
    assert m1 == m0["etsy_primary_3000x2400" := VariantPath(key, "etsy_primary_3000x2400")];
    assert m2 == m1["etsy_square_2000" := VariantPath(key, "etsy_square_2000")];
    assert m3 == m2["website_large_1600" := VariantPath(key, "website_large_1600")];
    assert m4 == m3["website_medium_1000" := VariantPath(key, "website_medium_1000")];
    assert m5 == m4["website_thumb_400" := VariantPath(key, "website_thumb_400")];
  }

  // ----- Extras -----

  /** An extra image: its position in the sorted group and the file. */
  datatype Extra = Extra(index: nat, source: SourcePath)

  /** End of `files[1:MAX_EXTRAS + 1]`: the extras are at positions 1 up to, not including, this bound. */
  function ExtrasEnd(files: seq<SourcePath>): (hi: nat)
    ensures hi <= |files| && hi <= Config.MaxExtras + 1
  {
    if |files| < Config.MaxExtras + 1 then |files| else Config.MaxExtras + 1
  }

  /** The files at positions 1 up to `hi` that load, each with its position. */
  function LoadedExtras(files: seq<SourcePath>, io: Io, hi: nat): seq<Extra>
    requires hi <= |files|
  {
    if hi <= 1 then []
    else LoadedExtras(files, io, hi - 1) + (if io.load(files[hi - 1]).Some? then [Extra(hi - 1, files[hi - 1])] else [])
  }

  /** The extras of a group: the loadable files among the nine after the primary. */
  function SelectExtras(files: seq<SourcePath>, io: Io): seq<Extra> {
    LoadedExtras(files, io, ExtrasEnd(files))
  }

  /** The saved path of every extra, in order. */
  function ExtraPaths(key: string, io: Io, extras: seq<Extra>): (paths: seq<string>)
    ensures |paths| == |extras|
  {
    seq(|extras|, i requires 0 <= i < |extras| => ExtraPath(key, extras[i].index, Md5Hash(io, extras[i].source)))
  }

  /** Every extra's file can be written. */
  predicate ExtrasWritable(key: string, io: Io, extras: seq<Extra>) {
    forall i :: 0 <= i < |extras| ==> io.writable(ExtraPath(key, extras[i].index, Md5Hash(io, extras[i].source)))
  }

  /** Some extra is the file at position `n`. */
  predicate HasExtraAt(es: seq<Extra>, n: nat) {
    exists i :: 0 <= i < |es| && es[i].index == n
  }

  /**
   * What the extras are: each is the file at its own position, a position
   * from 1 to 9, so never the primary `files[0]`; positions strictly
   * increase, so each file appears once; a position is present exactly when
   * its file loads, so a file that fails to load leaves its number unused
   * and does not shift the others.
   */
  lemma LoadedExtrasShape(files: seq<SourcePath>, io: Io, hi: nat)
    requires hi <= |files|
    ensures var es := LoadedExtras(files, io, hi);
      && |es| <= (if hi == 0 then 0 else hi - 1)
      && (forall i :: 0 <= i < |es| ==> 1 <= es[i].index < hi && es[i].source == files[es[i].index])
      && (forall i, j :: 0 <= i < j < |es| ==> es[i].index < es[j].index)
      && (forall n :: 1 <= n < hi ==> (io.load(files[n]).Some? <==> HasExtraAt(es, n)))
  {
    LoadedExtrasPositions(files, io, hi);
    LoadedExtrasComplete(files, io, hi);
  }

  /** The extras below `hi` sit at increasing positions from 1 up to `hi`, each on its own file. */
  lemma {:induction false} LoadedExtrasPositions(files: seq<SourcePath>, io: Io, hi: nat)
    requires hi <= |files|
    ensures var es := LoadedExtras(files, io, hi);
      && |es| <= (if hi == 0 then 0 else hi - 1)
      && (forall i :: 0 <= i < |es| ==> 1 <= es[i].index < hi && es[i].source == files[es[i].index])
      && (forall i, j :: 0 <= i < j < |es| ==> es[i].index < es[j].index)
  {
    if hi > 1 {
      LoadedExtrasPositions(files, io, hi - 1);
    }
  }

  /** A position below `hi` has an extra exactly when its file loads. */
  lemma {:induction false} LoadedExtrasComplete(files: seq<SourcePath>, io: Io, hi: nat)
    requires hi <= |files|
    ensures forall n :: 1 <= n < hi ==> (io.load(files[n]).Some? <==> HasExtraAt(LoadedExtras(files, io, hi), n))
  {
    if hi > 1 {
      var prev := LoadedExtras(files, io, hi - 1);
      var es := LoadedExtras(files, io, hi);
      LoadedExtrasComplete(files, io, hi - 1);
      LoadedExtrasPositions(files, io, hi - 1);
      assert es[..|prev|] == prev;
      forall n | 1 <= n < hi
        ensures io.load(files[n]).Some? <==> HasExtraAt(es, n)
      {
        if n < hi - 1 {
          if HasExtraAt(es, n) {
            var i :| 0 <= i < |es| && es[i].index == n;
            assert i < |prev| && prev[i].index == n;
          }
          if io.load(files[n]).Some? {
            var i :| 0 <= i < |prev| && prev[i].index == n;
            assert es[i] == prev[i];
          }
        } else {
          if io.load(files[n]).Some? {
            assert es[|prev|].index == n;
          } else {
            assert es == prev;
          }
        }
      }
    }
  }

  /** The nine-extra cap: at most nine extras, numbered 1 to 9. */
  lemma ExtrasBounded(files: seq<SourcePath>, io: Io)
    ensures var es := SelectExtras(files, io);
      |es| <= Config.MaxExtras
      && forall i :: 0 <= i < |es| ==> 1 <= es[i].index <= Config.MaxExtras && es[i].index != 0
  {
    LoadedExtrasShape(files, io, ExtrasEnd(files));
  }

  // ----- Records -----

  /** One row of the marketplace listings file (the creation time is not modelled). */
  datatype EtsyListing = EtsyListing(
    sku: string, title: string, description: string, price: string,
    materials: string, tags: string, category: string, location: string,
    primaryImage: string, additionalImages: string, folder: string, sourceFiles: nat)

  /** One entry of the website product list. */
  datatype WebsiteProduct = WebsiteProduct(
    id: string, title: string, description: string, category: string, location: string,
    imageType: string, webPath: string, thumbnailPath: string, largePath: string,
    dims: Dims, tags: seq<string>, basePrice: nat, variants: map<string, string>)

  /** What one group contributes: both records, or nothing. */
  datatype Outcome = Processed(listing: EtsyListing, product: WebsiteProduct) | Skipped

  /** `d.get(k, "")`. */
  function Get(d: map<string, string>, k: string): string {
    if k in d then d[k] else ""
  }

  /** `key.replace("-", " ").title()`. */
  function ProductTitle(key: string): string {
    Title(ReplaceChar(key, '-', ' '))
  }

  function WebDescription(category: string, location: string): string {
    "Beautiful " + LowerStr(category) + " photography from " + location
    + ". Professional quality print ready for your home or office."
  }

  /** Both records of a processed group, from what the loop body has computed. */
  function Records(key: string, files: seq<SourcePath>, dims: Dims, variants: map<string, string>, additional: seq<string>): Outcome
    requires files != []
  {
    var md := Facets.ParseMetadata(PathStr(files[0]));
    var title := ProductTitle(key);
    var price := Pricing.Price(md.category, md.location);
    var tags := Tags.TagList(key, md.category, md.location);
    Processed(
      EtsyListing(
        key, title + " - Fine Art Photography Print",
        Description.CreateEtsyDescription(title, md.category, md.location),
        Pricing.FormatPrice(price), Join(", ", Config.DefaultMaterials), Join(", ", tags),
        md.category, md.location, Get(variants, "etsy_primary_3000x2400"),
        Join(", ", [Get(variants, "etsy_square_2000")] + additional), ProductDir(key), |files|),
      WebsiteProduct(
        key, title, WebDescription(md.category, md.location), md.category, md.location,
        "Main_Images", "/images/" + key + "_website_medium_1000.jpg",
        "/images/" + key + "_website_thumb_400.jpg", "/images/" + key + "_website_large_1600.jpg",
        dims, tags, price, variants))
  }

  /**
   * What the loop body makes of one group. It is skipped when the product
   * folder cannot be created, when the group is empty (`files[0]` raises),
   * when the primary image does not load, or when a variant or an extra
   * cannot be saved; otherwise it yields both records.
   */
  function GroupOutcome(key: string, files: seq<SourcePath>, io: Io): Outcome {
    if !io.writable(ProductDir(key)) || files == [] then Skipped
    else match io.load(files[0])
      case None => Skipped
      case Some(dims) =>
        if !VariantsWritable(key, io) then Skipped
        else
          var extras := SelectExtras(files, io);
          if !ExtrasWritable(key, io, extras) then Skipped
          else Records(key, files, dims, VariantMap(key, |Config.Variants|), ExtraPaths(key, io, extras))
  }

  /**
   * The variant loop (lines 284-291): save each variant under its label,
   * recording label → path, and stop at the first save that fails.
   */
  method SaveVariants(key: string, io: Io) returns (ok: bool, variantPaths: map<string, string>)
    ensures ok == VariantsWritable(key, io)
    ensures ok ==> variantPaths == VariantMap(key, |Config.Variants|)
  {
    variantPaths := map[];
    var v := 0;
    while v < |Config.Variants|
      invariant 0 <= v <= |Config.Variants|
      invariant variantPaths == VariantMap(key, v)
      invariant forall j :: 0 <= j < v ==> io.writable(VariantPath(key, Config.Variants[j].name))
    {
      var name := Config.Variants[v].name;
      var outputPath := VariantPath(key, name);
      if !io.writable(outputPath) {
        return false, variantPaths;
      }
      variantPaths := variantPaths[name := outputPath];
      v := v + 1;
    }
    ok := true;
  }

  /**
   * The extras loop (lines 294-306): each of `files[1:MAX_EXTRAS + 1]` that
   * loads is saved under its 1-based number, a file that does not load is
   * passed over, and a save that fails stops the loop.
   */
  method SaveExtras(key: string, files: seq<SourcePath>, io: Io) returns (ok: bool, additional: seq<string>)
    requires files != []
    ensures ok == ExtrasWritable(key, io, SelectExtras(files, io))
    ensures ok ==> additional == ExtraPaths(key, io, SelectExtras(files, io))
  {
    var candidates := Slice(files, 1, Config.MaxExtras + 1);
    additional := [];
    ghost var chosen: seq<Extra> := [];
    var i := 0;
    while i < |candidates|
      invariant 0 <= i <= |candidates| && |candidates| + 1 == ExtrasEnd(files)
      invariant chosen == LoadedExtras(files, io, i + 1)
      invariant additional == ExtraPaths(key, io, chosen)
      invariant ExtrasWritable(key, io, chosen)
    {
      var extraFile := candidates[i];
      assert extraFile == files[i + 1];
      var extraIm := io.load(extraFile);
      if extraIm.Some? {
        var extraPath := ExtraPath(key, i + 1, Md5Hash(io, extraFile));
        if !io.writable(extraPath) {
          assert 1 <= i + 1 < ExtrasEnd(files) && io.load(files[i + 1]).Some?;
          LaterExtraUnwritable(key, files, io, i + 1);
          return false, additional;
        }
        ExtrasSnoc(key, io, chosen, Extra(i + 1, extraFile));
        additional := additional + [extraPath];
        chosen := chosen + [Extra(i + 1, extraFile)];
      }
      i := i + 1;
    }
    ok := true;
  }

  /** Adding an extra adds its path, and keeps the set writable when its file can be written. */
  lemma ExtrasSnoc(key: string, io: Io, es: seq<Extra>, e: Extra)
    ensures ExtraPaths(key, io, es + [e]) == ExtraPaths(key, io, es) + [ExtraPath(key, e.index, Md5Hash(io, e.source))]
    ensures ExtrasWritable(key, io, es) && io.writable(ExtraPath(key, e.index, Md5Hash(io, e.source)))
      ==> ExtrasWritable(key, io, es + [e])
  {
    assert forall i :: 0 <= i < |es| ==> (es + [e])[i] == es[i];
  }

  /** An extra that cannot be written, at position `n`, makes the whole set unwritable. */
  lemma LaterExtraUnwritable(key: string, files: seq<SourcePath>, io: Io, n: nat)
    requires 1 <= n < ExtrasEnd(files)
    requires io.load(files[n]).Some?
    requires !io.writable(ExtraPath(key, n, Md5Hash(io, files[n])))
    ensures !ExtrasWritable(key, io, SelectExtras(files, io))
  {
    LoadedExtrasShape(files, io, ExtrasEnd(files));
  }

  /**
   * Lines 269-354 for one group: create the folder, load the primary image,
   * save the variants and the extras, then build the two records. Any
   * failure drops the group.
   */
  method ProcessGroup(key: string, files: seq<SourcePath>, io: Io) returns (outcome: Outcome)
    ensures outcome == GroupOutcome(key, files, io)
  {
    var productDir := ProductDir(key);
    if !io.writable(productDir) || |files| == 0 {
      return Skipped;
    }
    var primary := files[0];
    var im := io.load(primary);
    if im.None? {
      return Skipped;
    }
    var variantsOk, variantPaths := SaveVariants(key, io);
    if !variantsOk {
      return Skipped;
    }
    var extrasOk, additional := SaveExtras(key, files, io);
    if !extrasOk {
      return Skipped;
    }
    outcome := Records(key, files, im.value, variantPaths, additional);
  }

  // ----- What a processed group yields -----

  /**
   * A primary image that does not load drops the whole group, whatever the
   * other files are: the loop moves on to the next group without looking
   * at them.
   */
  lemma PrimaryLoadFailureSkipsGroup(key: string, files: seq<SourcePath>, io: Io)
    requires files != [] && io.load(files[0]).None?
    ensures GroupOutcome(key, files, io) == Skipped
  {
  }

  /** A group is skipped exactly when one of its steps fails. */
  lemma SkippedWhenAStepFails(key: string, files: seq<SourcePath>, io: Io)
    ensures GroupOutcome(key, files, io).Skipped? <==>
      (!io.writable(ProductDir(key)) || files == [] || io.load(files[0]).None?
       || !VariantsWritable(key, io) || !ExtrasWritable(key, io, SelectExtras(files, io)))
  {
  }

  /**
   * The records of a processed group: both carry the key, the listing
   * counts every file of the group, the product carries the primary image's
   * size and one path per variant, the listing's image columns name the
   * primary variant, the square variant and the extras, and the price and
   * tag columns are the product's price and tags written out.
   */
  lemma ProcessedRecords(key: string, files: seq<SourcePath>, io: Io)
    requires GroupOutcome(key, files, io).Processed?
    ensures var o := GroupOutcome(key, files, io);
      var l := o.listing;
      var w := o.product;
      && files != [] && io.load(files[0]).Some?
      && l.sku == key && w.id == key
      && l.sourceFiles == |files|
      && w.dims == io.load(files[0]).value
      && w.variants.Keys == VariantNames
      && (forall name :: name in VariantNames ==> w.variants[name] == VariantPath(key, name))
      && l.primaryImage == VariantPath(key, "etsy_primary_3000x2400")
      && l.additionalImages == Join(", ", [VariantPath(key, "etsy_square_2000")] + ExtraPaths(key, io, SelectExtras(files, io)))
      && l.folder == ProductDir(key)
      && l.price == Pricing.FormatPrice(w.basePrice)
      && l.tags == Join(", ", w.tags)
      && l.category == w.category && l.location == w.location
      && Facets.ParseMetadata(PathStr(files[0])) == Facets.Metadata(w.category, w.location)
      && w.basePrice == Pricing.Price(w.category, w.location)
      && w.tags == Tags.TagList(key, w.category, w.location)
  {
    ProcessedIsRecords(key, files, io);
    var extras := ExtraPaths(key, io, SelectExtras(files, io));
    RecordsShape(key, files, io.load(files[0]).value, VariantMap(key, |Config.Variants|), extras);
    VariantMapShape(key);
  }

  lemma ProcessedIsRecords(key: string, files: seq<SourcePath>, io: Io)
    requires GroupOutcome(key, files, io).Processed?
    ensures files != [] && io.load(files[0]).Some?
    ensures GroupOutcome(key, files, io)
      == Records(key, files, io.load(files[0]).value, VariantMap(key, |Config.Variants|), ExtraPaths(key, io, SelectExtras(files, io)))
  {
  }

  lemma RecordsShape(key: string, files: seq<SourcePath>, dims: Dims, variants: map<string, string>, additional: seq<string>)
    requires files != []
    ensures var o := Records(key, files, dims, variants, additional);
      var l := o.listing;
      var w := o.product;
      && o.Processed?
      && l.sku == key && w.id == key
      && l.sourceFiles == |files|
      && w.dims == dims
      && w.variants == variants
      && l.primaryImage == Get(variants, "etsy_primary_3000x2400")
      && l.additionalImages == Join(", ", [Get(variants, "etsy_square_2000")] + additional)
      && l.folder == ProductDir(key)
      && l.price == Pricing.FormatPrice(w.basePrice)
      && l.tags == Join(", ", w.tags)
      && l.category == w.category && l.location == w.location
      && Facets.ParseMetadata(PathStr(files[0])) == Facets.Metadata(w.category, w.location)
      && w.basePrice == Pricing.Price(w.category, w.location)
      && w.tags == Tags.TagList(key, w.category, w.location)
  {
  }

  /**
   * The tag column of a processed listing reads back as the product's tag
   * list, as long as the key has no comma (a product key, being a slug,
   * never has one).
   */
  lemma ListingTagsReadBack(key: string, files: seq<SourcePath>, io: Io)
    requires GroupOutcome(key, files, io).Processed?
    requires ',' !in key
    ensures var o := GroupOutcome(key, files, io);
      SplitList(o.listing.tags) == o.product.tags
  {
    ProcessedRecords(key, files, io);
    var w := GroupOutcome(key, files, io).product;
    assert w.location in Facets.Locations;
    TagColumnReadsBack(key, w.category, w.location);
  }

  /** The comma-joined tags of a key with no comma and a known location read back as the tag list. */
  lemma TagColumnReadsBack(key: string, category: string, location: string)
    requires ',' !in key && location in Facets.Locations
    ensures SplitList(Join(", ", Tags.TagList(key, category, location))) == Tags.TagList(key, category, location)
  {
    assert ',' !in location;
    Tags.TagListShape(key, category, location);
    Tags.TagsCommaFree(key, category, location);
    SplitListJoin(Tags.TagList(key, category, location));
  }

  /** The price column of a processed listing reads back as the product's base price. */
  lemma ListingPriceReadsBack(key: string, files: seq<SourcePath>, io: Io)
    requires GroupOutcome(key, files, io).Processed?
    ensures var o := GroupOutcome(key, files, io);
      Pricing.ParsePrice(o.listing.price) == o.product.basePrice
  {
    ProcessedRecords(key, files, io);
    Pricing.FormatPriceRoundTrip(GroupOutcome(key, files, io).product.basePrice);
  }
}
