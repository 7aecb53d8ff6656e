/**
 * The fixed configuration of the pipeline: output location, accepted
 * extensions, image variants, watermark position, listing defaults, the
 * price matrix and the limits on extras, tags and key length.
 */
module Config {

  const OutputRoot: string := "/Users/michaelhaslim/Documents/Hostinger_Website_Files/print-shop/data/etsy-processed"

  /** Suffixes (lower-cased) of the files the scan accepts. */
  const AllowedExtensions: set<string> := {".jpg", ".jpeg", ".png", ".tif", ".tiff"}

  /** A path containing this text holds already processed files and is skipped. */
  const ProcessedMarker: string := "listing_print_files"

  /** One derivative size: label (`name`), canvas width and height, background colour. */
  datatype Variant = Variant(name: string, width: nat, height: nat, background: string)

  const Variants: seq<Variant> := [
    Variant("etsy_primary_3000x2400", 3000, 2400, "#ffffff"),
    Variant("etsy_square_2000", 2000, 2000, "#ffffff"),
    Variant("website_large_1600", 1600, 1600, "#ffffff"),
    Variant("website_medium_1000", 1000, 1000, "#ffffff"),
    Variant("website_thumb_400", 400, 400, "#ffffff")
  ]

  /** The square canvas every extra image is letterboxed onto, and its colour. */
  const ExtraSide: nat := 2000
  const ExtraBackground: string := "#ffffff"

  const WatermarkPosition: string := "bottom_right"

  const MaxExtras: nat := 9
  const DefaultTags: seq<string> := ["fine art print", "photography", "wall art", "landscape", "home decor"]
  const DefaultMaterials: seq<string> := ["archival ink", "fine-art paper", "museum quality"]

  /** Most tags a marketplace listing accepts. */
  const TagLimit: nat := 13

  /** The `max_length` handed to the slug step of the product key. */
  const KeyMaxLength: nat := 50

  /** Whole-currency prices per category (rows) and location (columns). */
  const PriceMatrix: map<string, map<string, nat>> := map[
    "Architecture" := map["California" := 45, "Hawaii" := 55, "Arizona" := 40, "Other" := 35],
    "Landscapes" := map["California" := 50, "Hawaii" := 65, "Arizona" := 45, "Other" := 40],
    "Cityscapes" := map["California" := 45, "Hawaii" := 55, "Arizona" := 40, "Other" := 35],
    "Nature" := map["California" := 40, "Hawaii" := 60, "Arizona" := 35, "Other" := 30],
    "Other" := map["California" := 35, "Hawaii" := 45, "Arizona" := 30, "Other" := 25]
  ]
}
