/**
 * Pricing: a two-level lookup in the fixed price matrix, falling back to the
 * "Other" row for an unknown category and to the row's "Other" column for an
 * unknown location, and the two-decimal text the listing shows.
 */
module Pricing {
  import opened Text
  import Config
  import Facets

  const Columns: set<string> := {"California", "Hawaii", "Arizona", "Other"}

  /** Every row of the matrix has the same four columns, "Other" among them. */
  lemma MatrixShape()
    ensures "Other" in Config.PriceMatrix
    ensures forall c :: c in Config.PriceMatrix ==> Config.PriceMatrix[c].Keys == Columns
    ensures Config.PriceMatrix.Keys == Facets.Categories
  {
  }

  /** `calculate_price(category, location)`. */
  function Price(category: string, location: string): (r: nat)
    ensures 25 <= r <= 65
  {
    MatrixShape();
    var row := if category in Config.PriceMatrix then Config.PriceMatrix[category] else Config.PriceMatrix["Other"];
    if location in row then row[location] else row["Other"]
  }

  /**
   * The lookup never fails: a known pair reads its cell, an unknown category
   * prices as "Other", an unknown location prices as that row's "Other".
   */
  lemma PriceLookup(category: string, location: string)
    ensures category in Config.PriceMatrix && location in Columns ==> Price(category, location) == Config.PriceMatrix[category][location]
    ensures category !in Config.PriceMatrix ==> Price(category, location) == Price("Other", location)
    ensures location !in Columns ==> Price(category, location) == Price(category, "Other")
  {
    MatrixShape();
  }

  /** Every pair the classifier produces is a cell of the matrix, so classified files never need the fallback. */
  lemma ClassifiedPairsArePriced(path: string)
    ensures var m := Facets.ParseMetadata(path);
      m.category in Config.PriceMatrix && m.location in Config.PriceMatrix[m.category]
      && Price(m.category, m.location) == Config.PriceMatrix[m.category][m.location]
  {
    MatrixShape();
  }

  /** `f"{price:.2f}"` for a whole-number price. */
  function FormatPrice(price: nat): (s: string)
    ensures |s| >= 4 && s[|s| - 3..] == ".00"
  {
    NatToString(price) + ".00"
  }

  /** Reads the whole part of a price written by `FormatPrice`. */
  function ParsePrice(s: string): nat
    requires |s| >= 3
    requires forall i :: 0 <= i < |s| - 3 ==> IsDigit(s[i])
  {
    ParseNat(s[..|s| - 3])
  }

  /** The price text reads back as the price. */
  lemma FormatPriceRoundTrip(price: nat)
    ensures ParsePrice(FormatPrice(price)) == price
  {
    var s := FormatPrice(price);
    assert s[..|s| - 3] == NatToString(price);
    ParseNatToString(price);
  }
}
