/**
 * The marketplace description: a fixed multi-section template with the
 * title, the lower-cased category and, when it is known, the location
 * substituted, its lines joined with newlines.
 */
module Description {
  import opened Text

  /** The framed-picture pictograph that opens the title line. */
  const Picture: string := "\U{1F5BC}\U{FE0F}"

  // The template's text. Each line is written as short pieces so that its
  // freedom from newlines is cheap to check; the escapes are the
  // pictographs that open some lines: sparkles, bullet, palette,
  // triangular ruler, delivery truck, heart with ribbon.
  const WhatYouGetHeading: string := "\U{2728}" + " WHAT " + "YOU GET:"
  const DownloadBullet: string := "\U{2022}" + " " + "High-reso" + "lution " + "digital " + "download"
  const SizesBullet: string := "\U{2022}" + " " + "Multiple " + "sizes " + "included " + "(8x10, " + "11x14, " + "16x20)"
  const PrintReadyBullet: string := "\U{2022}" + " " + "Print-rea" + "dy " + "files at " + "300 DPI"
  const InstantBullet: string := "\U{2022}" + " Instant " + "download " + "after " + "purchase"
  const PrintDetailsHeading: string := "\U{1F3A8}" + " PRINT " + "DETAILS:"
  const ArchivalBullet: string := "\U{2022}" + " " + "Professio" + "nal " + "archival " + "quality " + "recommend" + "ed"
  const MuseumBullet: string := "\U{2022}" + " " + "Museum-gr" + "ade " + "paper " + "for " + "lasting " + "beauty"
  const FrameBullet: string := "\U{2022}" + " Frame " + "not " + "included"
  const SizingHeading: string := "\U{1F4D0}" + " SIZING " + "OPTIONS:"
  const SizingText: string := "Files " + "are " + "sized to " + "print " + "perfectly" + " " + "at " + "standard " + "frame " + "sizes. " + "Print at " + "home or " + "at your " + "local " + "print " + "shop."
  const DeliveryHeading: string := "\U{1F69A}" + " " + "DELIVERY:"
  const DeliveryText: string := "Instant " + "digital " + "download " + "- no " + "waiting, " + "no " + "shipping " + "fees!"
  const GiftLine: string := "\U{1F49D}" + " Perfect " + "for home " + "decor, " + "office " + "spaces, " + "or as a " + "thoughtfu" + "l " + "gift for " + "photograp" + "hy " + "and " + "nature " + "lovers."
  const QuestionsLine: string := "Questions" + "? " + "Message " + "me " + "anytime!"
  const TransformStart: string := "Transform" + " " + "your " + "space " + "with " + "this " + "stunning "
  const CapturedStart: string := "captured " + "in the " + "breathtak" + "ing " + "landscape" + "s " + "of "
  const GenericPlace: string := "featuring" + " " + "exception" + "al " + "compositi" + "on " + "and " + "natural " + "beauty."

  /** The sentence ending that names the location, or the generic one for "Other". */
  function PlaceLine(location: string): string {
    if location != "Other" then CapturedStart + location + "." else GenericPlace
  }

  // The template's fixed tail, the same for every product, section by section.
  const WhatYouGet: seq<string> := ["", WhatYouGetHeading, DownloadBullet, SizesBullet, PrintReadyBullet, InstantBullet]

  const PrintDetails: seq<string> := ["", PrintDetailsHeading, ArchivalBullet, MuseumBullet, FrameBullet]

  const SizingAndDelivery: seq<string> := ["", SizingHeading, SizingText, "", DeliveryHeading, DeliveryText]

  const SignOff: seq<string> := ["", GiftLine, "", QuestionsLine]

  const ClosingLines: seq<string> := WhatYouGet + PrintDetails + SizingAndDelivery + SignOff

  /** `desc_parts` after the branch on the location and the final `extend`. */
  function Lines(title: string, category: string, location: string): seq<string> {
    Opening(title, category, location) + ClosingLines
  }

  /** The four lines that carry the substituted values. */
  function Opening(title: string, category: string, location: string): seq<string> {
    [Picture + " " + title, "", TransformStart + LowerStr(category) + " photograph", PlaceLine(location)]
  }

  /** `create_etsy_description(title, category, location)`. */
  function CreateEtsyDescription(title: string, category: string, location: string): string {
    Join("\n", Lines(title, category, location))
  }

  /** No line holds a newline. */
  predicate SingleLines(lines: seq<string>) {
    forall k :: 0 <= k < |lines| ==> '\n' !in lines[k]
  }

  // Each fixed line is a single line.
  lemma WhatYouGetHeadingSingle() ensures '\n' !in WhatYouGetHeading {}
  lemma DownloadBulletSingle() ensures '\n' !in DownloadBullet {}
  lemma SizesBulletSingle() ensures '\n' !in SizesBullet {}
  lemma PrintReadyBulletSingle() ensures '\n' !in PrintReadyBullet {}
  lemma InstantBulletSingle() ensures '\n' !in InstantBullet {}
  lemma PrintDetailsHeadingSingle() ensures '\n' !in PrintDetailsHeading {}
  lemma ArchivalBulletSingle() ensures '\n' !in ArchivalBullet {}
  lemma MuseumBulletSingle() ensures '\n' !in MuseumBullet {}
  lemma FrameBulletSingle() ensures '\n' !in FrameBullet {}
  lemma SizingHeadingSingle() ensures '\n' !in SizingHeading {}
  lemma SizingTextSingle() ensures '\n' !in SizingText {}
  lemma DeliveryHeadingSingle() ensures '\n' !in DeliveryHeading {}
  lemma DeliveryTextSingle() ensures '\n' !in DeliveryText {}
  lemma GiftLineSingle() ensures '\n' !in GiftLine {}
  lemma QuestionsLineSingle() ensures '\n' !in QuestionsLine {}
  lemma TransformStartSingle() ensures '\n' !in TransformStart {}
  lemma CapturedStartSingle() ensures '\n' !in CapturedStart {}
  lemma GenericPlaceSingle() ensures '\n' !in GenericPlace {}

  lemma WhatYouGetSingle()
    ensures SingleLines(WhatYouGet)
  {
    WhatYouGetHeadingSingle();
    DownloadBulletSingle();
    SizesBulletSingle();
    PrintReadyBulletSingle();
    InstantBulletSingle();
  }

  lemma PrintDetailsSingle()
    ensures SingleLines(PrintDetails)
  {
    PrintDetailsHeadingSingle();
    ArchivalBulletSingle();
    MuseumBulletSingle();
    FrameBulletSingle();
  }

  lemma SizingAndDeliverySingle()
    ensures SingleLines(SizingAndDelivery)
  {
    SizingHeadingSingle();
    SizingTextSingle();
    DeliveryHeadingSingle();
    DeliveryTextSingle();
  }

  lemma SignOffSingle()
    ensures SingleLines(SignOff)
  {
    GiftLineSingle();
    QuestionsLineSingle();
  }

  lemma SingleLinesConcat(a: seq<string>, b: seq<string>)
    requires SingleLines(a) && SingleLines(b)
    ensures SingleLines(a + b)
  {
    assert forall k :: 0 <= k < |a + b| ==> (a + b)[k] == if k < |a| then a[k] else b[k - |a|];
  }

  /** Every line of the fixed tail is a single line. */
  lemma ClosingLinesSingle()
    ensures SingleLines(ClosingLines)
  {
    WhatYouGetSingle();
    PrintDetailsSingle();
    SizingAndDeliverySingle();
    SignOffSingle();
    SingleLinesConcat(WhatYouGet, PrintDetails);
    SingleLinesConcat(WhatYouGet + PrintDetails, SizingAndDelivery);
    SingleLinesConcat(WhatYouGet + PrintDetails + SizingAndDelivery, SignOff);
  }

  /** The fourth line names the location exactly when it is not "Other". */
  lemma PlaceLineNamesKnownLocation(location: string)
    ensures location != "Other" <==> PlaceLine(location) == CapturedStart + location + "."
  {
    if location == "Other" {
      assert (CapturedStart + location + ".")[0] == 'c';
      assert PlaceLine(location)[0] == 'f';
    }
  }

  lemma OpeningSingle(title: string, category: string, location: string)
    requires '\n' !in title && '\n' !in category && '\n' !in location
    ensures SingleLines(Opening(title, category, location))
  {
    TransformStartSingle();
    CapturedStartSingle();
    GenericPlaceSingle();
    assert '\n' !in LowerStr(category);
  }

  /**
   * When the substituted values are single-line, the description has exactly
   * 25 lines and splitting it at newlines gives the template's lines back.
   */
  lemma DescriptionLines(title: string, category: string, location: string)
    requires '\n' !in title && '\n' !in category && '\n' !in location
    ensures SplitOn(CreateEtsyDescription(title, category, location), '\n') == Lines(title, category, location)
    ensures |Lines(title, category, location)| == 25
  {
    var lines := Lines(title, category, location);
    OpeningSingle(title, category, location);
    ClosingLinesSingle();
    SingleLinesConcat(Opening(title, category, location), ClosingLines);
    SplitJoin(lines, '\n');
  }
}
