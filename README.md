# Etsy listing pipeline — a Dafny model

`scripts/etsy-pipeline.py` turns a folder of photographs into marketplace
listings. It scans the input tree for image files, groups them by a
*product key* derived from each file name, sorts every group in path
order and then handles the groups one by one:

- it classifies the first file's path into a category and a location;
- it letterboxes the primary image onto five canvases, the *variants*, and
  watermarks each one;
- it saves up to nine *extras*, the files after the primary;
- it prices the product from a fixed matrix, builds at most 13 tags and
  writes a templated description;
- it emits two records per product: a marketplace listing and a website
  product.

At the end it writes the website import rows and a report that counts
products, images, categories and locations.

This project models that core in Dafny 4.11 and proves the properties
the code promises. Each part of the script keeps its own
form:

- **Pure helpers are functions with lemmas**: `product_key`,
  `parse_metadata_from_path`, `calculate_price`, `generate_tags`,
  `create_etsy_description`, the `pad_resize` offsets and the watermark
  `pos_map`.
- **The step-by-step parts of `main` are methods with loop invariants**,
  each proved against a specification function. They are:
  - the dictionary built with `setdefault(...).append`;
  - the per-group `sort()`;
  - the variant and extras loops;
  - the group loop;
  - the website CSV loop.

The file system, the image library and the regular expression are
parameters of the model:

- `Listing.Io` says whether a path is a file, the size of an image when
  it opens, a file's MD5 digest, and whether a folder can be created or an
  output image produced (decoded, watermarked and saved).
- `Pipeline.Run` receives the pattern as a function from a file name to
  its first captured group.

Modules, one per file:

| module | file | what it holds |
|---|---|---|
| `Wrappers` | wrappers.dfy | `Option` |
| `Seqs` | seqs.dfy | duplicate-free lists, first-seen de-duplication (`dict.fromkeys`), counting |
| `Text` | text.dfy | ASCII case mapping, search, `split`/`join`, `str.title`, number text |
| `Config` | config.dfy | the constants of lines 17-42 and 45-51, the processed-files marker (line 61), the key length (line 74), the tag limit (line 196) and the extras' canvas (line 301); the product pattern of line 54 is a parameter instead |
| `Identity` | identity.dfy | paths, suffix/stem, the scan filter, the slug step, `product_key` |
| `Facets` | facets.dfy | `parse_metadata_from_path` |
| `Pricing` | pricing.dfy | `calculate_price`, the price text |
| `Tags` | tags.dfy | `generate_tags` |
| `Description` | description.dfy | `create_etsy_description` |
| `Geometry` | geometry.dfy | `pad_resize` offsets, watermark anchors |
| `Grouping` | grouping.dfy | grouping and sorting (lines 249-259) |
| `Listing` | listing.dfy | one group through the loop body (lines 269-354) |
| `Export` | export.dfy | website CSV rows, the report's counts |
| `Pipeline` | pipeline.dfy | the whole run |

Points where the code behaves differently from what one might expect, and the model follows the code:

- **The product key can be empty.** One might expect a non-empty slug of
  at most 50 characters. The code can produce an empty key: a name the
  pattern rejects whose stem starts with `_` (for example
  `_x.jpg`) falls back to the empty text before the underscore. The model
  keeps that (`Identity.EmptyKeyExample`), and also keeps what the code
  then does with it: `OUTPUT_ROOT / "etsy_images" / ""` is the images
  folder itself (`Listing.ProductDir`).
- **Prices are whole numbers.** Every value in the matrix is an integer,
  so `Pricing.Price` is a natural number and the listing shows it with
  `.00`.
- **A primary image that fails to load drops the whole group.** One might
  expect a file that cannot be decoded to be skipped on its own, with a
  group failing only when that file was its only one. The code instead
  moves on to the next group as soon as the first file of a group does
  not load (lines 279-281), even when the other files would load. Only
  the extras are skipped one by one. The model follows the code
  (`Listing.PrimaryLoadFailureSkipsGroup`).

## Model

| member | source | states |
|---|---|---|
| `Identity.StemSuffixSplit` | scripts/etsy-pipeline.py:59 | `p.suffix` and `p.stem` split the name: stem + suffix is the name, the suffix is empty or a dot and at least one dot-free character, and a name with a suffix has a non-empty stem |
| `Identity.CandidateHasStem` | scripts/etsy-pipeline.py:56-63 | a file the scan accepts has a non-empty stem and suffix |
| `Pipeline.Scan` | scripts/etsy-pipeline.py:56-63 | the scanned files are exactly the regular files among the entries with an accepted extension (any case) whose path does not contain `listing_print_files` |
| `Pipeline.ScanOne` | scripts/etsy-pipeline.py:57-63 | a single entry is kept exactly when it is a regular file with an accepted extension whose path does not contain `listing_print_files` |
| `Pipeline.ScanAppend` | scripts/etsy-pipeline.py:56-63 | scanning two stretches of the walk gives the two scans in sequence, so the scan keeps accepted entries in walk order, each as often as it occurs |
| `Identity.Slugify` | scripts/etsy-pipeline.py:74 | the slug step always gives a well-formed slug (lower-case letters and digits in words joined by single dashes, none at either end) of at most 50 characters |
| `Identity.SlugifyIdempotent` | scripts/etsy-pipeline.py:74 | slugifying a key again leaves it unchanged |
| `Identity.FallbackStem` | scripts/etsy-pipeline.py:72 | the fallback stem is the prefix of the stem before its first underscore, or the whole stem when it has none |
| `Identity.ProductKey` | scripts/etsy-pipeline.py:65-74 | `product_key` gives a well-formed slug of at most 50 characters for every name, whether the pattern matches or not |
| `Identity.FallbackIgnoresAfterUnderscore` | scripts/etsy-pipeline.py:70-74 | two names the pattern rejects whose stems agree up to their first underscore get the same key |
| `Identity.EmptyKeyExample` | scripts/etsy-pipeline.py:72-74 | `_x.jpg`, which the pattern rejects, gets the empty key |
| `Facets.FirstFiring` | scripts/etsy-pipeline.py:86-101 | the `if`/`elif` chain picks the first rule that has a keyword in the path, and no earlier rule does |
| `Facets.ParseMetadata` | scripts/etsy-pipeline.py:76-103 | the category is one of the five categories and the location one of the four locations |
| `Facets.PickFirstMatchWins` | scripts/etsy-pipeline.py:86-101 | a rule that fires with no earlier rule firing decides the value |
| `Facets.PickDefault` | scripts/etsy-pipeline.py:81-82 | no rule firing leaves the value "Other" |
| `Facets.HawaiiWins` | scripts/etsy-pipeline.py:96-97 | any Hawaii keyword makes the location Hawaii, whatever else the path holds |
| `Facets.NatureOnlyViaWildlifeOrNatural` | scripts/etsy-pipeline.py:86-93 | a path classified Nature has no "nature" in it and has "wildlife" or "natural": the Landscapes rule takes "nature" first |
| `Facets.LandscapePathsReadAsCalifornia` | scripts/etsy-pipeline.py:98-99 | "ca" occurs in "landscape", so a path with "landscape" and no Hawaii keyword is placed in California |
| `Facets.NoKeywordMeansOther` | scripts/etsy-pipeline.py:81-103 | a path with no keyword of either list is "Other"/"Other" |
| `Pricing.MatrixShape` | scripts/etsy-pipeline.py:45-51 | the matrix has an "Other" row, its rows are exactly the five categories, and every row has the same four columns |
| `Pricing.Price` | scripts/etsy-pipeline.py:168-171 | `calculate_price` is total and always between 25 and 65 |
| `Pricing.PriceLookup` | scripts/etsy-pipeline.py:168-171 | a known pair reads its cell, an unknown category prices as "Other", an unknown location prices as its row's "Other" column |
| `Pricing.ClassifiedPairsArePriced` | scripts/etsy-pipeline.py:168-171 | every category/location pair the classifier produces is a cell of the matrix |
| `Pricing.FormatPrice` | scripts/etsy-pipeline.py:321 | the price text ends in ".00" |
| `Pricing.FormatPriceRoundTrip` | scripts/etsy-pipeline.py:321 | the price text reads back as the price |
| `Tags.LongWordsShape` | scripts/etsy-pipeline.py:193 | the kept keywords are exactly the key's words longer than two characters |
| `Tags.GenerateTags` | scripts/etsy-pipeline.py:173-196 | the method builds the tags in the source's order and returns the de-duplicated, 13-limited tag list |
| `Tags.TagListShape` | scripts/etsy-pipeline.py:173-196 | at most 13 tags; none repeated; each one a candidate; every candidate kept while there is room; the five defaults first and in order |
| `Tags.DefaultsDistinct` | scripts/etsy-pipeline.py:41 | the default tags are distinct |
| `Tags.TagsCommaFree` | scripts/etsy-pipeline.py:173-196 | no tag contains a comma when the key and location contain none |
| `Description.PlaceLineNamesKnownLocation` | scripts/etsy-pipeline.py:206-209 | the fourth line names the location exactly when it is not "Other" |
| `Description.DescriptionLines` | scripts/etsy-pipeline.py:198-235 | with single-line inputs, the description has 25 lines and splitting it at newlines gives back the template lines with title, lower-cased category and location substituted |
| `Geometry.CentreOffset` | scripts/etsy-pipeline.py:121 | `(outer - inner) // 2` leaves a left gap equal to the right gap or one pixel less |
| `Geometry.PadResize` | scripts/etsy-pipeline.py:116-122 | the canvas is exactly `w` by `h` in colour `bg`, and the paste offset centres the thumbnail, the odd pixel going right and down |
| `Geometry.PadResizeCentres` | scripts/etsy-pipeline.py:116-122 | a thumbnail that fits lies inside the canvas, and its opposite margins differ by at most one pixel |
| `Geometry.PositionMap` | scripts/etsy-pipeline.py:143-149 | `pos_map` has exactly the five anchors |
| `Geometry.UnknownPositionIsBottomRight` | scripts/etsy-pipeline.py:151 | an unknown anchor places the watermark like `bottom_right` |
| `Geometry.WatermarkInside` | scripts/etsy-pipeline.py:142-151 | every anchor keeps the watermark inside the base when the base has room for it and a margin on each side |
| `Geometry.WatermarkGaps` | scripts/etsy-pipeline.py:143-149 | each corner anchor leaves exactly `margin` on its two sides, and `center` leaves opposite gaps that differ by at most one pixel |
| `Geometry.ConfiguredCanvases` | scripts/etsy-pipeline.py:24-30 | each variant's canvas has that variant's size and colour, and each extra's canvas is a white 2000-pixel square; a thumbnail that fits lies inside |
| `Geometry.ConfiguredWatermark` | scripts/etsy-pipeline.py:37 | the configured `bottom_right` anchor leaves exactly `margin` on the right and at the bottom |
| `Grouping.MembersShape` | scripts/etsy-pipeline.py:254 | a key's list holds as many files as have that key, each having it |
| `Grouping.CollectGroups` | scripts/etsy-pipeline.py:249-255 | the pass counts every file; the dictionary's keys are the distinct keys in first-seen order; each list holds the files with its key in scan order; the list sizes add up to the file count |
| `Grouping.GroupStepKnown` | scripts/etsy-pipeline.py:254 | appending to an existing list keeps the dictionary matching the files seen so far |
| `Grouping.GroupStepNew` | scripts/etsy-pipeline.py:254 | `setdefault` on a new key adds it last with a one-file list, keeping the dictionary matching the files seen |
| `Grouping.GroupSizes` | scripts/etsy-pipeline.py:249-255 | the groups partition the files: their sizes sum to the number of files |
| `Grouping.GroupNotEmpty` | scripts/etsy-pipeline.py:254 | no group is empty |
| `Grouping.FileInOwnGroup` | scripts/etsy-pipeline.py:252-254 | every file is in its own key's group and in no other |
| `Grouping.StrLtTotal` | scripts/etsy-pipeline.py:259 | string order on components is total |
| `Grouping.SegsLeTrans` | scripts/etsy-pipeline.py:259 | path order is transitive |
| `Grouping.SegsLeAntisym` | scripts/etsy-pipeline.py:259 | path order is antisymmetric |
| `Grouping.SortSeq` | scripts/etsy-pipeline.py:259 | the reference sort is in path order and a permutation of its input |
| `Grouping.SortPaths` | scripts/etsy-pipeline.py:259 | `sort()` leaves a list in path order and a permutation of the original |
| `Grouping.SortedUnique` | scripts/etsy-pipeline.py:259 | two sorted arrangements of the same files are the same list |
| `Grouping.SortGroups` | scripts/etsy-pipeline.py:257-259 | sorting in place keeps the keys and makes each list a sorted permutation of itself |
| `Listing.VariantMapShape` | scripts/etsy-pipeline.py:284-291 | `variant_paths` has exactly the five labels, each mapped to `{key}_{label}.jpg` in the product folder |
| `Listing.SaveVariants` | scripts/etsy-pipeline.py:284-291 | the loop succeeds exactly when every variant can be written, and then returns the full label-to-path map |
| `Listing.ExtrasEnd` | scripts/etsy-pipeline.py:295 | `files[1:MAX_EXTRAS + 1]` ends at most at the list's end and at most at position 10 |
| `Listing.LoadedExtrasShape` | scripts/etsy-pipeline.py:295-306 | each extra is the file at its own position, from 1 up, so never `files[0]`; positions increase; a position is present exactly when its file opens, so a file `load_rgb` cannot open leaves its number unused |
| `Listing.LoadedExtrasPositions` | scripts/etsy-pipeline.py:295-306 | the extras up to a bound sit at increasing positions from 1, each on its own file |
| `Listing.LoadedExtrasComplete` | scripts/etsy-pipeline.py:295-306 | a position up to the bound has an extra exactly when `load_rgb` opens its file |
| `Listing.ExtrasBounded` | scripts/etsy-pipeline.py:295 | at most nine extras, numbered 1 to 9 |
| `Listing.SaveExtras` | scripts/etsy-pipeline.py:294-306 | the loop succeeds exactly when every loaded extra can be written, and then returns their paths in order |
| `Listing.LaterExtraUnwritable` | scripts/etsy-pipeline.py:304-305 | one loaded extra that cannot be written makes the extras step fail |
| `Listing.ProcessGroup` | scripts/etsy-pipeline.py:269-354 | the loop body yields the records defined by `GroupOutcome`, or skips the group |
| `Listing.PrimaryLoadFailureSkipsGroup` | scripts/etsy-pipeline.py:278-281 | a primary that does not load drops the group, whatever the other files are |
| `Listing.SkippedWhenAStepFails` | scripts/etsy-pipeline.py:269-354 | a group is skipped exactly when the folder, the primary load, a variant save or an extra save fails |
| `Listing.ProcessedRecords` | scripts/etsy-pipeline.py:308-350 | a processed group's listing and product carry the key and the first file's category and location; the listing counts all the group's files, names the variant and extra paths, and writes out the product's price and tags; the product carries the primary's size and all five variants |
| `Listing.ListingTagsReadBack` | scripts/etsy-pipeline.py:323 | the listing's comma-joined tag column reads back as the product's tag list |
| `Listing.ListingPriceReadsBack` | scripts/etsy-pipeline.py:321 | the listing's price text reads back as the product's base price |
| `Export.FlattenWebsite` | scripts/etsy-pipeline.py:372-383 | one row per website product, in order, each carrying that product's fields |
| `Export.RowReadsBack` | scripts/etsy-pipeline.py:374-383 | a row carries its product's title, description, image, price, category and size, and its tag column reads back as the product's tags |
| `Export.CountMap` | scripts/etsy-pipeline.py:395-398 | the count dictionary has exactly the values that occur as keys |
| `Export.CountMapSum` | scripts/etsy-pipeline.py:395-398 | a count dictionary's counts add up to the number of values |
| `Export.ReportCounts` | scripts/etsy-pipeline.py:391-398 | the product total is the number of listings; the category counts and the location counts each add up to it; every listing's category and location is counted |
| `Pipeline.Made` | scripts/etsy-pipeline.py:268-354 | only processed groups contribute records |
| `Pipeline.GroupAndSort` | scripts/etsy-pipeline.py:249-259 | the dictionary after sorting is the sorted group of every key, in first-seen key order |
| `Pipeline.SortedIsSortedGroups` | scripts/etsy-pipeline.py:257-259 | sorting the collected dictionary in place gives exactly the reference sorted groups |
| `Pipeline.ProcessAll` | scripts/etsy-pipeline.py:268-354 | the group loop appends, in key order, the two records of each processed group |
| `Pipeline.Run` | scripts/etsy-pipeline.py:237-398 | the run's listings, products, rows and report are those of the scanned, grouped, sorted and processed groups |
| `Pipeline.MadeFrom` | scripts/etsy-pipeline.py:268-354 | each record is the outcome of its own key, a key of the run |
| `Pipeline.MadeCovers` | scripts/etsy-pipeline.py:268-354 | every key whose group is processed has a record |
| `Pipeline.MadeDistinct` | scripts/etsy-pipeline.py:268-354 | distinct keys give records with distinct skus |
| `Pipeline.GroupRunKeyed` | scripts/etsy-pipeline.py:318-336 | listing `i` and product `i` carry the same key, a key of some scanned file, and the listing counts every scanned file with that key |
| `Pipeline.GroupRunDistinct` | scripts/etsy-pipeline.py:268 | no sku appears twice among the listings |
| `Pipeline.GroupRunComplete` | scripts/etsy-pipeline.py:268-354 | a key is listed exactly when its sorted group is processed |
| `Pipeline.GroupRunImageBound` | scripts/etsy-pipeline.py:394 | the report's image total never exceeds the number of scanned files |

## Left out

- Pixel work is outside the model. That covers decoding, `thumbnail`
  resampling, pasting, watermark scaling and opacity, compositing and
  JPEG encoding. `Geometry` models only the integer offsets. The
  thumbnail's size and the watermark's size are inputs.
- `Geometry.PadResize`: takes the thumbnail size as given. It does not
  model how `thumbnail` shrinks the image to fit the canvas, which
  involves Pillow's rounding.
- The watermark margin `int(0.02 * min(base.size))` and the scaled
  watermark size are floating-point computations. `Geometry.WatermarkOffset`
  takes them as integers.
- `ADD_WATERMARK`, the watermark-file check and the exceptions
  `add_watermark` swallows are not modelled. Either way it returns an image
  of the same size, so no modelled value depends on it.
- `PRODUCT_REGEX` is a parameter: a function from a file name to the
  first captured group. The regular-expression engine is not part of this
  model.
- `Identity.Slugify`: models the slug step over ASCII only. It does not
  model transliteration of non-ASCII text or HTML entity decoding. The
  length cut is modelled exactly: with the default `word_boundary=False`
  it keeps the first 50 characters and strips dashes.
- `Description.DescriptionLines`: the description's leading symbols
  (framed picture, sparkles, bullet and so on) appear in the source text
  as a mis-decoded byte sequence (characters such as U+F8FF, `ü`, `ñ`),
  which the program emits as written. The model uses instead the Unicode
  code points those bytes encode in UTF-8, so the first characters of
  those lines differ from what the code writes.
- `Text.Title` and the lower-casing helpers map ASCII letters only.
  Python's full Unicode case tables are not modelled.
- Decoding errors after a file has opened are folded into `Io.writable`.
  `Image.open` reads only the header, so a file with damaged pixel data
  passes `load_rgb` and raises later, in `pad_resize`, inside the group's
  `try`. The model states that as the output path of that image not being
  writable. A damaged extra therefore drops the whole group, as in the
  code, rather than only that extra. The model does not tell this failure
  apart from a failed save.
- MD5 is a parameter (`Io.digest`). The hash function itself is not part
  of this model.
- The file system is a parameter (`Io`). This covers the recursive
  directory walk, `is_file`, `mkdir`, image loading and saving.
  - The model does not capture which files are left on disk after a group
    fails half-way. The group then contributes no records, which the model
    does capture.
  - The walk's entries come in as a list, in the order the walk yields
    them.
- Creation and report timestamps (`datetime.now()`) are not modelled.
- Console output (`print`, `tqdm`) is not modelled.
- The CSV and JSON serialisation (pandas, `json.dump`) and the report's
  output-path entries are not modelled. Rows and records are modelled as
  values.
- `Pipeline.GroupRunImageBound`: states that the image total is at most
  the number of scanned files. Equality holds only when every group is
  processed; that case is not stated separately.
- The dictionary `variant_paths` is modelled as a map. Its insertion
  order, which only affects JSON key order, is not modelled.
