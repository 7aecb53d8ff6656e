/**
 * Integer geometry of the image steps: where `pad_resize` pastes the
 * thumbnail on its letterbox canvas, and where `add_watermark` puts the
 * watermark on the base image. Pixel work (resampling, compositing) is not
 * part of this model; sizes come in as integers.
 */
module Geometry {
  import Config

  /** A canvas of the given size and background colour with an image pasted at offset `(x, y)`. */
  datatype Placement = Placement(canvasWidth: nat, canvasHeight: nat, background: string, x: int, y: int)

  /**
   * Floor of `(outer - inner) / 2`, as Python's `//` computes it: the left
   * gap, with the odd pixel (if any) going to the right.
   */
  function CentreOffset(outer: int, inner: int): (x: int)
    ensures 0 <= (outer - inner) - 2 * x <= 1
  {
    (outer - inner) / 2
  }

  /**
   * `pad_resize(im, w, h, bg)`, given the size `(iw, ih)` of the thumbnail
   * taken from the image: a `w` by `h` canvas filled with `bg`, with the
   * thumbnail centred.
   */
  function PadResize(w: nat, h: nat, bg: string, iw: nat, ih: nat): (p: Placement)
    ensures p.canvasWidth == w && p.canvasHeight == h && p.background == bg
    ensures 0 <= (w - iw) - 2 * p.x <= 1
    ensures 0 <= (h - ih) - 2 * p.y <= 1
  {
    Placement(w, h, bg, CentreOffset(w, iw), CentreOffset(h, ih))
  }

  /** An `iw` by `ih` image pasted at `(x, y)` lies inside a `w` by `h` canvas. */
  predicate Inside(x: int, y: int, iw: nat, ih: nat, w: nat, h: nat) {
    0 <= x && x + iw <= w && 0 <= y && y + ih <= h
  }

  /**
   * A thumbnail that fits the canvas is pasted entirely inside it, and its
   * margins on opposite sides differ by at most one pixel (the extra pixel
   * on the right and at the bottom).
   */
  lemma PadResizeCentres(w: nat, h: nat, bg: string, iw: nat, ih: nat)
    requires iw <= w && ih <= h
    ensures var p := PadResize(w, h, bg, iw, ih);
      Inside(p.x, p.y, iw, ih, w, h)
      && 0 <= (w - (p.x + iw)) - p.x <= 1
      && 0 <= (h - (p.y + ih)) - p.y <= 1
  {
  }

  /**
   * The letterboxes the run makes: each variant's canvas has the variant's
   * size and colour, each extra's is a white 2000-pixel square, and a
   * thumbnail that fits (as `thumbnail` makes it) lies centred inside.
   */
  lemma ConfiguredCanvases(iw: nat, ih: nat)
    ensures forall v :: v in Config.Variants && iw <= v.width && ih <= v.height ==>
      var p := PadResize(v.width, v.height, v.background, iw, ih);
      && p.canvasWidth == v.width && p.canvasHeight == v.height && p.background == v.background
      && Inside(p.x, p.y, iw, ih, v.width, v.height)
    ensures iw <= Config.ExtraSide && ih <= Config.ExtraSide ==>
      var p := PadResize(Config.ExtraSide, Config.ExtraSide, Config.ExtraBackground, iw, ih);
      && p.canvasWidth == 2000 && p.canvasHeight == 2000 && p.background == "#ffffff"
      && Inside(p.x, p.y, iw, ih, 2000, 2000)
  {
    forall v | v in Config.Variants && iw <= v.width && ih <= v.height
      ensures Inside(PadResize(v.width, v.height, v.background, iw, ih).x, PadResize(v.width, v.height, v.background, iw, ih).y, iw, ih, v.width, v.height)
    {
      PadResizeCentres(v.width, v.height, v.background, iw, ih);
    }
    if iw <= Config.ExtraSide && ih <= Config.ExtraSide {
      PadResizeCentres(Config.ExtraSide, Config.ExtraSide, Config.ExtraBackground, iw, ih);
    }
  }

  /** The five watermark anchors and the offsets they give. */
  function PositionMap(bw: int, bh: int, ww: int, wh: int, margin: int): (m: map<string, (int, int)>)
    ensures m.Keys == {"bottom_right", "bottom_left", "top_right", "top_left", "center"}
  {
    map[
      "bottom_right" := (bw - ww - margin, bh - wh - margin),
      "bottom_left" := (margin, bh - wh - margin),
      "top_right" := (bw - ww - margin, margin),
      "top_left" := (margin, margin),
      "center" := ((bw - ww) / 2, (bh - wh) / 2)
    ]
  }

  /**
   * `pos_map.get(pos, pos_map["bottom_right"])`: the offset of a `ww` by `wh`
   * watermark on a `bw` by `bh` base, `margin` pixels from the chosen edges.
   */
  function WatermarkOffset(pos: string, bw: int, bh: int, ww: int, wh: int, margin: int): (o: (int, int))
    ensures pos in PositionMap(bw, bh, ww, wh, margin) ==> o == PositionMap(bw, bh, ww, wh, margin)[pos]
    ensures pos !in PositionMap(bw, bh, ww, wh, margin) ==> o == (bw - ww - margin, bh - wh - margin)
  {
    var m := PositionMap(bw, bh, ww, wh, margin);
    if pos in m then m[pos] else m["bottom_right"]
  }

  /** An unknown anchor name places the watermark like `bottom_right`. */
  lemma UnknownPositionIsBottomRight(pos: string, bw: int, bh: int, ww: int, wh: int, margin: int)
    requires pos !in {"bottom_right", "bottom_left", "top_right", "top_left", "center"}
    ensures WatermarkOffset(pos, bw, bh, ww, wh, margin) == (bw - ww - margin, bh - wh - margin)
  {
  }

  /**
   * Every anchor keeps the watermark inside the base when the base leaves
   * room for the watermark and a margin on each side.
   */
  lemma WatermarkInside(pos: string, bw: nat, bh: nat, ww: nat, wh: nat, margin: nat)
    requires ww + 2 * margin <= bw && wh + 2 * margin <= bh
    ensures var o := WatermarkOffset(pos, bw, bh, ww, wh, margin);
      Inside(o.0, o.1, ww, wh, bw, bh)
  {
  }

  /**
   * The gaps between the watermark and the base's edges: exactly `margin`
   * on the sides an anchor names, and, for `center`, left and right (top
   * and bottom) gaps that differ by at most one pixel.
   */
  lemma WatermarkGaps(bw: int, bh: int, ww: int, wh: int, margin: int)
    ensures var o := WatermarkOffset("bottom_right", bw, bh, ww, wh, margin);
      bw - (o.0 + ww) == margin && bh - (o.1 + wh) == margin
    ensures var o := WatermarkOffset("bottom_left", bw, bh, ww, wh, margin);
      o.0 == margin && bh - (o.1 + wh) == margin
    ensures var o := WatermarkOffset("top_right", bw, bh, ww, wh, margin);
      bw - (o.0 + ww) == margin && o.1 == margin
    ensures var o := WatermarkOffset("top_left", bw, bh, ww, wh, margin);
      o.0 == margin && o.1 == margin
    ensures var o := WatermarkOffset("center", bw, bh, ww, wh, margin);
      0 <= (bw - (o.0 + ww)) - o.0 <= 1 && 0 <= (bh - (o.1 + wh)) - o.1 <= 1
  {
  }

  /** The configured anchor, `bottom_right`, leaves exactly `margin` on the right and at the bottom. */
  lemma ConfiguredWatermark(bw: int, bh: int, ww: int, wh: int, margin: int)
    ensures var o := WatermarkOffset(Config.WatermarkPosition, bw, bh, ww, wh, margin);
      bw - (o.0 + ww) == margin && bh - (o.1 + wh) == margin
  {
    WatermarkGaps(bw, bh, ww, wh, margin);
  }
}
