/**
 * The abstract image both thumbnail converters work on. Pixels are not
 * modelled: a picture is its size plus the number of quarter turns applied
 * to it, and the decoders, the EXIF reader and the WebP encoder are oracles
 * the caller supplies.
 */
module Imaging {
  import opened Outcomes

  /** `turns` counts counter-clockwise quarter turns modulo 4. */
  datatype Picture = Picture(width: nat, height: nat, turns: nat)

  /** How the EXIF Orientation tag (0x0112) reads: absent, present but not an integer, or an integer. */
  datatype OrientationTag = NoTag | NotInt | IntTag(value: int)

  /** What the EXIF reader makes of the file: nothing, or an orientation tag and whether a position decodes. */
  datatype Exif = NoExif | Exif(orientation: OrientationTag, hasLatLong: bool)

  /** A successfully decoded image and the name of the format it was decoded from. */
  datatype Decoded = Decoded(picture: Picture, format: string)

  /** The library calls around the converters: image decoding, EXIF decoding and WebP encoding. */
  datatype Codecs = Codecs(
    decode: Bytes -> Option<Decoded>,
    exif: Bytes -> Exif,
    encode: Picture -> Option<Bytes>)

  function Turn(p: Picture, quarters: nat): Picture {
    p.(turns := (p.turns + quarters) % 4)
  }

  /** A counter-clockwise rotation by 90 degrees swaps width and height. */
  function Rotate90(p: Picture): (r: Picture)
    ensures r.width == p.height && r.height == p.width
  {
    Turn(p, 1).(width := p.height, height := p.width)
  }

  /** A rotation by 180 degrees keeps the size. */
  function Rotate180(p: Picture): (r: Picture)
    ensures r.width == p.width && r.height == p.height
  {
    Turn(p, 2)
  }

  /** A counter-clockwise rotation by 270 degrees swaps width and height. */
  function Rotate270(p: Picture): (r: Picture)
    ensures r.width == p.height && r.height == p.width
  {
    Turn(p, 3).(width := p.height, height := p.width)
  }

  /**
   * Scales to width `w` keeping the aspect ratio, as a resize with height 0
   * does: the height is the rounded proportional height, at least 1.
   */
  function ResizeToWidth(p: Picture, w: nat): (r: Picture)
    requires p.width > 0
    ensures r.width == w && r.height >= 1 && r.turns == p.turns
  {
    var h := (2 * w * p.height + p.width) / (2 * p.width);
    p.(width := w, height := if h < 1 then 1 else h)
  }

  /**
   * Scales down to fit a `maxW` x `maxH` box keeping the aspect ratio: the
   * side that is relatively longer becomes the box side, the other the
   * proportional length rounded down, at least 1.
   */
  function Fit(p: Picture, maxW: nat, maxH: nat): Picture {
    if p.width == 0 || p.height == 0 then p.(width := 0, height := 0)
    else if p.width <= maxW && p.height <= maxH then p
    else if p.width * maxH > maxW * p.height then
      var h := maxW * p.height / p.width;
      p.(width := maxW, height := if h < 1 then 1 else h)
    else
      var w := maxH * p.width / p.height;
      p.(width := if w < 1 then 1 else w, height := maxH)
  }

  /** If b * c <= a * d then the rounded-down proportional length b * c / a is at most d. */
  lemma ScaledAtMost(a: nat, b: nat, c: nat, d: nat)
    requires a > 0 && a * d >= b * c
    ensures b * c / a <= d
  {
    var q := b * c / a;
    assert q * a <= b * c;
    if q > d {
      MultiplyMonotone(d + 1, q, a);
    }
  }

  lemma MultiplyMonotone(x: nat, y: nat, a: nat)
    requires x <= y
    ensures x * a <= y * a
  {
  }

  /** Fitting a picture wider than the box's aspect ratio. */
  lemma FitWide(p: Picture, maxW: nat, maxH: nat)
    requires maxW >= 1 && maxH >= 1 && p.width > 0 && p.height > 0
    requires !(p.width <= maxW && p.height <= maxH) && p.width * maxH > maxW * p.height
    ensures Fit(p, maxW, maxH).width == maxW && 1 <= Fit(p, maxW, maxH).height <= maxH
  {
    ScaledAtMost(p.width, maxW, p.height, maxH);
  }

  /** Fitting a picture at most as wide as the box's aspect ratio. */
  lemma FitTall(p: Picture, maxW: nat, maxH: nat)
    requires maxW >= 1 && maxH >= 1 && p.width > 0 && p.height > 0
    requires !(p.width <= maxW && p.height <= maxH) && p.width * maxH <= maxW * p.height
    ensures Fit(p, maxW, maxH).height == maxH && 1 <= Fit(p, maxW, maxH).width <= maxW
  {
    var a, b, c, d := p.height, maxH, p.width, maxW;
    assert b * c == c * b && a * d == d * a;
    ScaledAtMost(a, b, c, d);
  }

  /** A fitted picture lies inside the box, and one side touches it unless the picture already fit. */
  lemma FitWithinBox(p: Picture, maxW: nat, maxH: nat)
    requires maxW >= 1 && maxH >= 1
    ensures Fit(p, maxW, maxH).width <= maxW && Fit(p, maxW, maxH).height <= maxH
    ensures Fit(p, maxW, maxH).turns == p.turns
    ensures p.width > 0 && p.height > 0 && (p.width > maxW || p.height > maxH) ==>
      Fit(p, maxW, maxH).width == maxW || Fit(p, maxW, maxH).height == maxH
    ensures p.width <= maxW && p.height <= maxH ==> p.width == 0 || p.height == 0 || Fit(p, maxW, maxH) == p
  {
    if p.width > 0 && p.height > 0 && !(p.width <= maxW && p.height <= maxH) {
      if p.width * maxH > maxW * p.height {
        FitWide(p, maxW, maxH);
      } else {
        FitTall(p, maxW, maxH);
      }
    }
  }
}
