/**
 * The thumbnail converter of the `webpconv` package: decode, return WebP
 * input untouched, otherwise read EXIF for a position and the orientation,
 * rotate, note whether the picture is portrait, fit it into a square box and
 * encode it as WebP.
 */
module Webpconv {
  import opened Outcomes
  import opened Imaging

  /** The converter's result; the latitude and longitude floats are not modelled. */
  datatype WebPResult = WebPResult(data: Bytes, hasGeo: bool, isPortrait: bool)

  /** The quarter turns EXIF orientations 3, 6 and 8 ask for (180, 270 and 90 degrees); none otherwise. */
  function QuarterTurns(orient: int): nat {
    match orient
    case 3 => 2
    case 6 => 3
    case 8 => 1
    case _ => 0
  }

  /** Rotates by 180 degrees for 3, 270 for 6 and 90 for 8; every other value leaves the picture as it is. */
  function ApplyOrientation(p: Picture, orient: int): Picture {
    if orient == 3 then Rotate180(p)
    else if orient == 6 then Rotate270(p)
    else if orient == 8 then Rotate90(p)
    else p
  }

  /** The rotation matches the orientation table, swaps the sides exactly for 6 and 8, and changes the picture exactly for 3, 6 and 8. */
  lemma ApplyOrientationEffect(p: Picture, orient: int)
    requires p.turns < 4
    ensures ApplyOrientation(p, orient).turns == (p.turns + QuarterTurns(orient)) % 4
    ensures orient == 6 || orient == 8 ==>
      ApplyOrientation(p, orient).width == p.height && ApplyOrientation(p, orient).height == p.width
    ensures orient != 6 && orient != 8 ==>
      ApplyOrientation(p, orient).width == p.width && ApplyOrientation(p, orient).height == p.height
    ensures ApplyOrientation(p, orient) == p <==> QuarterTurns(orient) == 0
  {
  }

  /** The picture after the orientation tag is applied; only a tag that reads as an integer counts. */
  function Oriented(p: Picture, e: Exif): Picture {
    if e.Exif? && e.orientation.IntTag? then ApplyOrientation(p, e.orientation.value) else p
  }

  /** What the converter decides to do with its input. */
  datatype Plan =
    | Undecodable
    | KeepOriginal
    | Encode(picture: Picture, hasGeo: bool, isPortrait: bool)

  function PlanFor(data: Bytes, maxSize: nat, c: Codecs): Plan {
    match c.decode(data)
    case None => Undecodable
    case Some(d) =>
      if d.format == "webp" then KeepOriginal
      else
        var e := c.exif(data);
        var o := Oriented(d.picture, e);
        var fitted := if o.width > maxSize || o.height > maxSize then Fit(o, maxSize, maxSize) else o;
        Encode(fitted, e.Exif? && e.hasLatLong, o.height > o.width)
  }

  /** The converter's outcome: an error, the input itself, or the encoder's output with the two flags. */
  function Converted(data: Bytes, maxSize: nat, c: Codecs): Result<WebPResult, string> {
    match PlanFor(data, maxSize, c)
    case Undecodable => Err("failed to decode image")
    case KeepOriginal => Ok(WebPResult(data, false, false))
    case Encode(p, geo, portrait) =>
      match c.encode(p)
      case None => Err("failed to encode webp")
      case Some(out) => Ok(WebPResult(out, geo, portrait))
  }

  /** The conversion, step by step as the package performs it. */
  method ConvertToWebP(data: Bytes, maxSize: nat, c: Codecs) returns (r: Result<WebPResult, string>)
    ensures r == Converted(data, maxSize, c)
    ensures c.decode(data).None? ==> r.Err?
    ensures c.decode(data).Some? && c.decode(data).value.format == "webp" ==> r == Ok(WebPResult(data, false, false))
  {
    var decoded := c.decode(data);
    if decoded.None? {
      return Err("failed to decode image");
    }
    var img := decoded.value.picture;
    if decoded.value.format == "webp" {
      return Ok(WebPResult(data, false, false));
    }
    var hasGeo := false;
    var e := c.exif(data);
    if e.Exif? {
      if e.hasLatLong {
        hasGeo := true;
      }
      if e.orientation.IntTag? {
        img := ApplyOrientation(img, e.orientation.value);
      }
    }
    var w, h := img.width, img.height;
    var isPortrait := h > w;
    if w > maxSize || h > maxSize {
      img := Fit(img, maxSize, maxSize);
    }
    var buf := c.encode(img);
    if buf.None? {
      return Err("failed to encode webp");
    }
    r := Ok(WebPResult(buf.value, hasGeo, isPortrait));
  }

  /**
   * For input that is not WebP: the position flag is set exactly when EXIF
   * decodes and yields a position, the orientation is applied whenever the tag
   * reads as an integer, and an encoder failure is an error.
   */
  lemma EncodePath(data: Bytes, maxSize: nat, c: Codecs)
    requires c.decode(data).Some? && c.decode(data).value.format != "webp"
    ensures PlanFor(data, maxSize, c).Encode?
    ensures PlanFor(data, maxSize, c).hasGeo <==> c.exif(data).Exif? && c.exif(data).hasLatLong
    ensures c.exif(data).Exif? && c.exif(data).orientation.IntTag? ==>
      Oriented(c.decode(data).value.picture, c.exif(data))
      == ApplyOrientation(c.decode(data).value.picture, c.exif(data).orientation.value)
    ensures c.encode(PlanFor(data, maxSize, c).picture).None? <==> Converted(data, maxSize, c).Err?
  {
  }

  /**
   * The portrait flag compares the sides after rotation and before fitting:
   * for orientations 6 and 8 it says the original was wider than tall.
   */
  lemma PortraitAfterRotation(data: Bytes, maxSize: nat, c: Codecs)
    requires c.decode(data).Some? && c.decode(data).value.format != "webp"
    requires c.exif(data).Exif? && c.exif(data).orientation.IntTag?
    ensures var v := c.exif(data).orientation.value; var p := c.decode(data).value.picture;
      (v == 6 || v == 8 ==> (PlanFor(data, maxSize, c).isPortrait <==> p.width > p.height))
      && (v != 6 && v != 8 ==> (PlanFor(data, maxSize, c).isPortrait <==> p.height > p.width))
  {
  }

  /**
   * The encoded picture always fits the `maxSize` square, and it is the
   * rotated picture itself exactly when that already fit.
   */
  lemma EncodedFitsBox(data: Bytes, maxSize: nat, c: Codecs)
    requires maxSize >= 1
    requires PlanFor(data, maxSize, c).Encode?
    ensures PlanFor(data, maxSize, c).picture.width <= maxSize
    ensures PlanFor(data, maxSize, c).picture.height <= maxSize
    ensures var o := Oriented(c.decode(data).value.picture, c.exif(data));
      o.width <= maxSize && o.height <= maxSize ==> PlanFor(data, maxSize, c).picture == o
  {
    var o := Oriented(c.decode(data).value.picture, c.exif(data));
    FitWithinBox(o, maxSize, maxSize);
  }
}
