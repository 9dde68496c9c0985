/**
 * The media record and the two storage paths derived from it: the local
 * thumbnail path and the path of the original file on the remote store.
 */
module MediaModel {
  import opened Outcomes
  import opened Text

  /** A calendar date; the time of day and the zone play no part in the paths. */
  datatype Date = Date(year: nat, month: nat, day: nat)

  /** The dates Go's "2006/01/02" layout prints without overflowing its four-digit year. */
  predicate ValidDate(d: Date) {
    d.year <= 9999 && 1 <= d.month <= 12 && 1 <= d.day <= 31
  }

  /** One row of the media table. `id` is the primary key the database assigns on insert. */
  datatype Media = Media(
    id: nat,
    isPublic: bool,
    date: Date,
    userId: Option<string>,
    fileExt: string,
    mediaType: string,
    caption: string,
    createdAt: int,
    isFavourite: bool)

  /** `yyyy/mm/dd`, every part zero-padded to its width. */
  function DateLayout(d: Date): string {
    ZeroPad(Decimal(d.year), 4) + "/" + ZeroPad(Decimal(d.month), 2) + "/" + ZeroPad(Decimal(d.day), 2)
  }

  /** For a valid date the layout has ten characters and each part reads back as its number. */
  lemma DateLayoutParses(d: Date)
    requires ValidDate(d)
    ensures var s := DateLayout(d);
      |s| == 10 && s[4] == '/' && s[7] == '/'
      && AllDigits(s[..4]) && AllDigits(s[5..7]) && AllDigits(s[8..])
      && ParseDigits(s[..4]) == d.year && ParseDigits(s[5..7]) == d.month && ParseDigits(s[8..]) == d.day
  {
    PaddedDecimal(d.year, 4);
    PaddedDecimal(d.month, 2);
    PaddedDecimal(d.day, 2);
    var y, m, dd := ZeroPad(Decimal(d.year), 4), ZeroPad(Decimal(d.month), 2), ZeroPad(Decimal(d.day), 2);
    var s := y + "/" + m + "/" + dd;
    assert s[..4] == y && s[5..7] == m && s[8..] == dd;
  }

  /** `yyyy/mm/dd_{id}.`, the part both paths share. */
  function Stem(m: Media): string
    requires ValidDate(m.date)
  {
    DateLayout(m.date) + "_" + Decimal(m.id) + "."
  }

  /** Media kinds whose local copy is a WebP thumbnail; the comparison ignores ASCII case. */
  predicate HasThumbnail(mediaType: string) {
    ToLower(mediaType) == "image" || ToLower(mediaType) == "video"
  }

  /** The local path: `yyyy/mm/dd_{id}.webp` for images and videos, `yyyy/mm/dd_{id}.{ext}` otherwise. */
  function Path(m: Media): string
    requires ValidDate(m.date)
  {
    Stem(m) + (if HasThumbnail(m.mediaType) then "webp" else m.fileExt)
  }

  /** The remote path: always `yyyy/mm/dd_{id}.{ext}`. */
  function RemotePath(m: Media): string
    requires ValidDate(m.date)
  {
    Stem(m) + m.fileExt
  }

  /** Both paths begin with the zero-padded date, an underscore, the decimal id and a dot. */
  lemma SharedPrefix(m: Media)
    requires ValidDate(m.date)
    ensures HasPrefix(Path(m), Stem(m)) && HasPrefix(RemotePath(m), Stem(m))
    ensures |Stem(m)| == 12 + |Decimal(m.id)|
    ensures Stem(m)[10] == '_' && Stem(m)[|Stem(m)| - 1] == '.'
    ensures ParseDigits(Stem(m)[..4]) == m.date.year
    ensures ParseDigits(Stem(m)[5..7]) == m.date.month
    ensures ParseDigits(Stem(m)[8..10]) == m.date.day
    ensures ParseDigits(Stem(m)[11..|Stem(m)| - 1]) == m.id
  {
    var d := DateLayout(m.date);
    DateLayoutParses(m.date);
    var s := Stem(m);
    assert s[..10] == d;
    assert s[..4] == d[..4] && s[5..7] == d[5..7] && s[8..10] == d[8..];
    assert s[11..|s| - 1] == Decimal(m.id);
    ParseDecimal(m.id);
    assert Path(m)[..|s|] == s;
    assert RemotePath(m)[..|s|] == s;
  }

  /** The remote path ends in `.` followed by the stored extension, whatever the media type. */
  lemma RemotePathSuffix(m: Media)
    requires ValidDate(m.date)
    ensures HasSuffix(RemotePath(m), "." + m.fileExt)
  {
    var r := RemotePath(m);
    var d := DateLayout(m.date) + "_" + Decimal(m.id);
    assert r == d + ("." + m.fileExt);
  }

  /**
   * Images and videos get a `.webp` local path; every other kind keeps the
   * remote path, so its local path ends in `.webp` only when the remote one does.
   */
  lemma PathExtension(m: Media)
    requires ValidDate(m.date)
    ensures HasThumbnail(m.mediaType) ==> HasSuffix(Path(m), ".webp")
    ensures !HasThumbnail(m.mediaType) ==> Path(m) == RemotePath(m)
    ensures HasSuffix(Path(m), ".webp") <==> HasThumbnail(m.mediaType) || HasSuffix(RemotePath(m), ".webp")
  {
    var d := DateLayout(m.date) + "_" + Decimal(m.id);
    if HasThumbnail(m.mediaType) {
      assert Path(m) == d + ".webp";
    }
  }

  /** The media type is compared after lower-casing: "Image" and "image" give the same local path. */
  lemma PathIgnoresCase(m: Media, t: string)
    requires ValidDate(m.date) && ToLower(t) == ToLower(m.mediaType)
    ensures Path(m.(mediaType := t)) == Path(m)
    ensures RemotePath(m.(mediaType := t)) == RemotePath(m)
  {
  }

  lemma {:induction false} MiddleCancel(a: string, x: string, y: string, b: string)
    requires a + x + b == a + y + b
    ensures x == y
  {
    assert |x| == |y|;
    assert x == (a + x + b)[|a|..|a| + |x|];
    assert y == (a + y + b)[|a|..|a| + |y|];
  }

  /** The local path split as date and underscore, decimal id, and dot with extension. */
  lemma PathParts(m: Media)
    requires ValidDate(m.date)
    ensures Path(m) == (DateLayout(m.date) + "_") + Decimal(m.id) + ("." + (if HasThumbnail(m.mediaType) then "webp" else m.fileExt))
    ensures RemotePath(m) == (DateLayout(m.date) + "_") + Decimal(m.id) + ("." + m.fileExt)
  {
    var x := DateLayout(m.date) + "_" + Decimal(m.id);
    var e := if HasThumbnail(m.mediaType) then "webp" else m.fileExt;
    Associate(x, ".", e);
    Associate(x, ".", m.fileExt);
  }

  lemma Associate(x: string, y: string, z: string)
    ensures (x + y) + z == x + (y + z)
  {
  }

  /** With date, type and extension fixed, the id determines the local path: different ids never collide. */
  lemma PathInjective(m1: Media, m2: Media)
    requires ValidDate(m1.date) && m1.date == m2.date && m1.fileExt == m2.fileExt
    requires HasThumbnail(m1.mediaType) == HasThumbnail(m2.mediaType)
    requires Path(m1) == Path(m2)
    ensures m1.id == m2.id
  {
    PathParts(m1);
    PathParts(m2);
    MiddleCancel(DateLayout(m1.date) + "_", Decimal(m1.id), Decimal(m2.id),
      "." + (if HasThumbnail(m1.mediaType) then "webp" else m1.fileExt));
    DecimalInjective(m1.id, m2.id);
  }

  /** With date and extension fixed, the id determines the remote path. */
  lemma RemotePathInjective(m1: Media, m2: Media)
    requires ValidDate(m1.date) && m1.date == m2.date && m1.fileExt == m2.fileExt
    requires RemotePath(m1) == RemotePath(m2)
    ensures m1.id == m2.id
  {
    PathParts(m1);
    PathParts(m2);
    MiddleCancel(DateLayout(m1.date) + "_", Decimal(m1.id), Decimal(m2.id), "." + m1.fileExt);
    DecimalInjective(m1.id, m2.id);
  }
}
