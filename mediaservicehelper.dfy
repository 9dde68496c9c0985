/**
 * The second set of media helpers, from media_service_helper.go: its own MIME
 * classification and extension extraction, a converter that delegates to the
 * `webpconv` package, and the video poster step, which writes the video to a
 * temporary file, runs ffmpeg on it, reads the poster back and converts it.
 */
module MediaServiceHelper {
  import opened Outcomes
  import opened Text
  import opened Imaging
  import opened MediaModel
  import Webpconv
  import MediaService

  /** "image", "video" or "audio" when the MIME string starts with that word, tried in that order; "other" otherwise. */
  function GetMediaType(mime: string): (t: string)
    ensures t in {"image", "video", "audio", "other"}
    ensures t == "other" <==> !HasPrefix(mime, "image") && !HasPrefix(mime, "video") && !HasPrefix(mime, "audio")
  {
    if HasPrefix(mime, "image") then "image"
    else if HasPrefix(mime, "video") then "video"
    else if HasPrefix(mime, "audio") then "audio"
    else "other"
  }

  /** The two definitions of the classification give the same answer on every MIME string. */
  lemma SameMediaType(mime: string)
    ensures GetMediaType(mime) == MediaService.GetMediaType(mime)
  {
  }

  /** The last part when splitting on '.' gives more than one part, "" otherwise. */
  function GetFileExt(fileName: string): (ext: string)
    ensures '.' !in ext
    ensures '.' in fileName ==> HasSuffix(fileName, "." + ext)
    ensures '.' !in fileName ==> ext == ""
  {
    var parts := SplitOn(fileName, ".");
    MediaService.ExtensionFacts(fileName);
    if |parts| > 1 then parts[|parts| - 1] else ""
  }

  /** Whenever a name is some text, a dot and a dot-free extension, that extension is what is extracted. */
  lemma ExtUnique(fileName: string, stem: string, ext: string)
    requires fileName == stem + "." + ext && '.' !in ext
    ensures GetFileExt(fileName) == ext
  {
    var e := GetFileExt(fileName);
    assert fileName[|stem|] == '.';
    var n := |fileName|;
    assert fileName[n - |e| - 1..] == "." + e;
    assert fileName[n - |ext| - 1..] == "." + ext;
    DotFreeTails(fileName, e, ext);
    assert e == fileName[n - |e|..] && ext == fileName[n - |ext|..];
  }

  /** Two dot-free tails that both follow a dot at the end of the same text have the same length. */
  lemma DotFreeTails(s: string, e1: string, e2: string)
    requires '.' !in e1 && '.' !in e2
    requires |e1| < |s| && |e2| < |s| && s[|s| - |e1| - 1..] == "." + e1 && s[|s| - |e2| - 1..] == "." + e2
    ensures |e1| == |e2|
  {
    LongerTailHasDot(s, e1, e2);
    LongerTailHasDot(s, e2, e1);
  }

  /** The longer of two such tails contains the dot that starts the shorter one. */
  lemma LongerTailHasDot(s: string, e1: string, e2: string)
    requires |e1| < |s| && |e2| < |s| && s[|s| - |e1| - 1..] == "." + e1 && s[|s| - |e2| - 1..] == "." + e2
    ensures |e1| > |e2| ==> '.' in e1
  {
    if |e1| > |e2| {
      assert e1[|e1| - |e2| - 1] == s[|s| - |e2| - 1];
    }
  }

  /** The documented cases: only the last extension, a leading dot, a trailing dot and no dot at all. */
  lemma FileExtLastPart()
    ensures GetFileExt("a.tar.gz") == "gz"
  {
    ExtUnique("a.tar.gz", "a.tar", "gz");
  }

  lemma FileExtLeadingDot()
    ensures GetFileExt(".bashrc") == "bashrc"
  {
    ExtUnique(".bashrc", "", "bashrc");
  }

  lemma FileExtTrailingDot()
    ensures GetFileExt("name.") == ""
  {
    ExtUnique("name.", "name", "");
  }

  lemma FileExtNoDot()
    ensures GetFileExt("name") == ""
  {
    assert '.' !in "name";
  }

  /** The two extension functions agree on every file name. */
  lemma SameFileExt(fileName: string)
    ensures GetFileExt(fileName) == MediaService.GetFileExt(fileName)
  {
  }

  /**
   * Delegates to the `webpconv` converter with a 512 box and passes its error
   * on unchanged. The declared result is a byte slice while the package
   * returns the result record; the model returns the record.
   */
  method ConvertToWebP(data: Bytes, c: Codecs) returns (r: Result<Webpconv.WebPResult, string>)
    ensures r == Webpconv.Converted(data, MediaService.ImgMaxSize, c)
    ensures r.Err? ==> r.error in {"failed to decode image", "failed to encode webp"}
  {
    r := Webpconv.ConvertToWebP(data, MediaService.ImgMaxSize, c);
  }

  /** Whatever the delegate encodes fits the 512 square. */
  lemma DelegateFitsBox(data: Bytes, c: Codecs)
    requires Webpconv.PlanFor(data, MediaService.ImgMaxSize, c).Encode?
    ensures Webpconv.PlanFor(data, MediaService.ImgMaxSize, c).picture.width <= MediaService.ImgMaxSize
    ensures Webpconv.PlanFor(data, MediaService.ImgMaxSize, c).picture.height <= MediaService.ImgMaxSize
  {
    Webpconv.EncodedFitsBox(data, MediaService.ImgMaxSize, c);
  }

  // ---------------------------------------------------------------------
  // The video poster
  // ---------------------------------------------------------------------

  /** `{dir}/media_{id}_orig.{ext}`, the temporary copy of the video. */
  function TempVideoName(dir: string, id: nat, ext: string): string {
    dir + "/media_" + Decimal(id) + "_orig." + ext
  }

  /** The poster ffmpeg writes: the video's temporary name followed by `_poster.png`. */
  function PosterName(dir: string, id: nat, ext: string): string {
    TempVideoName(dir, id, ext) + "_poster.png"
  }

  /** The video filter: scale to at most 512 wide, with an even height that keeps the aspect ratio. */
  function ScaleFilter(): (f: string)
    ensures f == "scale='min(512,iw)':-2"
  {
    assert Decimal(5) == "5" && Decimal(51) == "51" && Decimal(512) == "512";
    "scale='min(" + Decimal(MediaService.ImgMaxSize) + ",iw)':-2"
  }

  /** The ffmpeg command line: one frame of the input, scaled, written to the poster path. */
  function FfmpegArgs(input: string, output: string): seq<string> {
    ["-i", input, "-vf", ScaleFilter(), "-vframes", "1", output]
  }

  /** A digit string followed by a non-digit is determined by the whole text. */
  lemma DigitRunCancel(a: string, b: string, x: string, y: string)
    requires AllDigits(a) && AllDigits(b) && a + x == b + y
    requires |x| > 0 && |y| > 0 && !IsDigit(x[0]) && !IsDigit(y[0])
    ensures a == b && x == y
  {
    assert a == (a + x)[..|a|] && b == (b + y)[..|b|];
    assert x == (a + x)[|a|..] && y == (b + y)[|b|..];
  }

  lemma {:induction false} PrefixCancel(p: string, x: string, y: string)
    requires p + x == p + y
    ensures x == y
  {
    assert x == (p + x)[|p|..] && y == (p + y)[|p|..];
  }

  /** The temporary name splits into the shared directory part, the id's digits and the rest starting with '_'. */
  lemma TempVideoParts(dir: string, id: nat, ext: string)
    ensures TempVideoName(dir, id, ext) == (dir + "/media_") + (Decimal(id) + ("_orig." + ext))
  {
  }

  /** Different ids never share a temporary video name, whatever the extensions; so do different extensions. */
  lemma TempVideoInjective(dir: string, id1: nat, ext1: string, id2: nat, ext2: string)
    requires TempVideoName(dir, id1, ext1) == TempVideoName(dir, id2, ext2)
    ensures id1 == id2 && ext1 == ext2
  {
    TempVideoParts(dir, id1, ext1);
    TempVideoParts(dir, id2, ext2);
    PrefixCancel(dir + "/media_", Decimal(id1) + ("_orig." + ext1), Decimal(id2) + ("_orig." + ext2));
    DigitRunCancel(Decimal(id1), Decimal(id2), "_orig." + ext1, "_orig." + ext2);
    DecimalInjective(id1, id2);
    PrefixCancel("_orig.", ext1, ext2);
  }

  /** Different ids never share a poster name. */
  lemma PosterInjective(dir: string, id1: nat, ext1: string, id2: nat, ext2: string)
    requires PosterName(dir, id1, ext1) == PosterName(dir, id2, ext2)
    ensures id1 == id2 && ext1 == ext2
  {
    var v1, v2 := TempVideoName(dir, id1, ext1), TempVideoName(dir, id2, ext2);
    assert v1 == PosterName(dir, id1, ext1)[..|v1|];
    assert v2 == PosterName(dir, id2, ext2)[..|v2|];
    TempVideoInjective(dir, id1, ext1, id2, ext2);
  }

  /** With dot-free extensions, as extraction gives them, no poster name is another item's video name. */
  lemma PosterNeverVideo(dir: string, id1: nat, ext1: string, id2: nat, ext2: string)
    requires '.' !in ext2
    ensures PosterName(dir, id1, ext1) != TempVideoName(dir, id2, ext2)
  {
    assert (ext1 + "_poster.png")[|ext1| + 7] == '.';
    if PosterName(dir, id1, ext1) == TempVideoName(dir, id2, ext2) {
      TempVideoParts(dir, id1, ext1);
      TempVideoParts(dir, id2, ext2);
      var r1 := "_orig." + ext1 + "_poster.png";
      assert PosterName(dir, id1, ext1) == (dir + "/media_") + (Decimal(id1) + r1);
      PrefixCancel(dir + "/media_", Decimal(id1) + r1, Decimal(id2) + ("_orig." + ext2));
      DigitRunCancel(Decimal(id1), Decimal(id2), r1, "_orig." + ext2);
      assert r1 == "_orig." + (ext1 + "_poster.png");
      PrefixCancel("_orig.", ext1 + "_poster.png", ext2);
      assert false;
    }
  }

  /** The file operations the step performs, in order. */
  datatype FileOp = WriteFile(path: string) | RunFfmpeg(args: seq<string>) | ReadFile(path: string) | RemoveFile(path: string)

  datatype PosterError = WriteFailed | FfmpegFailed | ReadFailed | ConvertFailed(cause: string)

  /**
   * The outside world of the step: the temporary directory, the paths whose
   * write or read fails, ffmpeg's poster for a video (none when it fails) and
   * the image codecs.
   */
  datatype PosterTools = PosterTools(
    tempDir: string,
    writeFails: set<string>,
    readFails: set<string>,
    ffmpeg: Bytes -> Option<Bytes>,
    codecs: Codecs)

  /**
   * The poster step on a directory of temporary files: the new directory,
   * the operations performed and the outcome. Each deferred removal runs on
   * every exit after its file was made, the poster's before the video's.
   */
  function PosterRun(t: PosterTools, files: map<string, Bytes>, m: Media, video: Bytes): (map<string, Bytes>, seq<FileOp>, Result<Bytes, PosterError>)
  {
    var tmp := TempVideoName(t.tempDir, m.id, m.fileExt);
    var poster := PosterName(t.tempDir, m.id, m.fileExt);
    if tmp in t.writeFails then (files, [WriteFile(tmp)], Err(WriteFailed))
    else
      match t.ffmpeg(video)
      case None => (files - {tmp}, [WriteFile(tmp), RunFfmpeg(FfmpegArgs(tmp, poster)), RemoveFile(tmp)], Err(FfmpegFailed))
      case Some(png) =>
        var ops := [WriteFile(tmp), RunFfmpeg(FfmpegArgs(tmp, poster)), ReadFile(poster), RemoveFile(poster), RemoveFile(tmp)];
        (files - {tmp, poster}, ops, PosterOutcome(t, poster, png))
  }

  /** After ffmpeg wrote the poster: read it back and convert it. */
  function PosterOutcome(t: PosterTools, poster: string, png: Bytes): Result<Bytes, PosterError> {
    if poster in t.readFails then Err(ReadFailed)
    else
      match Webpconv.Converted(png, MediaService.ImgMaxSize, t.codecs)
      case Err(e) => Err(ConvertFailed(e))
      case Ok(w) => Ok(w.data)
  }

  /**
   * The order of the step: the write comes first; a failed write ends the
   * step; after a successful write ffmpeg runs with the 512 filter, and the
   * temporary video is removed last on every exit; a failed ffmpeg run is
   * never followed by a read; once the poster exists it is read and removed
   * before the video.
   */
  lemma PosterOrder(t: PosterTools, files: map<string, Bytes>, m: Media, video: Bytes)
    ensures var out := PosterRun(t, files, m, video); var tmp := TempVideoName(t.tempDir, m.id, m.fileExt);
      |out.1| >= 1 && out.1[0] == WriteFile(tmp)
      && (tmp in t.writeFails ==> out == (files, [WriteFile(tmp)], Err(WriteFailed)))
      && (tmp !in t.writeFails ==>
            |out.1| >= 3 && out.1[|out.1| - 1] == RemoveFile(tmp) && tmp !in out.0
            && out.1[1] == RunFfmpeg(["-i", tmp, "-vf", "scale='min(512,iw)':-2", "-vframes", "1", PosterName(t.tempDir, m.id, m.fileExt)]))
    ensures var out := PosterRun(t, files, m, video); var tmp := TempVideoName(t.tempDir, m.id, m.fileExt);
      tmp !in t.writeFails && t.ffmpeg(video).None? ==>
        out.2 == Err(FfmpegFailed) && out.0 == files - {tmp} && (forall k :: 0 <= k < |out.1| ==> !out.1[k].ReadFile?)
    ensures var out := PosterRun(t, files, m, video);
      var tmp, poster := TempVideoName(t.tempDir, m.id, m.fileExt), PosterName(t.tempDir, m.id, m.fileExt);
      tmp !in t.writeFails && t.ffmpeg(video).Some? ==>
        out.0 == files - {tmp, poster} && out.1[2] == ReadFile(poster) && out.1[|out.1| - 2] == RemoveFile(poster)
  {
  }

  /** A poster is returned only when ffmpeg made one and the converter accepted it; the result is the WebP data. */
  lemma PosterResult(t: PosterTools, files: map<string, Bytes>, m: Media, video: Bytes)
    ensures var out := PosterRun(t, files, m, video);
      out.2.Ok? <==>
        TempVideoName(t.tempDir, m.id, m.fileExt) !in t.writeFails && t.ffmpeg(video).Some?
        && PosterName(t.tempDir, m.id, m.fileExt) !in t.readFails
        && Webpconv.Converted(t.ffmpeg(video).value, MediaService.ImgMaxSize, t.codecs).Ok?
    ensures var out := PosterRun(t, files, m, video);
      out.2.Ok? ==> out.2.value == Webpconv.Converted(t.ffmpeg(video).value, MediaService.ImgMaxSize, t.codecs).value.data
  {
  }

  /** Whatever happens after the write, neither temporary file is left behind by the step. */
  lemma PosterLeavesNoTempFiles(t: PosterTools, files: map<string, Bytes>, m: Media, video: Bytes)
    requires TempVideoName(t.tempDir, m.id, m.fileExt) !in t.writeFails
    requires PosterName(t.tempDir, m.id, m.fileExt) !in files
    ensures var out := PosterRun(t, files, m, video);
      TempVideoName(t.tempDir, m.id, m.fileExt) !in out.0 && PosterName(t.tempDir, m.id, m.fileExt) !in out.0
      && forall p :: p in files && p != TempVideoName(t.tempDir, m.id, m.fileExt) ==> p in out.0 && out.0[p] == files[p]
  {
  }

  /** Writing a file and removing it again leaves the rest of the directory as it was. */
  lemma WriteThenRemove(files: map<string, Bytes>, tmp: string, video: Bytes, poster: string, png: Bytes)
    ensures files[tmp := video] - {tmp} == files - {tmp}
    ensures files[tmp := video][poster := png] - {poster} - {tmp} == files - {tmp, poster}
  {
  }

  /** The temporary directory, with the operations performed on it so far. */
  class TempDir {
    const tools: PosterTools
    var files: map<string, Bytes>
    var ops: seq<FileOp>

    constructor(tools: PosterTools, files: map<string, Bytes>)
      ensures this.tools == tools && this.files == files && ops == []
    {
      this.tools := tools;
      this.files := files;
      ops := [];
    }

    method Write(path: string, data: Bytes) returns (ok: bool)
      modifies this
      ensures ok <==> path !in tools.writeFails
      ensures ops == old(ops) + [WriteFile(path)]
      ensures files == if ok then old(files)[path := data] else old(files)
    {
      ops := ops + [WriteFile(path)];
      ok := path !in tools.writeFails;
      if ok {
        files := files[path := data];
      }
    }

    method Remove(path: string)
      modifies this
      ensures ops == old(ops) + [RemoveFile(path)] && files == old(files) - {path}
    {
      ops := ops + [RemoveFile(path)];
      files := files - {path};
    }

    /** The step itself; the two deferred removals are performed on each return path after their file exists. */
    method GenerateVideoPoster(m: Media, video: Bytes) returns (r: Result<Bytes, PosterError>)
      modifies this
      ensures var out := PosterRun(tools, old(files), m, video);
        files == out.0 && ops == old(ops) + out.1 && r == out.2
    {
      var tmp := TempVideoName(tools.tempDir, m.id, m.fileExt);
      var poster := tmp + "_poster.png";
      WriteThenRemove(files, tmp, video, poster, if tools.ffmpeg(video).Some? then tools.ffmpeg(video).value else []);
      var written := Write(tmp, video);
      if !written {
        return Err(WriteFailed);
      }
      ops := ops + [RunFfmpeg(FfmpegArgs(tmp, poster))];
      var png := tools.ffmpeg(video);
      if png.None? {
        Remove(tmp);
        return Err(FfmpegFailed);
      }
      files := files[poster := png.value];
      ops := ops + [ReadFile(poster)];
      r := ReadAndConvert(poster, png.value);
      Remove(poster);
      Remove(tmp);
    }

    /** Reads the poster back and converts it; the directory is left as it is. */
    method ReadAndConvert(poster: string, png: Bytes) returns (r: Result<Bytes, PosterError>)
      ensures r == PosterOutcome(tools, poster, png)
    {
      if poster in tools.readFails {
        return Err(ReadFailed);
      }
      var converted := ConvertToWebP(png, tools.codecs);
      if converted.Err? {
        return Err(ConvertFailed(converted.error));
      }
      r := Ok(converted.value.data);
    }
  }
}
