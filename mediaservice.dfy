/**
 * The media service of media_service.go: MIME classification, extension
 * extraction, its own thumbnail converter, and the four pipeline operations
 * (create one item, upload a batch, update a batch, delete a batch) over an
 * abstract media table, remote store and local thumbnail directory whose
 * operations may fail.
 */
module MediaService {
  import opened Outcomes
  import opened Text
  import opened Imaging
  import opened MediaModel

  /** The largest thumbnail width. */
  const ImgMaxSize: nat := 512

  /** "image", "video" or "audio" when the MIME string starts with that word, tried in that order; "other" otherwise. */
  function GetMediaType(mime: string): (t: string)
    ensures t == "image" || t == "video" || t == "audio" || t == "other"
    ensures t == "image" <==> HasPrefix(mime, "image")
    ensures t == "video" <==> !HasPrefix(mime, "image") && HasPrefix(mime, "video")
    ensures t == "audio" <==> !HasPrefix(mime, "image") && !HasPrefix(mime, "video") && HasPrefix(mime, "audio")
  {
    if HasPrefix(mime, "image") then "image"
    else if HasPrefix(mime, "video") then "video"
    else if HasPrefix(mime, "audio") then "audio"
    else "other"
  }

  /** The text after the last '.', or "" when the name has no '.'. */
  function GetFileExt(fileName: string): (ext: string)
    ensures '.' !in ext
    ensures '.' in fileName ==> HasSuffix(fileName, "." + ext)
    ensures '.' !in fileName ==> ext == ""
  {
    var parts := SplitOn(fileName, ".");
    ExtensionFacts(fileName);
    if |parts| > 1 then parts[|parts| - 1] else ""
  }

  /** Extension facts about splitting on '.': the last part is free of dots and ends the name after a dot. */
  lemma ExtensionFacts(fileName: string)
    ensures var parts := SplitOn(fileName, ".");
      ('.' in fileName <==> |parts| > 1)
      && '.' !in parts[|parts| - 1]
      && (|parts| > 1 ==> HasSuffix(fileName, "." + parts[|parts| - 1]))
  {
    var parts := SplitOn(fileName, ".");
    SplitCount(fileName, '.');
    SplitPartsFree(fileName, ".");
    NoCharNoSub(parts[|parts| - 1], '.');
    if |parts| > 1 {
      JoinSplit(fileName, ".");
      JoinLast(parts, ".");
    }
  }

  /** A string that does not contain the one-character string [c] does not contain c. */
  lemma NoCharNoSub(s: string, c: char)
    requires !Contains(s, [c])
    ensures c !in s
  {
    if c in s {
      var j :| 0 <= j < |s| && s[j] == c;
      assert s[j..j + 1] == [c];
      assert IsAt(s, [c], j);
    }
  }

  /** Joining two or more parts ends with the separator followed by the last part. */
  lemma {:induction false} JoinLast(parts: seq<string>, sep: string)
    requires |parts| >= 2
    ensures HasSuffix(Join(parts, sep), sep + parts[|parts| - 1])
    decreases |parts|
  {
    if |parts| == 2 {
      assert Join(parts, sep) == parts[0] + (sep + parts[1]);
    } else {
      JoinLast(parts[1..], sep);
      var rest := Join(parts[1..], sep);
      assert Join(parts, sep) == (parts[0] + sep) + rest;
      assert parts[1..][|parts[1..]| - 1] == parts[|parts| - 1];
    }
  }

  /** Rotates by 180 degrees for 3, 270 for 6 and 90 for 8; every other value leaves the picture as it is. */
  function ApplyOrientation(p: Picture, orient: int): (r: Picture)
    ensures orient != 3 && orient != 6 && orient != 8 ==> r == p
    ensures orient == 6 || orient == 8 ==> r.width == p.height && r.height == p.width
    ensures orient == 3 ==> r.width == p.width && r.height == p.height && r != p
  {
    match orient
    case 3 => Rotate180(p)
    case 6 => Rotate270(p)
    case 8 => Rotate90(p)
    case _ => p
  }

  /** The EXIF orientation, when the tag reads as an integer above 1. */
  function OrientationAbove1(e: Exif): Option<int> {
    if e.Exif? && e.orientation.IntTag? && e.orientation.value > 1 then Some(e.orientation.value) else None
  }

  /** What this converter decides: an error, the original bytes, or the picture to encode. */
  datatype Reencode = Undecodable | SkipEncode | EncodePicture(picture: Picture)

  function ReencodePlan(data: Bytes, c: Codecs): Reencode {
    match c.decode(data)
    case None => Undecodable
    case Some(d) =>
      var o := OrientationAbove1(c.exif(data));
      var img := if o.Some? then ApplyOrientation(d.picture, o.value) else d.picture;
      if o.None? && img.width <= ImgMaxSize && d.format == "webp" then SkipEncode
      else EncodePicture(if img.width > ImgMaxSize then ResizeToWidth(img, ImgMaxSize) else img)
  }

  function Reencoded(data: Bytes, c: Codecs): Result<Bytes, string> {
    match ReencodePlan(data, c)
    case Undecodable => Err("failed to decode image")
    case SkipEncode => Ok(data)
    case EncodePicture(p) =>
      match c.encode(p)
      case None => Err("failed to encode webp")
      case Some(out) => Ok(out)
  }

  /** The conversion with its `needsProcessing` flag, step by step. */
  method ConvertToWebP(data: Bytes, c: Codecs) returns (r: Result<Bytes, string>)
    ensures r == Reencoded(data, c)
  {
    var decoded := c.decode(data);
    if decoded.None? {
      return Err("failed to decode image");
    }
    var img := decoded.value.picture;
    var needsProcessing := false;
    var e := c.exif(data);
    if e.Exif? && e.orientation.IntTag? && e.orientation.value > 1 {
      img := ApplyOrientation(img, e.orientation.value);
      needsProcessing := true;
    }
    if img.width > ImgMaxSize {
      img := ResizeToWidth(img, ImgMaxSize);
      needsProcessing := true;
    }
    if !needsProcessing && decoded.value.format == "webp" {
      return Ok(data);
    }
    var buf := c.encode(img);
    if buf.None? {
      return Err("failed to encode webp");
    }
    r := Ok(buf.value);
  }

  /** The input is passed through exactly for WebP at most 512 wide with no orientation above 1. */
  lemma SkipIff(data: Bytes, c: Codecs)
    ensures ReencodePlan(data, c) == SkipEncode <==>
      c.decode(data).Some? && c.decode(data).value.format == "webp"
      && c.decode(data).value.picture.width <= ImgMaxSize && OrientationAbove1(c.exif(data)).None?
    ensures ReencodePlan(data, c) == SkipEncode ==> Reencoded(data, c) == Ok(data)
  {
  }

  /**
   * Only the width triggers a resize: with no orientation above 1 and a
   * width of at most 512 the picture is encoded at its own size, however tall.
   */
  lemma ResizeByWidthOnly(data: Bytes, c: Codecs)
    requires c.decode(data).Some? && c.decode(data).value.format != "webp"
    requires OrientationAbove1(c.exif(data)).None? && c.decode(data).value.picture.width <= ImgMaxSize
    ensures ReencodePlan(data, c) == EncodePicture(c.decode(data).value.picture)
  {
  }

  /**
   * Orientations 2, 4, 5 and 7 leave the picture as it is, yet they still
   * force a re-encode, even of a small WebP file.
   */
  lemma MirroredOrientationsReencode(data: Bytes, c: Codecs)
    requires c.decode(data).Some? && c.decode(data).value.picture.width <= ImgMaxSize
    requires OrientationAbove1(c.exif(data)) in {Some(2), Some(4), Some(5), Some(7)}
    ensures ReencodePlan(data, c) == EncodePicture(c.decode(data).value.picture)
  {
  }

  /** Whatever is encoded is at most 512 wide with its height at least 1 when it was resized. */
  lemma EncodedWidthBound(data: Bytes, c: Codecs)
    requires ReencodePlan(data, c).EncodePicture?
    ensures ReencodePlan(data, c).picture.width <= ImgMaxSize
  {
  }

  // ---------------------------------------------------------------------
  // The pipeline
  // ---------------------------------------------------------------------

  /** The form fields of one uploaded file. */
  datatype UploadMeta = UploadMeta(mimeType: string, fileName: string, date: string, isPublic: bool, caption: string)

  /** A multipart file: whether it opens, and its contents unless reading fails. */
  datatype FileHeader = FileHeader(opens: bool, contents: Option<Bytes>)

  /** One requested change: the caption and the date are each optional. */
  datatype UpdateRequest = UpdateRequest(id: nat, caption: Option<string>, date: Option<string>)

  datatype MediaResponse = MediaResponse(id: nat, isFavourite: bool, caption: string, date: Date, mediaType: string, createdAt: int)

  datatype Failure =
    | UserNotFound | CountMismatch | OpenFailed | InvalidDate | CreateFailed | ReadFailed
    | UploadFailed | ThumbnailFailed(reason: string) | SaveFailed | LookupFailed | DeleteFailed

  /** What goes wrong with one item of a batch update. */
  datatype ItemError = RetrieveFailed(id: nat) | NotFound(id: nat) | BadDate(id: nat) | UpdateFailed(id: nat)

  /** Calls the delete operation makes on the file system, the remote store and the table. */
  datatype Call = RemoveLocal(path: string) | DeleteRemote(path: string, ok: bool) | DeleteRows(ids: seq<nat>)

  /**
   * The state the service works on: the media table with the next id the
   * database will assign, the remote store, the local thumbnail directory,
   * and the calls made by deletions.
   */
  datatype Store = Store(
    rows: map<nat, Media>,
    nextId: nat,
    remote: map<string, Bytes>,
    local: map<string, Bytes>,
    calls: seq<Call>)

  /** Which store operations fail: inserts of given ids, uploads and saves of given paths, and so on. */
  datatype Faults = Faults(
    createFails: set<nat>,
    uploadFails: set<string>,
    saveFails: set<string>,
    getFails: set<nat>,
    updateFails: set<nat>,
    lookupFails: bool,
    deleteFails: bool,
    remoteDeleteFails: set<string>)

  /**
   * What the service depends on: known users by e-mail, the two date
   * layouts the parser tries (RFC 3339, then a local date-time without
   * zone), the image codecs, the video poster step, the faults and the clock.
   */
  datatype Env = Env(
    users: map<string, string>,
    parseRfc3339: string -> Option<Date>,
    parseLocal: string -> Option<Date>,
    codecs: Codecs,
    poster: (Media, Bytes) -> Result<Bytes, string>,
    faults: Faults,
    now: int)

  /** Both layouts read a four-digit year, so every parsed date has one. */
  ghost predicate EnvOk(env: Env) {
    forall s :: (env.parseRfc3339(s).Some? ==> ValidDate(env.parseRfc3339(s).value))
      && (env.parseLocal(s).Some? ==> ValidDate(env.parseLocal(s).value))
  }

  /** Every row is stored under its own id, below the next id, with a date the paths can print. */
  predicate StoreOk(s: Store) {
    forall id :: id in s.rows ==> s.rows[id].id == id && id < s.nextId && ValidDate(s.rows[id].date)
  }

  function ParseDate(env: Env, s: string): (d: Option<Date>)
    requires EnvOk(env)
    ensures d.Some? ==> ValidDate(d.value)
    ensures d.None? <==> env.parseRfc3339(s).None? && env.parseLocal(s).None?
  {
    match env.parseRfc3339(s)
    case Some(d) => Some(d)
    case None => env.parseLocal(s)
  }

  function Response(m: Media, isFavourite: bool): MediaResponse {
    MediaResponse(m.id, isFavourite, m.caption, m.date, m.mediaType, m.createdAt)
  }

  /** The row a request creates; the public flag of the form is not copied. */
  function NewMedia(env: Env, s: Store, meta: UploadMeta, userId: string, date: Date): Media {
    Media(s.nextId, false, date, Some(userId), GetFileExt(meta.fileName), GetMediaType(meta.mimeType),
      meta.caption, env.now, false)
  }

  /** The thumbnail of a created row: the WebP conversion for images, the poster for videos. */
  function Thumbnail(env: Env, m: Media, data: Bytes): Result<Bytes, string>
    requires m.mediaType == "image" || m.mediaType == "video"
  {
    if m.mediaType == "image" then Reencoded(data, env.codecs) else env.poster(m, data)
  }

  /** Steps after the row exists: read, upload the original, then for images and videos make and save the thumbnail. */
  function AfterCreate(env: Env, s: Store, m: Media, file: Option<Bytes>): (out: (Store, Result<Media, Failure>))
    requires ValidDate(m.date)
    ensures out.0.rows == s.rows && out.0.nextId == s.nextId && out.0.calls == s.calls
    ensures out.1.Ok? ==> out.1.value == m
    ensures out.1.Err? ==> out.1.error in {ReadFailed, UploadFailed, SaveFailed} || out.1.error.ThumbnailFailed?
    ensures out.0.remote == s.remote || (file.Some? && out.0.remote == s.remote[RemotePath(m) := file.value])
    ensures out.1.Ok? ==> file.Some? && out.0.remote == s.remote[RemotePath(m) := file.value]
    ensures out.0.local != s.local ==> out.1.Ok? && (m.mediaType == "image" || m.mediaType == "video")
    ensures out.1.Ok? && (m.mediaType == "image" || m.mediaType == "video") ==> Path(m) in out.0.local
  {
    match file
    case None => (s, Err(ReadFailed))
    case Some(data) =>
      if RemotePath(m) in env.faults.uploadFails then (s, Err(UploadFailed))
      else
        var s1 := s.(remote := s.remote[RemotePath(m) := data]);
        if m.mediaType == "image" || m.mediaType == "video" then
          match Thumbnail(env, m, data)
          case Err(e) => (s1, Err(ThumbnailFailed(e)))
          case Ok(thumb) =>
            if Path(m) in env.faults.saveFails then (s1, Err(SaveFailed))
            else (s1.(local := s1.local[Path(m) := thumb]), Ok(m))
        else (s1, Ok(m))
  }

  /**
   * Creating one item: the user and the date are checked before any row
   * exists; then create the row, read, upload, convert and save, stopping
   * at the first failure and never removing the row again.
   */
  function CreateStep(env: Env, s: Store, meta: UploadMeta, file: Option<Bytes>, email: string): (out: (Store, Result<Media, Failure>))
    requires EnvOk(env) && StoreOk(s)
    ensures StoreOk(out.0) && out.0.calls == s.calls
    ensures out.1.Err? && out.1.error in {UserNotFound, InvalidDate, CreateFailed} ==> out.0 == s
    ensures out.1.Err? && out.1.error !in {UserNotFound, InvalidDate, CreateFailed} ==>
      s.nextId in out.0.rows && out.0.rows == s.rows[s.nextId := out.0.rows[s.nextId]]
    ensures out.1.Ok? ==> out.0.rows == s.rows[s.nextId := out.1.value] && out.1.value.id == s.nextId
    ensures out.1.Ok? ==> email in env.users && out.1.value.userId == Some(env.users[email]) && !out.1.value.isFavourite
    ensures out.1.Ok? ==> ValidDate(out.1.value.date) && RemotePath(out.1.value) in out.0.remote
    ensures out.0.local != s.local ==> out.1.Ok? && (out.1.value.mediaType == "image" || out.1.value.mediaType == "video")
  {
    if email !in env.users then (s, Err(UserNotFound))
    else
      match ParseDate(env, meta.date)
      case None => (s, Err(InvalidDate))
      case Some(date) =>
        var m := NewMedia(env, s, meta, env.users[email], date);
        if s.nextId in env.faults.createFails then (s, Err(CreateFailed))
        else
          var s1 := s.(rows := s.rows[s.nextId := m], nextId := s.nextId + 1);
          AfterCreate(env, s1, m, file)
  }

  /** Attaches the responses of files already stored in front of the outcome of the rest of the batch. */
  function Prefixed(done: seq<MediaResponse>, out: (Store, Result<seq<MediaResponse>, Failure>)): (Store, Result<seq<MediaResponse>, Failure>) {
    (out.0, if out.1.Ok? then Ok(done + out.1.value) else out.1)
  }

  /** The batch loop: open, create, append a response; the first failure aborts with no list. */
  function UploadLoop(env: Env, s: Store, files: seq<FileHeader>, metas: seq<UploadMeta>, email: string): (out: (Store, Result<seq<MediaResponse>, Failure>))
    requires EnvOk(env) && StoreOk(s) && |files| == |metas|
    ensures StoreOk(out.0)
    decreases |files|
  {
    if files == [] then (s, Ok([]))
    else if !files[0].opens then (s, Err(OpenFailed))
    else
      var step := CreateStep(env, s, metas[0], files[0].contents, email);
      if step.1.Err? then (step.0, Err(step.1.error))
      else Prefixed([Response(step.1.value, false)], UploadLoop(env, step.0, files[1..], metas[1..], email))
  }

  /**
   * A successful batch answers with one response per file, in order: the
   * ids the database assigned one after the other, none a favourite.
   */
  lemma {:induction false} UploadLoopResponses(env: Env, s: Store, files: seq<FileHeader>, metas: seq<UploadMeta>, email: string)
    requires EnvOk(env) && StoreOk(s) && |files| == |metas|
    ensures var out := UploadLoop(env, s, files, metas, email);
      out.1.Ok? ==>
        (|out.1.value| == |files| && out.0.nextId == s.nextId + |files|
         && forall k :: 0 <= k < |out.1.value| ==> !out.1.value[k].isFavourite && out.1.value[k].id == s.nextId + k)
    decreases |files|
  {
    if files != [] && files[0].opens {
      var step := CreateStep(env, s, metas[0], files[0].contents, email);
      if step.1.Ok? {
        UploadLoopResponses(env, step.0, files[1..], metas[1..], email);
        CreateStepNextId(env, s, metas[0], files[0].contents, email);
      }
    }
  }

  /** A successful create advances the id counter by exactly one. */
  lemma CreateStepNextId(env: Env, s: Store, meta: UploadMeta, file: Option<Bytes>, email: string)
    requires EnvOk(env) && StoreOk(s)
    ensures CreateStep(env, s, meta, file, email).1.Ok? ==> CreateStep(env, s, meta, file, email).0.nextId == s.nextId + 1
  {
  }

  /** The first failing file aborts the batch: the answer is that file's failure and no list. */
  lemma {:induction false} UploadLoopAborts(env: Env, s: Store, files: seq<FileHeader>, metas: seq<UploadMeta>, email: string, i: nat)
    requires EnvOk(env) && StoreOk(s) && |files| == |metas| && i < |files|
    requires !files[i].opens
    ensures UploadLoop(env, s, files, metas, email).1.Err?
    decreases i
  {
    if i > 0 && files[0].opens {
      var step := CreateStep(env, s, metas[0], files[0].contents, email);
      if step.1.Ok? {
        assert files[1..][i - 1] == files[i];
        var rest := UploadLoop(env, step.0, files[1..], metas[1..], email);
        UploadLoopAborts(env, step.0, files[1..], metas[1..], email, i - 1);
        assert UploadLoop(env, s, files, metas, email) == Prefixed([Response(step.1.value, false)], rest);
      }
    }
  }

  /** One turn of the batch loop at position `i`, as the loop in the service takes it. */
  lemma UploadLoopStep(env: Env, s: Store, files: seq<FileHeader>, metas: seq<UploadMeta>, email: string, i: nat)
    requires EnvOk(env) && StoreOk(s) && |files| == |metas| && i < |files|
    ensures !files[i].opens ==> UploadLoop(env, s, files[i..], metas[i..], email) == (s, Err(OpenFailed))
    ensures files[i].opens ==>
      var step := CreateStep(env, s, metas[i], files[i].contents, email);
      UploadLoop(env, s, files[i..], metas[i..], email)
      == if step.1.Err? then (step.0, Err(step.1.error))
         else Prefixed([Response(step.1.value, false)], UploadLoop(env, step.0, files[i + 1..], metas[i + 1..], email))
  {
    assert files[i..][1..] == files[i + 1..] && metas[i..][1..] == metas[i + 1..];
    assert files[i..][0] == files[i] && metas[i..][0] == metas[i];
  }

  lemma PrefixedTwice(a: seq<MediaResponse>, b: seq<MediaResponse>, out: (Store, Result<seq<MediaResponse>, Failure>))
    ensures Prefixed(a, Prefixed(b, out)) == Prefixed(a + b, out)
  {
    if out.1.Ok? {
      assert a + (b + out.1.value) == (a + b) + out.1.value;
    }
  }

  function UploadAll(env: Env, s: Store, files: seq<FileHeader>, metas: seq<UploadMeta>, email: string): (Store, Result<seq<MediaResponse>, Failure>)
    requires EnvOk(env) && StoreOk(s)
  {
    if email !in env.users then (s, Err(UserNotFound))
    else if |files| != |metas| then (s, Err(CountMismatch))
    else UploadLoop(env, s, files, metas, email)
  }

  /** The outcome of one item of a batch update. */
  datatype ItemOutcome = Persisted(response: MediaResponse) | Failed(error: ItemError)

  /** One update: look the row up, apply the caption if given, parse the date if given, save. */
  function UpdateItem(env: Env, s: Store, u: UpdateRequest): (out: (Store, ItemOutcome))
    requires EnvOk(env) && StoreOk(s)
    ensures StoreOk(out.0) && out.0.nextId == s.nextId && out.0.calls == s.calls
    ensures out.0.remote == s.remote && out.0.local == s.local
    ensures out.1.Failed? ==> out.0 == s && out.1.error.id == u.id
    ensures out.1.Persisted? ==> u.id in s.rows && u.id in out.0.rows && out.0.rows == s.rows[u.id := out.0.rows[u.id]]
    ensures out.1.Persisted? ==> out.1.response == Response(out.0.rows[u.id], s.rows[u.id].isFavourite)
    ensures out.1.Persisted? ==> out.0.rows[u.id].caption == (if u.caption.Some? then u.caption.value else s.rows[u.id].caption)
    ensures out.1.Persisted? && u.date.None? ==> out.0.rows[u.id].date == s.rows[u.id].date
    ensures out.1.Persisted? ==> out.0.rows[u.id].mediaType == s.rows[u.id].mediaType
    ensures out.1.Persisted? <==>
      u.id !in env.faults.getFails && u.id in s.rows && u.id !in env.faults.updateFails
      && (u.date.Some? ==> ParseDate(env, u.date.value).Some?)
    ensures out.1.Persisted? ==>
      out.0.rows[u.id] == s.rows[u.id].(
        caption := if u.caption.Some? then u.caption.value else s.rows[u.id].caption,
        date := if u.date.Some? then ParseDate(env, u.date.value).value else s.rows[u.id].date)
    ensures u.id in env.faults.getFails ==> out == (s, Failed(RetrieveFailed(u.id)))
    ensures u.id !in env.faults.getFails && u.id !in s.rows ==> out == (s, Failed(NotFound(u.id)))
    ensures u.id !in env.faults.getFails && u.id in s.rows && u.date.Some? && ParseDate(env, u.date.value).None? ==>
      out == (s, Failed(BadDate(u.id)))
  {
    if u.id in env.faults.getFails then (s, Failed(RetrieveFailed(u.id)))
    else if u.id !in s.rows then (s, Failed(NotFound(u.id)))
    else
      var m := s.rows[u.id];
      var m1 := if u.caption.Some? then m.(caption := u.caption.value) else m;
      var parsed := if u.date.Some? then ParseDate(env, u.date.value) else Some(m1.date);
      if parsed.None? then (s, Failed(BadDate(u.id)))
      else
        var m2 := m1.(date := parsed.value);
        if u.id in env.faults.updateFails then (s, Failed(UpdateFailed(u.id)))
        else (s.(rows := s.rows[u.id := m2]), Persisted(Response(m2, m2.isFavourite)))
  }

  /** The responses of the persisted items and the errors of the others, both in input order. */
  datatype BatchOutcome = BatchOutcome(updated: seq<MediaResponse>, errors: seq<ItemError>)

  function Record(o: ItemOutcome, rest: BatchOutcome): BatchOutcome {
    match o
    case Persisted(r) => BatchOutcome([r] + rest.updated, rest.errors)
    case Failed(e) => BatchOutcome(rest.updated, [e] + rest.errors)
  }

  function UpdateLoop(env: Env, s: Store, updates: seq<UpdateRequest>): (out: (Store, BatchOutcome))
    requires EnvOk(env) && StoreOk(s)
    ensures StoreOk(out.0) && out.0.nextId == s.nextId && out.0.calls == s.calls
    ensures out.0.remote == s.remote && out.0.local == s.local
    decreases |updates|
  {
    if updates == [] then (s, BatchOutcome([], []))
    else
      var step := UpdateItem(env, s, updates[0]);
      var rest := UpdateLoop(env, step.0, updates[1..]);
      (rest.0, Record(step.1, rest.1))
  }

  /** Every item ends up in exactly one of the two lists: persisted or reported. */
  lemma {:induction false} UpdateLoopAccounts(env: Env, s: Store, updates: seq<UpdateRequest>)
    requires EnvOk(env) && StoreOk(s)
    ensures var out := UpdateLoop(env, s, updates).1; |out.updated| + |out.errors| == |updates|
    ensures var out := UpdateLoop(env, s, updates).1;
      forall k :: 0 <= k < |out.errors| ==> exists j :: 0 <= j < |updates| && updates[j].id == out.errors[k].id
    decreases |updates|
  {
    if updates != [] {
      var step := UpdateItem(env, s, updates[0]);
      UpdateLoopAccounts(env, step.0, updates[1..]);
      var rest := UpdateLoop(env, step.0, updates[1..]).1;
      var out := UpdateLoop(env, s, updates).1;
      forall k | 0 <= k < |out.errors|
        ensures exists j :: 0 <= j < |updates| && updates[j].id == out.errors[k].id
      {
        if step.1.Failed? && k == 0 {
          assert updates[0].id == out.errors[0].id;
        } else {
          var k' := if step.1.Failed? then k - 1 else k;
          assert out.errors[k] == rest.errors[k'];
          var j :| 0 <= j < |updates[1..]| && updates[1..][j].id == rest.errors[k'].id;
          assert updates[j + 1].id == out.errors[k].id;
        }
      }
    }
  }

  /** A batch update touches only the rows it names, and only their caption and date. */
  lemma {:induction false} UpdateLoopFrame(env: Env, s: Store, updates: seq<UpdateRequest>, id: nat)
    requires EnvOk(env) && StoreOk(s)
    requires forall j :: 0 <= j < |updates| ==> updates[j].id != id
    ensures id in UpdateLoop(env, s, updates).0.rows <==> id in s.rows
    ensures id in s.rows ==> UpdateLoop(env, s, updates).0.rows[id] == s.rows[id]
    decreases |updates|
  {
    if updates != [] {
      var step := UpdateItem(env, s, updates[0]);
      UpdateLoopFrame(env, step.0, updates[1..], id);
    }
  }

  /** The rows a deletion finds: the distinct requested ids that have a row, in request order. */
  function Found(rows: map<nat, Media>, ids: seq<nat>): (found: seq<Media>)
    requires forall id :: id in rows ==> rows[id].id == id
    ensures forall k :: 0 <= k < |found| ==> found[k].id in ids && found[k].id in rows && found[k] == rows[found[k].id]
    ensures forall id :: id in ids && id in rows ==> exists k :: 0 <= k < |found| && found[k].id == id
    ensures forall i, j :: 0 <= i < j < |found| ==> found[i].id != found[j].id
    decreases |ids|
  {
    if ids == [] then []
    else
      var init := Found(rows, ids[..|ids| - 1]);
      var id := ids[|ids| - 1];
      assert ids == ids[..|ids| - 1] + [id];
      if id in rows && id !in ids[..|ids| - 1] then
        var found := init + [rows[id]];
        assert forall k :: 0 <= k < |init| ==> found[k] == init[k];
        assert found[|init|].id == id;
        found
      else init
  }

  /** The two files of a found row: its local thumbnail path and its remote path. */
  datatype Target = Target(local: string, remote: string)

  function TargetOf(m: Media): Target
    requires ValidDate(m.date)
  {
    Target(Path(m), RemotePath(m))
  }

  /** The targets of the found rows, in order. */
  function Targets(found: seq<Media>): (ts: seq<Target>)
    requires forall k :: 0 <= k < |found| ==> ValidDate(found[k].date)
    ensures |ts| == |found|
    ensures forall k :: 0 <= k < |found| ==> ts[k] == TargetOf(found[k])
  {
    if found == [] then []
    else
      var ts := [TargetOf(found[0])] + Targets(found[1..]);
      forall k | 1 <= k < |found| ensures ts[k] == TargetOf(found[k]) {
        assert found[1..][k - 1] == found[k];
      }
      ts
  }

  /** The calls made for the targets: for each, a local removal and then a remote delete. */
  function Attempts(ts: seq<Target>, env: Env): (calls: seq<Call>)
    ensures |calls| == 2 * |ts|
  {
    if ts == [] then []
    else
      [RemoveLocal(ts[0].local), DeleteRemote(ts[0].remote, ts[0].remote !in env.faults.remoteDeleteFails)]
      + Attempts(ts[1..], env)
  }

  /** Position 2k holds the local removal of the k-th target and 2k+1 its remote delete. */
  lemma {:induction false} AttemptsOrder(ts: seq<Target>, env: Env, k: nat)
    requires k < |ts|
    ensures Attempts(ts, env)[2 * k] == RemoveLocal(ts[k].local)
    ensures Attempts(ts, env)[2 * k + 1] == DeleteRemote(ts[k].remote, ts[k].remote !in env.faults.remoteDeleteFails)
    decreases k
  {
    if k > 0 {
      AttemptsOrder(ts[1..], env, k - 1);
      assert ts[1..][k - 1] == ts[k];
    }
  }

  /** One target: remove the local file, try the remote delete; a remote failure is logged and the loop goes on. */
  function DeleteOne(env: Env, s: Store, t: Target): Store {
    var ok := t.remote !in env.faults.remoteDeleteFails;
    s.(local := s.local - {t.local},
       remote := if ok then s.remote - {t.remote} else s.remote,
       calls := s.calls + [RemoveLocal(t.local), DeleteRemote(t.remote, ok)])
  }

  function DeleteLoop(env: Env, s: Store, ts: seq<Target>): (out: Store)
    ensures out.rows == s.rows && out.nextId == s.nextId
    decreases |ts|
  {
    if ts == [] then s
    else DeleteLoop(env, DeleteOne(env, s, ts[0]), ts[1..])
  }

  /** The loop makes exactly the attempts listed by `Attempts`, whatever the remote outcomes. */
  lemma {:induction false} DeleteLoopCalls(env: Env, s: Store, ts: seq<Target>)
    ensures DeleteLoop(env, s, ts).calls == s.calls + Attempts(ts, env)
    decreases |ts|
  {
    if ts != [] {
      var s1 := DeleteOne(env, s, ts[0]);
      DeleteLoopCalls(env, s1, ts[1..]);
      var head := [RemoveLocal(ts[0].local), DeleteRemote(ts[0].remote, ts[0].remote !in env.faults.remoteDeleteFails)];
      var tail := Attempts(ts[1..], env);
      assert (s.calls + head) + tail == s.calls + (head + tail);
    }
  }

  /** After the loop no target has a local file left. */
  lemma {:induction false} DeleteLoopRemovesLocal(env: Env, s: Store, ts: seq<Target>)
    ensures forall k :: 0 <= k < |ts| ==> ts[k].local !in DeleteLoop(env, s, ts).local
    decreases |ts|
  {
    if ts != [] {
      var s1 := DeleteOne(env, s, ts[0]);
      DeleteLoopRemovesLocal(env, s1, ts[1..]);
      DeleteLoopKeepsRemoved(env, s1, ts[1..], ts[0].local);
      forall k | 1 <= k < |ts| ensures ts[k].local !in DeleteLoop(env, s, ts).local {
        assert ts[1..][k - 1] == ts[k];
      }
    }
  }

  lemma {:induction false} DeleteLoopKeepsRemoved(env: Env, s: Store, ts: seq<Target>, path: string)
    requires path !in s.local
    ensures path !in DeleteLoop(env, s, ts).local
    decreases |ts|
  {
    if ts != [] {
      DeleteLoopKeepsRemoved(env, DeleteOne(env, s, ts[0]), ts[1..], path);
    }
  }

  /**
   * Deleting: a failed lookup touches nothing. Otherwise every found row
   * gets its local removal and remote delete, then the rows of all the
   * requested ids are deleted with the request's own id list.
   */
  function DeleteAll(env: Env, s: Store, ids: seq<nat>): (out: (Store, Result<(), Failure>))
    requires StoreOk(s)
    ensures env.faults.lookupFails ==> out == (s, Err(LookupFailed))
    ensures !env.faults.lookupFails ==>
      out.0.calls == s.calls + Attempts(Targets(Found(s.rows, ids)), env) + [DeleteRows(ids)]
    ensures StoreOk(out.0)
    ensures out.1.Ok? ==> forall id :: id in out.0.rows <==> id in s.rows && id !in ids
    ensures out.1.Err? ==> out.0.rows == s.rows
  {
    if env.faults.lookupFails then (s, Err(LookupFailed))
    else
      var ts := Targets(Found(s.rows, ids));
      var s1 := DeleteLoop(env, s, ts);
      DeleteLoopCalls(env, s, ts);
      var s2 := s1.(calls := s1.calls + [DeleteRows(ids)]);
      if env.faults.deleteFails then (s2, Err(DeleteFailed))
      else (s2.(rows := map id | id in s2.rows && id !in ids :: s2.rows[id]), Ok(()))
  }

  /** The service and the state it changes. */
  class MediaService {
    const env: Env
    var store: Store

    ghost predicate Valid()
      reads this
    {
      EnvOk(env) && StoreOk(store)
    }

    constructor(env: Env, store: Store)
      requires EnvOk(env) && StoreOk(store)
      ensures Valid() && this.env == env && this.store == store
    {
      this.env := env;
      this.store := store;
    }

    method CreateFromRequest(meta: UploadMeta, file: Option<Bytes>, email: string) returns (r: Result<Media, Failure>)
      requires Valid()
      modifies this
      ensures Valid()
      ensures (store, r) == CreateStep(env, old(store), meta, file, email)
    {
      if email !in env.users {
        return Err(UserNotFound);
      }
      var parsed := env.parseRfc3339(meta.date);
      if parsed.None? {
        parsed := env.parseLocal(meta.date);
        if parsed.None? {
          return Err(InvalidDate);
        }
      }
      var media := NewMedia(env, store, meta, env.users[email], parsed.value);
      if store.nextId in env.faults.createFails {
        return Err(CreateFailed);
      }
      store := store.(rows := store.rows[store.nextId := media], nextId := store.nextId + 1);
      if file.None? {
        return Err(ReadFailed);
      }
      var bytes := file.value;
      if RemotePath(media) in env.faults.uploadFails {
        return Err(UploadFailed);
      }
      store := store.(remote := store.remote[RemotePath(media) := bytes]);
      if media.mediaType == "image" || media.mediaType == "video" {
        if media.mediaType == "image" {
          var converted := ConvertToWebP(bytes, env.codecs);
          if converted.Err? {
            return Err(ThumbnailFailed(converted.error));
          }
          bytes := converted.value;
        }
        if media.mediaType == "video" {
          var poster := env.poster(media, bytes);
          if poster.Err? {
            return Err(ThumbnailFailed(poster.error));
          }
          bytes := poster.value;
        }
        if Path(media) in env.faults.saveFails {
          return Err(SaveFailed);
        }
        store := store.(local := store.local[Path(media) := bytes]);
      }
      r := Ok(media);
    }

    method UploadMedia(files: seq<FileHeader>, metas: seq<UploadMeta>, email: string) returns (r: Result<seq<MediaResponse>, Failure>)
      requires Valid()
      modifies this
      ensures Valid()
      ensures (store, r) == UploadAll(env, old(store), files, metas, email)
    {
      if email !in env.users {
        return Err(UserNotFound);
      }
      if |files| != |metas| {
        return Err(CountMismatch);
      }
      ghost var target := UploadLoop(env, store, files, metas, email);
      var uploaded: seq<MediaResponse> := [];
      var i := 0;
      assert files[0..] == files && metas[0..] == metas;
      if target.1.Ok? {
        assert [] + target.1.value == target.1.value;
      }
      while i < |files|
        invariant 0 <= i <= |files| && Valid()
        invariant Prefixed(uploaded, UploadLoop(env, store, files[i..], metas[i..], email)) == target
      {
        UploadLoopStep(env, store, files, metas, email, i);
        if !files[i].opens {
          assert target == (store, Err(OpenFailed));
          return Err(OpenFailed);
        }
        ghost var before := store;
        var media := CreateFromRequest(metas[i], files[i].contents, email);
        if media.Err? {
          assert UploadLoop(env, before, files[i..], metas[i..], email) == (store, Err(media.error));
          assert target == (store, Err(media.error));
          return Err(media.error);
        }
        ghost var rest := UploadLoop(env, store, files[i + 1..], metas[i + 1..], email);
        PrefixedTwice(uploaded, [Response(media.value, false)], rest);
        uploaded := uploaded + [Response(media.value, false)];
        i := i + 1;
      }
      assert files[i..] == [] && uploaded + [] == uploaded;
      r := Ok(uploaded);
    }

    method UpdateMediaBatch(updates: seq<UpdateRequest>, email: string) returns (r: Result<BatchOutcome, Failure>)
      requires Valid()
      modifies this
      ensures Valid()
      ensures email !in env.users ==> r == Err(UserNotFound) && store == old(store)
      ensures email in env.users ==> (store, r) == (UpdateLoop(env, old(store), updates).0, Ok(UpdateLoop(env, old(store), updates).1))
    {
      if email !in env.users {
        return Err(UserNotFound);
      }
      ghost var target := UpdateLoop(env, store, updates);
      var updated: seq<MediaResponse> := [];
      var errors: seq<ItemError> := [];
      var i := 0;
      assert updates[0..] == updates;
      assert [] + target.1.updated == target.1.updated && [] + target.1.errors == target.1.errors;
      while i < |updates|
        invariant 0 <= i <= |updates| && Valid()
        invariant var rest := UpdateLoop(env, store, updates[i..]);
          (rest.0, BatchOutcome(updated + rest.1.updated, errors + rest.1.errors)) == target
      {
        assert updates[i..][1..] == updates[i + 1..] && updates[i..][0] == updates[i];
        var u := updates[i];
        ghost var item := UpdateItem(env, store, u);
        var outcome := UpdateOne(u);
        assert (store, outcome) == item;
        ghost var rest := UpdateLoop(env, store, updates[i + 1..]);
        match outcome {
          case Persisted(resp) =>
            assert [resp] + rest.1.updated == [resp] + rest.1.updated;
            assert updated + ([resp] + rest.1.updated) == (updated + [resp]) + rest.1.updated;
            updated := updated + [resp];
          case Failed(e) =>
            assert errors + ([e] + rest.1.errors) == (errors + [e]) + rest.1.errors;
            errors := errors + [e];
        }
        i := i + 1;
      }
      assert updates[i..] == [];
      assert updated + [] == updated && errors + [] == errors;
      r := Ok(BatchOutcome(updated, errors));
    }

    /** One item of a batch update: look up, apply the caption, parse the date, save. */
    method UpdateOne(u: UpdateRequest) returns (outcome: ItemOutcome)
      requires Valid()
      modifies this
      ensures Valid()
      ensures (store, outcome) == UpdateItem(env, old(store), u)
    {
      if u.id in env.faults.getFails {
        return Failed(RetrieveFailed(u.id));
      }
      if u.id !in store.rows {
        return Failed(NotFound(u.id));
      }
      var existing := store.rows[u.id];
      if u.caption.Some? {
        existing := existing.(caption := u.caption.value);
      }
      if u.date.Some? {
        var parsed := env.parseRfc3339(u.date.value);
        if parsed.None? {
          parsed := env.parseLocal(u.date.value);
          if parsed.None? {
            return Failed(BadDate(u.id));
          }
        }
        existing := existing.(date := parsed.value);
      }
      if u.id in env.faults.updateFails {
        return Failed(UpdateFailed(u.id));
      }
      store := store.(rows := store.rows[u.id := existing]);
      outcome := Persisted(Response(existing, existing.isFavourite));
    }

    method DeleteMedia(ids: seq<nat>) returns (r: Result<(), Failure>)
      requires Valid()
      modifies this
      ensures Valid()
      ensures (store, r) == DeleteAll(env, old(store), ids)
    {
      if env.faults.lookupFails {
        return Err(LookupFailed);
      }
      var found := Found(store.rows, ids);
      ghost var ts := Targets(found);
      ghost var target := DeleteLoop(env, store, ts);
      var i := 0;
      assert ts[0..] == ts;
      while i < |found|
        invariant 0 <= i <= |found| && Valid()
        invariant DeleteLoop(env, store, ts[i..]) == target
      {
        assert ts[i..][1..] == ts[i + 1..] && ts[i..][0] == ts[i];
        var m := found[i];
        var localPath, remotePath := Path(m), RemotePath(m);
        assert Target(localPath, remotePath) == ts[i];
        store := store.(local := store.local - {localPath});
        var ok := remotePath !in env.faults.remoteDeleteFails;
        if ok {
          store := store.(remote := store.remote - {remotePath});
        }
        store := store.(calls := store.calls + [RemoveLocal(localPath), DeleteRemote(remotePath, ok)]);
        i := i + 1;
      }
      store := store.(calls := store.calls + [DeleteRows(ids)]);
      if env.faults.deleteFails {
        return Err(DeleteFailed);
      }
      store := store.(rows := map id | id in store.rows && id !in ids :: store.rows[id]);
      r := Ok(());
    }
  }
}
