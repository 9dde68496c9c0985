/**
 * The album service of album_service.go over an abstract album table: each
 * album row carries its album-media entries. The media table the repository
 * joins against, the known users and the repository failures are given.
 */
module AlbumService {
  import opened Outcomes
  import opened Text
  import opened MediaModel

  /** One album-media entry: the media it links and whether it is the album's cover. */
  datatype AlbumMedia = AlbumMedia(mediaId: nat, isCover: bool)

  datatype Album = Album(id: nat, isPublic: bool, name: string, description: string, userId: Option<string>, entries: seq<AlbumMedia>)

  /** The fields of a media row the album views show. */
  datatype MediaSummary = MediaSummary(isFavourite: bool, caption: string, date: Date, mediaType: string, createdAt: int)

  datatype AlbumMediaResponse = AlbumMediaResponse(id: nat, isCover: bool, isPublic: bool, isFavourite: bool, caption: string, date: string, mediaType: string, createdAt: int)

  /** An album as the API returns it; `media` is `None` where the code leaves the list nil. */
  datatype AlbumResponse = AlbumResponse(id: nat, isPublic: bool, name: string, description: string, mediaCount: nat, media: Option<seq<AlbumMediaResponse>>)

  datatype CreateRequest = CreateRequest(name: string, description: string, isPublic: bool, mediaIds: seq<nat>, coverMediaId: nat)

  datatype UpdateRequest = UpdateRequest(name: string, description: string)

  datatype AlbumError = UserNotFound | CreateFailed | FetchFailed | UpdateFailed | ListFailed | DeleteFailed | IdsFailed | AddFailed | RemoveFailed

  /** Which repository calls fail; a failing call changes nothing. */
  datatype Faults = Faults(createFails: bool, getFails: set<nat>, updateFails: bool, listFails: bool, deleteFails: bool, idsFail: bool, addFails: bool, removeFails: bool)

  datatype Env = Env(users: map<string, string>, media: map<nat, MediaSummary>, faults: Faults)

  /** `yyyy-mm-dd`. */
  function IsoDate(d: Date): string {
    ZeroPad(Decimal(d.year), 4) + "-" + ZeroPad(Decimal(d.month), 2) + "-" + ZeroPad(Decimal(d.day), 2)
  }

  /** The entries whose media row exists, in stored order (the inner join). */
  function InnerJoin(entries: seq<AlbumMedia>, media: map<nat, MediaSummary>): (js: seq<AlbumMedia>)
    ensures |js| <= |entries|
    ensures forall e :: e in js <==> e in entries && e.mediaId in media
  {
    if entries == [] then []
    else
      var rest := InnerJoin(entries[1..], media);
      assert forall e :: e in entries <==> e == entries[0] || e in entries[1..];
      if entries[0].mediaId in media then [entries[0]] + rest else rest
  }

  /** The date of an entry's media; an entry without a media row has none and gets the zero date. */
  function DateOf(e: AlbumMedia, media: map<nat, MediaSummary>): Date {
    if e.mediaId in media then media[e.mediaId].date else Date(0, 0, 0)
  }

  /** `a` is the same day as `b` or later. */
  predicate NotOlder(a: Date, b: Date) {
    a.year > b.year || (a.year == b.year && (a.month > b.month || (a.month == b.month && a.day >= b.day)))
  }

  /** Newest media date first. */
  predicate NewestFirst(es: seq<AlbumMedia>, media: map<nat, MediaSummary>) {
    forall i, j :: 0 <= i < j < |es| ==> NotOlder(DateOf(es[i], media), DateOf(es[j], media))
  }

  /** `e` placed after every leading entry that is not older than it. */
  function InsertByDate(e: AlbumMedia, es: seq<AlbumMedia>, media: map<nat, MediaSummary>): (r: seq<AlbumMedia>)
    ensures multiset(r) == multiset(es) + multiset{e}
  {
    if es == [] then [e]
    else if NotOlder(DateOf(es[0], media), DateOf(e, media)) then
      assert es == [es[0]] + es[1..];
      [es[0]] + InsertByDate(e, es[1..], media)
    else [e] + es
  }

  lemma {:induction false} InsertKeepsOrder(e: AlbumMedia, es: seq<AlbumMedia>, media: map<nat, MediaSummary>)
    requires NewestFirst(es, media)
    ensures NewestFirst(InsertByDate(e, es, media), media)
  {
    if es != [] {
      var h := es[0];
      var t := es[1..];
      assert NewestFirst(t, media) by {
        forall i, j | 0 <= i < j < |t| ensures NotOlder(DateOf(t[i], media), DateOf(t[j], media)) {
          assert t[i] == es[i + 1] && t[j] == es[j + 1];
        }
      }
      if NotOlder(DateOf(h, media), DateOf(e, media)) {
        InsertKeepsOrder(e, t, media);
        var rest := InsertByDate(e, t, media);
        forall k | 0 <= k < |rest| ensures NotOlder(DateOf(h, media), DateOf(rest[k], media)) {
          assert rest[k] in multiset(rest);
          if rest[k] != e {
            assert rest[k] in t;
            var j :| 0 <= j < |t| && t[j] == rest[k];
            assert es[j + 1] == rest[k];
          }
        }
        var r := [h] + rest;
        forall i, j | 0 <= i < j < |r| ensures NotOlder(DateOf(r[i], media), DateOf(r[j], media)) {
          if i > 0 {
            assert r[i] == rest[i - 1] && r[j] == rest[j - 1];
          } else {
            assert r[j] == rest[j - 1];
          }
        }
      } else {
        forall k | 0 <= k < |es| ensures NotOlder(DateOf(e, media), DateOf(es[k], media)) {
          if k > 0 {
            assert NotOlder(DateOf(es[0], media), DateOf(es[k], media));
          }
        }
        var r := [e] + es;
        forall i, j | 0 <= i < j < |r| ensures NotOlder(DateOf(r[i], media), DateOf(r[j], media)) {
          if i > 0 {
            assert r[i] == es[i - 1] && r[j] == es[j - 1];
          } else {
            assert r[j] == es[j - 1];
          }
        }
      }
    }
  }

  /** The entries sorted newest media date first; entries of the same date keep their stored order. */
  function ByDate(es: seq<AlbumMedia>, media: map<nat, MediaSummary>): (r: seq<AlbumMedia>)
    ensures multiset(r) == multiset(es)
    ensures NewestFirst(r, media)
    decreases |es|
  {
    if es == [] then []
    else
      var init := es[..|es| - 1];
      assert es == init + [es[|es| - 1]];
      var sorted := ByDate(init, media);
      InsertKeepsOrder(es[|es| - 1], sorted, media);
      InsertByDate(es[|es| - 1], sorted, media)
  }

  /**
   * The entries the repository loads with an album: those whose media row
   * exists (an inner join), newest media date first.
   */
  function Joined(entries: seq<AlbumMedia>, media: map<nat, MediaSummary>): (js: seq<AlbumMedia>)
    ensures multiset(js) == multiset(InnerJoin(entries, media))
    ensures |js| <= |entries|
    ensures forall e :: e in js <==> e in entries && e.mediaId in media
    ensures NewestFirst(js, media)
  {
    var inner := InnerJoin(entries, media);
    var js := ByDate(inner, media);
    assert |js| == |multiset(js)| == |multiset(inner)| == |inner|;
    assert forall e :: e in js <==> e in multiset(inner);
    js
  }

  /** Two linked media, the second dated later, are loaded the other way round. */
  lemma JoinedNewerFirst(a: AlbumMedia, b: AlbumMedia, media: map<nat, MediaSummary>)
    requires a.mediaId in media && b.mediaId in media
    requires !NotOlder(media[a.mediaId].date, media[b.mediaId].date)
    ensures Joined([a, b], media) == [b, a]
  {
    assert [a, b][1..] == [b] && [b][1..] == [];
    assert InnerJoin([a, b], media) == [a, b];
    assert [a, b][..1] == [a] && [a][..0] == [];
    assert ByDate([a], media) == [a];
  }

  /** The album as the repository loads it by id. */
  function Loaded(env: Env, albums: map<nat, Album>, id: nat): Option<Album> {
    if id in env.faults.getFails || id !in albums then None
    else Some(albums[id].(entries := Joined(albums[id].entries, env.media)))
  }

  /** One entry per requested id, in order, marked as cover exactly when it is the requested cover. */
  method CoverEntries(ids: seq<nat>, cover: nat) returns (entries: seq<AlbumMedia>)
    ensures |entries| == |ids|
    ensures forall i :: 0 <= i < |ids| ==> entries[i].mediaId == ids[i] && (entries[i].isCover <==> ids[i] == cover)
  {
    entries := [];
    var i := 0;
    while i < |ids|
      invariant 0 <= i <= |ids| && |entries| == i
      invariant forall k :: 0 <= k < i ==> entries[k] == AlbumMedia(ids[k], ids[k] == cover)
    {
      entries := entries + [AlbumMedia(ids[i], ids[i] == cover)];
      i := i + 1;
    }
  }

  function EntryResponse(e: AlbumMedia, m: MediaSummary): AlbumMediaResponse {
    AlbumMediaResponse(e.mediaId, e.isCover, false, m.isFavourite, m.caption, IsoDate(m.date), m.mediaType, m.createdAt)
  }

  /** An entry as the views show it; an entry whose media row is missing shows Go's zero values. */
  function EntryView(e: AlbumMedia, media: map<nat, MediaSummary>): AlbumMediaResponse {
    if e.mediaId in media then EntryResponse(e, media[e.mediaId])
    else AlbumMediaResponse(e.mediaId, e.isCover, false, false, "", "0001-01-01", "", 0)
  }

  /** The media list of an album view: one response per entry, in order; nil when there is no entry. */
  method MapEntries(entries: seq<AlbumMedia>, media: map<nat, MediaSummary>) returns (out: Option<seq<AlbumMediaResponse>>)
    ensures out.None? <==> entries == []
    ensures out.Some? ==> (|out.value| == |entries|
      && forall k :: 0 <= k < |entries| ==> out.value[k] == EntryView(entries[k], media))
  {
    if entries == [] {
      return None;
    }
    var list: seq<AlbumMediaResponse> := [];
    var i := 0;
    while i < |entries|
      invariant 0 <= i <= |entries| && |list| == i
      invariant forall k :: 0 <= k < i ==> list[k] == EntryView(entries[k], media)
    {
      list := list + [EntryView(entries[i], media)];
      i := i + 1;
    }
    out := Some(list);
  }

  /** `ids` without the ids listed in `existing`, in request order, repeats kept. */
  function Unlisted(ids: seq<nat>, existing: set<nat>): seq<nat>
  {
    if ids == [] then []
    else (if ids[0] in existing then [] else [ids[0]]) + Unlisted(ids[1..], existing)
  }

  /** An id already listed is dropped; any other id is kept as often as it is requested. */
  lemma {:induction false} UnlistedCount(ids: seq<nat>, existing: set<nat>, x: nat)
    ensures multiset(Unlisted(ids, existing))[x] == if x in existing then 0 else multiset(ids)[x]
  {
    if ids != [] {
      assert ids == [ids[0]] + ids[1..];
      UnlistedCount(ids[1..], existing, x);
    }
  }

  /** The filter keeps the request's order: it distributes over concatenation. */
  lemma {:induction false} UnlistedAppend(a: seq<nat>, b: seq<nat>, existing: set<nat>)
    ensures Unlisted(a + b, existing) == Unlisted(a, existing) + Unlisted(b, existing)
  {
    if a != [] {
      assert (a + b)[0] == a[0] && (a + b)[1..] == a[1..] + b;
      UnlistedAppend(a[1..], b, existing);
      var h := if a[0] in existing then [] else [a[0]];
      calc {
        Unlisted(a + b, existing);
        h + Unlisted(a[1..] + b, existing);
        h + (Unlisted(a[1..], existing) + Unlisted(b, existing));
        (h + Unlisted(a[1..], existing)) + Unlisted(b, existing);
      }
      assert Unlisted(a, existing) == h + Unlisted(a[1..], existing);
    } else {
      assert a + b == b;
    }
  }

  /** The ids of a sequence as a set. */
  function Members(s: seq<nat>): (m: set<nat>)
    ensures forall x :: x in m <==> x in s
  {
    set x | x in s
  }

  /** The first loop of the service: the album's ids collected into a set. */
  method CollectIds(existing: seq<nat>) returns (seen: set<nat>)
    ensures seen == Members(existing)
  {
    seen := {};
    var i := 0;
    while i < |existing|
      invariant 0 <= i <= |existing|
      invariant forall x :: x in seen <==> x in existing[..i]
    {
      assert existing[..i + 1] == existing[..i] + [existing[i]];
      seen := seen + {existing[i]};
      i := i + 1;
    }
    assert existing[..i] == existing;
  }

  /** The second loop of the service: each requested id not in the set is kept. */
  method KeepUnlisted(ids: seq<nat>, seen: set<nat>) returns (newIds: seq<nat>)
    ensures newIds == Unlisted(ids, seen)
  {
    newIds := [];
    var j := 0;
    while j < |ids|
      invariant 0 <= j <= |ids|
      invariant newIds == Unlisted(ids[..j], seen)
    {
      assert ids[..j + 1] == ids[..j] + [ids[j]];
      UnlistedAppend(ids[..j], [ids[j]], seen);
      assert Unlisted([ids[j]], seen) == if ids[j] in seen then [] else [ids[j]];
      if ids[j] !in seen {
        newIds := newIds + [ids[j]];
      }
      j := j + 1;
    }
    assert ids[..j] == ids;
  }

  /** The ids of a request that are not yet in the album. */
  method NewMediaIds(existing: seq<nat>, ids: seq<nat>) returns (newIds: seq<nat>)
    ensures newIds == Unlisted(ids, Members(existing))
  {
    var seen := CollectIds(existing);
    newIds := KeepUnlisted(ids, seen);
  }

  /**
   * Every id has a media row: album_media.media_id references media.id, so
   * the database refuses a link to a media id that has none.
   */
  predicate Known(ids: seq<nat>, media: map<nat, MediaSummary>) {
    forall k :: 0 <= k < |ids| ==> ids[k] in media
  }

  /** No id twice. */
  predicate Distinct(ids: seq<nat>) {
    forall i, j :: 0 <= i < j < |ids| ==> ids[i] != ids[j]
  }

  lemma DistinctAppend(a: seq<nat>, b: seq<nat>)
    requires Distinct(a) && Distinct(b)
    requires forall k :: 0 <= k < |b| ==> b[k] !in a
    ensures Distinct(a + b)
  {
  }

  /** In a sequence without repeats an id occurs at most once. */
  lemma {:induction false} DistinctCount(ids: seq<nat>, x: nat)
    requires Distinct(ids)
    ensures multiset(ids)[x] <= 1
  {
    if ids != [] {
      assert ids == [ids[0]] + ids[1..];
      assert Distinct(ids[1..]) by {
        forall i, j | 0 <= i < j < |ids| - 1 ensures ids[1..][i] != ids[1..][j] {
          assert ids[i + 1] != ids[j + 1];
        }
      }
      DistinctCount(ids[1..], x);
      if ids[0] == x {
        forall k | 0 <= k < |ids[1..]| ensures ids[1..][k] != x {
          assert ids[0] != ids[k + 1];
        }
        assert x !in ids[1..];
      }
    }
  }

  /**
   * The albums' ids are their keys, below the next id, and an album links a
   * media id at most once: (album id, media id) is the key of the album-media table.
   */
  predicate TableOk(albums: map<nat, Album>, nextId: nat) {
    forall id :: id in albums ==> albums[id].id == id && id < nextId && Distinct(EntryIds(albums[id].entries))
  }

  /**
   * The entries an insert stores when it upserts on the key: the first entry
   * of each media id, in order. Saving a new album's entries updates a row
   * that already has the key instead of failing.
   */
  function Upserted(es: seq<AlbumMedia>): (r: seq<AlbumMedia>)
    ensures Distinct(EntryIds(r))
    ensures forall e :: e in r ==> e in es
    ensures forall k :: 0 <= k < |es| ==> es[k].mediaId in EntryIds(r)
    decreases |es|
  {
    if es == [] then []
    else
      var init := Upserted(es[..|es| - 1]);
      var e := es[|es| - 1];
      assert es == es[..|es| - 1] + [e];
      assert forall k :: 0 <= k < |es| - 1 ==> es[k] == es[..|es| - 1][k];
      if e.mediaId in EntryIds(init) then init
      else
        EntryIdsAppend(init, [e]);
        DistinctAppend(EntryIds(init), [e.mediaId]);
        init + [e]
  }

  /** One entry per requested id, marked as cover exactly when it is the requested cover. */
  function Covered(req: CreateRequest): seq<AlbumMedia> {
    seq(|req.mediaIds|, i requires 0 <= i < |req.mediaIds| => AlbumMedia(req.mediaIds[i], req.mediaIds[i] == req.coverMediaId))
  }

  function FreshAlbum(env: Env, nextId: nat, req: CreateRequest, email: string): Album
    requires email in env.users
  {
    Album(nextId, false, req.name, req.description, Some(env.users[email]), Upserted(Covered(req)))
  }

  /** The stored entries of a new album: each requested id once, with the cover flag set by id. */
  lemma FreshEntries(req: CreateRequest)
    ensures Distinct(EntryIds(Upserted(Covered(req))))
    ensures forall x :: x in EntryIds(Upserted(Covered(req))) <==> x in req.mediaIds
    ensures forall e :: e in Upserted(Covered(req)) ==> (e.isCover <==> e.mediaId == req.coverMediaId)
  {
    var es := Covered(req);
    var r := Upserted(es);
    forall x | x in EntryIds(r) ensures x in req.mediaIds {
      var k :| 0 <= k < |r| && EntryIds(r)[k] == x;
      assert r[k] in es;
    }
    forall x | x in req.mediaIds ensures x in EntryIds(r) {
      var k :| 0 <= k < |req.mediaIds| && req.mediaIds[k] == x;
      assert es[k].mediaId == x;
    }
  }

  /**
   * Creating: an unknown user changes nothing; otherwise the album is stored
   * under the next id with one entry per distinct requested id, and the answer
   * counts the requested ids, repeats included. The request's public flag is
   * not copied. The insert, album and entries in one transaction, fails as a
   * whole when a requested id has no media row.
   */
  function CreateOutcome(env: Env, albums: map<nat, Album>, nextId: nat, req: CreateRequest, email: string): (out: (map<nat, Album>, nat, Result<AlbumResponse, AlbumError>))
    ensures email !in env.users ==> out == (albums, nextId, Err(UserNotFound))
    ensures out.2.Ok? <==> email in env.users && !env.faults.createFails && Known(req.mediaIds, env.media)
    ensures email in env.users && out.2.Err? ==> out.2.error == CreateFailed
    ensures out.2.Err? ==> out.0 == albums && out.1 == nextId
    ensures out.2.Ok? ==>
      out.2.value == AlbumResponse(nextId, false, req.name, req.description, |req.mediaIds|, None)
      && out.1 == nextId + 1 && nextId in out.0 && out.0 == albums[nextId := out.0[nextId]]
      && out.0[nextId].userId == Some(env.users[email]) && !out.0[nextId].isPublic
      && Distinct(EntryIds(out.0[nextId].entries))
      && (forall x :: x in EntryIds(out.0[nextId].entries) <==> x in req.mediaIds)
      && forall e :: e in out.0[nextId].entries ==> (e.isCover <==> e.mediaId == req.coverMediaId)
  {
    if email !in env.users then (albums, nextId, Err(UserNotFound))
    else if env.faults.createFails || !Known(req.mediaIds, env.media) then (albums, nextId, Err(CreateFailed))
    else
      FreshEntries(req);
      (albums[nextId := FreshAlbum(env, nextId, req, email)], nextId + 1,
       Ok(AlbumResponse(nextId, false, req.name, req.description, |req.mediaIds|, None)))
  }

  /** A name or description replaces the stored one only when it is not empty. */
  function Overwrite(a: Album, req: UpdateRequest): (b: Album)
    ensures b.name == (if req.name != "" then req.name else a.name)
    ensures b.description == (if req.description != "" then req.description else a.description)
    ensures b.entries == a.entries && b.id == a.id && b.userId == a.userId && b.isPublic == a.isPublic
  {
    a.(name := if req.name != "" then req.name else a.name,
       description := if req.description != "" then req.description else a.description)
  }

  /**
   * Updating: the loaded album is saved with the overwritten fields; the
   * answer counts the loaded entries and carries an empty media list.
   */
  function UpdateOutcome(env: Env, albums: map<nat, Album>, id: nat, req: UpdateRequest): (out: (map<nat, Album>, Result<AlbumResponse, AlbumError>))
    ensures out.1.Err? ==> out.0 == albums
    ensures out.1.Ok? <==> id in albums && id !in env.faults.getFails && !env.faults.updateFails
    ensures out.1.Ok? ==>
      out.0 == albums[id := Overwrite(albums[id], req)]
      && out.1.value.mediaCount == |Joined(albums[id].entries, env.media)|
      && out.1.value.media == Some([])
      && out.1.value.name == Overwrite(albums[id], req).name
  {
    match Loaded(env, albums, id)
    case None => (albums, Err(FetchFailed))
    case Some(a) =>
      var b := Overwrite(a, req);
      if env.faults.updateFails then (albums, Err(UpdateFailed))
      else
        (albums[id := b.(entries := albums[id].entries)],
         Ok(AlbumResponse(b.id, false, b.name, b.description, |b.entries|, Some([]))))
  }

  /** The media ids of a list of entries, in order. */
  function EntryIds(es: seq<AlbumMedia>): (ids: seq<nat>)
    ensures |ids| == |es| && forall i :: 0 <= i < |es| ==> ids[i] == es[i].mediaId
  {
    seq(|es|, i requires 0 <= i < |es| => es[i].mediaId)
  }

  lemma EntryIdsAppend(a: seq<AlbumMedia>, b: seq<AlbumMedia>)
    ensures EntryIds(a + b) == EntryIds(a) + EntryIds(b)
  {
  }

  /** New entries for the given ids, all with the same cover flag. */
  function Tagged(ids: seq<nat>, isCover: bool): (es: seq<AlbumMedia>)
    ensures |es| == |ids| && forall i :: 0 <= i < |ids| ==> es[i] == AlbumMedia(ids[i], isCover)
    ensures EntryIds(es) == ids
  {
    seq(|ids|, i requires 0 <= i < |ids| => AlbumMedia(ids[i], isCover))
  }

  /** The media ids stored for an album, as the id query reads them; none for an unknown album. */
  function StoredIds(albums: map<nat, Album>, id: nat): seq<nat> {
    if id in albums then EntryIds(albums[id].entries) else []
  }

  /**
   * Adding: the ids not yet in the album are inserted, in request order and
   * all with the same cover flag; nothing is inserted when no id is new. The
   * plain insert fails as a whole when a new id is repeated, since the pair
   * would be stored twice, when the album does not exist, and when a new id
   * has no media row.
   */
  function AddOutcome(env: Env, albums: map<nat, Album>, id: nat, ids: seq<nat>, isCover: bool): (out: (map<nat, Album>, Result<(), AlbumError>))
    ensures out.1.Err? ==> out.0 == albums
    ensures out.1.Err? <==>
      env.faults.idsFail || (Unlisted(ids, Members(StoredIds(albums, id))) != []
        && (env.faults.addFails || id !in albums || !Distinct(Unlisted(ids, Members(StoredIds(albums, id))))
            || !Known(Unlisted(ids, Members(StoredIds(albums, id))), env.media)))
    ensures out.1.Ok? && out.0 != albums ==> (id in albums
      && out.0 == albums[id := albums[id].(entries := albums[id].entries + Tagged(Unlisted(ids, Members(StoredIds(albums, id))), isCover))])
  {
    if env.faults.idsFail then (albums, Err(IdsFailed))
    else
      var newIds := Unlisted(ids, Members(StoredIds(albums, id)));
      if newIds == [] then (albums, Ok(()))
      else if env.faults.addFails || id !in albums || !Distinct(newIds) || !Known(newIds, env.media) then (albums, Err(AddFailed))
      else (albums[id := albums[id].(entries := albums[id].entries + Tagged(newIds, isCover))], Ok(()))
  }

  /**
   * After a successful add every requested id is in the album; an id that was
   * there keeps its count, and an id that was not appears once.
   */
  lemma AddCounts(env: Env, albums: map<nat, Album>, id: nat, ids: seq<nat>, isCover: bool, x: nat)
    requires AddOutcome(env, albums, id, ids, isCover).1.Ok?
    ensures var after := StoredIds(AddOutcome(env, albums, id, ids, isCover).0, id);
      (x in ids ==> x in after)
      && (x in StoredIds(albums, id) ==> multiset(after)[x] == multiset(StoredIds(albums, id))[x])
      && (x !in StoredIds(albums, id) ==> multiset(after)[x] == if x in ids then 1 else 0)
  {
    var before := StoredIds(albums, id);
    var newIds := Unlisted(ids, Members(before));
    UnlistedCount(ids, Members(before), x);
    if newIds != [] {
      var out := AddOutcome(env, albums, id, ids, isCover);
      EntryIdsAppend(albums[id].entries, Tagged(newIds, isCover));
      assert StoredIds(out.0, id) == before + newIds;
      DistinctCount(newIds, x);
    }
  }

  /** A new id with no media row makes the insert fail, and nothing changes. */
  lemma AddUnknownMediaFails(env: Env, albums: map<nat, Album>, id: nat, x: nat, isCover: bool)
    requires !env.faults.idsFail && x !in StoredIds(albums, id) && x !in env.media
    ensures AddOutcome(env, albums, id, [x], isCover) == (albums, Err(AddFailed))
  {
    assert [x][1..] == [];
    assert Unlisted([x], Members(StoredIds(albums, id))) == [x];
  }

  /** Creating an album that links a media id with no media row fails, and nothing changes. */
  lemma CreateUnknownMediaFails(env: Env, albums: map<nat, Album>, nextId: nat, req: CreateRequest, email: string, k: nat)
    requires email in env.users && k < |req.mediaIds| && req.mediaIds[k] !in env.media
    ensures CreateOutcome(env, albums, nextId, req, email) == (albums, nextId, Err(CreateFailed))
  {
  }

  /** Adding [5, 5] to an album without media 5 inserts the pair twice, and the insert fails. */
  lemma AddRepeatFails(env: Env, albums: map<nat, Album>, id: nat, isCover: bool)
    requires !env.faults.idsFail && 5 !in StoredIds(albums, id)
    ensures AddOutcome(env, albums, id, [5, 5], isCover) == (albums, Err(AddFailed))
  {
    var existing := Members(StoredIds(albums, id));
    assert [5, 5][1..] == [5] && [5][1..] == [];
    assert 5 !in existing;
    assert Unlisted([5], existing) == [5];
    var u := Unlisted([5, 5], existing);
    assert u == [5, 5];
    assert !Distinct(u) by {
      assert u[0] == u[1];
    }
  }

  /** An entry given twice is stored once. */
  lemma UpsertedTwice(e: AlbumMedia)
    ensures Upserted([e, e]) == [e]
  {
    assert [e, e][..1] == [e];
    assert [e][..0] == [];
    assert EntryIds([]) == [];
    assert Upserted([e]) == [e];
    assert EntryIds([e])[0] == e.mediaId;
  }

  /** Creating an album with [5, 5] succeeds: the pair is stored once and the answer counts two ids. */
  lemma CreateRepeatStoredOnce(env: Env, albums: map<nat, Album>, nextId: nat, req: CreateRequest, email: string)
    requires email in env.users && !env.faults.createFails && 5 in env.media && req.mediaIds == [5, 5]
    ensures var out := CreateOutcome(env, albums, nextId, req, email);
      out.2.Ok? && out.2.value.mediaCount == 2 && EntryIds(out.0[nextId].entries) == [5]
  {
    var e := AlbumMedia(5, 5 == req.coverMediaId);
    assert Covered(req) == [e, e];
    UpsertedTwice(e);
    assert FreshAlbum(env, nextId, req, email).entries == [e];
  }

  /** Every id the filter keeps is one of the requested ids outside the set. */
  lemma UnlistedAvoids(ids: seq<nat>, existing: set<nat>)
    ensures forall k :: 0 <= k < |Unlisted(ids, existing)| ==> Unlisted(ids, existing)[k] !in existing
  {
    forall k | 0 <= k < |Unlisted(ids, existing)| ensures Unlisted(ids, existing)[k] !in existing {
      var x := Unlisted(ids, existing)[k];
      UnlistedCount(ids, existing, x);
      assert x in multiset(Unlisted(ids, existing));
    }
  }

  /** A successful add keeps every album's media ids free of repeats. */
  lemma AddKeepsTable(env: Env, albums: map<nat, Album>, nextId: nat, id: nat, ids: seq<nat>, isCover: bool)
    requires TableOk(albums, nextId)
    ensures TableOk(AddOutcome(env, albums, id, ids, isCover).0, nextId)
  {
    var out := AddOutcome(env, albums, id, ids, isCover);
    if out.0 != albums {
      var before := StoredIds(albums, id);
      var newIds := Unlisted(ids, Members(before));
      EntryIdsAppend(albums[id].entries, Tagged(newIds, isCover));
      UnlistedAvoids(ids, Members(before));
      DistinctAppend(before, newIds);
      assert EntryIds(out.0[id].entries) == before + newIds;
    }
  }

  /** Removing entries keeps an album's media ids free of repeats. */
  lemma {:induction false} WithoutDistinct(es: seq<AlbumMedia>, ids: set<nat>)
    requires Distinct(EntryIds(es))
    ensures Distinct(EntryIds(Without(es, ids)))
  {
    if es != [] {
      var tail := es[1..];
      assert Distinct(EntryIds(tail)) by {
        forall i, j | 0 <= i < j < |tail| ensures EntryIds(tail)[i] != EntryIds(tail)[j] {
          assert EntryIds(es)[i + 1] != EntryIds(es)[j + 1];
        }
      }
      WithoutDistinct(tail, ids);
      var rest := Without(tail, ids);
      if es[0].mediaId !in ids {
        forall k | 0 <= k < |rest| ensures EntryIds(rest)[k] !in [es[0].mediaId] {
          assert rest[k] in tail;
          var j :| 0 <= j < |tail| && tail[j] == rest[k];
          assert EntryIds(es)[0] != EntryIds(es)[j + 1];
        }
        EntryIdsAppend([es[0]], rest);
        DistinctAppend([es[0].mediaId], EntryIds(rest));
      }
    }
  }

  /** An album as the views show it: `count` entries counted, `shown` of them listed. */
  function AlbumView(a: Album, count: nat, shown: seq<AlbumMedia>, media: map<nat, MediaSummary>): AlbumResponse {
    AlbumResponse(a.id, false, a.name, a.description, count, if shown == [] then None else Some(Views(shown, media)))
  }

  function Views(shown: seq<AlbumMedia>, media: map<nat, MediaSummary>): seq<AlbumMediaResponse> {
    if shown == [] then [] else [EntryView(shown[0], media)] + Views(shown[1..], media)
  }

  lemma {:induction false} ViewsShape(shown: seq<AlbumMedia>, media: map<nat, MediaSummary>)
    ensures |Views(shown, media)| == |shown|
    ensures forall k :: 0 <= k < |shown| ==> Views(shown, media)[k] == EntryView(shown[k], media)
  {
    if shown != [] {
      ViewsShape(shown[1..], media);
      assert forall k :: 1 <= k < |shown| ==> shown[k] == shown[1..][k - 1];
    }
  }

  /** The view lists exactly the shown entries, in order, and carries the given count; nil media when none is shown. */
  lemma AlbumViewShape(a: Album, count: nat, shown: seq<AlbumMedia>, media: map<nat, MediaSummary>)
    ensures var v := AlbumView(a, count, shown, media);
      v.id == a.id && v.name == a.name && v.description == a.description && !v.isPublic
      && v.mediaCount == count && (v.media.None? <==> shown == [])
      && (v.media.Some? ==> (|v.media.value| == |shown|
        && forall k :: 0 <= k < |shown| ==> v.media.value[k] == EntryView(shown[k], media)))
  {
    ViewsShape(shown, media);
  }

  /** A response built from the mapped entries is the album's view. */
  lemma ViewFromMapped(a: Album, count: nat, shown: seq<AlbumMedia>, media: map<nat, MediaSummary>, m: Option<seq<AlbumMediaResponse>>)
    requires m.None? <==> shown == []
    requires m.Some? ==> (|m.value| == |shown| && forall k :: 0 <= k < |shown| ==> m.value[k] == EntryView(shown[k], media))
    ensures AlbumResponse(a.id, false, a.name, a.description, count, m) == AlbumView(a, count, shown, media)
  {
    var v := AlbumView(a, count, shown, media);
    AlbumViewShape(a, count, shown, media);
    if m.Some? {
      assert m.value == v.media.value;
    }
  }

  /** The smallest media id among some entries. */
  function FirstId(es: seq<AlbumMedia>): nat
    requires es != []
  {
    if |es| == 1 then es[0].mediaId
    else if es[0].mediaId <= FirstId(es[1..]) then es[0].mediaId else FirstId(es[1..])
  }

  /** It is the id of one of the entries and no entry has a smaller one. */
  lemma {:induction false} FirstIdIsMin(es: seq<AlbumMedia>)
    requires es != []
    ensures exists k :: 0 <= k < |es| && es[k].mediaId == FirstId(es)
    ensures forall k :: 0 <= k < |es| ==> FirstId(es) <= es[k].mediaId
  {
    if |es| > 1 {
      FirstIdIsMin(es[1..]);
      assert forall k :: 1 <= k < |es| ==> es[k] == es[1..][k - 1];
      var j :| 0 <= j < |es[1..]| && es[1..][j].mediaId == FirstId(es[1..]);
      assert es[j + 1].mediaId == FirstId(es[1..]);
    } else {
      assert es[0].mediaId == FirstId(es);
    }
  }

  /** The entries the album list loads: the cover entries and the entries of the smallest media id. */
  function Preview(es: seq<AlbumMedia>): seq<AlbumMedia> {
    if es == [] then [] else PreviewOf(es, FirstId(es))
  }

  function PreviewOf(es: seq<AlbumMedia>, first: nat): (ps: seq<AlbumMedia>)
    ensures forall e :: e in ps <==> e in es && (e.isCover || e.mediaId == first)
  {
    if es == [] then []
    else
      assert forall e :: e in es <==> e == es[0] || e in es[1..];
      (if es[0].isCover || es[0].mediaId == first then [es[0]] else []) + PreviewOf(es[1..], first)
  }

  /** An album with entries always shows at least one, and every cover entry is shown. */
  lemma PreviewShows(es: seq<AlbumMedia>)
    ensures es != [] ==> Preview(es) != []
    ensures forall e :: e in es && e.isCover ==> e in Preview(es)
  {
    if es != [] {
      FirstIdIsMin(es);
      var k :| 0 <= k < |es| && es[k].mediaId == FirstId(es);
      assert es[k] in es;
      assert es[k] in Preview(es);
    }
  }

  /** The albums the list query returns, taken in ascending id order, one of the orders the database may choose. */
  function ListedIds(albums: map<nat, Album>, n: nat): seq<nat> {
    if n == 0 then []
    else ListedIds(albums, n - 1) + (if n - 1 in albums then [n - 1] else [])
  }

  /** Every album below the bound is listed, once: the ids ascend. */
  lemma {:induction false} ListedIdsShape(albums: map<nat, Album>, n: nat)
    ensures forall x :: x in ListedIds(albums, n) <==> x in albums && x < n
    ensures forall i, j :: 0 <= i < j < |ListedIds(albums, n)| ==> ListedIds(albums, n)[i] < ListedIds(albums, n)[j]
  {
    if n > 0 {
      ListedIdsShape(albums, n - 1);
      var p := ListedIds(albums, n - 1);
      if n - 1 in albums {
        var q := p + [n - 1];
        assert ListedIds(albums, n) == q;
        assert forall i :: 0 <= i < |p| ==> q[i] == p[i] && p[i] in p;
      }
    }
  }

  /** An album of the list: its preview entries shown, all its entries counted. */
  function ListItem(env: Env, a: Album): AlbumResponse {
    AlbumView(a, |a.entries|, Preview(a.entries), env.media)
  }

  /** Listing: a known user gets the view of every album in the table, not only of the user's own. */
  function ListOutcome(env: Env, albums: map<nat, Album>, nextId: nat, email: string): (r: Result<seq<AlbumResponse>, AlbumError>)
    ensures r.Err? <==> email !in env.users || env.faults.listFails
    ensures email !in env.users ==> r == Err(UserNotFound)
  {
    if email !in env.users then Err(UserNotFound)
    else if env.faults.listFails then Err(ListFailed)
    else
      var ids := ListedIds(albums, nextId);
      ListedIdsShape(albums, nextId);
      assert forall k :: 0 <= k < |ids| ==> ids[k] in ids;
      Ok(Items(env, albums, ids))
  }

  /**
   * The list holds the view of each album of the table, once and in id order,
   * each counting all the album's entries whether or not they are shown.
   */
  lemma ListContents(env: Env, albums: map<nat, Album>, nextId: nat, email: string)
    requires TableOk(albums, nextId)
    requires ListOutcome(env, albums, nextId, email).Ok?
    ensures var items := ListOutcome(env, albums, nextId, email).value;
      (forall id :: id in albums ==> exists k :: 0 <= k < |items| && items[k] == ListItem(env, albums[id]))
      && (forall k :: 0 <= k < |items| ==> (items[k].id in albums && items[k] == ListItem(env, albums[items[k].id])
            && items[k].mediaCount == |albums[items[k].id].entries|))
      && forall i, j :: 0 <= i < j < |items| ==> items[i].id < items[j].id
  {
    ListedIdsShape(albums, nextId);
    var ids := ListedIds(albums, nextId);
    var items := ListOutcome(env, albums, nextId, email).value;
    assert forall k :: 0 <= k < |ids| ==> ids[k] in ids;
    ItemsShape(env, albums, ids);
    assert items == Items(env, albums, ids);
    forall k | 0 <= k < |items|
      ensures items[k].id == ids[k] && items[k].mediaCount == |albums[ids[k]].entries|
    {
      ListItemFacts(env, albums[ids[k]]);
    }
    forall id | id in albums ensures exists k :: 0 <= k < |items| && items[k] == ListItem(env, albums[id]) {
      var k :| 0 <= k < |ids| && ids[k] == id;
      assert items[k] == ListItem(env, albums[id]);
    }
  }

  lemma ListItemFacts(env: Env, a: Album)
    ensures ListItem(env, a).id == a.id && ListItem(env, a).mediaCount == |a.entries|
  {
  }


  /** Deleting an album removes it; an unknown id is no error. */
  function DeleteOutcome(env: Env, albums: map<nat, Album>, id: nat): (out: (map<nat, Album>, Result<(), AlbumError>))
    ensures out.1.Err? <==> env.faults.deleteFails
    ensures out.1.Err? ==> out.0 == albums
    ensures out.1.Ok? ==> id !in out.0 && forall x :: x != id ==> (x in out.0 <==> x in albums) && (x in albums ==> out.0[x] == albums[x])
  {
    if env.faults.deleteFails then (albums, Err(DeleteFailed)) else (albums - {id}, Ok(()))
  }

  /** The entries whose media id is not among the given ones, in order. */
  function Without(es: seq<AlbumMedia>, ids: set<nat>): (rest: seq<AlbumMedia>)
    ensures forall e :: e in rest <==> e in es && e.mediaId !in ids
  {
    if es == [] then []
    else
      assert forall e :: e in es <==> e == es[0] || e in es[1..];
      (if es[0].mediaId in ids then [] else [es[0]]) + Without(es[1..], ids)
  }

  /** Removing media from an album drops every entry of those media and keeps the rest; an unknown album is no error. */
  function RemoveOutcome(env: Env, albums: map<nat, Album>, id: nat, ids: seq<nat>): (out: (map<nat, Album>, Result<(), AlbumError>))
    ensures out.1.Err? <==> env.faults.removeFails
    ensures out.1.Err? || id !in albums ==> out.0 == albums
    ensures out.1.Ok? && id in albums ==> (out.0 == albums[id := albums[id].(entries := Without(albums[id].entries, Members(ids)))]
      && forall x :: x in ids ==> x !in StoredIds(out.0, id))
  {
    if env.faults.removeFails then (albums, Err(RemoveFailed))
    else if id !in albums then (albums, Ok(()))
    else
      var b := albums[id := albums[id].(entries := Without(albums[id].entries, Members(ids)))];
      assert forall x :: x in ids ==> x !in StoredIds(b, id) by {
        forall x | x in ids ensures x !in StoredIds(b, id) {
          var es := b[id].entries;
          forall k | 0 <= k < |es| ensures StoredIds(b, id)[k] != x {
            assert es[k] in es;
          }
        }
      }
      (b, Ok(()))
  }

  /** The views of the given albums, in order. */
  function Items(env: Env, albums: map<nat, Album>, ids: seq<nat>): seq<AlbumResponse>
    requires forall k :: 0 <= k < |ids| ==> ids[k] in albums
  {
    if ids == [] then [] else [ListItem(env, albums[ids[0]])] + Items(env, albums, ids[1..])
  }

  lemma {:induction false} ItemsShape(env: Env, albums: map<nat, Album>, ids: seq<nat>)
    requires forall k :: 0 <= k < |ids| ==> ids[k] in albums
    ensures |Items(env, albums, ids)| == |ids|
    ensures forall k :: 0 <= k < |ids| ==> Items(env, albums, ids)[k] == ListItem(env, albums[ids[k]])
  {
    if ids != [] {
      assert forall k :: 1 <= k < |ids| ==> ids[k] == ids[1..][k - 1];
      ItemsShape(env, albums, ids[1..]);
    }
  }

  /** The loop of the list: one view per album, in the order returned. */
  method ListItems(env: Env, albums: map<nat, Album>, ids: seq<nat>) returns (items: seq<AlbumResponse>)
    requires forall k :: 0 <= k < |ids| ==> ids[k] in albums
    ensures items == Items(env, albums, ids)
  {
    items := [];
    var i := 0;
    while i < |ids|
      invariant 0 <= i <= |ids|
      invariant items + Items(env, albums, ids[i..]) == Items(env, albums, ids)
    {
      var a := albums[ids[i]];
      var media := MapEntries(Preview(a.entries), env.media);
      ViewFromMapped(a, |a.entries|, Preview(a.entries), env.media, media);
      assert ids[i..][1..] == ids[i + 1..];
      items := items + [AlbumResponse(a.id, false, a.name, a.description, |a.entries|, media)];
      i := i + 1;
    }
  }

  /** The album table and the service over it. */
  class Service {
    const env: Env
    var albums: map<nat, Album>
    var nextId: nat

    ghost predicate Valid()
      reads this
    {
      TableOk(albums, nextId)
    }

    constructor(env: Env)
      ensures Valid() && this.env == env && albums == map[] && nextId == 1
    {
      this.env := env;
      albums := map[];
      nextId := 1;
    }

    method CreateAlbum(req: CreateRequest, email: string) returns (r: Result<AlbumResponse, AlbumError>)
      requires Valid()
      modifies this
      ensures Valid()
      ensures (albums, nextId, r) == CreateOutcome(env, old(albums), old(nextId), req, email)
    {
      if email !in env.users {
        return Err(UserNotFound);
      }
      var entries := CoverEntries(req.mediaIds, req.coverMediaId);
      assert entries == Covered(req);
      var album := Album(nextId, false, req.name, req.description, Some(env.users[email]), Upserted(entries));
      assert album == FreshAlbum(env, nextId, req, email);
      if env.faults.createFails || !Known(req.mediaIds, env.media) {
        return Err(CreateFailed);
      }
      albums := albums[nextId := album];
      r := Ok(AlbumResponse(nextId, false, req.name, req.description, |req.mediaIds|, None));
      nextId := nextId + 1;
    }

    method UpdateAlbum(id: nat, req: UpdateRequest) returns (r: Result<AlbumResponse, AlbumError>)
      requires Valid()
      modifies this
      ensures Valid() && nextId == old(nextId)
      ensures (albums, r) == UpdateOutcome(env, old(albums), id, req)
    {
      var loaded := Loaded(env, albums, id);
      if loaded.None? {
        return Err(FetchFailed);
      }
      var a := loaded.value;
      if req.name != "" {
        a := a.(name := req.name);
      }
      if req.description != "" {
        a := a.(description := req.description);
      }
      if env.faults.updateFails {
        return Err(UpdateFailed);
      }
      albums := albums[id := a.(entries := albums[id].entries)];
      r := Ok(AlbumResponse(a.id, false, a.name, a.description, |a.entries|, Some([])));
    }

    /** Listing: one view per listed album, built by a loop over the albums and one over each preview. */
    method GetAlbumList(email: string) returns (r: Result<seq<AlbumResponse>, AlbumError>)
      requires Valid()
      ensures r == ListOutcome(env, albums, nextId, email)
    {
      if email !in env.users {
        return Err(UserNotFound);
      }
      if env.faults.listFails {
        return Err(ListFailed);
      }
      var ids := ListedIds(albums, nextId);
      ListedIdsShape(albums, nextId);
      assert forall k :: 0 <= k < |ids| ==> ids[k] in ids;
      var items := ListItems(env, albums, ids);
      r := Ok(items);
    }

    /** Reading one album: its loaded entries mapped one by one, counted as mapped. */
    method GetAlbumByID(id: nat) returns (r: Result<AlbumResponse, AlbumError>)
      ensures r.Err? <==> Loaded(env, albums, id).None?
      ensures r.Ok? ==> (id in albums
        && r.value == AlbumView(albums[id], |Joined(albums[id].entries, env.media)|, Joined(albums[id].entries, env.media), env.media))
    {
      var loaded := Loaded(env, albums, id);
      if loaded.None? {
        return Err(FetchFailed);
      }
      var a := loaded.value;
      var media := MapEntries(a.entries, env.media);
      ViewFromMapped(a, |a.entries|, a.entries, env.media, media);
      r := Ok(AlbumResponse(a.id, false, a.name, a.description, |a.entries|, media));
    }

    method DeleteAlbum(id: nat) returns (r: Result<(), AlbumError>)
      requires Valid()
      modifies this
      ensures Valid() && nextId == old(nextId)
      ensures (albums, r) == DeleteOutcome(env, old(albums), id)
    {
      if env.faults.deleteFails {
        return Err(DeleteFailed);
      }
      albums := albums - {id};
      r := Ok(());
    }

    method AddMediaToAlbum(id: nat, ids: seq<nat>, isCover: bool) returns (r: Result<(), AlbumError>)
      requires Valid()
      modifies this
      ensures Valid() && nextId == old(nextId)
      ensures (albums, r) == AddOutcome(env, old(albums), id, ids, isCover)
    {
      if env.faults.idsFail {
        return Err(IdsFailed);
      }
      var existing := StoredIds(albums, id);
      var newIds := NewMediaIds(existing, ids);
      if |newIds| == 0 {
        return Ok(());
      }
      if env.faults.addFails || id !in albums || !Distinct(newIds) || !Known(newIds, env.media) {
        return Err(AddFailed);
      }
      AddKeepsTable(env, albums, nextId, id, ids, isCover);
      albums := albums[id := albums[id].(entries := albums[id].entries + Tagged(newIds, isCover))];
      r := Ok(());
    }

    method RemoveMediaFromAlbum(id: nat, ids: seq<nat>) returns (r: Result<(), AlbumError>)
      requires Valid()
      modifies this
      ensures Valid() && nextId == old(nextId)
      ensures (albums, r) == RemoveOutcome(env, old(albums), id, ids)
    {
      if env.faults.removeFails {
        return Err(RemoveFailed);
      }
      if id in albums {
        WithoutDistinct(albums[id].entries, Members(ids));
        albums := albums[id := albums[id].(entries := Without(albums[id].entries, Members(ids)))];
      }
      r := Ok(());
    }
  }
}
