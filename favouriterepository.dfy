/**
 * The favourites table of favourite_repository.go: rows of (user, media)
 * pairs, unique per pair. Which inserts the database refuses is given.
 */
module FavouriteRepository {
  import opened Outcomes

  datatype Favourite = Favourite(id: nat, userId: string, mediaId: nat, createdAt: int)

  datatype FavouriteError = InsertFailed(mediaId: nat) | RemoveFailed

  /** The table: its rows in insertion order and the next primary key. */
  datatype Table = Table(rows: seq<Favourite>, nextId: nat)

  predicate HasPair(rows: seq<Favourite>, u: string, m: nat) {
    exists k :: 0 <= k < |rows| && rows[k].userId == u && rows[k].mediaId == m
  }

  /** The unique index on (user, media) and the primary keys below the next one. */
  predicate TableOk(t: Table) {
    (forall i, j :: 0 <= i < j < |t.rows| ==> !(t.rows[i].userId == t.rows[j].userId && t.rows[i].mediaId == t.rows[j].mediaId))
    && forall i :: 0 <= i < |t.rows| ==> t.rows[i].id < t.nextId
  }

  /**
   * One insert with conflict handling: an existing pair is left alone and is
   * no error; otherwise the row is appended unless the database refuses it.
   */
  function Insert(t: Table, u: string, m: nat, now: int, refuses: (string, nat) -> bool): (r: Result<Table, FavouriteError>)
    ensures HasPair(t.rows, u, m) ==> r == Ok(t)
    ensures r.Err? <==> !HasPair(t.rows, u, m) && refuses(u, m)
    ensures r.Ok? && !HasPair(t.rows, u, m) ==> r.value == Table(t.rows + [Favourite(t.nextId, u, m, now)], t.nextId + 1)
  {
    if HasPair(t.rows, u, m) then Ok(t)
    else if refuses(u, m) then Err(InsertFailed(m))
    else Ok(Table(t.rows + [Favourite(t.nextId, u, m, now)], t.nextId + 1))
  }

  /**
   * The insert loop: one insert per id, in order, stopping at the first
   * refusal and keeping what was inserted. Each pass reads the clock anew:
   * the insert of pass `pass` is stamped `clock(pass)`.
   */
  function AddAll(t: Table, u: string, ids: seq<nat>, clock: nat -> int, pass: nat, refuses: (string, nat) -> bool): (Table, Result<(), FavouriteError>)
    decreases |ids|
  {
    if ids == [] then (t, Ok(()))
    else
      match Insert(t, u, ids[0], clock(pass), refuses)
      case Err(e) => (t, Err(e))
      case Ok(t') => AddAll(t', u, ids[1..], clock, pass + 1, refuses)
  }

  lemma InsertKeeps(t: Table, u: string, m: nat, now: int, refuses: (string, nat) -> bool)
    requires TableOk(t)
    ensures var r := Insert(t, u, m, now, refuses);
      r.Ok? ==> TableOk(r.value) && HasPair(r.value.rows, u, m) && HasPrefix(t.rows, r.value.rows)
  {
    var r := Insert(t, u, m, now, refuses);
    if r.Ok? && !HasPair(t.rows, u, m) {
      var rows := r.value.rows;
      assert rows[|t.rows|].userId == u && rows[|t.rows|].mediaId == m;
    }
  }

  predicate HasPrefix(p: seq<Favourite>, s: seq<Favourite>) {
    |p| <= |s| && s[..|p|] == p
  }

  /**
   * Adding keeps the unique index and never drops a row. On success every
   * requested pair is a favourite; on failure every id before the refused
   * one is.
   */
  lemma {:induction false} AddAllFacts(t: Table, u: string, ids: seq<nat>, clock: nat -> int, pass: nat, refuses: (string, nat) -> bool)
    requires TableOk(t)
    decreases |ids|
    ensures var (t', r) := AddAll(t, u, ids, clock, pass, refuses);
      TableOk(t') && HasPrefix(t.rows, t'.rows)
      && (r.Ok? ==> forall m :: m in ids ==> HasPair(t'.rows, u, m))
      && (r.Err? ==> exists k :: (0 <= k < |ids| && r.error == InsertFailed(ids[k]) && refuses(u, ids[k])
            && !HasPair(t'.rows, u, ids[k]) && forall j :: 0 <= j < k ==> HasPair(t'.rows, u, ids[j])))
  {
    if ids != [] {
      InsertKeeps(t, u, ids[0], clock(pass), refuses);
      var r := Insert(t, u, ids[0], clock(pass), refuses);
      if r.Ok? {
        var t1 := r.value;
        AddAllFacts(t1, u, ids[1..], clock, pass + 1, refuses);
        var (t', res) := AddAll(t1, u, ids[1..], clock, pass + 1, refuses);
        PairKept(t1.rows, t'.rows, u, ids[0]);
        assert forall m :: m in ids ==> m == ids[0] || m in ids[1..];
        if res.Err? {
          var k :| 0 <= k < |ids[1..]| && res.error == InsertFailed(ids[1..][k]) && refuses(u, ids[1..][k])
            && !HasPair(t'.rows, u, ids[1..][k]) && forall j :: 0 <= j < k ==> HasPair(t'.rows, u, ids[1..][j]);
          assert ids[k + 1] == ids[1..][k];
          assert forall j :: 1 <= j < k + 1 ==> ids[j] == ids[1..][j - 1];
        }
      }
    }
  }

  lemma PairKept(p: seq<Favourite>, s: seq<Favourite>, u: string, m: nat)
    requires HasPrefix(p, s) && HasPair(p, u, m)
    ensures HasPair(s, u, m)
  {
    var k :| 0 <= k < |p| && p[k].userId == u && p[k].mediaId == m;
    assert s[k] == p[k];
  }

  /** Adding the same ids again, after a successful add, inserts nothing: adding is idempotent. */
  lemma {:induction false} AddAllIdempotent(t: Table, u: string, ids: seq<nat>, clock: nat -> int, later: nat -> int, refuses: (string, nat) -> bool)
    requires TableOk(t) && AddAll(t, u, ids, clock, 0, refuses).1.Ok?
    ensures var t' := AddAll(t, u, ids, clock, 0, refuses).0; AddAll(t', u, ids, later, 0, refuses) == (t', Ok(()))
  {
    AddAllFacts(t, u, ids, clock, 0, refuses);
    var t' := AddAll(t, u, ids, clock, 0, refuses).0;
    AllPresent(t', u, ids, later, 0, refuses);
  }

  lemma {:induction false} AllPresent(t: Table, u: string, ids: seq<nat>, clock: nat -> int, pass: nat, refuses: (string, nat) -> bool)
    requires forall m :: m in ids ==> HasPair(t.rows, u, m)
    ensures AddAll(t, u, ids, clock, pass, refuses) == (t, Ok(()))
  {
    if ids != [] {
      assert ids[0] in ids;
      assert forall m :: m in ids[1..] ==> m in ids;
      AllPresent(t, u, ids[1..], clock, pass + 1, refuses);
    }
  }

  /** The rows kept by a removal: all but those of the user with one of the given media. */
  function Kept(rows: seq<Favourite>, u: string, ids: set<nat>): seq<Favourite> {
    if rows == [] then []
    else (if rows[0].userId == u && rows[0].mediaId in ids then [] else [rows[0]]) + Kept(rows[1..], u, ids)
  }

  /** Exactly the rows of the user with one of the given media go; every other row stays, in order. */
  lemma {:induction false} KeptRows(rows: seq<Favourite>, u: string, ids: set<nat>)
    ensures forall f :: f in Kept(rows, u, ids) <==> f in rows && !(f.userId == u && f.mediaId in ids)
    ensures |Kept(rows, u, ids)| <= |rows|
  {
    if rows != [] {
      KeptRows(rows[1..], u, ids);
      assert forall f :: f in rows <==> f == rows[0] || f in rows[1..];
    }
  }

  lemma {:induction false} KeptUnique(rows: seq<Favourite>, u: string, ids: set<nat>)
    requires forall i, j :: 0 <= i < j < |rows| ==> !(rows[i].userId == rows[j].userId && rows[i].mediaId == rows[j].mediaId)
    ensures var k := Kept(rows, u, ids);
      forall i, j :: 0 <= i < j < |k| ==> !(k[i].userId == k[j].userId && k[i].mediaId == k[j].mediaId)
  {
    if rows != [] {
      KeptUnique(rows[1..], u, ids);
      KeptRows(rows[1..], u, ids);
      var rest := Kept(rows[1..], u, ids);
      if !(rows[0].userId == u && rows[0].mediaId in ids) {
        var k := [rows[0]] + rest;
        assert Kept(rows, u, ids) == k;
        forall j | 1 <= j < |k| ensures !(k[0].userId == k[j].userId && k[0].mediaId == k[j].mediaId) {
          assert k[j] == rest[j - 1] && rest[j - 1] in rest;
          var q :| 0 <= q < |rows[1..]| && rows[1..][q] == k[j];
          assert rows[q + 1] == k[j];
        }
      }
    }
  }

  class Repository {
    const refuses: (string, nat) -> bool
    const removeFails: bool
    var table: Table

    ghost predicate Valid()
      reads this
    {
      TableOk(table)
    }

    constructor(refuses: (string, nat) -> bool, removeFails: bool)
      ensures Valid() && table == Table([], 1)
      ensures this.refuses == refuses && this.removeFails == removeFails
    {
      this.refuses := refuses;
      this.removeFails := removeFails;
      table := Table([], 1);
    }

    /** One insert per id, in order, each stamped with the clock's reading on its own pass. */
    method Add(u: string, ids: seq<nat>, clock: nat -> int) returns (r: Result<(), FavouriteError>)
      requires Valid()
      modifies this
      ensures Valid()
      ensures (table, r) == AddAll(old(table), u, ids, clock, 0, refuses)
    {
      ghost var start := table;
      var i := 0;
      while i < |ids|
        invariant 0 <= i <= |ids| && TableOk(table)
        invariant AddAll(table, u, ids[i..], clock, i, refuses) == AddAll(start, u, ids, clock, 0, refuses)
      {
        assert ids[i..][0] == ids[i] && ids[i..][1..] == ids[i + 1..];
        var step := Insert(table, u, ids[i], clock(i), refuses);
        InsertKeeps(table, u, ids[i], clock(i), refuses);
        if step.Err? {
          return Err(step.error);
        }
        table := step.value;
        i := i + 1;
      }
      assert ids[i..] == [];
      r := Ok(());
    }

    method Remove(u: string, ids: seq<nat>) returns (r: Result<(), FavouriteError>)
      requires Valid()
      modifies this
      ensures Valid()
      ensures r.Err? <==> removeFails
      ensures r.Err? ==> table == old(table)
      ensures r.Ok? ==> table == Table(Kept(old(table).rows, u, set m | m in ids), old(table).nextId)
    {
      if removeFails {
        return Err(RemoveFailed);
      }
      var rows := Kept(table.rows, u, set m | m in ids);
      KeptUnique(table.rows, u, set m | m in ids);
      KeptRows(table.rows, u, set m | m in ids);
      assert forall i :: 0 <= i < |rows| ==> rows[i] in rows;
      table := Table(rows, table.nextId);
      r := Ok(());
    }
  }
}
