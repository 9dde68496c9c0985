/**
 * The media selection of the client (selectedMedia.store.ts): the selected
 * media, unique by id, and the album the selection belongs to.
 */
module Selection {
  import opened Outcomes

  datatype Media = Media(id: int, isPublic: bool, isFavourite: bool)

  predicate HasId(s: seq<Media>, id: int) {
    exists i :: 0 <= i < |s| && s[i].id == id
  }

  predicate UniqueIds(s: seq<Media>) {
    forall i, j :: 0 <= i < j < |s| ==> s[i].id != s[j].id
  }

  /** `add`: appended only when no selected media has its id. */
  function Added(s: seq<Media>, m: Media): (r: seq<Media>)
    ensures HasId(s, m.id) ==> r == s
    ensures !HasId(s, m.id) ==> r == s + [m]
    ensures HasId(r, m.id)
  {
    if HasId(s, m.id) then s
    else
      assert (s + [m])[|s|] == m;
      s + [m]
  }

  /** Adding keeps the ids unique, and adding the same media twice is adding it once. */
  lemma AddedUnique(s: seq<Media>, m: Media, m': Media)
    requires UniqueIds(s)
    ensures UniqueIds(Added(s, m))
    ensures m'.id == m.id ==> Added(Added(s, m), m') == Added(s, m)
  {
  }

  /** `remove`: every media with that id goes, the rest stay in order. */
  function Removed(s: seq<Media>, id: int): (r: seq<Media>)
    ensures forall k :: 0 <= k < |r| ==> r[k].id != id
  {
    if s == [] then [] else (if s[0].id == id then [] else [s[0]]) + Removed(s[1..], id)
  }

  /** `a` is `b` with some elements left out, the rest in their order. */
  predicate Subsequence(a: seq<Media>, b: seq<Media>)
    decreases |b|
  {
    a == [] || (b != [] && if a[0] == b[0] then Subsequence(a[1..], b[1..]) else Subsequence(a, b[1..]))
  }

  /**
   * Removing keeps the other media in their order, each as often as it was
   * selected, and drops every media with that id.
   */
  lemma RemovedFacts(s: seq<Media>, id: int)
    ensures forall m :: m in Removed(s, id) <==> m in s && m.id != id
    ensures !HasId(Removed(s, id), id)
    ensures !HasId(s, id) ==> Removed(s, id) == s
    ensures |Removed(s, id)| <= |s|
    ensures Subsequence(Removed(s, id), s)
    ensures forall m :: multiset(Removed(s, id))[m] == if m.id == id then 0 else multiset(s)[m]
  {
    RemovedMembers(s, id);
    RemovedNothing(s, id);
    RemovedOrder(s, id);
    RemovedCounts(s, id);
    var r := Removed(s, id);
    forall i | 0 <= i < |r| ensures r[i].id != id {
      assert r[i] in r;
    }
  }

  lemma {:induction false} RemovedOrder(s: seq<Media>, id: int)
    ensures Subsequence(Removed(s, id), s)
  {
    if s != [] {
      RemovedOrder(s[1..], id);
      var rest := Removed(s[1..], id);
      if s[0].id != id {
        assert Removed(s, id) == [s[0]] + rest;
        assert ([s[0]] + rest)[1..] == rest;
      } else {
        assert Removed(s, id) == rest;
        assert rest != [] ==> rest[0] != s[0] by {
          if rest != [] {
            RemovedMembers(s[1..], id);
            assert rest[0] in rest;
          }
        }
      }
    }
  }

  lemma {:induction false} RemovedCounts(s: seq<Media>, id: int)
    ensures forall m :: multiset(Removed(s, id))[m] == if m.id == id then 0 else multiset(s)[m]
  {
    if s != [] {
      RemovedCounts(s[1..], id);
      assert s == [s[0]] + s[1..];
      assert multiset(s) == multiset{s[0]} + multiset(s[1..]);
      if s[0].id != id {
        assert Removed(s, id) == [s[0]] + Removed(s[1..], id);
        assert multiset(Removed(s, id)) == multiset{s[0]} + multiset(Removed(s[1..], id));
      }
    }
  }

  lemma {:induction false} RemovedMembers(s: seq<Media>, id: int)
    ensures forall m :: m in Removed(s, id) <==> m in s && m.id != id
    ensures |Removed(s, id)| <= |s|
  {
    if s != [] {
      RemovedMembers(s[1..], id);
      assert forall m :: m in s <==> m == s[0] || m in s[1..];
    }
  }

  lemma {:induction false} RemovedNothing(s: seq<Media>, id: int)
    ensures !HasId(s, id) ==> Removed(s, id) == s
  {
    if s != [] && !HasId(s, id) {
      assert !HasId(s[1..], id) by {
        forall i | 0 <= i < |s[1..]| ensures s[1..][i].id != id {
          assert s[1..][i] == s[i + 1];
        }
      }
      RemovedNothing(s[1..], id);
      assert s == [s[0]] + s[1..];
    }
  }

  /** Removing from a selection with unique ids keeps them unique. */
  lemma {:induction false} RemovedUnique(s: seq<Media>, id: int)
    requires UniqueIds(s)
    ensures UniqueIds(Removed(s, id))
  {
    if s != [] {
      assert UniqueIds(s[1..]) by {
        forall i, j | 0 <= i < j < |s[1..]| ensures s[1..][i].id != s[1..][j].id {
          assert s[1..][i] == s[i + 1] && s[1..][j] == s[j + 1];
        }
      }
      RemovedUnique(s[1..], id);
      RemovedMembers(s[1..], id);
      var rest := Removed(s[1..], id);
      if s[0].id != id {
        var r := [s[0]] + rest;
        forall j | 1 <= j < |r| ensures r[0].id != r[j].id {
          assert r[j] == rest[j - 1] && rest[j - 1] in rest;
          var q :| 0 <= q < |s[1..]| && s[1..][q] == r[j];
          assert s[q + 1] == r[j];
        }
        assert Removed(s, id) == r;
      }
    }
  }

  /** The `ids` getter. */
  function Ids(s: seq<Media>): (ids: seq<int>)
    ensures |ids| == |s| && forall i :: 0 <= i < |s| ==> ids[i] == s[i].id
  {
    if s == [] then [] else [s[0].id] + Ids(s[1..])
  }

  /** The `first` getter: nothing for an empty selection, else the first media. */
  function First(s: seq<Media>): (f: Option<Media>)
    ensures f.None? <==> s == []
    ensures f.Some? ==> f.value == s[0]
  {
    if |s| > 0 then Some(s[0]) else None
  }

  predicate PublicOnly(s: seq<Media>) {
    |s| > 0 && forall i :: 0 <= i < |s| ==> s[i].isPublic
  }

  predicate NonPublicOnly(s: seq<Media>) {
    |s| > 0 && forall i :: 0 <= i < |s| ==> !s[i].isPublic
  }

  predicate FavouriteOnly(s: seq<Media>) {
    |s| > 0 && forall i :: 0 <= i < |s| ==> s[i].isFavourite
  }

  predicate NonFavouriteOnly(s: seq<Media>) {
    |s| > 0 && forall i :: 0 <= i < |s| ==> !s[i].isFavourite
  }

  /** The "only" getters are false on an empty selection and no two opposite ones hold together; one media decides them all. */
  lemma OnlyGetters(s: seq<Media>)
    ensures s == [] ==> !PublicOnly(s) && !NonPublicOnly(s) && !FavouriteOnly(s) && !NonFavouriteOnly(s)
    ensures !(PublicOnly(s) && NonPublicOnly(s)) && !(FavouriteOnly(s) && NonFavouriteOnly(s))
    ensures |s| == 1 ==> ((PublicOnly(s) <==> s[0].isPublic) && (NonPublicOnly(s) <==> !s[0].isPublic)
      && (FavouriteOnly(s) <==> s[0].isFavourite) && (NonFavouriteOnly(s) <==> !s[0].isFavourite))
  {
    if |s| > 0 {
      assert s[0].isPublic || !s[0].isPublic;
    }
  }

  class Store {
    var selected: seq<Media>
    var albumId: Option<int>

    constructor()
      ensures selected == [] && albumId == None
    {
      selected := [];
      albumId := None;
    }

    predicate IsAlbum()
      reads this
    {
      albumId.Some?
    }

    method Set(m: Media)
      modifies this
      ensures selected == [m] && albumId == old(albumId)
    {
      selected := [m];
    }

    method Add(m: Media)
      modifies this
      ensures selected == Added(old(selected), m) && albumId == old(albumId)
    {
      var i := 0;
      while i < |selected|
        invariant 0 <= i <= |selected|
        invariant forall j :: 0 <= j < i ==> selected[j].id != m.id
      {
        if selected[i].id == m.id {
          return;
        }
        i := i + 1;
      }
      selected := selected + [m];
    }

    method Remove(id: int)
      modifies this
      ensures selected == Removed(old(selected), id) && albumId == old(albumId)
    {
      selected := Removed(selected, id);
    }

    method Clear()
      modifies this
      ensures selected == [] && albumId == old(albumId)
    {
      selected := [];
    }

    method SetAlbumId(id: Option<int>)
      modifies this
      ensures albumId == id && selected == old(selected)
    {
      albumId := id;
    }

    method Reset()
      modifies this
      ensures selected == [] && albumId == None && !IsAlbum()
    {
      selected := [];
      albumId := None;
    }
  }
}
