/** When the incremental counts equal the full recomputation, and what the rollups add up to. */
module RollupSafety {
  import opened Wrappers
  import opened Tables
  import opened CatalogCounts
  import opened Rollups

  // ------------------------------------------------------------------ album rows

  /** The album row before and after the write. */
  function OldRow(c: Catalog, e: Entry): Option<Row> {
    Find(c.albums, e.Key())
  }

  function NewRow(c: Catalog, e: Entry): Option<Row> {
    Find(WriteAlbum(c, e).albums, e.Key())
  }

  lemma {:induction false} FindReplaced(rows: seq<Row>, key: Key, f: Row -> Row)
    requires forall r :: KeyOf(f(r)) == KeyOf(r)
    ensures Find(Replace(rows, key, f), key) ==
            if Find(rows, key).Some? then Some(f(Find(rows, key).value)) else None
  {
    if rows != [] {
      if KeyOf(rows[0]) == key {
        assert KeyOf(f(rows[0])) == key;
      } else {
        FindReplaced(rows[1..], key, f);
        assert Replace(rows, key, f)[1..] == Replace(rows[1..], key, f);
      }
    }
  }

  lemma {:induction false} FindAppended(rows: seq<Row>, r: Row)
    requires Find(rows, KeyOf(r)).None?
    ensures Find(rows + [r], KeyOf(r)) == Some(r)
  {
    if rows != [] {
      FindAppended(rows[1..], r);
      assert (rows + [r])[1..] == rows[1..] + [r];
    }
  }

  lemma FindRemoved(rows: seq<Row>, key: Key)
    requires DistinctKeys(rows)
    ensures Find(Remove(rows, key), key).None?
  {
    RemoveMembers(rows, key);
    FindMember(Remove(rows, key), key);
  }

  /** The artist the row names after the write. */
  lemma NewRowArtist(c: Catalog, e: Entry)
    requires c.Valid()
    ensures NewRow(c, e).Some? <==> e.wanted
    ensures e.wanted ==> Get(NewRow(c, e).value, ArtistId) == Int(e.artistId) && KeyOf(NewRow(c, e).value) == e.Key()
  {
    FindMember(WriteAlbum(c, e).albums, e.Key());
    if e.wanted {
      var f := SetArtist(e.artistId);
      assert forall r :: KeyOf(f(r)) == KeyOf(r);
      if OldRow(c, e).Some? {
        FindReplaced(c.albums, e.Key(), f);
      } else {
        var row := NewAlbum(e);
        assert KeyOf(row) == e.Key();
        FindAppended(c.albums, row);
      }
    } else {
      FindRemoved(c.albums, e.Key());
    }
  }

  /** The write changes the album rows only at the entry's key. */
  lemma WriteMembers(c: Catalog, e: Entry)
    requires c.Valid()
    ensures DistinctKeys(WriteAlbum(c, e).albums)
    ensures forall a :: KeyOf(a) != e.Key() ==> (a in WriteAlbum(c, e).albums <==> a in c.albums)
  {
    if e.wanted {
      var f := SetArtist(e.artistId);
      assert forall r :: KeyOf(f(r)) == KeyOf(r);
      if OldRow(c, e).Some? {
        ReplaceMembers(c.albums, e.Key(), f);
      } else {
        FindMember(c.albums, e.Key());
        var w := WriteAlbum(c, e).albums;
        assert forall i :: 0 <= i < |c.albums| ==> w[i] == c.albums[i] && c.albums[i] in c.albums;
      }
    } else {
      RemoveMembers(c.albums, e.Key());
    }
  }

  /** Counting album rows after the write: the old row leaves, the new row enters. */
  lemma WriteCount(c: Catalog, e: Entry, p: Row -> bool)
    requires c.Valid()
    ensures Count(WriteAlbum(c, e).albums, p) + One(OldRow(c, e), p) == Count(c.albums, p) + One(NewRow(c, e), p)
  {
    NewRowArtist(c, e);
    if e.wanted {
      var f := SetArtist(e.artistId);
      assert forall r :: KeyOf(f(r)) == KeyOf(r);
      if OldRow(c, e).Some? {
        FindReplaced(c.albums, e.Key(), f);
        CountReplaced(c.albums, e.Key(), f, p);
      } else {
        var row := NewAlbum(e);
        assert KeyOf(row) == e.Key();
        FindAppended(c.albums, row);
        CountAppend(c.albums, [row], p);
        assert Count([row], p) == if p(row) then 1 else 0;
      }
    } else {
      CountRemoved(c.albums, e.Key(), p);
    }
  }

  // ------------------------------------------------------------------ track rows

  lemma {:induction false} InsertedTracks(tracks: seq<Row>, e: Entry, ids: seq<int>, stopAt: nat)
    returns (extra: seq<Row>)
    ensures InsertTracks(tracks, e, ids, stopAt) == tracks + extra
    ensures forall t <- extra :: IsTrackOf(e)(t)
    decreases |ids|
  {
    if ids == [] || stopAt == 0 || Find(tracks, KeyFor(Int(ids[0]), e.inst)).Some? {
      extra := [];
      assert tracks + [] == tracks;
    } else {
      var first := NewTrack(e, ids[0]);
      var rest := InsertedTracks(tracks + [first], e, ids[1..], stopAt - 1);
      extra := [first] + rest;
      assert tracks + [first] + rest == tracks + extra;
    }
  }

  /** The write touches only tracks of the entry's album. */
  lemma WriteTracks(c: Catalog, e: Entry) returns (extra: seq<Row>)
    ensures WriteAlbum(c, e).tracks == c.tracks ||
            WriteAlbum(c, e).tracks == DeleteWhere(c.tracks, IsTrackOf(e)) + extra
    ensures forall t <- extra :: IsTrackOf(e)(t)
  {
    extra := [];
    if e.wanted && e.fetched != [] {
      extra := InsertedTracks(DeleteWhere(c.tracks, IsTrackOf(e)), e, e.fetched, e.stopAt);
    }
  }

  /** Tracks of other albums are counted as before. */
  lemma OtherTracksKept(c: Catalog, e: Entry, a: Row)
    requires KeyOf(a) != e.Key()
    ensures Count(WriteAlbum(c, e).tracks, TracksOf(a)) == Count(c.tracks, TracksOf(a))
  {
    var extra := WriteTracks(c, e);
    var q := IsTrackOf(e);
    assert forall t :: q(t) ==> !TracksOf(a)(t);
    CountDeleted(c.tracks, q, TracksOf(a));
    CountAppend(DeleteWhere(c.tracks, q), extra, TracksOf(a));
    CountNone(extra, TracksOf(a));
  }

  lemma {:induction false} TrackTotalAppend(a: seq<Row>, b: seq<Row>, albums: seq<Row>, artist: Row)
    ensures TrackTotal(a + b, albums, artist) == TrackTotal(a, albums, artist) + TrackTotal(b, albums, artist)
  {
    if a == [] {
      assert a + b == b;
    } else {
      TrackTotalAppend(a[1..], b, albums, artist);
      assert (a + b)[1..] == a[1..] + b;
    }
  }

  lemma {:induction false} TrackTotalNone(tracks: seq<Row>, albums: seq<Row>, artist: Row)
    requires forall t <- tracks :: Count(albums, JoinedAlbums(t, artist)) == 0
    ensures TrackTotal(tracks, albums, artist) == 0
  {
    if tracks != [] {
      assert tracks[0] in tracks;
      TrackTotalNone(tracks[1..], albums, artist);
    }
  }

  lemma {:induction false} TrackTotalDeleted(tracks: seq<Row>, q: Row -> bool, albums: seq<Row>, artist: Row)
    requires forall t <- tracks :: q(t) ==> Count(albums, JoinedAlbums(t, artist)) == 0
    ensures TrackTotal(DeleteWhere(tracks, q), albums, artist) == TrackTotal(tracks, albums, artist)
  {
    if tracks != [] {
      assert tracks[0] in tracks;
      TrackTotalDeleted(tracks[1..], q, albums, artist);
      if q(tracks[0]) {
        assert DeleteWhere(tracks, q) == DeleteWhere(tracks[1..], q);
      } else {
        assert DeleteWhere(tracks, q)[1..] == DeleteWhere(tracks[1..], q);
      }
    }
  }

  lemma {:induction false} TrackTotalSame(tracks: seq<Row>, albums: seq<Row>, albums': seq<Row>, artist: Row)
    requires forall t :: Count(albums', JoinedAlbums(t, artist)) == Count(albums, JoinedAlbums(t, artist))
    ensures TrackTotal(tracks, albums', artist) == TrackTotal(tracks, albums, artist)
  {
    if tracks != [] {
      TrackTotalSame(tracks[1..], albums, albums', artist);
    }
  }

  /** The tracks of an album that is not the artist's add nothing to the artist's total. */
  lemma ForeignTracksCountZero(albums: seq<Row>, e: Entry, artist: Row, t: Row)
    requires DistinctKeys(albums) && IsTrackOf(e)(t)
    requires Find(albums, e.Key()).Some? ==> !AlbumOfArtist(Find(albums, e.Key()).value, artist)
    ensures Count(albums, JoinedAlbums(t, artist)) == 0
  {
    forall a | a in albums
      ensures !JoinedAlbums(t, artist)(a)
    {
      if KeyOf(a) == e.Key() {
        FindUnique(albums, a);
      }
    }
    CountNone(albums, JoinedAlbums(t, artist));
  }

  // ---------------------------------------------------------- artists not refreshed

  /** An artist that neither the old nor the new album row names keeps both its counts. */
  lemma UnrelatedArtistKept(c: Catalog, e: Entry, artist: Row)
    requires c.Valid()
    requires OldRow(c, e).Some? ==> !AlbumOfArtist(OldRow(c, e).value, artist)
    requires NewRow(c, e).Some? ==> !AlbumOfArtist(NewRow(c, e).value, artist)
    ensures Count(WriteAlbum(c, e).albums, AlbumsOf(artist)) == Count(c.albums, AlbumsOf(artist))
    ensures TrackTotal(WriteAlbum(c, e).tracks, WriteAlbum(c, e).albums, artist) ==
              TrackTotal(c.tracks, c.albums, artist)
  {
    var w := WriteAlbum(c, e);
    WriteCount(c, e, AlbumsOf(artist));
    forall t
      ensures Count(w.albums, JoinedAlbums(t, artist)) == Count(c.albums, JoinedAlbums(t, artist))
    {
      WriteCount(c, e, JoinedAlbums(t, artist));
    }
    TrackTotalSame(w.tracks, c.albums, w.albums, artist);
    forall t | IsTrackOf(e)(t)
      ensures Count(c.albums, JoinedAlbums(t, artist)) == 0
    {
      ForeignTracksCountZero(c.albums, e, artist, t);
    }
    var extra := WriteTracks(c, e);
    TrackTotalDeleted(c.tracks, IsTrackOf(e), c.albums, artist);
    TrackTotalAppend(DeleteWhere(c.tracks, IsTrackOf(e)), extra, c.albums, artist);
    TrackTotalNone(extra, c.albums, artist);
  }

  // ----------------------------------------------------------------- the refresh

  /** Writing `TotalTracks` does not disturb any count over albums. */
  lemma SetTotalCount(albums: seq<Row>, e: Entry, n: nat, p: Row -> bool)
    requires forall r :: p(SetTotal(n)(r)) == p(r)
    ensures Count(Replace(albums, e.Key(), SetTotal(n)), p) == Count(albums, p)
  {
    CountReplaced(albums, e.Key(), SetTotal(n), p);
  }

  lemma RefreshedAlbums(w: Catalog, e: Entry, artist: Row)
    ensures Count(RefreshAlbum(w, e).albums, AlbumsOf(artist)) == Count(w.albums, AlbumsOf(artist))
    ensures TrackTotal(w.tracks, RefreshAlbum(w, e).albums, artist) == TrackTotal(w.tracks, w.albums, artist)
  {
    var n := Count(w.tracks, IsTrackOf(e));
    SetTotalCount(w.albums, e, n, AlbumsOf(artist));
    forall t
      ensures Count(RefreshAlbum(w, e).albums, JoinedAlbums(t, artist)) == Count(w.albums, JoinedAlbums(t, artist))
    {
      SetTotalCount(w.albums, e, n, JoinedAlbums(t, artist));
    }
    TrackTotalSame(w.tracks, w.albums, RefreshAlbum(w, e).albums, artist);
  }

  /** After the refresh every album's count matches. */
  lemma AlbumsMatchAfter(c: Catalog, e: Entry)
    requires c.Valid() && forall a <- c.albums :: AlbumMatches(c.tracks, a)
    ensures forall a <- RefreshAlbum(WriteAlbum(c, e), e).albums :: AlbumMatches(WriteAlbum(c, e).tracks, a)
  {
    var w := WriteAlbum(c, e);
    var n := Count(w.tracks, IsTrackOf(e));
    var f := SetTotal(n);
    WriteMembers(c, e);
    assert forall r :: KeyOf(f(r)) == KeyOf(r);
    ReplaceMembers(w.albums, e.Key(), f);
    forall a | a in RefreshAlbum(w, e).albums
      ensures AlbumMatches(w.tracks, a)
    {
      if KeyOf(a) == e.Key() {
        CountSame(w.tracks, IsTrackOf(e), TracksOf(a));
      } else {
        OtherTracksKept(c, e, a);
        assert AlbumMatches(c.tracks, a);
      }
    }
  }

  lemma {:induction false} JoinedTotalIsTrackTotal(tracks: seq<Row>, albums: seq<Row>, artist: Row, inst: string)
    requires Get(artist, EntryId) != Null && Get(artist, ArrInstance) == Text(inst)
    ensures JoinedTotal(tracks, albums, Get(artist, EntryId), inst) == TrackTotal(tracks, albums, artist)
  {
    if tracks != [] {
      CountSame(albums, JoinedIn(tracks[0], Get(artist, EntryId), inst), JoinedAlbums(tracks[0], artist));
      JoinedTotalIsTrackTotal(tracks[1..], albums, artist, inst);
    }
  }

  /** The refreshed artist matches; every other artist row is untouched. */
  lemma RefreshArtistEffect(c: Catalog, artistId: Cell, inst: string)
    requires DistinctKeys(c.artists) && artistId != Null
    ensures var c' := RefreshArtist(c, artistId, inst);
            DistinctKeys(c'.artists) &&
            (forall r <- c'.artists :: KeyOf(r) == KeyFor(artistId, inst) ==> ArtistMatches(c.tracks, c.albums, r)) &&
            (forall r :: KeyOf(r) != KeyFor(artistId, inst) ==> (r in c'.artists <==> r in c.artists)) &&
            (Find(c'.artists, KeyFor(artistId, inst)).Some? <==> Find(c.artists, KeyFor(artistId, inst)).Some?)
  {
    var n, m := Count(c.albums, AlbumsIn(artistId, inst)), JoinedTotal(c.tracks, c.albums, artistId, inst);
    var f := SetArtistTotals(n, m);
    assert forall r :: KeyOf(f(r)) == KeyOf(r);
    ReplaceMembers(c.artists, KeyFor(artistId, inst), f);
    FindReplaced(c.artists, KeyFor(artistId, inst), f);
    forall r | r in RefreshArtist(c, artistId, inst).artists && KeyOf(r) == KeyFor(artistId, inst)
      ensures ArtistMatches(c.tracks, c.albums, r)
    {
      CountSame(c.albums, AlbumsIn(artistId, inst), AlbumsOf(r));
      JoinedTotalIsTrackTotal(c.tracks, c.albums, r, inst);
    }
  }

  /** The artist key whose counts the write makes stale: the old artist of an album that left it. */
  function Left(c: Catalog, e: Entry): set<Key> {
    if OldRow(c, e).None? || (e.wanted && Get(OldRow(c, e).value, ArtistId) == Int(e.artistId)) then {}
    else {KeyFor(Get(OldRow(c, e).value, ArtistId), e.inst)}
  }

  /** That artist's row, if there is one. */
  function LeftBehind(c: Catalog, e: Entry): Option<Row> {
    if Left(c, e) == {} then None else Find(c.artists, KeyFor(Get(OldRow(c, e).value, ArtistId), e.inst))
  }

  /** Whether an album row with the entry's key belongs to the artist. */
  lemma BelongsIff(a: Row, e: Entry, artist: Row)
    requires KeyOf(a) == e.Key() && Get(a, ArtistId) != Null
    ensures AlbumOfArtist(a, artist) <==> KeyOf(artist) == KeyFor(Get(a, ArtistId), e.inst)
  {
  }

  lemma LeftIff(c: Catalog, e: Entry, artist: Row)
    requires c.Valid()
    requires NewRow(c, e).Some? ==> !AlbumOfArtist(NewRow(c, e).value, artist)
    ensures (OldRow(c, e).Some? && AlbumOfArtist(OldRow(c, e).value, artist)) <==> KeyOf(artist) in Left(c, e)
  {
    NewRowArtist(c, e);
    FindMember(c.albums, e.Key());
    if OldRow(c, e).Some? {
      BelongsIff(OldRow(c, e).value, e, artist);
      if e.wanted {
        BelongsIff(NewRow(c, e).value, e, artist);
      }
    }
  }

  /**
   An artist the refresh does not touch keeps its true counts, unless an album
   left it: then it has one album less.
   */
  lemma UntouchedArtist(c: Catalog, e: Entry, artist: Row)
    requires c.Valid()
    requires NewRow(c, e).Some? ==> !AlbumOfArtist(NewRow(c, e).value, artist)
    ensures var w := WriteAlbum(c, e);
            var albums := RefreshAlbum(w, e).albums;
            Count(albums, AlbumsOf(artist)) ==
              Count(c.albums, AlbumsOf(artist)) - (if KeyOf(artist) in Left(c, e) then 1 else 0) &&
            (KeyOf(artist) !in Left(c, e) ==>
               TrackTotal(w.tracks, albums, artist) == TrackTotal(c.tracks, c.albums, artist))
  {
    LeftIff(c, e, artist);
    RefreshedAlbums(WriteAlbum(c, e), e, artist);
    WriteCount(c, e, AlbumsOf(artist));
    if KeyOf(artist) !in Left(c, e) {
      UnrelatedArtistKept(c, e, artist);
    }
  }

  /** The artist key the refresh recomputes. */
  function RefreshedKey(e: Entry): Key {
    KeyFor(Int(e.artistId), e.inst)
  }

  lemma ProcessShape(c: Catalog, e: Entry)
    requires c.Valid() && e.id != 0
    ensures var r := RefreshAlbum(WriteAlbum(c, e), e);
            Process(c, e) == if e.wanted then RefreshArtist(r, Int(e.artistId), e.inst) else r
  {
    var w := WriteAlbum(c, e);
    var f := SetTotal(Count(w.tracks, IsTrackOf(e)));
    NewRowArtist(c, e);
    assert forall r :: KeyOf(f(r)) == KeyOf(r);
    FindReplaced(w.albums, e.Key(), f);
  }

  /** The row claims more albums than the artist has. */
  ghost predicate Overcounts(c: Catalog, artist: Row) {
    Get(artist, AlbumCount).Int? && Get(artist, AlbumCount).n > Count(c.albums, AlbumsOf(artist))
  }

  /** The counts are exact except in the artist rows with these keys, which claim too many albums. */
  ghost predicate StaleOnly(c: Catalog, stale: set<Key>) {
    c.Valid() && (forall a <- c.albums :: AlbumMatches(c.tracks, a)) &&
    forall r <- c.artists :: if KeyOf(r) in stale then Overcounts(c, r) else ArtistMatches(c.tracks, c.albums, r)
  }

  lemma StaleOnlyMatches(c: Catalog, stale: set<Key>)
    requires StaleOnly(c, stale)
    ensures c.Valid() && (c.Matches() <==> forall r <- c.artists :: KeyOf(r) !in stale)
  {
  }

  /** Processing one album: the artist it leaves becomes stale, the artist it names becomes exact. */
  lemma ProcessStale(c: Catalog, e: Entry, stale: set<Key>)
    requires StaleOnly(c, stale) && e.id != 0
    ensures StaleOnly(Process(c, e), stale + Left(c, e) - if e.wanted then {RefreshedKey(e)} else {})
  {
    hide Process, RefreshAlbum, RefreshArtist, WriteAlbum, Left, Catalog.Valid;
    var r, p := RefreshAlbum(WriteAlbum(c, e), e), Process(c, e);
    var stale' := stale + Left(c, e) - if e.wanted then {RefreshedKey(e)} else {};
    ProcessKeepsValid(c, e);
    ProcessShape(c, e);
    RefreshFrame(c, e);
    AlbumsMatchAfter(c, e);
    if e.wanted {
      RefreshArtistFrame(r, Int(e.artistId), e.inst);
      RefreshArtistEffect(r, Int(e.artistId), e.inst);
    }
    forall x | x in p.artists
      ensures if KeyOf(x) in stale' then Overcounts(p, x) else ArtistMatches(p.tracks, p.albums, x)
    {
      if !(e.wanted && KeyOf(x) == RefreshedKey(e)) {
        NewRowElsewhere(c, e, x);
        UntouchedArtist(c, e, x);
      }
    }
  }

  /** The refreshes touch only the rows they are meant to. */
  lemma RefreshFrame(c: Catalog, e: Entry)
    ensures var r := RefreshAlbum(WriteAlbum(c, e), e);
            r.tracks == WriteAlbum(c, e).tracks && r.artists == c.artists && (c.Valid() ==> DistinctKeys(r.artists))
  {
  }

  lemma NewRowElsewhere(c: Catalog, e: Entry, artist: Row)
    requires c.Valid() && !(e.wanted && KeyOf(artist) == RefreshedKey(e))
    ensures NewRow(c, e).Some? ==> !AlbumOfArtist(NewRow(c, e).value, artist)
  {
    NewRowArtist(c, e);
    if e.wanted {
      BelongsIff(NewRow(c, e).value, e, artist);
    }
  }

  /**
   Processing one album keeps all counts equal to the full recomputation
   exactly when no artist is left behind: the album had no row, or it stays
   with its artist, or its old artist has no row.
   */
  lemma ProcessMatchesIff(c: Catalog, e: Entry)
    requires c.Valid() && c.Matches() && e.id != 0
    ensures Process(c, e).Matches() <==> LeftBehind(c, e).None?
  {
    hide Process, Left, Catalog.Valid, Catalog.Matches;
    MatchesNothingStale(c);
    ProcessStale(c, e, {});
    var stale := {} + Left(c, e) - if e.wanted then {RefreshedKey(e)} else {};
    StaleOnlyMatches(Process(c, e), stale);
    LeftRow(c, e);
  }

  lemma MatchesNothingStale(c: Catalog)
    requires c.Valid() && c.Matches()
    ensures StaleOnly(c, {})
  {
  }

  /** An artist left behind has a row afterwards exactly if it had one before. */
  lemma LeftRow(c: Catalog, e: Entry)
    requires c.Valid() && e.id != 0
    ensures RefreshedKey(e) in Left(c, e) ==> !e.wanted
    ensures LeftBehind(c, e).Some? <==> exists x <- Process(c, e).artists :: KeyOf(x) in Left(c, e)
  {
    var r := RefreshAlbum(WriteAlbum(c, e), e);
    ProcessShape(c, e);
    if e.wanted {
      RefreshArtistEffect(r, Int(e.artistId), e.inst);
    }
    if Left(c, e) != {} {
      FindMember(c.artists, KeyFor(Get(OldRow(c, e).value, ArtistId), e.inst));
    }
  }

  /** For instance, album 10 moves from artist 1 to artist 2: artist 1 keeps an album count of one. */
  lemma MovedAlbumLeavesArtist()
    ensures var one: Row := map[EntryId := Int(1), ArrInstance := Text("L"), AlbumCount := Int(1),
                                TrackTotalCount := Int(0)];
            var two: Row := map[EntryId := Int(2), ArrInstance := Text("L"), AlbumCount := Int(0),
                                TrackTotalCount := Int(0)];
            var album: Row := map[EntryId := Int(10), ArrInstance := Text("L"), ArtistId := Int(1),
                                  TotalTracks := Int(0)];
            var c, e := Catalog([album], [], [one, two]), Entry(10, "L", 2, true, [], 0);
            c.Valid() && c.Matches() && !Process(c, e).Matches()
  {
    var one: Row := map[EntryId := Int(1), ArrInstance := Text("L"), AlbumCount := Int(1), TrackTotalCount := Int(0)];
    var two: Row := map[EntryId := Int(2), ArrInstance := Text("L"), AlbumCount := Int(0), TrackTotalCount := Int(0)];
    var album: Row := map[EntryId := Int(10), ArrInstance := Text("L"), ArtistId := Int(1), TotalTracks := Int(0)];
    var c, e := Catalog([album], [], [one, two]), Entry(10, "L", 2, true, [], 0);
    hide Process;
    assert Count([album], AlbumsOf(one)) == 1 && Count([album], AlbumsOf(two)) == 0;
    assert c.Valid() && c.Matches();
    assert OldRow(c, e) == Some(album);
    assert KeyFor(Int(1), "L") in Left(c, e) && KeyOf(one) == KeyFor(Int(1), "L");
    assert Find(c.artists, KeyFor(Int(1), "L")) == Some(one);
    ProcessMatchesIff(c, e);
  }

  /** In particular after an insert, or an update that leaves the artist unchanged. */
  lemma InsertOrSameArtistMatches(c: Catalog, e: Entry)
    requires c.Valid() && c.Matches() && e.id != 0 && e.wanted
    requires OldRow(c, e).Some? ==> Get(OldRow(c, e).value, ArtistId) == Int(e.artistId)
    ensures Process(c, e).Matches()
  {
    ProcessMatchesIff(c, e);
  }

  lemma ProcessKeepsValid(c: Catalog, e: Entry)
    requires c.Valid() && e.id != 0
    ensures Process(c, e).Valid()
  {
    var w := WriteAlbum(c, e);
    var f := SetTotal(Count(w.tracks, IsTrackOf(e)));
    ProcessShape(c, e);
    NewRowArtist(c, e);
    WriteMembers(c, e);
    assert forall r :: KeyOf(f(r)) == KeyOf(r);
    ReplaceMembers(w.albums, e.Key(), f);
    forall a | a in w.albums
      ensures Get(a, EntryId) != Null && Get(a, ArrInstance) != Null && Get(a, ArtistId) != Null
    {
      if KeyOf(a) == e.Key() {
        FindUnique(w.albums, a);
      }
    }
    FindMember(w.albums, e.Key());
    if e.wanted {
      RefreshArtistEffect(RefreshAlbum(w, e), Int(e.artistId), e.inst);
    }
  }

  /** The artist write changes the artist rows only at the entry's key. */
  lemma WriteArtistFrame(c: Catalog, a: ArtistEntry)
    requires DistinctKeys(c.artists)
    ensures var w := WriteArtist(c, a);
            w.albums == c.albums && w.tracks == c.tracks && DistinctKeys(w.artists) &&
            forall r <- w.artists :: r in c.artists || (r == NewArtist(a) && KeyOf(r) == a.Key())
  {
    FindMember(c.artists, a.Key());
    RemoveMembers(c.artists, a.Key());
    var w := WriteArtist(c, a);
    forall r | r in w.artists && r !in c.artists
      ensures r == NewArtist(a)
    {
      assert a.wanted && w.artists == c.artists + [NewArtist(a)];
    }
  }

  /** Processing one artist makes its row, if it still has one, exact. */
  lemma ArtistStale(c: Catalog, a: ArtistEntry, stale: set<Key>)
    requires StaleOnly(c, stale) && a.id != 0
    ensures StaleOnly(ProcessArtist(c, a), stale - {a.Key()})
  {
    hide WriteArtist, DistinctKeys, RefreshArtist;
    WriteArtistFrame(c, a);
    RefreshArtistFrame(WriteArtist(c, a), Int(a.id), a.inst);
    RefreshArtistEffect(WriteArtist(c, a), Int(a.id), a.inst);
  }

  lemma RefreshArtistFrame(c: Catalog, id: Cell, inst: string)
    ensures RefreshArtist(c, id, inst).albums == c.albums && RefreshArtist(c, id, inst).tracks == c.tracks
  {
  }

  // ------------------------------------------------------------ any sequence of updates

  datatype Update = AlbumUpdate(album: Entry) | ArtistUpdate(artist: ArtistEntry)
  {
    predicate HasId() {
      match this
      case AlbumUpdate(e) => e.id != 0
      case ArtistUpdate(a) => a.id != 0
    }

    /** The counts of the artist with this key are recomputed. */
    predicate Refreshes(k: Key) {
      match this
      case AlbumUpdate(e) => e.wanted && k == RefreshedKey(e)
      case ArtistUpdate(a) => k == a.Key()
    }

    /** An album leaves the artist with this key. */
    predicate Leaves(c: Catalog, k: Key) {
      AlbumUpdate? && k in Left(c, album)
    }
  }

  function Apply(c: Catalog, u: Update): Catalog {
    match u
    case AlbumUpdate(e) => Process(c, e)
    case ArtistUpdate(a) => ProcessArtist(c, a)
  }

  /** The first `n` updates applied in order. */
  function ApplyAll(c: Catalog, updates: seq<Update>, n: nat): Catalog
    requires n <= |updates|
  {
    if n == 0 then c else Apply(ApplyAll(c, updates, n - 1), updates[n - 1])
  }

  function StaleAfter(c: Catalog, stale: set<Key>, u: Update): set<Key> {
    match u
    case AlbumUpdate(e) => stale + Left(c, e) - if e.wanted then {RefreshedKey(e)} else {}
    case ArtistUpdate(a) => stale - {a.Key()}
  }

  function StaleAll(c: Catalog, updates: seq<Update>, n: nat): set<Key>
    requires n <= |updates|
  {
    if n == 0 then {}
    else StaleAfter(ApplyAll(c, updates, n - 1), StaleAll(c, updates, n - 1), updates[n - 1])
  }

  lemma {:induction false} StaleAllOnly(c: Catalog, updates: seq<Update>, n: nat)
    requires n <= |updates| && c.Valid() && c.Matches() && forall u <- updates :: u.HasId()
    ensures StaleOnly(ApplyAll(c, updates, n), StaleAll(c, updates, n))
  {
    hide StaleOnly, Process, ProcessArtist, Left, RefreshedKey;
    if n == 0 {
      MatchesNothingStale(c);
    } else {
      StaleAllOnly(c, updates, n - 1);
      assert updates[n - 1].HasId();
      match updates[n - 1]
      case AlbumUpdate(e) => ProcessStale(ApplyAll(c, updates, n - 1), e, StaleAll(c, updates, n - 1));
      case ArtistUpdate(a) => ArtistStale(ApplyAll(c, updates, n - 1), a, StaleAll(c, updates, n - 1));
    }
  }

  /**
   Update number `i` has an album leave the artist, and none of those after it,
   among the first `n`, refreshes the artist.
   */
  ghost predicate LeftFor(c: Catalog, updates: seq<Update>, n: nat, i: nat, k: Key)
    requires i < n <= |updates|
  {
    updates[i].Leaves(ApplyAll(c, updates, i), k) && forall j :: i < j < n ==> !updates[j].Refreshes(k)
  }

  ghost predicate IsStale(c: Catalog, updates: seq<Update>, n: nat, k: Key)
    requires n <= |updates|
  {
    exists i :: 0 <= i < n && LeftFor(c, updates, n, i, k)
  }

  lemma {:induction false} StaleAllMeans(c: Catalog, updates: seq<Update>, n: nat, k: Key)
    requires n <= |updates|
    ensures k in StaleAll(c, updates, n) <==> IsStale(c, updates, n, k)
  {
    hide Apply, Left;
    if n > 0 {
      var m := n - 1;
      StaleAllMeans(c, updates, m, k);
      LeavesAnother(ApplyAll(c, updates, m), updates[m], k);
      forall i | 0 <= i < m
        ensures LeftFor(c, updates, n, i, k) <==> LeftFor(c, updates, m, i, k) && !updates[m].Refreshes(k)
      {
      }
      assert LeftFor(c, updates, n, m, k) <==> updates[m].Leaves(ApplyAll(c, updates, m), k);
    }
  }

  lemma LeavesAnother(c: Catalog, u: Update, k: Key)
    ensures u.Leaves(c, k) ==> !u.Refreshes(k)
  {
  }

  /**
   Through any sequence of album and artist updates the counts are exact
   exactly when every artist row that an album has left has been refreshed
   since: by an album that names the artist, or by an artist update.
   */
  lemma CountsExactIff(c: Catalog, updates: seq<Update>, n: nat)
    requires n <= |updates| && c.Valid() && c.Matches() && forall u <- updates :: u.HasId()
    ensures ApplyAll(c, updates, n).Valid()
    ensures ApplyAll(c, updates, n).Matches() <==>
            forall r <- ApplyAll(c, updates, n).artists :: !IsStale(c, updates, n, KeyOf(r))
  {
    hide Apply, IsStale;
    StaleAllOnly(c, updates, n);
    StaleOnlyMatches(ApplyAll(c, updates, n), StaleAll(c, updates, n));
    forall k
      ensures k in StaleAll(c, updates, n) <==> IsStale(c, updates, n, k)
    {
      StaleAllMeans(c, updates, n, k);
    }
  }

  /** In particular through any sequence in which no album leaves an artist that has a row. */
  lemma {:induction false} CountsStayExact(c: Catalog, updates: seq<Update>, n: nat)
    requires n <= |updates| && c.Valid() && c.Matches() && forall u <- updates :: u.HasId()
    requires forall i :: 0 <= i < n && updates[i].AlbumUpdate? ==>
                           LeftBehind(ApplyAll(c, updates, i), updates[i].album).None?
    ensures ApplyAll(c, updates, n).Valid() && ApplyAll(c, updates, n).Matches()
  {
    hide LeftBehind, Process, ProcessArtist, Catalog.Valid, Catalog.Matches, StaleOnly;
    if n > 0 {
      var c1 := ApplyAll(c, updates, n - 1);
      CountsStayExact(c, updates, n - 1);
      assert updates[n - 1].HasId();
      match updates[n - 1]
      case AlbumUpdate(e) =>
        ProcessMatchesIff(c1, e);
        ProcessKeepsValid(c1, e);
      case ArtistUpdate(a) =>
        MatchesNothingStale(c1);
        ArtistStale(c1, a, {});
        StaleOnlyMatches(ProcessArtist(c1, a), {} - {a.Key()});
    }
  }

  // --------------------------------------------------------------- what adds up

  /** Joined (track, album) pairs whose album satisfies `q` and whose track satisfies `p`. */
  function PairCount(tracks: seq<Row>, albums: seq<Row>, p: Row -> bool, q: Row -> bool): nat {
    if tracks == [] then 0
    else (if p(tracks[0]) then Count(albums, JoinedBy(tracks[0], q)) else 0) + PairCount(tracks[1..], albums, p, q)
  }

  function JoinedBy(t: Row, q: Row -> bool): Row -> bool {
    (a: Row) => TrackOfAlbum(t, a) && q(a)
  }

  function AnyRow(): Row -> bool {
    (r: Row) => true
  }

  function InInstance(inst: string): Row -> bool {
    (r: Row) => Get(r, ArrInstance) == Text(inst)
  }

  /** Sum of `TotalTracks` over the albums that satisfy `q`. */
  function SumTotals(albums: seq<Row>, q: Row -> bool): int {
    if albums == [] then 0
    else
      (if q(albums[0]) && Get(albums[0], TotalTracks).Int? then Get(albums[0], TotalTracks).n else 0) +
      SumTotals(albums[1..], q)
  }

  /** Adding one album adds its tracks. */
  lemma {:induction false} PairsOfOneMoreAlbum(tracks: seq<Row>, a: Row, albums: seq<Row>, q: Row -> bool)
    ensures PairCount(tracks, [a] + albums, AnyRow(), q) ==
            PairCount(tracks, albums, AnyRow(), q) + if q(a) then Count(tracks, TracksOf(a)) else 0
  {
    if tracks != [] {
      PairsOfOneMoreAlbum(tracks[1..], a, albums, q);
      assert ([a] + albums)[1..] == albums;
    }
  }

  lemma {:induction false} NoPairs(tracks: seq<Row>, p: Row -> bool, q: Row -> bool)
    ensures PairCount(tracks, [], p, q) == 0
  {
    if tracks != [] {
      NoPairs(tracks[1..], p, q);
    }
  }

  /** The stored totals of any selection of albums sum to the joined track count of that selection. */
  lemma {:induction false} TotalsSumToJoin(tracks: seq<Row>, albums: seq<Row>, q: Row -> bool)
    requires forall a <- albums :: AlbumMatches(tracks, a)
    ensures SumTotals(albums, q) == PairCount(tracks, albums, AnyRow(), q)
  {
    if albums == [] {
      NoPairs(tracks, AnyRow(), q);
    } else {
      assert albums[0] in albums && albums == [albums[0]] + albums[1..];
      TotalsSumToJoin(tracks, albums[1..], q);
      PairsOfOneMoreAlbum(tracks, albums[0], albums[1..], q);
    }
  }

  lemma {:induction false} TrackTotalIsPairCount(tracks: seq<Row>, albums: seq<Row>, artist: Row)
    ensures TrackTotal(tracks, albums, artist) == PairCount(tracks, albums, AnyRow(), AlbumsOf(artist))
  {
    if tracks != [] {
      CountSame(albums, JoinedAlbums(tracks[0], artist), JoinedBy(tracks[0], AlbumsOf(artist)));
      TrackTotalIsPairCount(tracks[1..], albums, artist);
    }
  }

  /** The total the Lidarr rollup reports for an instance. */
  function RollupTrackTotal(c: Catalog, inst: string): nat {
    PairCount(c.tracks, c.albums, InInstance(inst), InInstance(inst))
  }

  lemma {:induction false} TrackInstanceIsAlbumInstance(tracks: seq<Row>, albums: seq<Row>, inst: string)
    ensures PairCount(tracks, albums, InInstance(inst), InInstance(inst)) ==
              PairCount(tracks, albums, AnyRow(), InInstance(inst))
  {
    if tracks != [] {
      TrackInstanceIsAlbumInstance(tracks[1..], albums, inst);
      if !InInstance(inst)(tracks[0]) {
        CountNone(albums, JoinedBy(tracks[0], InInstance(inst)));
      }
    }
  }

  /**
   When the counts match, the instance's `TotalTracks` values sum to the joined
   track total of its rollup, and each artist's `TrackTotalCount` is the sum
   over the artist's albums.
   */
  lemma CountsAddUp(c: Catalog, inst: string)
    requires c.Matches()
    ensures forall r: Row :: InInstance(inst)(r) <==> Get(r, ArrInstance) == Text(inst)
    ensures SumTotals(c.albums, InInstance(inst)) == RollupTrackTotal(c, inst)
    ensures forall r <- c.artists :: Get(r, TrackTotalCount) == Int(SumTotals(c.albums, AlbumsOf(r)))
  {
    TotalsSumToJoin(c.tracks, c.albums, InInstance(inst));
    TrackInstanceIsAlbumInstance(c.tracks, c.albums, inst);
    forall r | r in c.artists
      ensures Get(r, TrackTotalCount) == Int(SumTotals(c.albums, AlbumsOf(r)))
    {
      assert ArtistMatches(c.tracks, c.albums, r);
      TotalsSumToJoin(c.tracks, c.albums, AlbumsOf(r));
      TrackTotalIsPairCount(c.tracks, c.albums, r);
    }
  }

  // ------------------------------------------------------------ availability counts

  function Flag(r: Row, col: Column): bool {
    Get(r, col) == Int(1)
  }

  function MonitoredIn(inst: string): Row -> bool {
    (t: Row) => Get(t, ArrInstance) == Text(inst) && Flag(t, Monitored)
  }

  function AvailableIn(inst: string): Row -> bool {
    (t: Row) => Get(t, ArrInstance) == Text(inst) && Flag(t, Monitored) && Flag(t, HasFile)
  }

  function MissingIn(inst: string): Row -> bool {
    (t: Row) => Get(t, ArrInstance) == Text(inst) && Flag(t, Monitored) && !Flag(t, HasFile)
  }

  datatype Availability = Availability(available: int, monitored: int, missing: int)

  /** `_availability_counts` */
  function AvailabilityCounts(monitored: int, available: int): Availability {
    Availability(available, monitored, if monitored - available > 0 then monitored - available else 0)
  }

  lemma {:induction false} PairCountSplits(tracks: seq<Row>, albums: seq<Row>, inst: string)
    ensures PairCount(tracks, albums, MonitoredIn(inst), InInstance(inst)) ==
            PairCount(tracks, albums, AvailableIn(inst), InInstance(inst)) +
            PairCount(tracks, albums, MissingIn(inst), InInstance(inst))
  {
    if tracks != [] {
      PairCountSplits(tracks[1..], albums, inst);
    }
  }

  /**
   The three counts are those of the monitored tracks, those of them with a
   file, and those without; the clamp never bites.
   */
  lemma MissingCountsMonitoredWithoutFile(c: Catalog, inst: string)
    ensures var monitored := PairCount(c.tracks, c.albums, MonitoredIn(inst), InInstance(inst));
            var available := PairCount(c.tracks, c.albums, AvailableIn(inst), InInstance(inst));
            var counts := AvailabilityCounts(monitored, available);
            counts.missing == PairCount(c.tracks, c.albums, MissingIn(inst), InInstance(inst)) &&
            counts.monitored == monitored && counts.available == available &&
            counts.available + counts.missing == counts.monitored
    ensures forall t: Row ::
              var here := Get(t, ArrInstance) == Text(inst) && Get(t, Monitored) == Int(1);
              (MonitoredIn(inst)(t) <==> here) && (AvailableIn(inst)(t) <==> here && Get(t, HasFile) == Int(1)) &&
              (MissingIn(inst)(t) <==> here && Get(t, HasFile) != Int(1))
  {
    PairCountSplits(c.tracks, c.albums, inst);
  }
}
