/**
 Keeping the catalog counts up to date row by row (`qBitrr/catalog_rollups.py`,
 with the album write of `update_lidarr_album`), and what the header rollups
 add up to.

 The main result says exactly when the incremental refresh after one album
 agrees with the full recomputation.
 */
module Rollups {
  import opened Wrappers
  import opened Tables
  import opened CatalogCounts

  /** The tables of one music catalog, shared by all its instances. */
  datatype Catalog = Catalog(albums: seq<Row>, tracks: seq<Row>, artists: seq<Row>)
  {
    /** Every stored count is the one the backfill would write. */
    ghost predicate Matches() {
      (forall a <- albums :: AlbumMatches(tracks, a)) && (forall r <- artists :: ArtistMatches(tracks, albums, r))
    }

    /** Primary keys and NOT NULL columns. */
    ghost predicate Valid() {
      DistinctKeys(albums) && DistinctKeys(artists) &&
      (forall a <- albums :: Get(a, EntryId) != Null && Get(a, ArrInstance) != Null && Get(a, ArtistId) != Null) &&
      (forall r <- artists :: Get(r, EntryId) != Null && Get(r, ArrInstance) != Null)
    }
  }

  function CatalogOf(db: Db): Catalog {
    Catalog(db.Rows(Albums), db.Rows(Tracks), db.Rows(Artists))
  }

  /** Matching means that the v2 backfill of albums and artists would change nothing. */
  lemma MatchesIffBackfillFixed(db: Db)
    requires CountsAlbums(db) && CountsArtists(db)
    ensures CatalogOf(db).Matches() <==> BackfillAlbums(db) == db && BackfillArtists(db) == db
  {
    AlbumsStep(db);
    ArtistsStep(db);
  }

  // ------------------------------------------------------------ rows by their key

  function Find(rows: seq<Row>, key: Key): Option<Row> {
    if rows == [] then None else if KeyOf(rows[0]) == key then Some(rows[0]) else Find(rows[1..], key)
  }

  /** UPDATE of the row with this key, if there is one. */
  function Replace(rows: seq<Row>, key: Key, f: Row -> Row): seq<Row> {
    if rows == [] then []
    else if KeyOf(rows[0]) == key then [f(rows[0])] + rows[1..]
    else [rows[0]] + Replace(rows[1..], key, f)
  }

  /** DELETE of the row with this key, if there is one. */
  function Remove(rows: seq<Row>, key: Key): seq<Row> {
    if rows == [] then [] else if KeyOf(rows[0]) == key then rows[1..] else [rows[0]] + Remove(rows[1..], key)
  }

  function DeleteWhere(rows: seq<Row>, q: Row -> bool): seq<Row> {
    if rows == [] then [] else (if q(rows[0]) then [] else [rows[0]]) + DeleteWhere(rows[1..], q)
  }

  function One(o: Option<Row>, p: Row -> bool): nat {
    if o.Some? && p(o.value) then 1 else 0
  }

  lemma {:induction false} FindMember(rows: seq<Row>, key: Key)
    ensures Find(rows, key).Some? ==> Find(rows, key).value in rows && KeyOf(Find(rows, key).value) == key
    ensures Find(rows, key).None? ==> forall r <- rows :: KeyOf(r) != key
  {
    if rows != [] {
      FindMember(rows[1..], key);
    }
  }

  lemma {:induction false} FindUnique(rows: seq<Row>, r: Row)
    requires DistinctKeys(rows) && r in rows
    ensures Find(rows, KeyOf(r)) == Some(r)
  {
    if KeyOf(rows[0]) == KeyOf(r) {
      var i :| 0 <= i < |rows| && rows[i] == r;
    } else {
      FindUnique(rows[1..], r);
    }
  }

  lemma {:induction false} ReplaceMembers(rows: seq<Row>, key: Key, f: Row -> Row)
    requires DistinctKeys(rows) && forall r :: KeyOf(f(r)) == KeyOf(r)
    ensures DistinctKeys(Replace(rows, key, f))
    ensures forall r :: r in Replace(rows, key, f) <==>
                          if KeyOf(r) == key then Find(rows, key).Some? && r == f(Find(rows, key).value) else r in rows
  {
    if rows != [] {
      var tail := rows[1..];
      ReplaceMembers(tail, key, f);
      FindMember(tail, key);
      forall r | r in tail
        ensures KeyOf(r) != KeyOf(rows[0])
      {
        var i :| 0 <= i < |tail| && tail[i] == r;
        assert rows[i + 1] == r;
      }
    }
  }

  lemma {:induction false} RemoveMembers(rows: seq<Row>, key: Key)
    requires DistinctKeys(rows)
    ensures DistinctKeys(Remove(rows, key))
    ensures forall r :: r in Remove(rows, key) <==> r in rows && KeyOf(r) != key
  {
    if rows != [] {
      var tail := rows[1..];
      RemoveMembers(tail, key);
      forall r | r in tail
        ensures KeyOf(r) != KeyOf(rows[0])
      {
        var i :| 0 <= i < |tail| && tail[i] == r;
        assert rows[i + 1] == r;
      }
    }
  }

  lemma {:induction false} CountReplaced(rows: seq<Row>, key: Key, f: Row -> Row, p: Row -> bool)
    ensures Count(Replace(rows, key, f), p) + One(Find(rows, key), p) ==
            Count(rows, p) + if Find(rows, key).Some? && p(f(Find(rows, key).value)) then 1 else 0
  {
    if rows != [] {
      if KeyOf(rows[0]) == key {
        assert ([f(rows[0])] + rows[1..])[1..] == rows[1..];
      } else {
        CountReplaced(rows[1..], key, f, p);
        assert Replace(rows, key, f)[1..] == Replace(rows[1..], key, f);
      }
    }
  }

  lemma {:induction false} CountRemoved(rows: seq<Row>, key: Key, p: Row -> bool)
    ensures Count(Remove(rows, key), p) + One(Find(rows, key), p) == Count(rows, p)
  {
    if rows != [] && KeyOf(rows[0]) != key {
      CountRemoved(rows[1..], key, p);
      assert Remove(rows, key)[1..] == Remove(rows[1..], key);
    }
  }

  lemma {:induction false} CountDeleted(rows: seq<Row>, q: Row -> bool, p: Row -> bool)
    requires forall r <- rows :: q(r) ==> !p(r)
    ensures Count(DeleteWhere(rows, q), p) == Count(rows, p)
  {
    if rows != [] {
      assert rows[0] in rows;
      CountDeleted(rows[1..], q, p);
      if !q(rows[0]) {
        assert DeleteWhere(rows, q)[1..] == DeleteWhere(rows[1..], q);
      } else {
        assert DeleteWhere(rows, q) == DeleteWhere(rows[1..], q);
      }
    }
  }

  // -------------------------------------------------------------- the row updates

  /** One album write: what the Arr reports and what the environment lets happen. */
  datatype Entry = Entry(
    id: int, inst: string, artistId: int,
    wanted: bool,        // monitored, or unmonitored entries are searched too
    fetched: seq<int>,   // track ids of the album; empty also when the fetch fails
    stopAt: nat)         // number of track inserts before one fails for another reason
  {
    function Key(): Tables.Key {
      (Int(id), Text(inst))
    }
  }

  function KeyFor(id: Cell, inst: string): Key {
    (id, Text(inst))
  }

  /** Insert or, on a key conflict, update: only the artist concerns the counts. */
  function UpsertAlbum(albums: seq<Row>, e: Entry): seq<Row> {
    if Find(albums, e.Key()).Some? then Replace(albums, e.Key(), SetArtist(e.artistId))
    else albums + [NewAlbum(e)]
  }

  function NewAlbum(e: Entry): Row {
    map[EntryId := Int(e.id), ArrInstance := Text(e.inst), ArtistId := Int(e.artistId), TotalTracks := Int(0)]
  }

  function SetArtist(artistId: int): Row -> Row {
    (r: Row) => r[ArtistId := Int(artistId)]
  }

  function IsTrackOf(e: Entry): Row -> bool {
    (t: Row) => Get(t, AlbumId) == Int(e.id) && Get(t, ArrInstance) == Text(e.inst)
  }

  function NewTrack(e: Entry, trackId: int): Row {
    map[EntryId := Int(trackId), AlbumId := Int(e.id), ArrInstance := Text(e.inst)]
  }

  /** The inserts stop at the first key conflict or other failure. */
  function InsertTracks(tracks: seq<Row>, e: Entry, ids: seq<int>, stopAt: nat): seq<Row>
    decreases |ids|
  {
    if ids == [] || stopAt == 0 || Find(tracks, KeyFor(Int(ids[0]), e.inst)).Some? then tracks
    else InsertTracks(tracks + [NewTrack(e, ids[0])], e, ids[1..], stopAt - 1)
  }

  function ReplaceTracks(tracks: seq<Row>, e: Entry): seq<Row> {
    if e.fetched == [] then tracks else InsertTracks(DeleteWhere(tracks, IsTrackOf(e)), e, e.fetched, e.stopAt)
  }

  function SetTotal(n: nat): Row -> Row {
    (r: Row) => r[TotalTracks := Int(n)]
  }

  function SetArtistTotals(albumCount: nat, trackTotal: nat): Row -> Row {
    (r: Row) => r[AlbumCount := Int(albumCount)][TrackTotalCount := Int(trackTotal)]
  }

  function AlbumsIn(artistId: Cell, inst: string): Row -> bool {
    (a: Row) => Get(a, ArtistId) == artistId && Get(a, ArrInstance) == Text(inst)
  }

  function JoinedIn(t: Row, artistId: Cell, inst: string): Row -> bool {
    (a: Row) => SqlEq(Get(t, AlbumId), Get(a, EntryId)) && Get(t, ArrInstance) == Text(inst) &&
                Get(a, ArrInstance) == Text(inst) && Get(a, ArtistId) == artistId
  }

  /** The joined count of `update_artist_album_track_totals`. */
  function JoinedTotal(tracks: seq<Row>, albums: seq<Row>, artistId: Cell, inst: string): nat {
    if tracks == [] then 0
    else Count(albums, JoinedIn(tracks[0], artistId, inst)) + JoinedTotal(tracks[1..], albums, artistId, inst)
  }

  /** `update_album_total_tracks` */
  function RefreshAlbum(c: Catalog, e: Entry): Catalog {
    c.(albums := Replace(c.albums, e.Key(), SetTotal(Count(c.tracks, IsTrackOf(e)))))
  }

  /** `update_artist_album_track_totals` */
  function RefreshArtist(c: Catalog, artistId: Cell, inst: string): Catalog {
    c.(artists := Replace(c.artists, KeyFor(artistId, inst),
                          SetArtistTotals(Count(c.albums, AlbumsIn(artistId, inst)),
                                          JoinedTotal(c.tracks, c.albums, artistId, inst))))
  }

  /** The write of `update_lidarr_album`. */
  function WriteAlbum(c: Catalog, e: Entry): Catalog {
    if e.wanted then c.(albums := UpsertAlbum(c.albums, e), tracks := ReplaceTracks(c.tracks, e))
    else c.(albums := Remove(c.albums, e.Key()))
  }

  /** `refresh_rollups_after_db_update`: the artist refreshed is the one the stored row names. */
  function Refresh(c: Catalog, e: Entry): Catalog {
    var c' := RefreshAlbum(c, e);
    var row := Find(c'.albums, e.Key());
    if e.id == 0 then c
    else if row.Some? && Get(row.value, ArtistId) != Null then RefreshArtist(c', Get(row.value, ArtistId), e.inst)
    else c'
  }

  /** One album entry processed: write, then refresh. */
  function Process(c: Catalog, e: Entry): Catalog {
    Refresh(WriteAlbum(c, e), e)
  }

  /** One artist write. */
  datatype ArtistEntry = ArtistEntry(id: int, inst: string, wanted: bool)
  {
    function Key(): Tables.Key {
      (Int(id), Text(inst))
    }
  }

  function NewArtist(a: ArtistEntry): Row {
    map[EntryId := Int(a.id), ArrInstance := Text(a.inst), AlbumCount := Int(0), TrackTotalCount := Int(0)]
  }

  /** The write of `update_lidarr_artist`: an update of an existing row does not concern the counts. */
  function WriteArtist(c: Catalog, a: ArtistEntry): Catalog {
    if !a.wanted then c.(artists := Remove(c.artists, a.Key()))
    else if Find(c.artists, a.Key()).Some? then c
    else c.(artists := c.artists + [NewArtist(a)])
  }

  /** One artist entry processed: write, then refresh. */
  function ProcessArtist(c: Catalog, a: ArtistEntry): Catalog {
    if a.id == 0 then WriteArtist(c, a) else RefreshArtist(WriteArtist(c, a), Int(a.id), a.inst)
  }

  // -------------------------------------------------------- the stateful operations

  class Store {
    var catalog: Catalog

    constructor (catalog: Catalog)
      ensures this.catalog == catalog
    {
      this.catalog := catalog;
    }

    method StoreTracks(e: Entry)
      modifies this
      ensures catalog == old(catalog).(tracks := ReplaceTracks(old(catalog).tracks, e))
    {
      if e.fetched == [] {
        return;
      }
      ghost var cleared := DeleteWhere(catalog.tracks, IsTrackOf(e));
      catalog := catalog.(tracks := DeleteWhere(catalog.tracks, IsTrackOf(e)));
      var k := 0;
      while k < |e.fetched|
        invariant k <= |e.fetched| && k <= e.stopAt
        invariant catalog == old(catalog).(tracks := catalog.tracks)
        invariant InsertTracks(cleared, e, e.fetched, e.stopAt) ==
                    InsertTracks(catalog.tracks, e, e.fetched[k..], e.stopAt - k)
      {
        assert e.fetched[k..][1..] == e.fetched[k + 1..];
        if k == e.stopAt || Find(catalog.tracks, KeyFor(Int(e.fetched[k]), e.inst)).Some? {
          return;
        }
        catalog := catalog.(tracks := catalog.tracks + [NewTrack(e, e.fetched[k])]);
        k := k + 1;
      }
    }

    method UpdateAlbumTotalTracks(e: Entry) returns (row: Option<Row>)
      modifies this
      ensures catalog == RefreshAlbum(old(catalog), e)
      ensures row == Find(catalog.albums, e.Key())
    {
      var n := Count(catalog.tracks, IsTrackOf(e));
      catalog := catalog.(albums := Replace(catalog.albums, e.Key(), SetTotal(n)));
      row := Find(catalog.albums, e.Key());
    }

    method UpdateArtistAlbumTrackTotals(artistId: Cell, inst: string)
      modifies this
      ensures catalog == RefreshArtist(old(catalog), artistId, inst)
    {
      var albumCount := Count(catalog.albums, AlbumsIn(artistId, inst));
      var trackTotal := 0;
      for k := 0 to |catalog.tracks|
        invariant catalog == old(catalog)
        invariant trackTotal + JoinedTotal(catalog.tracks[k..], catalog.albums, artistId, inst) ==
                  JoinedTotal(catalog.tracks, catalog.albums, artistId, inst)
      {
        assert catalog.tracks[k..][1..] == catalog.tracks[k + 1..];
        trackTotal := trackTotal + Count(catalog.albums, JoinedIn(catalog.tracks[k], artistId, inst));
      }
      catalog := catalog.(artists := Replace(catalog.artists, KeyFor(artistId, inst),
                                             SetArtistTotals(albumCount, trackTotal)));
    }

    /** `db_update_single_series` for one album. */
    method ProcessAlbum(e: Entry)
      modifies this
      ensures catalog == Process(old(catalog), e)
    {
      if e.wanted {
        catalog := catalog.(albums := UpsertAlbum(catalog.albums, e));
        StoreTracks(e);
      } else {
        catalog := catalog.(albums := Remove(catalog.albums, e.Key()));
      }
      if e.id == 0 {
        return;
      }
      var row := UpdateAlbumTotalTracks(e);
      if row.Some? && Get(row.value, ArtistId) != Null {
        UpdateArtistAlbumTrackTotals(Get(row.value, ArtistId), e.inst);
      }
    }

    /** `db_update_single_series` for one artist. */
    method ProcessOneArtist(a: ArtistEntry)
      modifies this
      ensures catalog == ProcessArtist(old(catalog), a)
    {
      if !a.wanted {
        catalog := catalog.(artists := Remove(catalog.artists, a.Key()));
      } else if Find(catalog.artists, a.Key()).None? {
        catalog := catalog.(artists := catalog.artists + [NewArtist(a)]);
      }
      if a.id != 0 {
        UpdateArtistAlbumTrackTotals(Int(a.id), a.inst);
      }
    }
  }
}
