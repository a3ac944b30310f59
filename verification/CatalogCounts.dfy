/**
 The denormalised counts of the catalog and their full recomputation
 (the backfill of `_migrate_v2_catalog_denormalized_columns`).
 */
module CatalogCounts {
  import opened Tables

  // --------------------------------------------------------------- what is counted

  predicate TrackOfAlbum(t: Row, a: Row) {
    SqlEq(Get(t, AlbumId), Get(a, EntryId)) && SqlEq(Get(t, ArrInstance), Get(a, ArrInstance))
  }

  predicate AlbumOfArtist(a: Row, artist: Row) {
    SqlEq(Get(a, ArtistId), Get(artist, EntryId)) && SqlEq(Get(a, ArrInstance), Get(artist, ArrInstance))
  }

  predicate EpisodeOfSeries(e: Row, s: Row) {
    SqlEq(Get(e, SeriesId), Get(s, EntryId)) && SqlEq(Get(e, ArrInstance), Get(s, ArrInstance))
  }

  function TracksOf(a: Row): Row -> bool {
    (t: Row) => TrackOfAlbum(t, a)
  }

  function AlbumsOf(artist: Row): Row -> bool {
    (a: Row) => AlbumOfArtist(a, artist)
  }

  function EpisodesOf(s: Row): Row -> bool {
    (e: Row) => EpisodeOfSeries(e, s)
  }

  /** The artist's albums that a track joins. */
  function JoinedAlbums(t: Row, artist: Row): Row -> bool {
    (a: Row) => TrackOfAlbum(t, a) && AlbumOfArtist(a, artist)
  }

  /** Rows of tracks JOIN albums that belong to the artist. */
  function TrackTotal(tracks: seq<Row>, albums: seq<Row>, artist: Row): nat {
    if tracks == [] then 0
    else Count(albums, JoinedAlbums(tracks[0], artist)) + TrackTotal(tracks[1..], albums, artist)
  }

  function SeasonSet(episodes: seq<Row>, s: Row): set<Cell> {
    set e | e in episodes && EpisodeOfSeries(e, s) && Get(e, SeasonNumber) != Null :: Get(e, SeasonNumber)
  }

  /** COUNT(DISTINCT SeasonNumber) */
  function Seasons(episodes: seq<Row>, s: Row): nat {
    |SeasonSet(episodes, s)|
  }

  predicate OfSeries(e: Row, s: Row) {
    Get(e, SeriesId) == Get(s, EntryId) != Null && Get(e, ArrInstance) == Get(s, ArrInstance) != Null
  }

  lemma OneMoreSeason(episodes: seq<Row>, e: Row, s: Row)
    ensures SeasonSet(episodes + [e], s) ==
              SeasonSet(episodes, s) +
              if OfSeries(e, s) && Get(e, SeasonNumber) != Null then {Get(e, SeasonNumber)} else {}
  {
    var all := episodes + [e];
    assert forall x :: x in all <==> x in episodes || x == e;
  }

  lemma NewSeasonIff(episodes: seq<Row>, v: Cell, s: Row)
    requires v != Null
    ensures v in SeasonSet(episodes, s) <==> exists x <- episodes :: OfSeries(x, s) && Get(x, SeasonNumber) == v
  {
    if x :| x in episodes && OfSeries(x, s) && Get(x, SeasonNumber) == v {
      assert EpisodeOfSeries(x, s);
    }
  }

  /** One more episode counts for its own series on its own instance only, and its season once. */
  lemma OneMoreEpisode(episodes: seq<Row>, e: Row, s: Row)
    ensures Count(episodes + [e], EpisodesOf(s)) == Count(episodes, EpisodesOf(s)) + if OfSeries(e, s) then 1 else 0
    ensures Seasons(episodes + [e], s) ==
              Seasons(episodes, s) +
              if OfSeries(e, s) && Get(e, SeasonNumber) != Null &&
                 !(exists x <- episodes :: OfSeries(x, s) && Get(x, SeasonNumber) == Get(e, SeasonNumber))
              then 1 else 0
    ensures Count([], EpisodesOf(s)) == 0 == Seasons([], s)
  {
    CountAppend(episodes, [e], EpisodesOf(s));
    assert Count([e], EpisodesOf(s)) == if OfSeries(e, s) then 1 else 0;
    assert SeasonSet([], s) == {};
    hide SeasonSet, OfSeries;
    OneMoreSeason(episodes, e, s);
    var seasons, v := SeasonSet(episodes, s), Get(e, SeasonNumber);
    assert seasons + {} == seasons && (v in seasons ==> seasons + {v} == seasons);
    if v != Null {
      NewSeasonIff(episodes, v, s);
    }
  }

  // ----------------------------------------------------------------- the backfill

  function CountedAlbum(tracks: seq<Row>): Row -> Row {
    (a: Row) => a[TotalTracks := Int(Count(tracks, TracksOf(a)))]
  }

  function CountedSeries(episodes: seq<Row>): Row -> Row {
    (s: Row) => s[EpisodeTotalCount := Int(Count(episodes, EpisodesOf(s)))][SeasonCount := Int(Seasons(episodes, s))]
  }

  function CountedArtist(tracks: seq<Row>, albums: seq<Row>): Row -> Row {
    (r: Row) => r[AlbumCount := Int(Count(albums, AlbumsOf(r)))][TrackTotalCount := Int(TrackTotal(tracks, albums, r))]
  }

  predicate CountsAlbums(db: Db) {
    db.Has(Tracks) && db.HasColumn(Albums, TotalTracks)
  }

  predicate CountsSeries(db: Db) {
    db.Has(Episodes) && db.HasColumn(Series, EpisodeTotalCount) && db.HasColumn(Series, SeasonCount)
  }

  predicate CountsArtists(db: Db) {
    db.Has(Albums) && db.Has(Tracks) && db.HasColumn(Artists, AlbumCount)
  }

  function BackfillAlbums(db: Db): Db {
    if CountsAlbums(db) then db.WithRows(Albums, MapRows(db.Rows(Albums), CountedAlbum(db.Rows(Tracks)))) else db
  }

  function BackfillSeries(db: Db): Db {
    if CountsSeries(db) then db.WithRows(Series, MapRows(db.Rows(Series), CountedSeries(db.Rows(Episodes)))) else db
  }

  function BackfillArtists(db: Db): Db {
    if CountsArtists(db) then
      db.WithRows(Artists, MapRows(db.Rows(Artists), CountedArtist(db.Rows(Tracks), db.Rows(Albums))))
    else db
  }

  function BackfillCounts(db: Db): Db {
    BackfillArtists(BackfillSeries(BackfillAlbums(db)))
  }

  // ------------------------------------------------------------- counts that match

  ghost predicate AlbumMatches(tracks: seq<Row>, a: Row) {
    Get(a, TotalTracks) == Int(Count(tracks, TracksOf(a)))
  }

  ghost predicate SeriesMatches(episodes: seq<Row>, s: Row) {
    Get(s, EpisodeTotalCount) == Int(Count(episodes, EpisodesOf(s))) && Get(s, SeasonCount) == Int(Seasons(episodes, s))
  }

  ghost predicate ArtistMatches(tracks: seq<Row>, albums: seq<Row>, r: Row) {
    Get(r, AlbumCount) == Int(Count(albums, AlbumsOf(r))) &&
    Get(r, TrackTotalCount) == Int(TrackTotal(tracks, albums, r))
  }

  ghost predicate AlbumsMatch(db: Db) {
    CountsAlbums(db) ==> forall a <- db.Rows(Albums) :: AlbumMatches(db.Rows(Tracks), a)
  }

  ghost predicate SeriesAllMatch(db: Db) {
    CountsSeries(db) ==> forall s <- db.Rows(Series) :: SeriesMatches(db.Rows(Episodes), s)
  }

  ghost predicate ArtistsMatch(db: Db) {
    CountsArtists(db) ==> forall r <- db.Rows(Artists) :: ArtistMatches(db.Rows(Tracks), db.Rows(Albums), r)
  }

  ghost predicate CountsMatch(db: Db) {
    AlbumsMatch(db) && SeriesAllMatch(db) && ArtistsMatch(db)
  }

  // ----------------------------------------------- counts depend on key cells only

  lemma SameKeySameTracks(tracks: seq<Row>, a: Row, b: Row)
    requires KeyOf(a) == KeyOf(b)
    ensures Count(tracks, TracksOf(a)) == Count(tracks, TracksOf(b))
  {
    CountSame(tracks, TracksOf(a), TracksOf(b));
  }

  lemma {:induction false} SameKeySameTrackTotal(tracks: seq<Row>, albums: seq<Row>, a: Row, b: Row)
    requires KeyOf(a) == KeyOf(b)
    ensures TrackTotal(tracks, albums, a) == TrackTotal(tracks, albums, b)
  {
    if tracks != [] {
      CountSame(albums, JoinedAlbums(tracks[0], a), JoinedAlbums(tracks[0], b));
      SameKeySameTrackTotal(tracks[1..], albums, a, b);
    }
  }

  lemma SameKeySameAlbums(albums: seq<Row>, a: Row, b: Row)
    requires KeyOf(a) == KeyOf(b)
    ensures Count(albums, AlbumsOf(a)) == Count(albums, AlbumsOf(b))
  {
    CountSame(albums, AlbumsOf(a), AlbumsOf(b));
  }

  lemma SameKeySameEpisodes(episodes: seq<Row>, a: Row, b: Row)
    requires KeyOf(a) == KeyOf(b)
    ensures Count(episodes, EpisodesOf(a)) == Count(episodes, EpisodesOf(b))
    ensures Seasons(episodes, a) == Seasons(episodes, b)
  {
    CountSame(episodes, EpisodesOf(a), EpisodesOf(b));
    assert SeasonSet(episodes, a) == SeasonSet(episodes, b);
  }

  // --------------------------------------------------------- fixpoint and matching

  lemma AlbumFixedIff(tracks: seq<Row>, a: Row)
    ensures KeyOf(CountedAlbum(tracks)(a)) == KeyOf(a) && AlbumMatches(tracks, CountedAlbum(tracks)(a))
    ensures CountedAlbum(tracks)(a) == a <==> AlbumMatches(tracks, a)
  {
    SameKeySameTracks(tracks, a, CountedAlbum(tracks)(a));
  }

  lemma SeriesFixedIff(episodes: seq<Row>, s: Row)
    ensures KeyOf(CountedSeries(episodes)(s)) == KeyOf(s) && SeriesMatches(episodes, CountedSeries(episodes)(s))
    ensures CountedSeries(episodes)(s) == s <==> SeriesMatches(episodes, s)
  {
    SameKeySameEpisodes(episodes, s, CountedSeries(episodes)(s));
  }

  lemma ArtistFixedIff(tracks: seq<Row>, albums: seq<Row>, r: Row)
    ensures KeyOf(CountedArtist(tracks, albums)(r)) == KeyOf(r) &&
            ArtistMatches(tracks, albums, CountedArtist(tracks, albums)(r))
    ensures CountedArtist(tracks, albums)(r) == r <==> ArtistMatches(tracks, albums, r)
  {
    SameKeySameAlbums(albums, r, CountedArtist(tracks, albums)(r));
    SameKeySameTrackTotal(tracks, albums, r, CountedArtist(tracks, albums)(r));
  }

  lemma MappedRowsSatisfy(rows: seq<Row>, f: Row -> Row, r: Row)
    requires r in MapRows(rows, f)
    ensures exists x :: x in rows && f(x) == r
  {
    MapRowsAt(rows, f);
    var i :| 0 <= i < |MapRows(rows, f)| && MapRows(rows, f)[i] == r;
    assert rows[i] in rows;
  }

  lemma AlbumsStep(db: Db)
    ensures AlbumsMatch(BackfillAlbums(db)) && (BackfillAlbums(db) == db <==> AlbumsMatch(db))
  {
    if CountsAlbums(db) {
      var rows, f := db.Rows(Albums), CountedAlbum(db.Rows(Tracks));
      forall a
        ensures AlbumMatches(db.Rows(Tracks), f(a)) && (f(a) == a <==> AlbumMatches(db.Rows(Tracks), a))
      {
        AlbumFixedIff(db.Rows(Tracks), a);
      }
      MapRowsFixed(rows, f);
      WithRowsFixed(db, Albums, MapRows(rows, f));
      forall a | a in MapRows(rows, f)
        ensures AlbumMatches(db.Rows(Tracks), a)
      {
        MappedRowsSatisfy(rows, f, a);
      }
    }
  }

  lemma WithRowsFixed(db: Db, t: TableName, rows: seq<Row>)
    requires t in db.tables
    ensures db.WithRows(t, rows) == db <==> rows == db.Rows(t)
  {
    if rows == db.Rows(t) {
      assert db.WithRows(t, rows).tables == db.tables;
    }
  }

  lemma SeriesStep(db: Db)
    ensures SeriesAllMatch(BackfillSeries(db)) && (BackfillSeries(db) == db <==> SeriesAllMatch(db))
  {
    if CountsSeries(db) {
      var rows, f := db.Rows(Series), CountedSeries(db.Rows(Episodes));
      forall s
        ensures SeriesMatches(db.Rows(Episodes), f(s)) && (f(s) == s <==> SeriesMatches(db.Rows(Episodes), s))
      {
        SeriesFixedIff(db.Rows(Episodes), s);
      }
      MapRowsFixed(rows, f);
      WithRowsFixed(db, Series, MapRows(rows, f));
      forall s | s in MapRows(rows, f)
        ensures SeriesMatches(db.Rows(Episodes), s)
      {
        MappedRowsSatisfy(rows, f, s);
      }
    }
  }

  lemma ArtistsStep(db: Db)
    ensures ArtistsMatch(BackfillArtists(db)) && (BackfillArtists(db) == db <==> ArtistsMatch(db))
  {
    if CountsArtists(db) {
      var rows, f := db.Rows(Artists), CountedArtist(db.Rows(Tracks), db.Rows(Albums));
      forall r
        ensures ArtistMatches(db.Rows(Tracks), db.Rows(Albums), f(r)) &&
                (f(r) == r <==> ArtistMatches(db.Rows(Tracks), db.Rows(Albums), r))
      {
        ArtistFixedIff(db.Rows(Tracks), db.Rows(Albums), r);
      }
      MapRowsFixed(rows, f);
      WithRowsFixed(db, Artists, MapRows(rows, f));
      forall r | r in MapRows(rows, f)
        ensures ArtistMatches(db.Rows(Tracks), db.Rows(Albums), r)
      {
        MappedRowsSatisfy(rows, f, r);
      }
    }
  }

  /** The backfill makes all counts match, whatever they were. */
  lemma BackfillMatches(db: Db)
    ensures CountsMatch(BackfillCounts(db))
  {
    hide AlbumMatches, SeriesMatches, ArtistMatches, CountedAlbum, CountedSeries, CountedArtist, MapRows;
    var d1 := BackfillAlbums(db);
    var d2 := BackfillSeries(d1);
    var d3 := BackfillArtists(d2);
    AlbumsStep(db);
    SeriesStep(d1);
    ArtistsStep(d2);
    assert d3.Rows(Albums) == d1.Rows(Albums) && d3.Rows(Tracks) == d1.Rows(Tracks);
    assert d3.Rows(Series) == d2.Rows(Series) && d3.Rows(Episodes) == d2.Rows(Episodes);
    assert CountsAlbums(d3) == CountsAlbums(d1) && CountsSeries(d3) == CountsSeries(d2);
  }

  /** Counts match exactly when recomputing them changes nothing. */
  lemma MatchIffBackfillFixed(db: Db)
    ensures CountsMatch(db) <==> BackfillCounts(db) == db
  {
    AlbumsStep(db);
    SeriesStep(db);
    ArtistsStep(db);
    BackfillMatches(db);
  }

  lemma BackfillIdempotent(db: Db)
    ensures BackfillCounts(BackfillCounts(db)) == BackfillCounts(db)
  {
    BackfillMatches(db);
    MatchIffBackfillFixed(BackfillCounts(db));
  }
}
