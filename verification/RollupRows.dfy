/** Which rows an album or artist update writes, keeps and deletes. */
module RollupRows {
  import opened Wrappers
  import opened Tables
  import opened CatalogCounts
  import opened Rollups
  import opened RollupSafety

  // ------------------------------------------------------------------ track rows

  /** A deletion removes every row that qualifies, with all its copies, and no other. */
  lemma {:induction false} DeletedRows(rows: seq<Row>, q: Row -> bool, r: Row)
    ensures multiset(DeleteWhere(rows, q))[r] == if q(r) then 0 else multiset(rows)[r]
  {
    if rows != [] {
      DeletedRows(rows[1..], q, r);
      assert rows == [rows[0]] + rows[1..];
    }
  }

  /** The rows of the album's tracks with these ids. */
  function TrackRows(e: Entry, ids: seq<int>): seq<Row> {
    seq(|ids|, i requires 0 <= i < |ids| =>
      map[EntryId := Int(ids[i]), AlbumId := Int(e.id), ArrInstance := Text(e.inst)])
  }

  ghost predicate HasTrack(tracks: seq<Row>, id: int, inst: string) {
    exists t <- tracks :: Get(t, EntryId) == Int(id) && Get(t, ArrInstance) == Text(inst)
  }

  lemma HasTrackIff(tracks: seq<Row>, id: int, inst: string)
    ensures HasTrack(tracks, id, inst) <==> Find(tracks, KeyFor(Int(id), inst)).Some?
  {
    FindMember(tracks, KeyFor(Int(id), inst));
  }

  /**
   The inserts add the tracks in order; they stop early exactly where the next
   id is taken on this instance or the environment stops them.
   */
  lemma {:induction false} InsertsPrefix(tracks: seq<Row>, e: Entry, ids: seq<int>, stopAt: nat) returns (n: nat)
    ensures n <= |ids| && n <= stopAt
    ensures InsertTracks(tracks, e, ids, stopAt) == tracks + TrackRows(e, ids[..n])
    ensures n < |ids| ==> n == stopAt || HasTrack(tracks + TrackRows(e, ids[..n]), ids[n], e.inst)
    ensures forall i :: 0 <= i < n ==> !HasTrack(tracks + TrackRows(e, ids[..i]), ids[i], e.inst)
    decreases |ids|
  {
    n := 0;
    assert tracks + TrackRows(e, ids[..0]) == tracks;
    if ids != [] {
      HasTrackIff(tracks, ids[0], e.inst);
      if stopAt > 0 && !HasTrack(tracks, ids[0], e.inst) {
        var more := tracks + [NewTrack(e, ids[0])];
        n := InsertsPrefix(more, e, ids[1..], stopAt - 1);
        forall i | 0 <= i <= n
          ensures more + TrackRows(e, ids[1..][..i]) == tracks + TrackRows(e, ids[..i + 1])
        {
          assert TrackRows(e, ids[..i + 1]) == [NewTrack(e, ids[0])] + TrackRows(e, ids[1..][..i]);
        }
        forall i | 0 <= i < n + 1
          ensures !HasTrack(tracks + TrackRows(e, ids[..i]), ids[i], e.inst)
        {
          if i > 0 {
            assert ids[1..][i - 1] == ids[i];
          }
        }
        n := n + 1;
      }
    }
  }

  lemma ProcessTracks(c: Catalog, e: Entry)
    ensures Process(c, e).tracks == WriteAlbum(c, e).tracks
  {
  }

  /**
   The tracks after an album update: all other tracks, and of this album the
   fetched ones up to the first conflict or failure.  The old ones stay if the
   album is not wanted or nothing was fetched.
   */
  lemma TracksAfter(c: Catalog, e: Entry) returns (n: nat)
    ensures n <= |e.fetched|
    ensures var tracks := Process(c, e).tracks;
            if !e.wanted || e.fetched == [] then tracks == c.tracks
            else tracks == DeleteWhere(c.tracks, IsTrackOf(e)) + TrackRows(e, e.fetched[..n]) &&
                 (n < |e.fetched| ==> n == e.stopAt || HasTrack(tracks, e.fetched[n], e.inst))
  {
    ProcessTracks(c, e);
    n := 0;
    if e.wanted && e.fetched != [] {
      n := InsertsPrefix(DeleteWhere(c.tracks, IsTrackOf(e)), e, e.fetched, e.stopAt);
    }
  }

  /** The fetched ids are distinct, and no other album's track on this instance has one of them. */
  ghost predicate FreshIds(c: Catalog, e: Entry) {
    (forall i, j :: 0 <= i < j < |e.fetched| ==> e.fetched[i] != e.fetched[j]) &&
    forall t <- c.tracks, id <- e.fetched ::
      Get(t, EntryId) == Int(id) && Get(t, ArrInstance) == Text(e.inst) ==> Get(t, AlbumId) == Int(e.id)
  }

  lemma NoConflict(c: Catalog, e: Entry, n: nat)
    requires FreshIds(c, e) && n < |e.fetched|
    ensures !HasTrack(DeleteWhere(c.tracks, IsTrackOf(e)) + TrackRows(e, e.fetched[..n]), e.fetched[n], e.inst)
  {
    var kept, added := DeleteWhere(c.tracks, IsTrackOf(e)), TrackRows(e, e.fetched[..n]);
    assert e.fetched[n] in e.fetched;
    forall t | t in kept + added
      ensures !(Get(t, EntryId) == Int(e.fetched[n]) && Get(t, ArrInstance) == Text(e.inst))
    {
      if t in kept {
        DeletedRows(c.tracks, IsTrackOf(e), t);
        assert t in multiset(kept);
        assert t in c.tracks;
      } else {
        var i :| 0 <= i < n && added[i] == t;
      }
    }
  }

  lemma TrackRowsAreTracks(e: Entry, ids: seq<int>)
    ensures forall r <- TrackRows(e, ids) :: IsTrackOf(e)(r)
  {
  }

  /** With fresh ids and no failure the album ends with exactly the fetched tracks. */
  lemma CompleteFetch(c: Catalog, e: Entry)
    requires e.wanted && e.fetched != [] && e.stopAt >= |e.fetched| && FreshIds(c, e)
    ensures Process(c, e).tracks == DeleteWhere(c.tracks, IsTrackOf(e)) + TrackRows(e, e.fetched)
    ensures forall r: Row :: multiset(Process(c, e).tracks)[r] ==
              if Get(r, AlbumId) == Int(e.id) && Get(r, ArrInstance) == Text(e.inst)
              then multiset(TrackRows(e, e.fetched))[r] else multiset(c.tracks)[r]
  {
    var n := TracksAfter(c, e);
    if n < |e.fetched| {
      NoConflict(c, e, n);
    }
    assert e.fetched[..|e.fetched|] == e.fetched;
    TrackRowsAreTracks(e, e.fetched);
    forall r: Row
      ensures multiset(Process(c, e).tracks)[r] ==
              if Get(r, AlbumId) == Int(e.id) && Get(r, ArrInstance) == Text(e.inst)
              then multiset(TrackRows(e, e.fetched))[r] else multiset(c.tracks)[r]
    {
      DeletedRows(c.tracks, IsTrackOf(e), r);
    }
  }

  // -------------------------------------------------------- album and artist rows

  lemma {:induction false} FindReplacedElsewhere(rows: seq<Row>, key: Key, f: Row -> Row, k: Key)
    requires k != key && forall r :: KeyOf(f(r)) == KeyOf(r)
    ensures Find(Replace(rows, key, f), k) == Find(rows, k)
  {
    if rows != [] && KeyOf(rows[0]) != key {
      FindReplacedElsewhere(rows[1..], key, f, k);
    }
  }

  lemma {:induction false} FindRemovedElsewhere(rows: seq<Row>, key: Key, k: Key)
    requires k != key
    ensures Find(Remove(rows, key), k) == Find(rows, k)
  {
    if rows != [] && KeyOf(rows[0]) != key {
      FindRemovedElsewhere(rows[1..], key, k);
    }
  }

  lemma {:induction false} FindAppendedElsewhere(rows: seq<Row>, r: Row, k: Key)
    requires KeyOf(r) != k
    ensures Find(rows + [r], k) == Find(rows, k)
  {
    if rows != [] {
      assert (rows + [r])[0] == rows[0] && (rows + [r])[1..] == rows[1..] + [r];
      FindAppendedElsewhere(rows[1..], r, k);
    }
  }

  /**
   The album row after an update: an existing row keeps its other columns, a
   new one has none; the artist is the reported one and the total is the
   number of the album's tracks.  The row of an album that is not wanted is gone.
   */
  lemma AlbumRowAfter(c: Catalog, e: Entry)
    requires c.Valid() && e.id != 0
    ensures var key := (Int(e.id), Text(e.inst));
            var row, was := Find(Process(c, e).albums, key), Find(c.albums, key);
            var base: Row := if was.Some? then was.value else map[EntryId := Int(e.id), ArrInstance := Text(e.inst)];
            var total := Count(Process(c, e).tracks,
                               (t: Row) => Get(t, AlbumId) == Int(e.id) && Get(t, ArrInstance) == Text(e.inst));
            row == if e.wanted then Some(base[ArtistId := Int(e.artistId)][TotalTracks := Int(total)]) else None
  {
    var w := WriteAlbum(c, e);
    var n := Count(w.tracks, IsTrackOf(e));
    ProcessShape(c, e);
    CountSame(w.tracks, IsTrackOf(e),
              (t: Row) => Get(t, AlbumId) == Int(e.id) && Get(t, ArrInstance) == Text(e.inst));
    assert forall r :: KeyOf(SetTotal(n)(r)) == KeyOf(r);
    FindReplaced(w.albums, e.Key(), SetTotal(n));
    if !e.wanted {
      FindRemoved(c.albums, e.Key());
    } else if Find(c.albums, e.Key()).Some? {
      assert forall r :: KeyOf(SetArtist(e.artistId)(r)) == KeyOf(r);
      FindMember(c.albums, e.Key());
      FindReplaced(c.albums, e.Key(), SetArtist(e.artistId));
    } else {
      FindAppended(c.albums, NewAlbum(e));
      var base: Row := map[EntryId := Int(e.id), ArrInstance := Text(e.inst)];
      assert NewAlbum(e)[TotalTracks := Int(n)] == base[ArtistId := Int(e.artistId)][TotalTracks := Int(n)];
    }
  }

  /** All other album rows are as before. */
  lemma OtherAlbumsAfter(c: Catalog, e: Entry, k: Key)
    requires c.Valid() && e.id != 0 && k != (Int(e.id), Text(e.inst))
    ensures Find(Process(c, e).albums, k) == Find(c.albums, k)
  {
    var w := WriteAlbum(c, e);
    var f := SetTotal(Count(w.tracks, IsTrackOf(e)));
    ProcessShape(c, e);
    assert forall r :: KeyOf(f(r)) == KeyOf(r);
    FindReplacedElsewhere(w.albums, e.Key(), f, k);
    if !e.wanted {
      FindRemovedElsewhere(c.albums, e.Key(), k);
    } else if Find(c.albums, e.Key()).Some? {
      assert forall r :: KeyOf(SetArtist(e.artistId)(r)) == KeyOf(r);
      FindReplacedElsewhere(c.albums, e.Key(), SetArtist(e.artistId), k);
    } else {
      FindAppendedElsewhere(c.albums, NewAlbum(e), k);
    }
  }

  /** Of the artist rows at most the two counts of the one refreshed change. */
  lemma OtherArtistsAfter(c: Catalog, e: Entry, k: Key)
    requires c.Valid() && e.id != 0
    ensures !(e.wanted && k == (Int(e.artistId), Text(e.inst))) ==> Find(Process(c, e).artists, k) == Find(c.artists, k)
    ensures var row, was := Find(Process(c, e).artists, k), Find(c.artists, k);
            (row.Some? <==> was.Some?) &&
            (row.Some? ==> forall col :: col != AlbumCount && col != TrackTotalCount ==>
                             Get(row.value, col) == Get(was.value, col))
  {
    ProcessShape(c, e);
    RefreshedArtistRow(RefreshAlbum(WriteAlbum(c, e), e), Int(e.artistId), e.inst, k);
  }

  lemma RefreshedArtistRow(c: Catalog, artistId: Cell, inst: string, k: Key)
    ensures var row, was := Find(RefreshArtist(c, artistId, inst).artists, k), Find(c.artists, k);
            if k == KeyFor(artistId, inst) && was.Some?
            then row == Some(was.value[AlbumCount := Int(Count(c.albums, AlbumsIn(artistId, inst)))][
                               TrackTotalCount := Int(JoinedTotal(c.tracks, c.albums, artistId, inst))])
            else row == was
  {
    var n, m := Count(c.albums, AlbumsIn(artistId, inst)), JoinedTotal(c.tracks, c.albums, artistId, inst);
    var f := SetArtistTotals(n, m);
    assert forall r :: KeyOf(f(r)) == KeyOf(r);
    if k == KeyFor(artistId, inst) {
      FindReplaced(c.artists, k, f);
    } else {
      FindReplacedElsewhere(c.artists, KeyFor(artistId, inst), f, k);
    }
  }

  /**
   The artist row after an artist update: there is one exactly if the artist is
   wanted; an existing row keeps its other columns, and both counts are true.
   All other artist rows, the albums and the tracks are as before.
   */
  lemma ArtistRowAfter(c: Catalog, a: ArtistEntry, k: Key)
    requires DistinctKeys(c.artists) && a.id != 0
    ensures var key := (Int(a.id), Text(a.inst));
            var c', was := ProcessArtist(c, a), Find(c.artists, key);
            var base: Row := if was.Some? then was.value else map[EntryId := Int(a.id), ArrInstance := Text(a.inst)];
            c'.albums == c.albums && c'.tracks == c.tracks &&
            (k != key ==> Find(c'.artists, k) == Find(c.artists, k)) &&
            Find(c'.artists, key) ==
              if a.wanted
              then Some(base[AlbumCount := Int(Count(c.albums, AlbumsOf(base)))][
                          TrackTotalCount := Int(TrackTotal(c.tracks, c.albums, base))])
              else None
  {
    var key := (Int(a.id), Text(a.inst));
    var w, was := WriteArtist(c, a), Find(c.artists, key);
    RefreshedArtistRow(w, Int(a.id), a.inst, key);
    RefreshedArtistRow(w, Int(a.id), a.inst, k);
    FindMember(c.artists, key);
    var base: Row := if was.Some? then was.value else map[EntryId := Int(a.id), ArrInstance := Text(a.inst)];
    CountSame(c.albums, AlbumsIn(Int(a.id), a.inst), AlbumsOf(base));
    JoinedTotalIsTrackTotal(c.tracks, c.albums, base, a.inst);
    if !a.wanted {
      FindRemoved(c.artists, key);
      if k != key {
        FindRemovedElsewhere(c.artists, key, k);
      }
    } else if was.None? {
      FindAppended(c.artists, NewArtist(a));
      if k != key {
        FindAppendedElsewhere(c.artists, NewArtist(a), k);
      }
      var n, m := Count(c.albums, AlbumsOf(base)), TrackTotal(c.tracks, c.albums, base);
      assert NewArtist(a)[AlbumCount := Int(n)][TrackTotalCount := Int(m)] ==
             base[AlbumCount := Int(n)][TrackTotalCount := Int(m)];
    }
  }
}
