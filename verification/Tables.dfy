/** Database tables as row lists in rowid order, and counting over them. */
module Tables {
  datatype TableName = Movies | Episodes | Albums | Series | Artists | Tracks | Books | Authors

  datatype Column =
    | EntryId | ArrInstance | AlbumId | ArtistId | SeriesId | SeasonNumber | Duration | Monitored | HasFile
    | TotalTracks | SeasonCount | EpisodeTotalCount | AlbumCount | TrackTotalCount
    | LastProfileSwitchTime | CurrentProfileId | OriginalProfileId
    | Named(name: string)

  datatype Cell = Null | Int(n: int) | Text(s: string)

  type Row = map<Column, Cell>

  /** `rows` is in rowid order; `compositePk` says that (EntryId, ArrInstance) is the primary key. */
  datatype Table = Table(compositePk: bool, columns: set<Column>, rows: seq<Row>)

  datatype Db = Db(version: nat, tables: map<TableName, Table>)
  {
    predicate Has(t: TableName) {
      t in tables
    }

    function Rows(t: TableName): seq<Row> {
      if t in tables then tables[t].rows else []
    }

    predicate HasColumn(t: TableName, c: Column) {
      t in tables && c in tables[t].columns
    }

    function WithRows(t: TableName, rows: seq<Row>): Db
      requires t in tables
    {
      this.(tables := tables[t := tables[t].(rows := rows)])
    }
  }

  function Get(r: Row, c: Column): Cell {
    if c in r then r[c] else Null
  }

  /** SQL equality: NULL equals nothing. */
  predicate SqlEq(a: Cell, b: Cell) {
    a == b && a != Null
  }

  type Key = (Cell, Cell)

  function KeyOf(r: Row): Key {
    (Get(r, EntryId), Get(r, ArrInstance))
  }

  ghost predicate DistinctKeys(rows: seq<Row>) {
    forall i, j :: 0 <= i < j < |rows| ==> KeyOf(rows[i]) != KeyOf(rows[j])
  }

  function Count(rows: seq<Row>, p: Row -> bool): nat {
    if rows == [] then 0 else (if p(rows[0]) then 1 else 0) + Count(rows[1..], p)
  }

  function MapRows(rows: seq<Row>, f: Row -> Row): seq<Row> {
    if rows == [] then [] else [f(rows[0])] + MapRows(rows[1..], f)
  }

  lemma {:induction false} MapRowsAt(rows: seq<Row>, f: Row -> Row)
    ensures |MapRows(rows, f)| == |rows|
    ensures forall i :: 0 <= i < |rows| ==> MapRows(rows, f)[i] == f(rows[i])
  {
    if rows != [] {
      MapRowsAt(rows[1..], f);
    }
  }

  lemma {:induction false} MapRowsFixed(rows: seq<Row>, f: Row -> Row)
    ensures MapRows(rows, f) == rows <==> forall r <- rows :: f(r) == r
  {
    MapRowsAt(rows, f);
    if MapRows(rows, f) == rows {
      forall r | r in rows
        ensures f(r) == r
      {
        var i :| 0 <= i < |rows| && rows[i] == r;
      }
    }
  }

  lemma {:induction false} CountAppend(a: seq<Row>, b: seq<Row>, p: Row -> bool)
    ensures Count(a + b, p) == Count(a, p) + Count(b, p)
  {
    if a == [] {
      assert a + b == b;
    } else {
      CountAppend(a[1..], b, p);
      assert (a + b)[1..] == a[1..] + b;
    }
  }

  lemma {:induction false} CountSame(rows: seq<Row>, p: Row -> bool, q: Row -> bool)
    requires forall r <- rows :: p(r) == q(r)
    ensures Count(rows, p) == Count(rows, q)
  {
    if rows != [] {
      assert rows[0] in rows;
      CountSame(rows[1..], p, q);
    }
  }

  lemma {:induction false} CountNone(rows: seq<Row>, p: Row -> bool)
    requires forall r <- rows :: !p(r)
    ensures Count(rows, p) == 0
  {
    if rows != [] {
      assert rows[0] in rows;
      CountNone(rows[1..], p);
    }
  }

  /** A rewrite that does not change the verdict does not change the count. */
  lemma {:induction false} CountMapped(rows: seq<Row>, f: Row -> Row, p: Row -> bool)
    requires forall r <- rows :: p(f(r)) == p(r)
    ensures Count(MapRows(rows, f), p) == Count(rows, p)
  {
    if rows != [] {
      assert rows[0] in rows;
      CountMapped(rows[1..], f, p);
      assert MapRows(rows, f)[1..] == MapRows(rows[1..], f);
    }
  }
}
