/** The stand-alone scraper's store (database `noticiero_db`): a save that
    refuses an item only when a row has both its title and its link, and
    the query for the latest rows. */
module Db {
  import opened Text
  import opened News

  /** Some row has the item's title and, in the same row, its link. */
  predicate HasPair(rows: seq<Row>, n: Noticia) {
    exists i :: 0 <= i < |rows| && rows[i].item.titulo == n.titulo && rows[i].item.link == n.link
  }

  /** No two rows share both title and link. */
  predicate PairsDistinct(rows: seq<Row>) {
    forall i, j :: 0 <= i < j < |rows| ==>
      rows[i].item.titulo != rows[j].item.titulo || rows[i].item.link != rows[j].item.link
  }

  /** The table `guardar_noticia` leaves: one more row, stamped with the
      save time, when the database works and the pair is new; the same
      table otherwise. */
  function AfterSave(rows: seq<Row>, n: Noticia, now: int, db: DbStatus): (r: seq<Row>)
    ensures rows <= r && |r| <= |rows| + 1
    ensures |r| == |rows| + 1 <==> db == Healthy && !HasPair(rows, n)
    ensures |r| == |rows| + 1 ==> r[|rows|] == Row(n, now)
  {
    if db == Healthy && !HasPair(rows, n) then rows + [Row(n, now)] else rows
  }

  /** A save keeps title-link pairs distinct. */
  lemma {:induction false} AfterSaveKeepsPairs(rows: seq<Row>, n: Noticia, now: int, db: DbStatus)
    requires PairsDistinct(rows)
    ensures PairsDistinct(AfterSave(rows, n, now, db))
  {
    var r := AfterSave(rows, n, now, db);
    if |r| == |rows| + 1 {
      forall i | 0 <= i < |rows|
        ensures r[i].item.titulo != n.titulo || r[i].item.link != n.link
      {
        assert r[i] == rows[i];
      }
    }
  }

  /** After a save on a working database the pair is stored, whether it was
      new or not. */
  lemma AfterSaveHasPair(rows: seq<Row>, n: Noticia, now: int)
    ensures HasPair(AfterSave(rows, n, now, Healthy), n)
  {
    var r := AfterSave(rows, n, now, Healthy);
    if |r| == |rows| + 1 {
      assert r[|rows|].item == n;
    } else {
      var i :| 0 <= i < |rows| && rows[i].item.titulo == n.titulo && rows[i].item.link == n.link;
      assert r[i] == rows[i];
    }
  }

  /** An item whose link is stored under another title passes the pair
      check; on a table with no unique key on `link` it is inserted, and
      afterwards two rows share that link. */
  lemma LinkOnlyMatchInserted(rows: seq<Row>, n: Noticia, now: int, k: nat)
    requires k < |rows| && rows[k].item.link == n.link
    requires forall i :: 0 <= i < |rows| && rows[i].item.link == n.link ==> rows[i].item.titulo != n.titulo
    ensures AfterSave(rows, n, now, Healthy) == rows + [Row(n, now)]
    ensures AfterSave(rows, n, now, Healthy)[k].item.link == AfterSave(rows, n, now, Healthy)[|rows|].item.link
  {
  }

  /** The items of a scrape saved one after the other, the save of item
      `k` meeting the database in state `dbs[k]`. */
  function SaveAllPairs(rows: seq<Row>, items: seq<Noticia>, now: int, dbs: seq<DbStatus>): (r: seq<Row>)
    requires |dbs| == |items|
    ensures rows <= r && |r| <= |rows| + |items| - Fallidos(dbs)
    decreases |items|
  {
    if items == [] then rows
    else
      var m := |items| - 1;
      AfterSave(SaveAllPairs(rows, items[..m], now, dbs[..m]), items[m], now, dbs[m])
  }

  /** One more item saved, meeting the database in state `db`. */
  lemma SaveAllPairsStep(rows: seq<Row>, items: seq<Noticia>, n: Noticia, now: int, dbs: seq<DbStatus>, db: DbStatus)
    requires |dbs| == |items|
    ensures SaveAllPairs(rows, items + [n], now, dbs + [db]) == AfterSave(SaveAllPairs(rows, items, now, dbs), n, now, db)
  {
    assert (items + [n])[..|items|] == items;
    assert (dbs + [db])[..|dbs|] == dbs;
  }

  /** Every row a run appends is one of the run's items, stamped with the
      run's clock, whose save met a working database. */
  lemma {:induction false} SaveAllPairsNewRows(rows: seq<Row>, items: seq<Noticia>, now: int, dbs: seq<DbStatus>, j: int)
    requires |dbs| == |items|
    requires |rows| <= j < |SaveAllPairs(rows, items, now, dbs)|
    ensures exists k :: 0 <= k < |items| && dbs[k] == Healthy && SaveAllPairs(rows, items, now, dbs)[j] == Row(items[k], now)
    decreases |items|
  {
    var m := |items| - 1;
    var before := SaveAllPairs(rows, items[..m], now, dbs[..m]);
    var after := SaveAllPairs(rows, items, now, dbs);
    if j < |before| {
      SaveAllPairsNewRows(rows, items[..m], now, dbs[..m], j);
      var k :| 0 <= k < m && dbs[..m][k] == Healthy && before[j] == Row(items[..m][k], now);
      assert after[j] == before[j];
      assert dbs[k] == Healthy && after[j] == Row(items[k], now);
    } else {
      assert dbs[m] == Healthy && after[j] == Row(items[m], now);
    }
  }

  /** A run of saves keeps title-link pairs distinct. */
  lemma {:induction false} SaveAllPairsKeepsPairs(rows: seq<Row>, items: seq<Noticia>, now: int, dbs: seq<DbStatus>)
    requires |dbs| == |items|
    requires PairsDistinct(rows)
    ensures PairsDistinct(SaveAllPairs(rows, items, now, dbs))
    decreases |items|
  {
    if items != [] {
      var m := |items| - 1;
      SaveAllPairsKeepsPairs(rows, items[..m], now, dbs[..m]);
      AfterSaveKeepsPairs(SaveAllPairs(rows, items[..m], now, dbs[..m]), items[m], now, dbs[m]);
    }
  }

  /** A stored pair stays stored when rows are appended. */
  lemma HasPairGrows(rows: seq<Row>, more: seq<Row>, n: Noticia)
    requires HasPair(rows, n)
    ensures HasPair(rows + more, n)
  {
    var i :| 0 <= i < |rows| && rows[i].item.titulo == n.titulo && rows[i].item.link == n.link;
    assert (rows + more)[i] == rows[i];
  }

  /** After a run, the pair of every item whose save met a working
      database is stored. */
  lemma {:induction false} SaveAllPairsCovers(rows: seq<Row>, items: seq<Noticia>, now: int, dbs: seq<DbStatus>)
    requires |dbs| == |items|
    ensures forall k :: 0 <= k < |items| && dbs[k] == Healthy ==> HasPair(SaveAllPairs(rows, items, now, dbs), items[k])
    decreases |items|
  {
    if items != [] {
      var m := |items| - 1;
      SaveAllPairsCovers(rows, items[..m], now, dbs[..m]);
      var before := SaveAllPairs(rows, items[..m], now, dbs[..m]);
      var after := SaveAllPairs(rows, items, now, dbs);
      if dbs[m] == Healthy {
        AfterSaveHasPair(before, items[m], now);
      }
      assert after == before + after[|before|..];
      forall k | 0 <= k < m && dbs[k] == Healthy
        ensures HasPair(after, items[k])
      {
        assert items[..m][k] == items[k] && dbs[..m][k] == dbs[k];
        HasPairGrows(before, after[|before|..], items[k]);
      }
    }
  }

  /** A run whose every pair is stored changes nothing, whatever state the
      database is in. */
  lemma {:induction false} SaveAllPairsOfCovered(rows: seq<Row>, items: seq<Noticia>, now: int, dbs: seq<DbStatus>)
    requires |dbs| == |items|
    requires forall k :: 0 <= k < |items| ==> HasPair(rows, items[k])
    ensures SaveAllPairs(rows, items, now, dbs) == rows
    decreases |items|
  {
    if items != [] {
      var m := |items| - 1;
      forall k | 0 <= k < m
        ensures HasPair(rows, items[..m][k])
      {
        assert items[..m][k] == items[k];
      }
      SaveAllPairsOfCovered(rows, items[..m], now, dbs[..m]);
    }
  }

  /** Running the same scrape again, after a first run on a working
      database, stores nothing new. */
  lemma SaveAllPairsIdempotent(rows: seq<Row>, items: seq<Noticia>, now: int, later: int,
                               dbs: seq<DbStatus>, dbs': seq<DbStatus>)
    requires |dbs| == |items| == |dbs'| && Fallidos(dbs) == 0
    ensures var first := SaveAllPairs(rows, items, now, dbs);
            SaveAllPairs(first, items, later, dbs') == first
  {
    SaveAllPairsCovers(rows, items, now, dbs);
    SaveAllPairsOfCovered(SaveAllPairs(rows, items, now, dbs), items, later, dbs');
  }

  /** Rows from the most recently scraped to the least. */
  predicate SortedDesc(s: seq<Row>) {
    forall i, j :: 0 <= i < j < |s| ==> s[i].fechaScraping >= s[j].fechaScraping
  }

  /** Places a row before the first row that is not more recent. */
  function InsertDesc(x: Row, s: seq<Row>): (r: seq<Row>)
    requires SortedDesc(s)
    ensures |r| == |s| + 1
    ensures SortedDesc(r) && multiset(r) == multiset(s) + multiset{x}
    decreases |s|
  {
    if s == [] || x.fechaScraping >= s[0].fechaScraping then [x] + s
    else
      var rest := InsertDesc(x, s[1..]);
      assert s == [s[0]] + s[1..];
      HeadNotOlder(s, x, rest);
      [s[0]] + rest
  }

  /** The first row of a sorted table is not older than any row of its tail
      with a less recent row added. */
  lemma HeadNotOlder(s: seq<Row>, x: Row, rest: seq<Row>)
    requires SortedDesc(s) && s != [] && x.fechaScraping < s[0].fechaScraping
    requires SortedDesc(rest) && multiset(rest) == multiset(s[1..]) + multiset{x}
    ensures SortedDesc([s[0]] + rest)
  {
    var r := [s[0]] + rest;
    forall j | 0 < j < |r|
      ensures r[0].fechaScraping >= r[j].fechaScraping
    {
      var y := rest[j - 1];
      assert y in multiset(rest);
      if y != x {
        assert y in multiset(s[1..]);
        var k :| 0 <= k < |s| - 1 && s[1..][k] == y;
        assert s[k + 1] == y;
      }
    }
  }

  /** `ORDER BY fecha_scraping DESC`. */
  function SortDesc(s: seq<Row>): (r: seq<Row>)
    ensures |r| == |s|
    ensures SortedDesc(r) && multiset(r) == multiset(s)
  {
    if s == [] then []
    else
      assert s == [s[0]] + s[1..];
      InsertDesc(s[0], SortDesc(s[1..]))
  }

  /** `obtener_noticias`: at most `limit` rows, most recent first; nothing
      without a working database or when the query is refused (a negative
      limit). */
  function ObtenerNoticias(rows: seq<Row>, limit: int, db: DbStatus): (r: seq<Row>)
    ensures db != Healthy || limit < 0 ==> r == []
    ensures db == Healthy && limit >= 0 ==> |r| == Min(limit, |rows|)
    ensures SortedDesc(r)
    ensures multiset(r) <= multiset(rows)
  {
    if db != Healthy || limit < 0 then []
    else
      var s := SortDesc(rows);
      var k := Min(limit, |s|);
      assert s == s[..k] + s[k..];
      s[..k]
  }

  /** A table is its first `k` rows and the rest. */
  lemma SplitRows(s: seq<Row>, k: nat)
    requires k <= |s|
    ensures multiset(s) == multiset(s[..k]) + multiset(s[k..])
  {
    assert s == s[..k] + s[k..];
  }

  /** The rows left out are none more recent than any row returned. */
  lemma ObtenerNoticiasNewest(rows: seq<Row>, limit: int, x: Row, y: Row)
    requires limit >= 0
    requires x in ObtenerNoticias(rows, limit, Healthy)
    requires y in multiset(rows) - multiset(ObtenerNoticias(rows, limit, Healthy))
    ensures y.fechaScraping <= x.fechaScraping
  {
    var s := SortDesc(rows);
    var k := Min(limit, |s|);
    assert ObtenerNoticias(rows, limit, Healthy) == s[..k];
    SplitRows(s, k);
    SortedFrontNewer(s, k, x, y);
  }

  /** In a sorted table no row after the first `k` is more recent than a
      row among them. */
  lemma SortedFrontNewer(s: seq<Row>, k: nat, x: Row, y: Row)
    requires SortedDesc(s) && k <= |s|
    requires x in s[..k] && y in multiset(s[k..])
    ensures y.fechaScraping <= x.fechaScraping
  {
    assert y in s[k..];
    var i :| 0 <= i < k && s[..k][i] == x;
    var j :| 0 <= j < |s| - k && s[k..][j] == y;
    assert s[i] == x && s[k + j] == y;
  }

  /** With a limit at least the table's size every row comes back. */
  lemma ObtenerNoticiasAll(rows: seq<Row>, limit: int)
    requires limit >= |rows|
    ensures multiset(ObtenerNoticias(rows, limit, Healthy)) == multiset(rows)
  {
    var s := SortDesc(rows);
    assert s[..|s|] == s;
  }

  /** The table `noticias` of `noticiero_db`. */
  class NewsStore {
    var rows: seq<Row>

    ghost predicate Valid()
      reads this
    {
      PairsDistinct(rows)
    }

    constructor ()
      ensures Valid() && rows == []
    {
      rows := [];
    }

    /** `guardar_noticia`: looks the pair up, inserts when it is new. */
    method GuardarNoticia(n: Noticia, now: int, db: DbStatus) returns (ok: bool)
      requires Valid()
      modifies this
      ensures Valid()
      ensures ok <==> db == Healthy && !HasPair(old(rows), n)
      ensures ok ==> rows == old(rows) + [Row(n, now)]
      ensures !ok ==> rows == old(rows)
      ensures rows == AfterSave(old(rows), n, now, db)
    {
      if db != Healthy {
        return false;
      }
      var i := 0;
      while i < |rows|
        invariant 0 <= i <= |rows|
        invariant forall j :: 0 <= j < i ==> rows[j].item.titulo != n.titulo || rows[j].item.link != n.link
      {
        if rows[i].item.titulo == n.titulo && rows[i].item.link == n.link {
          return false;
        }
        i := i + 1;
      }
      AfterSaveKeepsPairs(rows, n, now, db);
      rows := rows + [Row(n, now)];
      return true;
    }
  }
}
