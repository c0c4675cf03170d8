/** The web application's own ingestion: its table of news, the save that
    refuses an item whose link or title is already stored, the per-site
    cursor (the latest save time for that site), the filtered listing and
    the incremental scrape of one site. */
module App {
  import opened Text
  import opened News

  /** Some stored row has the item's link or the item's title. */
  predicate Clashes(rows: seq<Row>, n: Noticia) {
    exists i :: 0 <= i < |rows| && (rows[i].item.link == n.link || rows[i].item.titulo == n.titulo)
  }

  /** No two rows share a link (the table's unique key). */
  predicate LinksDistinct(rows: seq<Row>) {
    forall i, j :: 0 <= i < j < |rows| ==> rows[i].item.link != rows[j].item.link
  }

  /** No two rows share a title. */
  predicate TitlesDistinct(rows: seq<Row>) {
    forall i, j :: 0 <= i < j < |rows| ==> rows[i].item.titulo != rows[j].item.titulo
  }

  /** The three answers of `guardar_noticia`. */
  datatype Outcome = Guardado | Duplicado | ErrorDb

  /** `guardar_noticia`'s decision: a database error whenever the database
      cannot be used, a duplicate when the link or the title is taken, a
      save otherwise. */
  function Decide(rows: seq<Row>, n: Noticia, db: DbStatus): (o: Outcome)
    ensures o == Guardado <==> db == Healthy && !Clashes(rows, n)
    ensures o == Duplicado <==> db == Healthy && Clashes(rows, n)
  {
    if db != Healthy then ErrorDb
    else if Clashes(rows, n) then Duplicado
    else Guardado
  }

  /** The message of each outcome. */
  function Mensaje(o: Outcome): string {
    match o
    case Guardado => "Guardado"
    case Duplicado => "Duplicado"
    case ErrorDb => "Error DB"
  }

  /** Appending a row that clashes with no stored row keeps links and
      titles distinct. */
  lemma {:induction false} AppendKeepsDistinct(rows: seq<Row>, n: Noticia, now: int)
    requires !Clashes(rows, n)
    ensures LinksDistinct(rows) ==> LinksDistinct(rows + [Row(n, now)])
    ensures TitlesDistinct(rows) ==> TitlesDistinct(rows + [Row(n, now)])
  {
    var s := rows + [Row(n, now)];
    forall i | 0 <= i < |rows|
      ensures s[i].item.link != n.link && s[i].item.titulo != n.titulo
    {
      assert s[i] == rows[i];
    }
  }

  /** The per-outcome counters of a scrape. */
  datatype Counts = Counts(nuevas: nat, duplicados: nat, errores: nat)

  /** One call of `guardar_noticia` inside a scrape, meeting the database
      in state `db`: the table it leaves and the counter it bumps. */
  function Apply(state: (seq<Row>, Counts), n: Noticia, now: int, db: DbStatus): (res: (seq<Row>, Counts))
    ensures res.1.nuevas + res.1.duplicados + res.1.errores == state.1.nuevas + state.1.duplicados + state.1.errores + 1
    ensures res.1.errores == state.1.errores + (if db != Healthy then 1 else 0)
    ensures Decide(state.0, n, db) == Guardado ==> res.0 == state.0 + [Row(n, now)] && res.1.nuevas == state.1.nuevas + 1
    ensures Decide(state.0, n, db) != Guardado ==> res.0 == state.0 && res.1.nuevas == state.1.nuevas
  {
    var (before, c) := state;
    match Decide(before, n, db)
    case Guardado => (before + [Row(n, now)], c.(nuevas := c.nuevas + 1))
    case Duplicado => (before, c.(duplicados := c.duplicados + 1))
    case ErrorDb => (before, c.(errores := c.errores + 1))
  }

  /** Handing the items to `guardar_noticia` one after the other, each
      against the table as the previous ones left it and each meeting the
      database in its own state (`dbs[k]` for item `k`), and counting the
      answers. */
  function SaveAll(rows: seq<Row>, items: seq<Noticia>, now: int, dbs: seq<DbStatus>): (res: (seq<Row>, Counts))
    requires |dbs| == |items|
    ensures res.1.nuevas + res.1.duplicados + res.1.errores == |items|
    ensures res.1.errores == Fallidos(dbs)
    ensures rows <= res.0 && |res.0| == |rows| + res.1.nuevas
    decreases |items|
  {
    if items == [] then (rows, Counts(0, 0, 0))
    else
      var m := |items| - 1;
      Apply(SaveAll(rows, items[..m], now, dbs[..m]), items[m], now, dbs[m])
  }

  /** The rows of the items, each stamped with the same time. */
  function RowsOf(items: seq<Noticia>, now: int): (r: seq<Row>)
    ensures |r| == |items|
    ensures forall k :: 0 <= k < |items| ==> r[k] == Row(items[k], now)
  {
    seq(|items|, k requires 0 <= k < |items| => Row(items[k], now))
  }

  lemma RowsOfAppend(a: seq<Noticia>, b: seq<Noticia>, now: int)
    ensures RowsOf(a + b, now) == RowsOf(a, now) + RowsOf(b, now)
  {
  }

  /** The rows a run adds are items of the run, stamped with the run's
      time. */
  lemma {:induction false} SaveAllNewRows(rows: seq<Row>, items: seq<Noticia>, now: int, dbs: seq<DbStatus>, j: int)
    requires |dbs| == |items|
    requires |rows| <= j < |SaveAll(rows, items, now, dbs).0|
    ensures SaveAll(rows, items, now, dbs).0[j] in RowsOf(items, now)
    decreases |items|
  {
    var m := |items| - 1;
    var before := SaveAll(rows, items[..m], now, dbs[..m]);
    var after := SaveAll(rows, items, now, dbs);
    assert items == items[..m] + [items[m]];
    RowsOfAppend(items[..m], [items[m]], now);
    if j < |before.0| {
      SaveAllNewRows(rows, items[..m], now, dbs[..m], j);
      assert after.0[j] == before.0[j];
    } else {
      assert after.0 == before.0 + [Row(items[m], now)];
    }
  }

  /** One more item handed to `guardar_noticia`, meeting the database in
      state `db`. */
  lemma SaveAllStep(rows: seq<Row>, items: seq<Noticia>, n: Noticia, now: int, dbs: seq<DbStatus>, db: DbStatus)
    requires |dbs| == |items|
    ensures SaveAll(rows, items + [n], now, dbs + [db]) == Apply(SaveAll(rows, items, now, dbs), n, now, db)
  {
    assert (items + [n])[..|items|] == items;
    assert (dbs + [db])[..|dbs|] == dbs;
  }

  /** A run of saves keeps links and titles distinct. */
  lemma {:induction false} SaveAllKeepsDistinct(rows: seq<Row>, items: seq<Noticia>, now: int, dbs: seq<DbStatus>)
    requires |dbs| == |items|
    requires LinksDistinct(rows) && TitlesDistinct(rows)
    ensures LinksDistinct(SaveAll(rows, items, now, dbs).0) && TitlesDistinct(SaveAll(rows, items, now, dbs).0)
    decreases |items|
  {
    if items != [] {
      var m := |items| - 1;
      var n := items[m];
      SaveAllKeepsDistinct(rows, items[..m], now, dbs[..m]);
      var before := SaveAll(rows, items[..m], now, dbs[..m]).0;
      if Decide(before, n, dbs[m]) == Guardado {
        AppendKeepsDistinct(before, n, now);
      }
    }
  }

  /** A clash with a row stays a clash once rows are appended. */
  lemma ClashesGrow(rows: seq<Row>, more: seq<Row>, n: Noticia)
    requires Clashes(rows, n)
    ensures Clashes(rows + more, n)
  {
    var i :| 0 <= i < |rows| && (rows[i].item.link == n.link || rows[i].item.titulo == n.titulo);
    assert (rows + more)[i] == rows[i];
  }

  /** After a run, every item whose save met a working database clashes
      with the table: it was either saved or refused because of a clash. */
  lemma {:induction false} SaveAllCovers(rows: seq<Row>, items: seq<Noticia>, now: int, dbs: seq<DbStatus>)
    requires |dbs| == |items|
    ensures forall k :: 0 <= k < |items| && dbs[k] == Healthy ==> Clashes(SaveAll(rows, items, now, dbs).0, items[k])
    decreases |items|
  {
    if items != [] {
      var m := |items| - 1;
      var n := items[m];
      SaveAllCovers(rows, items[..m], now, dbs[..m]);
      var before := SaveAll(rows, items[..m], now, dbs[..m]).0;
      var after := SaveAll(rows, items, now, dbs).0;
      assert before <= after;
      var more := after[|before|..];
      assert after == before + more;
      forall k | 0 <= k < |items| && dbs[k] == Healthy
        ensures Clashes(after, items[k])
      {
        if k < m {
          assert items[..m][k] == items[k] && dbs[..m][k] == dbs[k];
          ClashesGrow(before, more, items[k]);
        } else if Decide(before, n, dbs[m]) == Guardado {
          assert after[|before|].item == n;
        } else {
          ClashesGrow(before, more, n);
        }
      }
    }
  }

  /** A run in which every item already clashes saves nothing and counts no
      new item, whatever state the database is in. */
  lemma {:induction false} SaveAllOfCovered(rows: seq<Row>, items: seq<Noticia>, now: int, dbs: seq<DbStatus>)
    requires |dbs| == |items|
    requires forall k :: 0 <= k < |items| ==> Clashes(rows, items[k])
    ensures SaveAll(rows, items, now, dbs).0 == rows && SaveAll(rows, items, now, dbs).1.nuevas == 0
    decreases |items|
  {
    if items != [] {
      var m := |items| - 1;
      forall k | 0 <= k < m
        ensures Clashes(rows, items[..m][k])
      {
        assert items[..m][k] == items[k];
      }
      SaveAllOfCovered(rows, items[..m], now, dbs[..m]);
    }
  }

  /** Saving the same items twice in a row, the first time on a working
      database, stores nothing the second time, whatever the clock and the
      database say then. */
  lemma SaveAllIdempotent(rows: seq<Row>, items: seq<Noticia>, now: int, later: int, dbs: seq<DbStatus>, dbs': seq<DbStatus>)
    requires |dbs| == |items| == |dbs'| && Fallidos(dbs) == 0
    ensures var first := SaveAll(rows, items, now, dbs).0;
            SaveAll(first, items, later, dbs').0 == first && SaveAll(first, items, later, dbs').1.nuevas == 0
  {
    SaveAllCovers(rows, items, now, dbs);
    SaveAllOfCovered(SaveAll(rows, items, now, dbs).0, items, later, dbs');
  }

  /** `ultima_fecha_fuente` on a reachable database: the latest save time
      among the site's rows, none when the site has no rows. */
  function LatestFor(rows: seq<Row>, fuente: string): (r: Option<int>)
    ensures r.None? <==> forall i :: 0 <= i < |rows| ==> rows[i].item.fuente != fuente
    ensures r.Some? ==> exists i :: 0 <= i < |rows| && rows[i].item.fuente == fuente && rows[i].fechaScraping == r.value
    ensures r.Some? ==> forall i :: 0 <= i < |rows| && rows[i].item.fuente == fuente ==> rows[i].fechaScraping <= r.value
    decreases |rows|
  {
    if rows == [] then None
    else
      var last := rows[|rows| - 1];
      var prev := LatestFor(rows[..|rows| - 1], fuente);
      assert forall i :: 0 <= i < |rows| - 1 ==> rows[..|rows| - 1][i] == rows[i];
      if last.item.fuente != fuente then prev
      else if prev.Some? && prev.value >= last.fechaScraping then prev
      else Some(last.fechaScraping)
  }

  /** The date gate of the incremental scrape: with no cursor, or when the
      day of today is strictly after the cursor's day. */
  predicate DateGateOpen(ultima: Option<int>, today: int) {
    ultima.None? || today > DayOf(ultima.value)
  }

  /** Once a scrape at time `now` has saved a row for a site, a scrape of
      that site later the same day finds the gate closed. */
  lemma SavedTodayClosesGate(rows: seq<Row>, items: seq<Noticia>, now: int, dbs: seq<DbStatus>, fuente: string, later: int)
    requires |dbs| == |items|
    requires forall k :: 0 <= k < |items| ==> items[k].fuente == fuente
    requires SaveAll(rows, items, now, dbs).1.nuevas > 0
    requires DayOf(later) <= DayOf(now)
    ensures !DateGateOpen(LatestFor(SaveAll(rows, items, now, dbs).0, fuente), DayOf(later))
  {
    var after := SaveAll(rows, items, now, dbs).0;
    var j := |rows|;
    SaveAllNewRows(rows, items, now, dbs, j);
    var k :| 0 <= k < |items| && RowsOf(items, now)[k] == after[j];
    var latest := LatestFor(after, fuente);
    assert latest.value >= after[j].fechaScraping;
    assert DayOf(now) <= DayOf(latest.value);
  }

  /** `filtrar_noticias`: each supplied filter (a non-empty site or
      category, a date) must equal the row's value. */
  predicate MatchesFilters(r: Row, fuente: Option<string>, categoria: Option<string>, fecha: Option<int>) {
    && (fuente.Some? && fuente.value != "" ==> r.item.fuente == fuente.value)
    && (categoria.Some? && categoria.value != "" ==> r.item.categoria == categoria)
    && (fecha.Some? ==> r.item.fecha == fecha.value)
  }

  /** The rows `filtrar_noticias` selects, in table order. */
  function Filtrar(rows: seq<Row>, fuente: Option<string>, categoria: Option<string>, fecha: Option<int>): (r: seq<Row>)
    ensures |r| <= |rows|
    ensures forall x :: x in r <==> x in rows && MatchesFilters(x, fuente, categoria, fecha)
    decreases |rows|
  {
    if rows == [] then []
    else
      var n := |rows| - 1;
      var prev := Filtrar(rows[..n], fuente, categoria, fecha);
      assert forall x :: x in rows <==> x in rows[..n] || x == rows[n];
      if MatchesFilters(rows[n], fuente, categoria, fecha) then prev + [rows[n]] else prev
  }

  /** Without filters every row is selected, in table order. */
  lemma {:induction false} FiltrarWithoutFilters(rows: seq<Row>, fuente: Option<string>, categoria: Option<string>)
    requires fuente.None? || fuente.value == ""
    requires categoria.None? || categoria.value == ""
    ensures Filtrar(rows, fuente, categoria, None) == rows
    decreases |rows|
  {
    if rows != [] {
      FiltrarWithoutFilters(rows[..|rows| - 1], fuente, categoria);
    }
  }

  /** What one call of `scrape_fuente` ends in: the cursor query raised
      (it runs before the guarded block, so the error escapes), the page
      could not be fetched or parsed, or the loop ran with these counters. */
  datatype ScrapeOutcome = Escaped | FetchFailed | Done(counts: Counts)

  /** What the cursor query of `ultima_fecha_fuente` ends in: it raised, or
      it returned the site's latest save time (none without rows or
      without a connection). */
  datatype CursorQuery = Raised | Latest(fecha: Option<int>)

  /** What the per-article loop has done once `done` are the items kept
      so far, the save of item `k` meeting the database in state `dbs[k]`:
      as many items counted as kept; with the gate open, the table and
      counters of saving those items; with it closed, one duplicate per
      item and the table as it was. */
  ghost predicate Recorrido(rows: seq<Row>, start: seq<Row>, done: seq<Noticia>, counts: Counts, now: int,
                            dbs: seq<DbStatus>, open: bool)
  {
    && |done| <= |dbs|
    && counts.nuevas + counts.duplicados + counts.errores == |done|
    && (open ==> (rows, counts) == SaveAll(start, done, now, dbs[..|done|]))
    && (!open ==> rows == start && counts == Counts(0, |done|, 0))
  }

  /** One more kept item: handed to the save with the gate open, counted
      as a duplicate with it closed. */
  lemma RecorridoPaso(rows: seq<Row>, rows': seq<Row>, start: seq<Row>, done: seq<Noticia>, n: Noticia,
                      counts: Counts, next: Counts, now: int, dbs: seq<DbStatus>, open: bool)
    requires Recorrido(rows, start, done, counts, now, dbs, open) && |done| < |dbs|
    requires open ==> (rows', next) == Apply((rows, counts), n, now, dbs[|done|])
    requires !open ==> rows' == rows && next == counts.(duplicados := counts.duplicados + 1)
    ensures Recorrido(rows', start, done + [n], next, now, dbs, open)
  {
    var k := |done|;
    assert dbs[..k + 1] == dbs[..k] + [dbs[k]];
    if open {
      SaveAllStep(start, done, n, now, dbs[..k], dbs[k]);
    }
  }

  /** The application's table `noticias`. */
  class NewsTable {
    var rows: seq<Row>

    ghost predicate Valid()
      reads this
    {
      LinksDistinct(rows)
    }

    constructor ()
      ensures Valid() && rows == []
    {
      rows := [];
    }

    /** `guardar_noticia`: refuses an item whose link or title is stored,
        otherwise appends it with the current time. */
    method GuardarNoticia(n: Noticia, now: int, db: DbStatus) returns (ok: bool, mensaje: string)
      requires Valid()
      modifies this
      ensures Valid()
      ensures ok <==> Decide(old(rows), n, db) == Guardado
      ensures mensaje == Mensaje(Decide(old(rows), n, db))
      ensures db != Healthy ==> !ok && mensaje == "Error DB" && rows == old(rows)
      ensures db == Healthy && Clashes(old(rows), n) ==> !ok && mensaje == "Duplicado" && rows == old(rows)
      ensures db == Healthy && !Clashes(old(rows), n) ==> ok && mensaje == "Guardado" && rows == old(rows) + [Row(n, now)]
      ensures old(TitlesDistinct(rows)) ==> TitlesDistinct(rows)
    {
      if db == Unreachable {
        return false, "Error DB";
      }
      if db == Failing {
        return false, "Error DB";
      }
      var i := 0;
      while i < |rows|
        invariant 0 <= i <= |rows|
        invariant forall j :: 0 <= j < i ==> rows[j].item.link != n.link && rows[j].item.titulo != n.titulo
      {
        if rows[i].item.link == n.link || rows[i].item.titulo == n.titulo {
          return false, "Duplicado";
        }
        i := i + 1;
      }
      AppendKeepsDistinct(rows, n, now);
      rows := rows + [Row(n, now)];
      return true, "Guardado";
    }

    /** The end of one iteration of the per-article loop: with the date gate
        open, hand the item to `guardar_noticia` and bump the counter its
        answer names; with it closed, count a duplicate. */
    method ProcesarArticulo(n: Noticia, now: int, db: DbStatus, open: bool, counts: Counts) returns (next: Counts)
      requires Valid()
      modifies this
      ensures Valid()
      ensures open ==> (rows, next) == Apply((old(rows), counts), n, now, db)
      ensures !open ==> rows == old(rows) && next == counts.(duplicados := counts.duplicados + 1)
    {
      if open {
        var ok, mensaje := GuardarNoticia(n, now, db);
        if ok {
          next := counts.(nuevas := counts.nuevas + 1);
        } else if mensaje == "Duplicado" {
          next := counts.(duplicados := counts.duplicados + 1);
        } else {
          next := counts.(errores := counts.errores + 1);
        }
      } else {
        next := counts.(duplicados := counts.duplicados + 1);
      }
    }

    /** `ultima_fecha_fuente`: no cursor without a connection; on a
        connection whose statements raise, the query raises out of the
        function (it runs outside any `try`); otherwise the latest save
        time of the site's rows. */
    function UltimaFechaFuente(fuente: string, db: DbStatus): (r: CursorQuery)
      reads this
      ensures r.Raised? <==> db == Failing
      ensures db == Unreachable ==> r == Latest(None)
      ensures db == Healthy ==> r == Latest(LatestFor(rows, fuente))
    {
      match db
      case Unreachable => Latest(None)
      case Failing => Raised
      case Healthy => Latest(LatestFor(rows, fuente))
    }

    /** One anchor of the per-article loop. */
    method RecorrerUno(src: LegacySource, articulos: seq<Anchor>, i: nat, imagenes: seq<map<string, string>>,
                       now: int, dbs: seq<DbStatus>, open: bool, counts: Counts,
                       ghost start: seq<Row>, ghost done: seq<Noticia>) returns (next: Counts, ghost done': seq<Noticia>)
      requires i < |articulos| && Valid() && |dbs| == CountKept(articulos)
      requires done == Extract(src, articulos[..i], imagenes, DayOf(now))
      requires Recorrido(rows, start, done, counts, now, dbs, open)
      modifies this
      ensures Valid()
      ensures done' == Extract(src, articulos[..i + 1], imagenes, DayOf(now))
      ensures Recorrido(rows, start, done', next, now, dbs, open)
    {
      var item := NormalizeArticulo(src, articulos[i], i, imagenes, DayOf(now));
      ExtractStep(src, articulos, imagenes, DayOf(now), i);
      next, done' := counts, done;
      if item.Some? {
        ExtractPrefix(src, articulos, imagenes, DayOf(now), i + 1);
        var k := counts.nuevas + counts.duplicados + counts.errores;  // the items handled so far
        ghost var before := rows;
        next := ProcesarArticulo(item.value, now, dbs[k], open, counts);
        RecorridoPaso(before, rows, start, done, item.value, counts, next, now, dbs, open);
        done' := done + [item.value];
      }
    }

    /** The per-article loop of `scrape_fuente`, the save of the `k`-th
        kept anchor meeting the database in state `dbs[k]`: a skipped
        anchor counts nowhere; with the gate open each item goes to
        `guardar_noticia`, with it closed each one counts as a duplicate
        and the table is left alone. */
    method RecorrerArticulos(src: LegacySource, articulos: seq<Anchor>, imagenes: seq<map<string, string>>,
                             now: int, dbs: seq<DbStatus>, open: bool) returns (counts: Counts)
      requires Valid() && |dbs| == CountKept(articulos)
      modifies this
      ensures Valid()
      ensures open ==> (rows, counts) == SaveAll(old(rows), Extract(src, articulos, imagenes, DayOf(now)), now, dbs)
      ensures !open ==> rows == old(rows) && counts == Counts(0, |Extract(src, articulos, imagenes, DayOf(now))|, 0)
    {
      ghost var start := rows;
      ghost var done: seq<Noticia> := [];
      counts := Counts(0, 0, 0);
      assert dbs[..0] == [];
      for i := 0 to |articulos|
        invariant Valid()
        invariant done == Extract(src, articulos[..i], imagenes, DayOf(now))
        invariant Recorrido(rows, start, done, counts, now, dbs, open)
      {
        counts, done := RecorrerUno(src, articulos, i, imagenes, now, dbs, open, counts, start, done);
      }
      assert articulos[..|articulos|] == articulos;
      assert dbs[..|done|] == dbs;
    }

    /** `scrape_fuente`: reads the site's cursor (meeting the database in
        state `db`), then walks the anchors of the fetched page; a skipped
        anchor counts nowhere, every other one is either handed to
        `guardar_noticia` (gate open; the `k`-th save meets the database in
        state `dbs[k]`) or counted as a duplicate without touching the
        table (gate closed). */
    method ScrapeFuente(src: LegacySource, page: Option<Page>, now: int, db: DbStatus, dbs: seq<DbStatus>)
      returns (outcome: ScrapeOutcome)
      requires Valid()
      requires page.Some? ==> |dbs| == CountKept(page.value.articulos)
      modifies this
      ensures Valid()
      ensures db == Failing ==> outcome == Escaped && rows == old(rows)
      ensures db != Failing && page.None? ==> outcome == FetchFailed && rows == old(rows)
      ensures db != Failing && page.Some? ==>
                var items := Extract(src, page.value.articulos, ImagesFor(src, page.value), DayOf(now));
                var ultima := old(UltimaFechaFuente(src.fuente, db)).fecha;
                && outcome.Done?
                && outcome.counts.nuevas + outcome.counts.duplicados + outcome.counts.errores == |items|
                && (DateGateOpen(ultima, DayOf(now)) ==> (rows, outcome.counts) == SaveAll(old(rows), items, now, dbs))
                && (!DateGateOpen(ultima, DayOf(now)) ==> rows == old(rows) && outcome.counts == Counts(0, |items|, 0))
    {
      var ultima := UltimaFechaFuente(src.fuente, db);
      if ultima.Raised? {
        return Escaped;
      }
      if page.None? {
        return FetchFailed;
      }
      var counts := RecorrerArticulos(src, page.value.articulos, ImagesFor(src, page.value), now, dbs,
                                      DateGateOpen(ultima.fecha, DayOf(now)));
      return Done(counts);
    }
  }
}
