/** The stand-alone scraper: for each site, every kept anchor of the
    fetched page is handed to the pair-checking save of `noticiero_db`, in
    document order; a site whose page cannot be fetched is passed over and
    the run goes on with the next one. */
module Scraper {
  import opened Text
  import opened News
  import opened Db

  /** One site of a run: its configuration, its fetched page (none when the
      fetch or the parse raised) and the state the database is in at each
      of the site's saves, in order. */
  datatype Visita = Visita(src: LegacySource, page: Option<Page>, estados: seq<DbStatus>)

  /** The number of saves a visit makes: one per kept anchor. */
  function Guardados(v: Visita): nat {
    if v.page.None? then 0 else CountKept(v.page.value.articulos)
  }

  /** Every save of every visit has its database state. */
  predicate Completas(visits: seq<Visita>) {
    forall k :: 0 <= k < |visits| ==> |visits[k].estados| == Guardados(visits[k])
  }

  /** The items one site's visit hands to `guardar_noticia`: none when the
      page could not be fetched or parsed. */
  function VisitItems(v: Visita, now: int): (items: seq<Noticia>)
    ensures |items| == Guardados(v)
    ensures v.page.None? ==> items == []
    ensures forall j :: 0 <= j < |items| ==> items[j].fuente == v.src.fuente
  {
    if v.page.None? then []
    else Extract(v.src, v.page.value.articulos, ImagesFor(v.src, v.page.value), DayOf(now))
  }

  /** The table after visiting the sites in order. */
  function RunAll(rows: seq<Row>, visits: seq<Visita>, now: int): (r: seq<Row>)
    requires Completas(visits)
    ensures rows <= r
    decreases |visits|
  {
    if visits == [] then rows
    else
      assert forall k :: 0 <= k < |visits| - 1 ==> visits[1..][k] == visits[k + 1];
      RunAll(SaveAllPairs(rows, VisitItems(visits[0], now), now, visits[0].estados), visits[1..], now)
  }

  /** Visiting `a` then `b` is visiting `a + b`. */
  lemma {:induction false} RunAllAppend(rows: seq<Row>, a: seq<Visita>, b: seq<Visita>, now: int)
    requires Completas(a) && Completas(b)
    ensures Completas(a + b)
    ensures RunAll(rows, a + b, now) == RunAll(RunAll(rows, a, now), b, now)
    decreases |a|
  {
    assert forall k :: 0 <= k < |a + b| ==> (a + b)[k] == if k < |a| then a[k] else b[k - |a|];
    if a == [] {
      assert a + b == b;
    } else {
      assert (a + b)[0] == a[0] && (a + b)[1..] == a[1..] + b;
      assert forall k :: 0 <= k < |a| - 1 ==> a[1..][k] == a[k + 1];
      RunAllAppend(SaveAllPairs(rows, VisitItems(a[0], now), now, a[0].estados), a[1..], b, now);
    }
  }

  /** A site whose page could not be fetched leaves the run exactly as if
      it were not listed: the sites after it are still visited. */
  lemma FailedVisitSkipped(rows: seq<Row>, visits: seq<Visita>, k: nat, now: int)
    requires Completas(visits) && k < |visits| && visits[k].page.None?
    ensures Completas(visits[..k] + visits[k + 1..])
    ensures RunAll(rows, visits, now) == RunAll(rows, visits[..k] + visits[k + 1..], now)
  {
    var a, v, b := visits[..k], [visits[k]], visits[k + 1..];
    assert visits == (a + v) + b;
    assert forall i :: 0 <= i < |a| ==> a[i] == visits[i];
    assert forall i :: 0 <= i < |b| ==> b[i] == visits[k + 1 + i];
    RunAllAppend(rows, a, v, now);
    RunAllAppend(rows, a + v, b, now);
    assert v[..0] == [] && v[1..] == [];
    RunAllAppend(rows, a, b, now);
  }

  /** The whole run keeps title-link pairs distinct. */
  lemma {:induction false} RunAllKeepsPairs(rows: seq<Row>, visits: seq<Visita>, now: int)
    requires Completas(visits) && PairsDistinct(rows)
    ensures PairsDistinct(RunAll(rows, visits, now))
    decreases |visits|
  {
    if visits != [] {
      var next := SaveAllPairs(rows, VisitItems(visits[0], now), now, visits[0].estados);
      SaveAllPairsKeepsPairs(rows, VisitItems(visits[0], now), now, visits[0].estados);
      assert forall k :: 0 <= k < |visits| - 1 ==> visits[1..][k] == visits[k + 1];
      RunAllKeepsPairs(next, visits[1..], now);
    }
  }

  /** The loop's record after the saves of `done`: the table is the one
      those saves leave, each under its own listed database state. */
  ghost predicate Guardado(rows: seq<Row>, start: seq<Row>, done: seq<Noticia>, now: int, dbs: seq<DbStatus>) {
    |done| <= |dbs| && rows == SaveAllPairs(start, done, now, dbs[..|done|])
  }

  /** One more save, meeting the database in the state listed for it. */
  lemma GuardadoPaso(rows: seq<Row>, start: seq<Row>, done: seq<Noticia>, n: Noticia, now: int, dbs: seq<DbStatus>)
    requires Guardado(rows, start, done, now, dbs) && |done| < |dbs|
    ensures Guardado(AfterSave(rows, n, now, dbs[|done|]), start, done + [n], now, dbs)
  {
    var k := |done|;
    assert dbs[..k + 1] == dbs[..k] + [dbs[k]];
    SaveAllPairsStep(start, done, n, now, dbs[..k], dbs[k]);
  }

  /** One anchor of the per-article loop: a kept anchor is saved under the
      next listed database state. */
  method GuardarUno(store: NewsStore, src: LegacySource, articulos: seq<Anchor>, i: nat,
                    imagenes: seq<map<string, string>>, now: int, estados: seq<DbStatus>, hechos: nat,
                    ghost start: seq<Row>, ghost done: seq<Noticia>) returns (hechos': nat, ghost done': seq<Noticia>)
    requires i < |articulos| && store.Valid() && |estados| == CountKept(articulos)
    requires done == Extract(src, articulos[..i], imagenes, DayOf(now)) && hechos == |done|
    requires Guardado(store.rows, start, done, now, estados)
    modifies store
    ensures store.Valid()
    ensures done' == Extract(src, articulos[..i + 1], imagenes, DayOf(now)) && hechos' == |done'|
    ensures Guardado(store.rows, start, done', now, estados)
  {
    var item := NormalizeArticulo(src, articulos[i], i, imagenes, DayOf(now));
    ExtractStep(src, articulos, imagenes, DayOf(now), i);
    hechos', done' := hechos, done;
    if item.Some? {
      ExtractPrefix(src, articulos, imagenes, DayOf(now), i + 1);
      GuardadoPaso(store.rows, start, done, item.value, now, estados);
      var saved := store.GuardarNoticia(item.value, now, estados[hechos]);
      hechos', done' := hechos + 1, done + [item.value];
    }
  }

  /** The per-article loop of `scrape_fuente`: one save per kept anchor, in
      document order, the `k`-th meeting the database in state `estados[k]`. */
  method GuardarTodos(store: NewsStore, src: LegacySource, articulos: seq<Anchor>,
                      imagenes: seq<map<string, string>>, now: int, estados: seq<DbStatus>)
    requires store.Valid() && |estados| == CountKept(articulos)
    modifies store
    ensures store.Valid()
    ensures store.rows == SaveAllPairs(old(store.rows), Extract(src, articulos, imagenes, DayOf(now)), now, estados)
  {
    ghost var start := store.rows;
    ghost var done: seq<Noticia> := [];
    var hechos := 0;  // the saves made so far
    assert estados[..0] == [];
    for i := 0 to |articulos|
      invariant store.Valid()
      invariant done == Extract(src, articulos[..i], imagenes, DayOf(now)) && hechos == |done|
      invariant Guardado(store.rows, start, done, now, estados)
    {
      hechos, done := GuardarUno(store, src, articulos, i, imagenes, now, estados, hechos, start, done);
    }
    assert articulos[..|articulos|] == articulos;
    assert estados[..hechos] == estados;
  }

  /** `scrape_fuente`: the kept anchors of the fetched page are saved, each
      under its own listed database state; a page that could not be fetched
      saves nothing. */
  method ScrapeFuente(store: NewsStore, v: Visita, now: int)
    requires store.Valid() && |v.estados| == Guardados(v)
    modifies store
    ensures store.Valid()
    ensures store.rows == SaveAllPairs(old(store.rows), VisitItems(v, now), now, v.estados)
  {
    if v.page.Some? {
      GuardarTodos(store, v.src, v.page.value.articulos, ImagesFor(v.src, v.page.value), now, v.estados);
    }
  }

  /** The script's main loop: every listed site is visited, in order. */
  method ScrapeAll(store: NewsStore, visits: seq<Visita>, now: int)
    requires store.Valid() && Completas(visits)
    modifies store
    ensures store.Valid()
    ensures store.rows == RunAll(old(store.rows), visits, now)
  {
    ghost var start := store.rows;
    for i := 0 to |visits|
      invariant store.Valid()
      invariant Completas(visits[..i])
      invariant store.rows == RunAll(start, visits[..i], now)
    {
      assert visits[..i + 1] == visits[..i] + [visits[i]];
      assert Completas([visits[i]]);
      RunAllAppend(start, visits[..i], [visits[i]], now);
      ScrapeFuente(store, visits[i], now);
    }
    assert visits[..|visits|] == visits;
  }
}
