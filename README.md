# Noticiero — a verified model of its core

Noticiero is a Peruvian news aggregator. Its core is modelled here:

- **Classifier** (`sources.py`): it finds the first department of Peru that a text mentions, classifies a news item as national, international or regional, and selects news sites from the site table.
- **Two insert gates:**
  - the web application's table (`app.py`) refuses an item whose link **or** title is already stored;
  - the stand-alone scraper's table (`db.py`) refuses only an item whose (title, link) **pair** is stored.
- **Per-site scrape loops** (`app.py` and `scraper.py`). Each loop:
  - skips incomplete anchors;
  - completes relative links and images with the site's base;
  - pairs images with anchors by position;
  - in `app.py` only, applies the once-a-day gate and counts the outcomes.
- **Queries:** the per-site cursor (`ultima_fecha_fuente`), the filter of `filtrar_noticias`, the newest-first listing of `obtener_noticias`, and the `LIMIT`/`OFFSET` page of `listar_noticias`.
- **Browser script** (`static/script.js`):
  - the five-button page window and the "Mostrando start-end de total" range;
  - the favourites list;
  - the request builder of `cargarNoticias` (endpoint and query parameters);
  - the page counter and in-flight flag that the infinite-scroll sentinel and the "Cargar más" button drive.

Files and modules:

| file | module | what it holds |
|---|---|---|
| `text.dfy` | `Text` | options, substring search (`in`), ASCII lower-casing, decimal rendering of a number |
| `sources.dfy` | `Sources` | `DEPARTAMENTOS_MAP`, `FUENTES`, the detector, the classifier, the two site filters |
| `news.dfy` | `News` | the item and row records, the clock, the database status, the parsed page, per-anchor normalisation shared by both scrapers |
| `app.dfy` | `App` | the application's table as class `NewsTable`: the OR gate, the cursor, the incremental `scrape_fuente`, `filtrar_noticias` |
| `db.dfy` | `Db` | the scraper's table as class `NewsStore`: the pair gate, `obtener_noticias` |
| `scraper.dfy` | `Scraper` | `scrape_fuente` of `scraper.py` and its main loop over the sites |
| `favorites.dfy` | `Favorites` | the favourites list as class `FavoriteStore` |
| `pagination.dfy` | `Pagination` | page window, page buttons, range text, and the `LIMIT`/`OFFSET` slice they describe |
| `request.dfy` | `Request` | `URLSearchParams` as an ordered key/value list, the endpoint choice, the request builder |
| `feed.dfy` | `Feed` | the loading state machine (`page`, `isLoading`, `has_next`) as values and as class `Portada` |

How the outside world is modelled:

- **Database:** every use of the database is given a `DbStatus`. `Unreachable` means no connection, `Failing` means a statement raises a MySQL error, and `Healthy` means it works.
- **Clock:** the clock is an integer number of seconds, passed in as a parameter. `DayOf` gives its day.
- **Pages:** a fetched page is an `Option<Page>` holding the anchors and the image elements the selectors matched. `None` means the fetch or the parse raised.

## Model

| member | source | states |
|---|---|---|
| Text.OrEmpty | sources.py:387 | `x or ''`: the value when present, the empty string otherwise |
| Text.ContainsIff | sources.py:367 | the substring test holds exactly when the pattern occurs at some index of the text |
| Text.AbsentChar | sources.py:367 | a pattern with a character the text lacks does not occur in it |
| Text.Lower | sources.py:363 | lower-casing keeps the length and lowers each character |
| Text.LowerIdempotent | sources.py:363-387 | lower-casing an already lowered text changes nothing, so the classifier's second lowering is harmless |
| Text.NatToString | static/script.js:134-135 | the rendering of a page or limit number is a non-empty string of decimal digits with no leading zero, and its decimal value is the number |
| Text.NatToStringInjective | static/script.js:134-135 | different numbers are rendered differently, so the `page` parameter names one page |
| Sources.AnyVariant | sources.py:366-368 | the inner loop over one department's variants answers exactly whether one of them occurs in the text |
| Sources.DetectIn | sources.py:365-370 | the first table entry with a variant in the text wins; none exactly when no entry's variant occurs |
| Sources.DetectarDepartamento | sources.py:355-370 | none for missing or empty text; otherwise the answer is a key whose variant occurs in the lowered text, no earlier key has one, and none means no key has one |
| Sources.FirstMentioned | sources.py:365-368 | a lowered text whose first mentioned department is entry `k` is classified as that department |
| Sources.EconomicaMentionsNone1 | sources.py:22-31 | "económica" mentions none of the first two departments |
| Sources.EconomicaMentionsNone2 | sources.py:22-31 | "económica" mentions neither the third nor the fourth department |
| Sources.EconomicaMentionsNone3 | sources.py:22-31 | "económica" mentions neither the fifth nor the sixth department |
| Sources.EconomicaMentionsNone4 | sources.py:22-31 | "económica" mentions neither the seventh nor the eighth department |
| Sources.EconomicaMentionsNone5 | sources.py:22-31 | "económica" mentions neither the ninth nor the tenth department |
| Sources.EconomicaIsLower | sources.py:363 | "económica" is already lower-case under the model's lowering |
| Sources.EconomicaNoneBeforeIca | sources.py:22-31 | no department listed before Ica is mentioned in "económica" |
| Sources.EconomicaMentionsIca | sources.py:32 | Ica's variant "ica" occurs in "económica" |
| Sources.DetectsIca | sources.py:365-368 | a lowered text mentioning Ica and nothing earlier in the table is classified as Ica |
| Sources.EconomicaIsIca | sources.py:355-370 | matching is by substring, not by word: "económica" is detected as Ica |
| Sources.ClasificarNoticia | sources.py:372-417 | the hint "regional" gives regional/Puno; otherwise a department mentioned in title and summary gives national with the first such department; otherwise "nacional" gives national and anything else international, each with no department |
| Sources.HintIsCaseSensitive | sources.py:407-417 | with no department mentioned, the hint "nacional" gives national but "Nacional" gives international |
| Sources.Where | sources.py:426-427 | the sites whose field equals the value, in table order |
| Sources.WhereAppend | sources.py:426-427 | filtering distributes over concatenation, so the table's order is kept |
| Sources.FuentesPorCategoria | sources.py:419-427 | all sites for a missing or empty category; otherwise exactly the sites whose category equals the argument, in order |
| Sources.FuentesPorDepartamento | sources.py:333-341 | all sites for a missing or empty department; otherwise exactly the sites whose department equals the argument, in order |
| Sources.WhereNoDepartment | sources.py:340-341 | sites that carry no department field never match a department |
| Sources.FuentesPorDepartamentoAlwaysEmpty | sources.py:56-341 | no site of the table has a department field, so a non-empty department selects no site |
| News.ResolveUrl | scraper.py:75-76 | a link starting with "http" is kept; any other link becomes base followed by link, with no separator inserted; an absolute base gives an absolute result |
| News.ResolveUrlIdempotent | scraper.py:75-76 | with an absolute base, resolving an already resolved link changes nothing |
| News.ImageAttr | scraper.py:82-85 | `src` is preferred over `data-src`; with neither attribute there is no image |
| News.ResolveImage | scraper.py:88-89 | a non-empty relative image gets the base prefixed; an empty image stays empty; no image stays none |
| News.Normalize | scraper.py:69-95 | an anchor yields an item exactly when its text and `href` are non-empty; title, link, image, summary, author, category, date and site are set as the loop sets them |
| News.NormalizeArticulo | app.py:117-137 | the loop body's reassignments of `link` and `imagen` compute `Normalize` |
| News.Extract | scraper.py:69-99 | one item per kept anchor, carrying the site's name and today's date |
| News.ExtractStep | scraper.py:69-74 | anchor `i` adds its item when it is kept and nothing when it is skipped |
| News.ExtractSound | scraper.py:69-99 | every extracted item comes from some anchor of the page |
| News.ExtractComplete | scraper.py:69-99 | every kept anchor's item is extracted |
| News.ExtractPrefix | scraper.py:69-99 | the items of a prefix of the anchors are a prefix of the items, so document order is kept |
| News.RelativeLinkExample | scraper.py:75-76 | "/nota/1" on base "https://n.pe" becomes "https://n.pe/nota/1", and with no image elements there is no image |
| News.Fallidos | app.py:140-143 | the number of saves whose database state is not healthy: at most one per save, and none exactly when every save meets a working database |
| App.Decide | app.py:60-83 | a save exactly when the database works and no stored row has the link or the title; a duplicate exactly when the database works and one does |
| App.AppendKeepsDistinct | app.py:67-79 | appending an item that clashes with no row keeps links distinct and titles distinct |
| App.Apply | app.py:139-145 | one open-gate step bumps exactly one counter; only a save appends, and it appends the item stamped with the clock; the error counter grows exactly when the save meets a database that is not healthy |
| App.SaveAll | app.py:116-145 | each save meets the database in its own state; the counters sum to the number of items; the errors are exactly the saves that met a database that is not healthy; rows are only appended, one per new item |
| App.RowsOf | app.py:72-79 | each item becomes a row stamped with the run's clock |
| App.RowsOfAppend | app.py:72-79 | the rows of concatenated items are the concatenated rows |
| App.SaveAllNewRows | app.py:72-79 | every row a run adds is one of the run's items stamped with the run's clock |
| App.SaveAllStep | app.py:116-145 | one more item is one more call of `guardar_noticia` on the table left by the others |
| App.SaveAllKeepsDistinct | app.py:67-79 | a run of saves keeps links distinct and titles distinct |
| App.ClashesGrow | app.py:67-70 | a clash stays a clash when rows are appended |
| App.SaveAllCovers | app.py:67-79 | after a run, each item whose save met a working database has its link or title stored, whatever state the other saves met |
| App.SaveAllOfCovered | app.py:67-70 | a run whose every item clashes stores nothing and counts nothing new |
| App.SaveAllIdempotent | app.py:60-83 | after a run whose every save met a working database, saving the same items again stores nothing, whatever the clock and the database say |
| App.LatestFor | app.py:85-93 | the greatest `fecha_scraping` among the site's rows, attained by one of them; none exactly when the site has no rows |
| App.SavedTodayClosesGate | app.py:139 | once a scrape has saved an item for a site, whatever errors its other saves met, a later scrape of that site on the same day finds the date gate closed |
| App.RecorridoPaso | app.py:139-145 | one more kept item extends the loop's record: the table and counters stay those of saving the items handled so far, each with its own database state, or the table stays put and the item counts as a duplicate when the gate is closed |
| App.Filtrar | app.py:192-212 | exactly the rows that match every supplied filter, with an empty site or category counting as not supplied |
| App.FiltrarWithoutFilters | app.py:197-202 | with no filter every row is selected, in table order |
| App.NewsTable.constructor | app.py:16-45 | a new table is empty and has distinct links |
| App.NewsTable.GuardarNoticia | app.py:60-83 | "Error DB" and no change when the database cannot be used; "Duplicado" and no change when the link or the title is stored; otherwise "Guardado" and exactly one row appended with the clock; distinct links and distinct titles are kept |
| App.NewsTable.ProcesarArticulo | app.py:139-145 | with the gate open the item goes to the save and its answer bumps one counter; with the gate closed a duplicate is counted and the table is left alone |
| App.NewsTable.UltimaFechaFuente | app.py:85-93 | the query raises exactly when the database is reachable but failing; none without a connection; otherwise the latest save time of the site's rows |
| App.NewsTable.RecorrerUno | app.py:116-145 | one anchor advances the loop's record by its item, or leaves it as it was for a skipped anchor |
| App.NewsTable.RecorrerArticulos | app.py:116-145 | with the gate open the table and counters are those of saving every extracted item, the `k`-th save meeting the `k`-th database state; with it closed the table is unchanged and every item counts as a duplicate |
| App.NewsTable.ScrapeFuente | app.py:105-150 | a failing cursor query escapes the function and changes nothing; a failed fetch changes nothing; otherwise the counters sum to the kept anchors, and the gate, fed by the cursor, decides between saving each item under its own database state and counting every item a duplicate |
| Db.AfterSave | db.py:26-61 | the table grows by one row exactly when the database works and the (title, link) pair is absent, and that row is the item with the clock |
| Db.AfterSaveKeepsPairs | db.py:38-50 | a save keeps the (title, link) pairs distinct |
| Db.AfterSaveHasPair | db.py:38-50 | after a save on a working database the item's pair is stored |
| Db.LinkOnlyMatchInserted | db.py:38-41 | an item whose link is stored under another title passes the pair check; on a table without a unique key on `link` it is inserted, giving two rows with the same link |
| Db.SaveAllPairsNewRows | db.py:41-50 | every row a run appends is one of the run's items, stamped with the run's clock, whose save met a working database |
| Db.SaveAllPairs | scraper.py:97-99 | each save meets the database in its own state; a run only appends, at most one row per save that met a working database |
| Db.SaveAllPairsStep | scraper.py:97-99 | one more item is one more save on the table the others left |
| Db.SaveAllPairsKeepsPairs | db.py:38-50 | a run of saves keeps the pairs distinct |
| Db.HasPairGrows | db.py:38-39 | a stored pair stays stored when rows are appended |
| Db.SaveAllPairsCovers | db.py:38-50 | after a run, the pair of each item whose save met a working database is stored |
| Db.SaveAllPairsOfCovered | db.py:38-39 | a run whose every pair is stored saves nothing |
| Db.SaveAllPairsIdempotent | db.py:26-61 | after a run whose every save met a working database, scraping the same items again stores nothing, whatever the database says |
| Db.InsertDesc | db.py:74 | inserting into a newest-first list keeps it newest-first and adds exactly that row |
| Db.HeadNotOlder | db.py:74 | the newest row may stay in front of a newest-first rest |
| Db.SortDesc | db.py:74 | a newest-first permutation of the rows |
| Db.ObtenerNoticias | db.py:64-83 | an empty list without a working database; otherwise `min(limit, rows)` rows, newest first, taken from the table |
| Db.SplitRows | db.py:74 | a list's rows are those of its front and its back together |
| Db.SortedFrontNewer | db.py:74 | in a newest-first list every row of the front is no older than any row of the back |
| Db.ObtenerNoticiasNewest | db.py:74 | no row left out of the answer is newer than a row in it |
| Db.ObtenerNoticiasAll | db.py:74 | a limit at least the table's size returns every row |
| Db.NewsStore.constructor | db.py:14-23 | a new table is empty and has distinct pairs |
| Db.NewsStore.GuardarNoticia | db.py:26-61 | `True` exactly when the database works and the pair is absent, with exactly one row appended; otherwise `False` and no change; distinct pairs are kept |
| Scraper.VisitItems | scraper.py:59-102 | one item per kept anchor; a failed fetch yields no items; every item carries the site's name |
| Scraper.RunAll | scraper.py:105-108 | visiting the sites, each save under the state listed for it, only appends rows |
| Scraper.RunAllAppend | scraper.py:106-107 | visiting two lists of sites one after the other is visiting their concatenation |
| Scraper.FailedVisitSkipped | scraper.py:101-108 | a site whose page cannot be fetched leaves the run as if it were not listed, and the sites after it are still visited |
| Scraper.RunAllKeepsPairs | scraper.py:105-108 | a whole run keeps the pairs distinct |
| Scraper.GuardadoPaso | scraper.py:97-99 | one more save, under the next listed database state, is the run of saves extended by one item |
| Scraper.GuardarUno | scraper.py:69-99 | one anchor advances the loop: a kept anchor's item is saved under the next listed database state, a skipped anchor changes nothing |
| Scraper.GuardarTodos | scraper.py:69-99 | the table is the one left by saving every extracted item in document order, the `k`-th under the `k`-th database state |
| Scraper.ScrapeFuente | scraper.py:59-102 | one save per kept anchor, in document order, the `k`-th meeting the site's `k`-th database state; nothing for a failed fetch; pairs stay distinct |
| Scraper.ScrapeAll | scraper.py:105-108 | the main loop's table is the run over every listed site, in order |
| Favorites.IndexOf | static/script.js:330 | `indexOf`: -1 exactly when the id is absent, otherwise the position of its first occurrence |
| Favorites.Added | static/script.js:320-326 | the id becomes a favourite, earlier ids keep their places, no other id appears or disappears, and no duplicate is introduced |
| Favorites.AddedIdempotent | static/script.js:320-326 | adding twice is adding once |
| Favorites.RemovedProperties | static/script.js:328-335 | an absent id leaves the list alone; otherwise exactly one occurrence, the first, is taken out and the rest keep their order |
| Favorites.RemovedAt | static/script.js:328-335 | after the splice each position holds the id that was there before the removed one, or the next one after it |
| Favorites.RemovedNoDup | static/script.js:328-335 | in a list without duplicates, removal leaves no trace of the id, no duplicate, and every other id |
| Favorites.ToggleFlips | static/script.js:337-347 | in a list without duplicates a toggle flips the id's membership, keeps every other id's membership, and introduces no duplicate |
| Favorites.ToggleTwiceAbsent | static/script.js:337-347 | toggling a non-favourite twice restores the list |
| Favorites.IndexOfLast | static/script.js:330 | an id appended to a list without it is found at the end |
| Favorites.ToggleTwiceMoves | static/script.js:337-347 | toggling a favourite that is not last twice moves it to the end: membership is restored but order is not |
| Favorites.FavoriteStore.constructor | static/script.js:308-310 | the list is the stored one |
| Favorites.FavoriteStore.IsFavorito | static/script.js:316-318 | `includes`: true exactly when the id occurs in the list |
| Favorites.FavoriteStore.AddFavorito | static/script.js:320-326 | the list becomes `Added` of the old list |
| Favorites.FavoriteStore.RemoveFavorito | static/script.js:328-335 | the list becomes `Removed` of the old list |
| Favorites.FavoriteStore.ToggleFavorito | static/script.js:337-347 | the list becomes `Toggled` of the old list |
| Pagination.PageWindow | static/script.js:238-247 | `1 <= startPage` and `endPage <= totalPages`; for a current page in range the window holds exactly `min(5, totalPages)` pages and contains it, centred when there is room; no pages when `totalPages <= 0` |
| Pagination.PageButtons | static/script.js:238-255 | one button per page of the window, numbered consecutively, with exactly the current page marked; none when `totalPages <= 0` |
| Pagination.RangeInfo | static/script.js:196-201 | "No hay noticias" for no news; otherwise `start = (page-1)*limit+1`, `end = min(page*limit, total)`, and `end <= total` |
| Pagination.PageSlice | app.py:176-189 | `LIMIT limit OFFSET (page-1)*limit`: refused for a negative limit or offset; otherwise the rows from the offset, at most `limit` of them |
| Pagination.RangeMatchesSlice | static/script.js:196-199 | when the page starts inside the table, the range text counts exactly the rows of the server's page: `end - start + 1` of them, starting at row `start` |
| Request.GetFinds | static/script.js:133-153 | `get` finds nothing exactly when no entry has the key; what it finds is an entry of the list |
| Request.Delete | static/script.js:146-150 | after `delete` the key is absent and every other key reads as before |
| Request.Set | static/script.js:134-153 | after `set` the key reads the value and every other key reads as before |
| Request.DeleteKeepsDistinct | static/script.js:146-150 | `delete` only drops entries, and keeps keys distinct |
| Request.SetKeepsDistinct | static/script.js:134-153 | `set` adds only the new entry, and keeps keys distinct |
| Request.SetAbsentAppends | static/script.js:137-143 | setting an absent key appends it at the end |
| Request.SetKeepsFront | static/script.js:137-151 | setting another key keeps `page` and `limit` first |
| Request.DeleteKeepsFront | static/script.js:146-150 | deleting another key keeps `page` and `limit` first |
| Request.Endpoint | static/script.js:129-131 | `/buscar` when `q` is set; `/filtrar` when a filter other than `ordenar` is set; the plain list otherwise |
| Request.OrdenarAloneIsPlainList | static/script.js:129-130 | `ordenar` alone does not select `/filtrar` |
| Request.SetSiHay | static/script.js:137-143 | a non-empty value is set, an empty one leaves the key as it was, and nothing else changes |
| Request.Borrar | static/script.js:146-150 | the key is gone, nothing else changes, and `page` and `limit` stay first |
| Request.PaginaYLimite | static/script.js:133-135 | the parameters start as exactly `page` and `limit=15` |
| Request.ParametrosBase | static/script.js:133-143 | `page` and `limit` first, then each filter that is set, with no `q` |
| Request.FiltrosDeLista | static/script.js:137-139 | `fuente`, `categoria` and `fecha` are set when non-empty, and nothing else changes |
| Request.FiltrosDeTipo | static/script.js:140-143 | `tipo`, `fecha_desde`, `fecha_hasta` and `ordenar` are set when non-empty, and nothing else changes |
| Request.ParametrosBusqueda | static/script.js:145-152 | a search sets `q` and drops `fuente`, `categoria`, `fecha`, `fecha_desde` and `fecha_hasta` but keeps `tipo` and `ordenar` |
| Request.ConstruirPeticion | static/script.js:128-153 | the URL is the endpoint the filters select; `page` and `limit` are always set first; `tipo` and `ordenar` follow the filters; a search has `q` and no list filters; otherwise each list filter is set exactly when non-empty and `q` is absent |
| Feed.Cargar | static/script.js:114-127 | ignored while a request is in flight; otherwise the page goes back to 1 on a reset, and with a news container exactly one request for the current page is sent with the given filters |
| Feed.Responder | static/script.js:156-185 | the in-flight flag drops on every outcome; only a list of news replaces `has_next`; page and filters are kept |
| Feed.Scroll | static/script.js:699-705 | the sentinel asks for the next page only when it is visible, nothing is in flight and there is a next page |
| Feed.CargarMasAsWritten | static/script.js:741-744 | the click moves the counter on even while a request is in flight, and then no request is sent |
| Feed.CargarMas | static/script.js:701-704 | with the sentinel's guard a click in flight changes nothing; otherwise the next page is asked for |
| Feed.IrAPagina | static/script.js:258-261 | when nothing is in flight, the chosen page is asked for |
| Feed.Sesion | static/script.js:699-744 | a session only ever adds requests |
| Feed.PasoCorregido | static/script.js:699-744 | with the guard one event keeps the counter on the last page asked for, and asks, if at all, for the page after it |
| Feed.SesionSinSaltos | static/script.js:699-744 | with the guard no page is ever skipped, whatever order the clicks, scrolls and responses come in |
| Feed.ClicEnVueloDesfasa | static/script.js:741-744 | as written, a click in flight leaves the counter ahead of the last page asked for |
| Feed.DobleClicSaltaPagina | static/script.js:741-744 | as written, two clicks before the first response and one after it ask for pages 1, 2 and 4 |
| Feed.DobleClicCorregido | static/script.js:701-704 | with the guard the same clicks ask for pages 1, 2 and 3 |
| Feed.RegistrarOtra | static/script.js:133-135 | one more request for its page keeps every request well formed for its page |
| Feed.Portada.constructor | static/script.js:2-8 | the globals start at page 1, not loading, no filters, and no request sent |
| Feed.Portada.CargarNoticias | static/script.js:114-153 | the globals change as `Cargar` says; a request that is sent is appended, goes to the selected endpoint and carries the current page first |
| Feed.Portada.Enviar | static/script.js:126-153 | the flag is raised, the filters are recorded, and exactly one well-formed request for the current page is appended |
| Feed.Portada.OnResponse | static/script.js:156-185 | the globals change as `Responder` says and no request is sent |
| Feed.Portada.OnSentinel | static/script.js:699-705 | the globals change as `Scroll` says |
| Feed.Portada.OnCargarMas | static/script.js:741-744 | the corrected handler: the globals change as `CargarMas` says |
| Feed.Portada.GoToPage | static/script.js:258-261 | the globals change as `IrAPagina` says |

## Left out

- The HTTP fetch, BeautifulSoup's `select`/`get_text(strip=True)`, Flask, its templates and the JSON responses are out of scope. A scrape receives the matched anchors and image elements as a `Page`; a server response is reduced to news with a `has_next` flag, a message, or a failure.
- The MySQL connection, its DDL and SQL text are out of scope. A table is an in-memory sequence of rows. The auto-increment `id` is left out because no modelled code reads it.
- String comparison under the `utf8mb4_unicode_ci` collation is modelled as exact equality: case and accent folding in SQL is not captured.
- The order of rows with equal `fecha_scraping` in `obtener_noticias` is left open: any newest-first order is accepted.
- `datetime.now()` and `datetime.today()` are one clock value per scrape, passed in as a parameter. The code reads the clock once per article and once per save.
- Text.Lower: lowers only ASCII letters. Python's `str.lower()` Unicode case mapping (accented capitals) is not modelled.
- Columns have no length limits; `VARCHAR` truncation is not modelled. An insert that fails for that or any other reason is a save whose own database state is `Failing`; every save of a run has its own state, so a run may mix saved, duplicate and failed items.
- App.NewsTable.GuardarNoticia: the `Failing` state stands for an error raised inside the `try` (app.py:66-83), which gives "Error DB". If `conn.cursor()` itself raises (app.py:65, outside the `try`), the exception leaves `guardar_noticia` and is caught at app.py:149, so the rest of that site's anchors are not visited. The model does not capture that early end of the site's loop.
- App.Filtrar: the `fecha` filter is a day number. The request's date string, its conversion to a `DATE` by MySQL and the error a malformed date raises are not modelled.
- `scraper_automatico`'s hourly loop and its thread (app.py:153-159) are left out: they are timing and concurrency.
- `buscar_noticias` and `noticia_por_id` are left out: their matching depends on the MySQL collation and the `LIKE` operator.
- The status codes of `listar_noticias` and `filtrar_noticias` (500 without a connection, 404 for no rows) are not modelled; only the rows they select are. `listar_noticias` orders by `fecha`; Pagination.PageSlice takes the rows already in that order.
- Pagination.PageSlice refuses a negative offset or limit; that stands for the database error that MySQL raises on such values. The 500 response that follows is not modelled.
- Db.NewsStore.GuardarNoticia: the `Failing` state stands for a MySQL error raised inside the `try` (db.py:34-57), which gives `False`. If `conn.cursor()` itself raises (db.py:35) and the connection is still open (db.py:59), the `finally` block reads the unbound `cursor` (db.py:60). The `UnboundLocalError` replaces the pending `False`, leaves `guardar_noticia` and is caught at scraper.py:101, so the rest of that site's anchors are not visited. The model does not capture that early end of the site's loop. With a dropped connection the function does return `False`, as modelled.
- Db.ObtenerNoticias: if `conn.cursor(dictionary=True)` raises (db.py:73) on an open connection, the `finally` block at db.py:80-83 raises instead of returning `[]`. The model answers `[]` for every database that is not healthy.
- Db.LinkOnlyMatchInserted: the DDL of the scraper's table is not part of the code (db.py creates no table). The model assumes that table has no unique key on `link`, so the pair check at db.py:38-41 is the only gate. Under such a key the `INSERT` would raise an integrity error, which db.py:55-57 catches and answers with `False`. The model expresses that case as a save whose database state is `Failing`, not as a `Healthy` save.
- The unused selector fields of the site table (`container`, `title_selector`, `img_selector`, `date_selector` and the rest) are left out, because no modelled code reads them.
- The browser's page counter is a natural number: JavaScript floating-point numbers are not modelled. A request keeps its parameter list; `URLSearchParams.toString` and its percent-encoding are left out.
- In the browser script:
  - the DOM, event listeners, `fetch`/`Promise`, the `IntersectionObserver` object itself, debounce timers, speech, printing and theming are out of scope;
  - `adjustFontSize` (floating point) and `formatDate` (locale) are left out;
  - the favourites page's sort by date and `localeCompare` is left out;
  - the `append` flag of `cargarNoticias` is left out: it only clears the container.
- Favorites.FavoriteStore: `localStorage` is the field `ids`. Parsing and serialising JSON are left out.
- Feed.Portada.GoToPage: `isInfiniteScroll` is never changed from `true` (static/script.js:7), so the page buttons and `goToPage` are never shown. The function is still modelled.
- Feed.Respuesta: a response that has news but no `pagination` object sets `has_next` to false. `listar_noticias` returns a bare list, so a plain listing never offers a next page. The model takes the flag from the response as given.
- The test and verification scripts (`test_departamentos.py`, `test_ordenamiento.py`, `verificar_noticias.py`) are left out: they only print against a live database.

Three facts about the code that the model follows:

- relative links and images are completed by plain concatenation of the site's base and the link, with no separator inserted (scraper.py:75-76, app.py:121-122);
- the department table has 25 entries, and Ica lists "ica" twice among its variants (sources.py:32);
- the code has no blocklist of sites and no keyword tagger.

## Findings

| source | as written | input that shows it | evidently intended | confidence | as-written member | corrected member |
|---|---|---|---|---|---|---|
| static/script.js:741-744 | the "Cargar más" handler runs `page++` before calling `cargarNoticias`, which returns at once while a request is in flight (static/script.js:115) | a server whose responses carry `pagination.has_next` set to true (`listar_noticias`, app.py:176-189, returns a bare list, so it never does; a paginated server is needed): start on page 1, click twice before the first response arrives, then once after it: pages 1, 2 and 4 are requested and page 3 is never loaded | the same guard as the infinite-scroll sentinel (static/script.js:701): no increment while a request is in flight | not executed | Feed.DobleClicSaltaPagina | Feed.SesionSinSaltos |
