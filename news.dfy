/** The news record, the configuration of a scraped site, the parsed page
    handed to a scrape, and the per-article normalisation that both scrape
    loops share: skipping incomplete anchors, completing relative links and
    images with the site's base, and pairing images with anchors by index. */
module News {
  import opened Text

  /** Timestamps are seconds; a date is the number of the day. */
  const SECONDS_PER_DAY := 86400

  /** `datetime.date()`: the day a timestamp falls on. */
  function DayOf(ts: int): int {
    ts / SECONDS_PER_DAY
  }

  /** What one attempt to use the database meets: no connection at all,
      a connection on which a statement raises a database error, or a
      working connection. */
  datatype DbStatus = Unreachable | Failing | Healthy

  /** How many of a run's saves, each meeting its own status, found the
      database unusable. */
  function Fallidos(dbs: seq<DbStatus>): (r: nat)
    ensures r <= |dbs|
    ensures r == 0 <==> forall k :: 0 <= k < |dbs| ==> dbs[k] == Healthy
    decreases |dbs|
  {
    if dbs == [] then 0
    else
      var m := |dbs| - 1;
      assert forall k :: 0 <= k < m ==> dbs[..m][k] == dbs[k];
      Fallidos(dbs[..m]) + (if dbs[m] != Healthy then 1 else 0)
  }

  /** The arguments of `guardar_noticia`. */
  datatype Noticia = Noticia(titulo: string, link: string, categoria: Option<string>, fecha: int,
                             resumen: Option<string>, autor: Option<string>, imagen: Option<string>,
                             fuente: string)

  /** A row of table `noticias`: the stored item and the moment it was
      stored (`fecha_scraping`). */
  datatype Row = Row(item: Noticia, fechaScraping: int)

  /** A site of the flat-anchor scrapers. */
  datatype LegacySource = LegacySource(url: string, fuente: string, base: string,
                                       selector: string, selectorImg: string, categoria: string)

  /** The sites both flat-anchor scrapers visit, in order. */
  const LEGACY_FUENTES: seq<LegacySource> := [
    LegacySource("https://www.bbc.com/mundo", "BBC Mundo", "https://www.bbc.com", "a", "img", "Internacional"),
    LegacySource("https://rpp.pe/", "RPP Noticias", "https://rpp.pe", "div.block-news a", "div.block-news img", "Nacional"),
    LegacySource("https://elcomercio.pe/", "El Comercio", "https://elcomercio.pe", "h2 a", "figure img", "Nacional"),
    LegacySource("https://peru21.pe/", "Perú21", "https://peru21.pe", "h2 a", "figure img", "Nacional"),
    LegacySource("https://larepublica.pe/", "La República", "https://larepublica.pe", "h2 a", "picture img", "Nacional")
  ]

  /** An element matched by the site's selector: its stripped text and its
      attributes. */
  datatype Anchor = Anchor(text: string, attrs: map<string, string>)

  /** What the HTML parser yields for one site: the matched anchors and,
      separately, the elements matched by the image selector (their
      attributes), both in document order. */
  datatype Page = Page(articulos: seq<Anchor>, imagenes: seq<map<string, string>>)

  /** `link if link.startswith("http") else base + link`: plain
      concatenation, no separator inserted. */
  function ResolveUrl(base: string, u: string): (r: string)
    ensures StartsWith(u, "http") ==> r == u
    ensures !StartsWith(u, "http") ==> |r| == |base| + |u| && r[..|base|] == base && r[|base|..] == u
    ensures StartsWith(base, "http") ==> StartsWith(r, "http")
  {
    if StartsWith(u, "http") then u else base + u
  }

  /** Resolving an already resolved URL against an absolute base changes
      nothing. */
  lemma ResolveUrlIdempotent(base: string, u: string)
    requires StartsWith(base, "http")
    ensures ResolveUrl(base, ResolveUrl(base, u)) == ResolveUrl(base, u)
  {
    if !StartsWith(u, "http") {
      assert (base + u)[..4] == base[..4];
    }
  }

  /** The image URL of an image element: `src` when present (even empty),
      else `data-src`, else none. */
  function ImageAttr(tag: map<string, string>): (r: Option<string>)
    ensures "src" in tag ==> r == Some(tag["src"])
    ensures "src" !in tag && "data-src" in tag ==> r == Some(tag["data-src"])
    ensures r.None? <==> "src" !in tag && "data-src" !in tag
  {
    if "src" in tag then Some(tag["src"])
    else if "data-src" in tag then Some(tag["data-src"])
    else None
  }

  /** `if imagen and not imagen.startswith("http")`: a non-empty relative
      image gets the base; an empty one is kept as it is. */
  function ResolveImage(base: string, imagen: Option<string>): (r: Option<string>)
    ensures imagen.None? <==> r.None?
    ensures imagen.Some? && imagen.value != "" ==> r == Some(ResolveUrl(base, imagen.value))
    ensures imagen.Some? && imagen.value == "" ==> r == Some("")
  {
    if imagen.Some? && imagen.value != "" && !StartsWith(imagen.value, "http")
    then Some(base + imagen.value)
    else imagen
  }

  /** An anchor is processed only with a non-empty text and a non-empty
      `href`. */
  predicate Kept(a: Anchor) {
    a.text != "" && "href" in a.attrs && a.attrs["href"] != ""
  }

  /** The image elements a scrape pairs with anchors: none when the site
      has no image selector. */
  function ImagesFor(src: LegacySource, page: Page): seq<map<string, string>> {
    if src.selectorImg != "" then page.imagenes else []
  }

  /** The body of the per-article loop for the anchor at index `i` of the
      page: none for an incomplete anchor, otherwise the item handed to
      `guardar_noticia`. The image is the one at the same index among the
      image elements, if there is one. */
  function Normalize(src: LegacySource, a: Anchor, i: nat, imagenes: seq<map<string, string>>, today: int): (r: Option<Noticia>)
    ensures r.Some? <==> Kept(a)
    ensures r.Some? ==> r.value.titulo == a.text && r.value.link == ResolveUrl(src.base, a.attrs["href"])
    ensures r.Some? && StartsWith(src.base, "http") ==> StartsWith(r.value.link, "http")
    ensures r.Some? && r.value.imagen.Some? ==> i < |imagenes| && ImageAttr(imagenes[i]).Some?
    ensures r.Some? && i < |imagenes| ==> r.value.imagen == ResolveImage(src.base, ImageAttr(imagenes[i]))
    ensures r.Some? ==> r.value.resumen == (if "title" in a.attrs then Some(a.attrs["title"]) else None)
    ensures r.Some? ==> r.value.autor.None? && r.value.categoria == Some(src.categoria)
                        && r.value.fecha == today && r.value.fuente == src.fuente
  {
    if !Kept(a) then None
    else
      var link := ResolveUrl(src.base, a.attrs["href"]);
      var imagen := if i < |imagenes| then ResolveImage(src.base, ImageAttr(imagenes[i])) else None;
      var resumen := if "title" in a.attrs then Some(a.attrs["title"]) else None;
      Some(Noticia(a.text, link, Some(src.categoria), today, resumen, None, imagen, src.fuente))
  }

  /** The number of anchors the loop does not skip. */
  function CountKept(articulos: seq<Anchor>): nat {
    if articulos == [] then 0
    else CountKept(articulos[..|articulos| - 1]) + (if Kept(articulos[|articulos| - 1]) then 1 else 0)
  }

  /** The items of the kept anchors, in document order: what the loop hands
      to `guardar_noticia`, one call per item. */
  function Extract(src: LegacySource, articulos: seq<Anchor>, imagenes: seq<map<string, string>>, today: int): (r: seq<Noticia>)
    ensures |r| == CountKept(articulos) <= |articulos|
    ensures forall j :: 0 <= j < |r| ==> r[j].fuente == src.fuente && r[j].fecha == today
    decreases |articulos|
  {
    if articulos == [] then []
    else
      var n := |articulos| - 1;
      var prefix := Extract(src, articulos[..n], imagenes, today);
      var item := Normalize(src, articulos[n], n, imagenes, today);
      if item.Some? then prefix + [item.value] else prefix
  }

  /** The items of the first `i + 1` anchors: those of the first `i`, then
      the item of anchor `i` if it is kept. */
  lemma ExtractStep(src: LegacySource, articulos: seq<Anchor>, imagenes: seq<map<string, string>>, today: int, i: nat)
    requires i < |articulos|
    ensures var item := Normalize(src, articulos[i], i, imagenes, today);
            Extract(src, articulos[..i + 1], imagenes, today)
              == Extract(src, articulos[..i], imagenes, today) + (if item.Some? then [item.value] else [])
  {
    assert articulos[..i + 1][..i] == articulos[..i];
  }

  /** Every item handed on comes from a kept anchor of the page, normalised
      with that anchor's own index. */
  lemma {:induction false} ExtractSound(src: LegacySource, articulos: seq<Anchor>, imagenes: seq<map<string, string>>, today: int, x: Noticia)
    requires x in Extract(src, articulos, imagenes, today)
    ensures exists i :: 0 <= i < |articulos| && Normalize(src, articulos[i], i, imagenes, today) == Some(x)
    decreases |articulos|
  {
    var n := |articulos| - 1;
    var prefix := Extract(src, articulos[..n], imagenes, today);
    if x in prefix {
      ExtractSound(src, articulos[..n], imagenes, today, x);
      var i :| 0 <= i < n && Normalize(src, articulos[..n][i], i, imagenes, today) == Some(x);
      assert articulos[..n][i] == articulos[i];
    } else {
      assert Normalize(src, articulos[n], n, imagenes, today) == Some(x);
    }
  }

  /** Every kept anchor of the page is handed on. */
  lemma {:induction false} ExtractComplete(src: LegacySource, articulos: seq<Anchor>, imagenes: seq<map<string, string>>, today: int, i: nat)
    requires i < |articulos| && Kept(articulos[i])
    ensures Normalize(src, articulos[i], i, imagenes, today).value in Extract(src, articulos, imagenes, today)
    decreases |articulos|
  {
    var n := |articulos| - 1;
    if i < n {
      ExtractComplete(src, articulos[..n], imagenes, today, i);
      assert articulos[..n][i] == articulos[i];
    }
  }

  /** The items of a prefix of the page come first, in the same order:
      articles are handled in document order. */
  lemma {:induction false} ExtractPrefix(src: LegacySource, articulos: seq<Anchor>, imagenes: seq<map<string, string>>, today: int, k: nat)
    requires k <= |articulos|
    ensures Extract(src, articulos[..k], imagenes, today) <= Extract(src, articulos, imagenes, today)
    decreases |articulos| - k
  {
    if k < |articulos| {
      var n := |articulos| - 1;
      ExtractPrefix(src, articulos[..n], imagenes, today, k);
      assert articulos[..n][..k] == articulos[..k];
    } else {
      assert articulos[..k] == articulos;
    }
  }

  /** A worked example: a relative `href` on a site with an
      absolute base becomes the base followed by the path. */
  lemma RelativeLinkExample(src: LegacySource, a: Anchor)
    requires src.base == "https://n.pe" && a.text == "Sismo en Ica" && a.attrs == map["href" := "/nota/1"]
    ensures Normalize(src, a, 0, [], 0).Some?
    ensures Normalize(src, a, 0, [], 0).value.link == "https://n.pe/nota/1"
    ensures Normalize(src, a, 0, [], 0).value.imagen.None?
  {
    assert "/nota/1"[0] != "http"[0];
  }

  /** The body of both scrapers' per-article loop up to the save: skip an
      incomplete anchor, complete the link and the image with the site's
      base, take the summary from the `title` attribute. */
  method NormalizeArticulo(src: LegacySource, articulo: Anchor, i: nat, imagenes: seq<map<string, string>>, today: int)
    returns (item: Option<Noticia>)
    ensures item == Normalize(src, articulo, i, imagenes, today)
  {
    var titulo := articulo.text;
    if titulo == "" || "href" !in articulo.attrs || articulo.attrs["href"] == "" {
      return None;
    }
    var link := articulo.attrs["href"];
    if !StartsWith(link, "http") {
      link := src.base + link;
    }
    var imagen: Option<string> := None;
    if i < |imagenes| {
      var tag := imagenes[i];
      if "src" in tag {
        imagen := Some(tag["src"]);
      } else if "data-src" in tag {
        imagen := Some(tag["data-src"]);
      }
      if imagen.Some? && imagen.value != "" && !StartsWith(imagen.value, "http") {
        imagen := Some(src.base + imagen.value);
      }
    }
    var resumen := if "title" in articulo.attrs then Some(articulo.attrs["title"]) else None;
    return Some(Noticia(titulo, link, Some(src.categoria), today, resumen, None, imagen, src.fuente));
  }
}
