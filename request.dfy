/** How the news page asks the server for news: the choice of endpoint,
    the query parameters built with `set` and `delete`, and the page and
    loading state around each request. */
module Request {
  import opened Text

  /** News per request. */
  const LIMIT: nat := 15

  const LISTAR := "/api/noticias?"
  const FILTRAR := "/api/noticias/filtrar?"
  const BUSCAR := "/api/noticias/buscar?"

  /** The filter object handed to `cargarNoticias`; an empty string stands
      for a field that is missing or empty, both falsy. */
  datatype Filtros = Filtros(fuente: string, categoria: string, fecha: string, tipo: string, q: string,
                             fechaDesde: string, fechaHasta: string, ordenar: string)

  const SIN_FILTROS := Filtros("", "", "", "", "", "", "", "")

  /** The keys `cargarNoticias` puts in a query string. */
  datatype Clave = Page | Limit | Fuente | Categoria | Fecha | Tipo | FechaDesde | FechaHasta | Ordenar | Q

  /** A key as it appears in the query string. */
  function Nombre(k: Clave): (s: string)
  {
    match k
    case Page => "page"
    case Limit => "limit"
    case Fuente => "fuente"
    case Categoria => "categoria"
    case Fecha => "fecha"
    case Tipo => "tipo"
    case FechaDesde => "fecha_desde"
    case FechaHasta => "fecha_hasta"
    case Ordenar => "ordenar"
    case Q => "q"
  }

  /** The entries of a `URLSearchParams`, in order. */
  type Params = seq<(Clave, string)>

  /** `get`: the value of the first entry with the key. */
  function Get(p: Params, k: Clave): Option<string>
    decreases |p|
  {
    if p == [] then None
    else if p[0].0 == k then Some(p[0].1)
    else Get(p[1..], k)
  }

  /** `get` finds nothing exactly when no entry has the key, and what it
      finds is the value of an entry with the key. */
  lemma {:induction false} GetFinds(p: Params, k: Clave)
    ensures Get(p, k).None? <==> forall i :: 0 <= i < |p| ==> p[i].0 != k
    ensures Get(p, k).Some? ==> (k, Get(p, k).value) in p
    decreases |p|
  {
    if p != [] && p[0].0 != k {
      GetFinds(p[1..], k);
      assert forall i :: 1 <= i < |p| ==> p[i] == p[1..][i - 1];
    }
  }

  /** No key occurs twice. */
  predicate KeysDistinct(p: Params) {
    forall i, j :: 0 <= i < j < |p| ==> p[i].0 != p[j].0
  }

  /** `delete`: every entry with the key goes, the rest keep their order. */
  function Delete(p: Params, k: Clave): (r: Params)
    ensures Get(r, k).None?
    ensures forall k' :: k' != k ==> Get(r, k') == Get(p, k')
    decreases |p|
  {
    if p == [] then []
    else if p[0].0 == k then Delete(p[1..], k)
    else [p[0]] + Delete(p[1..], k)
  }

  /** `set`: the first entry with the key takes the value and the other
      entries with the key go; without one, the entry is appended. */
  function Set(p: Params, k: Clave, v: string): (r: Params)
    ensures Get(r, k) == Some(v)
    ensures forall k' :: k' != k ==> Get(r, k') == Get(p, k')
    decreases |p|
  {
    if p == [] then [(k, v)]
    else if p[0].0 == k then [(k, v)] + Delete(p[1..], k)
    else [p[0]] + Set(p[1..], k, v)
  }

  /** `delete` keeps only entries that were there, so keys stay distinct. */
  lemma {:induction false} DeleteKeepsDistinct(p: Params, k: Clave)
    ensures forall i :: 0 <= i < |Delete(p, k)| ==> Delete(p, k)[i] in p && Delete(p, k)[i].0 != k
    ensures KeysDistinct(p) ==> KeysDistinct(Delete(p, k))
    decreases |p|
  {
    if p != [] {
      DeleteKeepsDistinct(p[1..], k);
    }
  }

  /** `set` keeps keys distinct. */
  lemma {:induction false} SetKeepsDistinct(p: Params, k: Clave, v: string)
    ensures forall i :: 0 <= i < |Set(p, k, v)| ==> Set(p, k, v)[i] == (k, v) || Set(p, k, v)[i] in p
    ensures KeysDistinct(p) ==> KeysDistinct(Set(p, k, v))
    decreases |p|
  {
    if p != [] {
      if p[0].0 == k {
        DeleteKeepsDistinct(p[1..], k);
      } else {
        SetKeepsDistinct(p[1..], k, v);
      }
    }
  }

  /** Setting a key that is absent appends it. */
  lemma {:induction false} SetAbsentAppends(p: Params, k: Clave, v: string)
    requires forall i :: 0 <= i < |p| ==> p[i].0 != k
    ensures Set(p, k, v) == p + [(k, v)]
    decreases |p|
  {
    if p != [] {
      SetAbsentAppends(p[1..], k, v);
      assert p == [p[0]] + p[1..];
    }
  }

  /** The first two entries keep their places when neither has the key. */
  lemma SetKeepsFront(p: Params, k: Clave, v: string)
    requires |p| >= 2 && p[0].0 != k && p[1].0 != k
    ensures var r := Set(p, k, v); |r| >= 2 && r[0] == p[0] && r[1] == p[1]
  {
    assert Set(p, k, v) == [p[0]] + Set(p[1..], k, v);
    assert Set(p[1..], k, v) == [p[1]] + Set(p[2..], k, v);
  }

  /** The first two entries keep their places when neither has the key. */
  lemma DeleteKeepsFront(p: Params, k: Clave)
    requires |p| >= 2 && p[0].0 != k && p[1].0 != k
    ensures var r := Delete(p, k); |r| >= 2 && r[0] == p[0] && r[1] == p[1]
  {
    assert Delete(p, k) == [p[0]] + Delete(p[1..], k);
    assert Delete(p[1..], k) == [p[1]] + Delete(p[2..], k);
  }

  /** A field's value as a parameter: set only when truthy. */
  function Truthy(s: string): Option<string> {
    if s != "" then Some(s) else None
  }

  /** `tieneFiltros`: some field other than `ordenar` is set. */
  predicate TieneFiltros(f: Filtros) {
    f.fuente != "" || f.categoria != "" || f.fecha != "" || f.tipo != "" || f.q != ""
    || f.fechaDesde != "" || f.fechaHasta != ""
  }

  /** The endpoint a request goes to: search when there is a query, the
      filtered list when any filter is set, the plain list otherwise. */
  function Endpoint(f: Filtros): (url: string)
    ensures f.q != "" ==> url == BUSCAR
    ensures f.q == "" && TieneFiltros(f) ==> url == FILTRAR
    ensures !TieneFiltros(f) ==> url == LISTAR
  {
    var url := if TieneFiltros(f) then FILTRAR else LISTAR;
    if f.q != "" then BUSCAR else url
  }

  /** A sort order on its own selects the plain list. */
  lemma OrdenarAloneIsPlainList(ordenar: string)
    ensures Endpoint(SIN_FILTROS.(ordenar := ordenar)) == LISTAR
  {
  }

  /** The facts about a parameter list that the request builder keeps:
      `page` and `limit` first and keys distinct. */
  predicate BienFormados(p: Params, page: nat) {
    && |p| >= 2 && p[0] == (Page, NatToString(page)) && p[1] == (Limit, NatToString(LIMIT))
    && KeysDistinct(p)
  }

  /** `if (value) params.set(key, value)`. */
  method SetSiHay(p: Params, k: Clave, v: string, ghost page: nat) returns (r: Params)
    requires BienFormados(p, page) && k != Page && k != Limit
    ensures BienFormados(r, page)
    ensures Get(r, k) == (if v != "" then Some(v) else Get(p, k))
    ensures forall k' :: k' != k ==> Get(r, k') == Get(p, k')
  {
    r := p;
    if v != "" {
      SetKeepsFront(p, k, v);
      SetKeepsDistinct(p, k, v);
      r := Set(p, k, v);
    }
  }

  /** `params.delete(key)`. */
  method Borrar(p: Params, k: Clave, ghost page: nat) returns (r: Params)
    requires BienFormados(p, page) && k != Page && k != Limit
    ensures BienFormados(r, page)
    ensures Get(r, k).None?
    ensures forall k' :: k' != k ==> Get(r, k') == Get(p, k')
  {
    DeleteKeepsFront(p, k);
    DeleteKeepsDistinct(p, k);
    r := Delete(p, k);
  }

  /** `page` then `limit`, on an empty list: the two entries in that order. */
  method PaginaYLimite(page: nat) returns (params: Params)
    ensures BienFormados(params, page) && |params| == 2
    ensures forall k :: k != Page && k != Limit ==> Get(params, k).None?
  {
    params := Set([], Page, NatToString(page));
    assert params == [(Page, NatToString(page))];
    SetAbsentAppends(params, Limit, NatToString(LIMIT));
    params := Set(params, Limit, NatToString(LIMIT));
  }

  /** The parameters `cargarNoticias` sets before looking at the query:
      `page`, `limit`, then every filter field that is set. */
  method ParametrosBase(f: Filtros, page: nat) returns (params: Params)
    ensures BienFormados(params, page)
    ensures Get(params, Q).None?
    ensures Get(params, Fuente) == Truthy(f.fuente) && Get(params, Categoria) == Truthy(f.categoria)
    ensures Get(params, Fecha) == Truthy(f.fecha) && Get(params, Tipo) == Truthy(f.tipo)
    ensures Get(params, FechaDesde) == Truthy(f.fechaDesde) && Get(params, FechaHasta) == Truthy(f.fechaHasta)
    ensures Get(params, Ordenar) == Truthy(f.ordenar)
  {
    var inicial := PaginaYLimite(page);
    var lista := FiltrosDeLista(inicial, f, page);
    params := FiltrosDeTipo(lista, f, page);
    assert Get(inicial, Fuente).None? && Get(inicial, Categoria).None? && Get(inicial, Fecha).None?;
    assert Get(inicial, Tipo).None? && Get(inicial, Ordenar).None? && Get(inicial, Q).None?;
    assert Get(inicial, FechaDesde).None? && Get(inicial, FechaHasta).None?;
  }

  /** Source, category and date, each set when given. */
  method FiltrosDeLista(p: Params, f: Filtros, ghost page: nat) returns (params: Params)
    requires BienFormados(p, page)
    ensures BienFormados(params, page)
    ensures Get(params, Fuente) == (if f.fuente != "" then Some(f.fuente) else Get(p, Fuente))
    ensures Get(params, Categoria) == (if f.categoria != "" then Some(f.categoria) else Get(p, Categoria))
    ensures Get(params, Fecha) == (if f.fecha != "" then Some(f.fecha) else Get(p, Fecha))
    ensures forall k :: k != Fuente && k != Categoria && k != Fecha ==> Get(params, k) == Get(p, k)
  {
    params := SetSiHay(p, Fuente, f.fuente, page);
    params := SetSiHay(params, Categoria, f.categoria, page);
    params := SetSiHay(params, Fecha, f.fecha, page);
  }

  /** News type, date range and sort order, each set when given. */
  method FiltrosDeTipo(p: Params, f: Filtros, ghost page: nat) returns (params: Params)
    requires BienFormados(p, page)
    ensures BienFormados(params, page)
    ensures Get(params, Tipo) == (if f.tipo != "" then Some(f.tipo) else Get(p, Tipo))
    ensures Get(params, FechaDesde) == (if f.fechaDesde != "" then Some(f.fechaDesde) else Get(p, FechaDesde))
    ensures Get(params, FechaHasta) == (if f.fechaHasta != "" then Some(f.fechaHasta) else Get(p, FechaHasta))
    ensures Get(params, Ordenar) == (if f.ordenar != "" then Some(f.ordenar) else Get(p, Ordenar))
    ensures forall k :: k != Tipo && k != FechaDesde && k != FechaHasta && k != Ordenar ==>
              Get(params, k) == Get(p, k)
  {
    params := SetSiHay(p, Tipo, f.tipo, page);
    params := SetSiHay(params, FechaDesde, f.fechaDesde, page);
    params := SetSiHay(params, FechaHasta, f.fechaHasta, page);
    params := SetSiHay(params, Ordenar, f.ordenar, page);
  }

  /** A query turns the request into a search: source, category and dates
      are deleted and `q` is set; the other entries stay. */
  method ParametrosBusqueda(p: Params, q: string, ghost page: nat) returns (params: Params)
    requires BienFormados(p, page) && q != ""
    ensures BienFormados(params, page)
    ensures Get(params, Q) == Some(q)
    ensures Get(params, Fuente).None? && Get(params, Categoria).None? && Get(params, Fecha).None?
    ensures Get(params, FechaDesde).None? && Get(params, FechaHasta).None?
    ensures Get(params, Tipo) == Get(p, Tipo) && Get(params, Ordenar) == Get(p, Ordenar)
  {
    params := Borrar(p, Fuente, page);
    params := Borrar(params, Categoria, page);
    params := Borrar(params, Fecha, page);
    params := Borrar(params, FechaDesde, page);
    params := Borrar(params, FechaHasta, page);
    params := SetSiHay(params, Q, q, page);
  }

  /** A request: endpoint and parameters. */
  datatype Peticion = Peticion(url: string, params: Params)

  /** The request `cargarNoticias` sends. `page` and `limit` come first and
      are always there and no key is repeated;
      `tipo` and `ordenar` go through when set; with a query the search
      drops source, category and dates and adds `q`, without one those
      filters go through when set. */
  method ConstruirPeticion(f: Filtros, page: nat) returns (req: Peticion)
    ensures req.url == Endpoint(f)
    ensures BienFormados(req.params, page)
    ensures Get(req.params, Tipo) == Truthy(f.tipo) && Get(req.params, Ordenar) == Truthy(f.ordenar)
    ensures f.q != "" ==> Get(req.params, Q) == Some(f.q)
                          && Get(req.params, Fuente).None? && Get(req.params, Categoria).None?
                          && Get(req.params, Fecha).None?
                          && Get(req.params, FechaDesde).None? && Get(req.params, FechaHasta).None?
    ensures f.q == "" ==> Get(req.params, Q).None?
                          && Get(req.params, Fuente) == Truthy(f.fuente)
                          && Get(req.params, Categoria) == Truthy(f.categoria)
                          && Get(req.params, Fecha) == Truthy(f.fecha)
                          && Get(req.params, FechaDesde) == Truthy(f.fechaDesde)
                          && Get(req.params, FechaHasta) == Truthy(f.fechaHasta)
  {
    var url := if TieneFiltros(f) then FILTRAR else LISTAR;
    var params := ParametrosBase(f, page);
    if f.q != "" {
      url := BUSCAR;
      params := ParametrosBusqueda(params, f.q, page);
    }
    req := Peticion(url, params);
  }
}
