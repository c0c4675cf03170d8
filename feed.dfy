/** The news page's loading state: the page counter, the flag that says a
    request is in flight, the filters of the last request and whether the
    server said there is a next page. `cargarNoticias` sends nothing while
    a request is in flight; the infinite-scroll sentinel and the "Cargar
    más" button both move the counter one page on before calling it. */
module Feed {
  import opened Text
  import opened Request

  /** What the fetch chain hands back: news with a `has_next` flag, a
      message (no news), or a failure. */
  datatype Respuesta = Noticias(hasNext: bool) | Mensaje | Fallo

  /** The page's globals, plus the pages of the requests sent so far. */
  datatype Estado = Estado(page: nat, isLoading: bool, filtros: Filtros, hasNext: bool, paginas: seq<nat>)

  /** The state when the script starts. */
  const INICIAL := Estado(1, false, SIN_FILTROS, false, [])

  /** `cargarNoticias(filtros, append, resetPage)`: ignored while a request
      is in flight; otherwise the counter goes back to 1 on a reset and,
      when the news container is on the page, one request for the counter's
      page is sent with the given filters. */
  function Cargar(s: Estado, f: Filtros, resetPage: bool, contenedor: bool): (r: Estado)
    ensures s.isLoading ==> r == s
    ensures s.paginas <= r.paginas && |r.paginas| <= |s.paginas| + 1
    ensures |r.paginas| == |s.paginas| + 1 <==> !s.isLoading && contenedor
    ensures |r.paginas| == |s.paginas| + 1 ==> r.paginas[|s.paginas|] == r.page && r.isLoading && r.filtros == f
    ensures !s.isLoading ==> r.page == (if resetPage then 1 else s.page)
    ensures r.hasNext == s.hasNext
  {
    if s.isLoading then s
    else
      var p := if resetPage then 1 else s.page;
      if !contenedor then s.(page := p)
      else s.(page := p, isLoading := true, filtros := f, paginas := s.paginas + [p])
  }

  /** The end of the fetch chain: the flag drops whatever came back; only
      a list of news replaces `has_next`. */
  function Responder(s: Estado, resp: Respuesta): (r: Estado)
    ensures !r.isLoading
    ensures r.page == s.page && r.paginas == s.paginas && r.filtros == s.filtros
    ensures r.hasNext == (if resp.Noticias? then resp.hasNext else s.hasNext)
  {
    s.(isLoading := false, hasNext := if resp.Noticias? then resp.hasNext else s.hasNext)
  }

  /** The infinite-scroll observer: when the sentinel is visible, no request
      is in flight and there is a next page, the counter moves on and the
      current filters are loaded again. */
  function Scroll(s: Estado, visible: bool): (r: Estado)
    ensures !(visible && !s.isLoading && s.hasNext) ==> r == s
    ensures visible && !s.isLoading && s.hasNext ==> r.paginas == s.paginas + [s.page + 1]
  {
    if visible && !s.isLoading && s.hasNext then Cargar(s.(page := s.page + 1), s.filtros, false, true)
    else s
  }

  /** The "Cargar más" handler as written: the counter moves on before
      `cargarNoticias` is asked, even when that call will be ignored. */
  function CargarMasAsWritten(s: Estado): (r: Estado)
    ensures r.page == s.page + 1
    ensures s.isLoading ==> r.paginas == s.paginas
  {
    Cargar(s.(page := s.page + 1), s.filtros, false, true)
  }

  /** The "Cargar más" handler with the observer's guard: a click while a
      request is in flight changes nothing. */
  function CargarMas(s: Estado): (r: Estado)
    ensures s.isLoading ==> r == s
    ensures !s.isLoading ==> r.paginas == s.paginas + [s.page + 1]
  {
    if s.isLoading then s else CargarMasAsWritten(s)
  }

  /** `goToPage(newPage)`. */
  function IrAPagina(s: Estado, n: nat): (r: Estado)
    ensures !s.isLoading ==> r.paginas == s.paginas + [n]
  {
    Cargar(s.(page := n), s.filtros, false, true)
  }

  /** The counter names the page of the last request sent. */
  predicate Coherente(s: Estado) {
    s.paginas != [] && s.paginas[|s.paginas| - 1] == s.page
  }

  /** Every request asks for the page after the one before it. */
  predicate Consecutivas(ps: seq<nat>) {
    forall i :: 0 < i < |ps| ==> ps[i] == ps[i - 1] + 1
  }

  /** What can happen on the page while the reader scrolls. */
  datatype Evento = ClicCargarMas | Centinela(visible: bool) | Llega(resp: Respuesta)

  /** One event, with the "Cargar más" handler as written or corrected. */
  function Paso(s: Estado, e: Evento, corregido: bool): Estado {
    match e
    case ClicCargarMas => if corregido then CargarMas(s) else CargarMasAsWritten(s)
    case Centinela(v) => Scroll(s, v)
    case Llega(resp) => Responder(s, resp)
  }

  /** A run of events, in order. */
  function Sesion(s: Estado, es: seq<Evento>, corregido: bool): (r: Estado)
    ensures s.paginas <= r.paginas
    decreases |es|
  {
    if es == [] then s else Sesion(Paso(s, es[0], corregido), es[1..], corregido)
  }

  /** With the guard, one event keeps the counter on the last page asked
      for and asks, if at all, for the page after it. */
  lemma PasoCorregido(s: Estado, e: Evento)
    requires Coherente(s)
    ensures Coherente(Paso(s, e, true))
    ensures var ps := Paso(s, e, true).paginas;
            ps == s.paginas || ps == s.paginas + [s.paginas[|s.paginas| - 1] + 1]
  {
  }

  /** With the guard, however the reader clicks and scrolls and whenever
      the responses arrive, the pages asked for follow one another: no page
      is skipped. */
  lemma {:induction false} SesionSinSaltos(s: Estado, es: seq<Evento>)
    requires Coherente(s) && Consecutivas(s.paginas)
    ensures Coherente(Sesion(s, es, true)) && Consecutivas(Sesion(s, es, true).paginas)
    decreases |es|
  {
    if es != [] {
      var t := Paso(s, es[0], true);
      PasoCorregido(s, es[0]);
      assert Consecutivas(t.paginas);
      SesionSinSaltos(t, es[1..]);
    }
  }

  /** As written, a click while a request is in flight leaves the counter
      ahead of the last page asked for. */
  lemma ClicEnVueloDesfasa(s: Estado)
    requires Coherente(s) && s.isLoading
    ensures !Coherente(CargarMasAsWritten(s))
  {
  }

  /** As written, two clicks before the first response arrives and one more
      after it ask for pages 1, 2 and 4: page 3 is never loaded. */
  lemma DobleClicSaltaPagina()
    ensures var s := Estado(1, false, SIN_FILTROS, true, [1]);
            var es := [ClicCargarMas, ClicCargarMas, Llega(Noticias(true)), ClicCargarMas];
            Sesion(s, es, false).paginas == [1, 2, 4] && !Consecutivas(Sesion(s, es, false).paginas)
  {
    var s := Estado(1, false, SIN_FILTROS, true, [1]);
    var es := [ClicCargarMas, ClicCargarMas, Llega(Noticias(true)), ClicCargarMas];
    var s1 := Paso(s, es[0], false);
    assert s1.paginas == [1, 2] && s1.page == 2 && s1.isLoading;
    var s2 := Paso(s1, es[1], false);
    assert s2.paginas == [1, 2] && s2.page == 3;
    var s3 := Paso(s2, es[2], false);
    assert s3.paginas == [1, 2] && s3.page == 3 && !s3.isLoading;
    var s4 := Paso(s3, es[3], false);
    assert s4.paginas == [1, 2, 4];
    assert es[1..][1..][1..][1..] == [];
    assert Sesion(s, es, false) == s4;
  }

  /** The corrected handler on the same clicks asks for pages 1, 2 and 3. */
  lemma DobleClicCorregido()
    ensures var s := Estado(1, false, SIN_FILTROS, true, [1]);
            var es := [ClicCargarMas, ClicCargarMas, Llega(Noticias(true)), ClicCargarMas];
            Sesion(s, es, true).paginas == [1, 2, 3]
  {
    var s := Estado(1, false, SIN_FILTROS, true, [1]);
    var es := [ClicCargarMas, ClicCargarMas, Llega(Noticias(true)), ClicCargarMas];
    var s1 := Paso(s, es[0], true);
    var s2 := Paso(s1, es[1], true);
    var s3 := Paso(s2, es[2], true);
    var s4 := Paso(s3, es[3], true);
    assert s4.paginas == [1, 2, 3];
    assert es[1..][1..][1..][1..] == [];
    assert Sesion(s, es, true) == s4;
  }

  /** Requests that each ask for their recorded page. */
  ghost predicate Registradas(enviadas: seq<Peticion>, paginas: seq<nat>) {
    |enviadas| == |paginas| &&
    forall i :: 0 <= i < |enviadas| ==> BienFormados(enviadas[i].params, paginas[i])
  }

  /** One more request for its page keeps the record. */
  lemma RegistrarOtra(enviadas: seq<Peticion>, paginas: seq<nat>, req: Peticion, p: nat)
    requires Registradas(enviadas, paginas) && BienFormados(req.params, p)
    ensures Registradas(enviadas + [req], paginas + [p])
  {
    var e, q := enviadas + [req], paginas + [p];
    forall i | 0 <= i < |e|
      ensures BienFormados(e[i].params, q[i])
    {
      if i < |enviadas| {
        assert e[i] == enviadas[i] && q[i] == paginas[i];
      }
    }
  }

  /** The news page: its globals and the requests it has sent. */
  class Portada {
    var page: nat
    var isLoading: bool
    var currentFilters: Filtros
    var hasNext: bool
    var enviadas: seq<Peticion>
    ghost var paginas: seq<nat>

    ghost function EstadoActual(): Estado
      reads this
    {
      Estado(page, isLoading, currentFilters, hasNext, paginas)
    }

    /** Each request sent is well formed and asks for the page recorded
        for it. */
    ghost predicate Valid()
      reads this
    {
      Registradas(enviadas, paginas)
    }

    constructor ()
      ensures Valid() && EstadoActual() == INICIAL && enviadas == []
    {
      page := 1;
      isLoading := false;
      currentFilters := SIN_FILTROS;
      hasNext := false;
      enviadas := [];
      paginas := [];
    }

    /** `cargarNoticias`: the new request, when one is sent, goes to the
        endpoint the filters select and carries the counter's page. */
    method CargarNoticias(filtros: Filtros, resetPage: bool, contenedor: bool)
      requires Valid()
      modifies this
      ensures Valid()
      ensures EstadoActual() == Cargar(old(EstadoActual()), filtros, resetPage, contenedor)
      ensures old(enviadas) <= enviadas
      ensures |enviadas| > |old(enviadas)| ==>
                var req := enviadas[|enviadas| - 1];
                req.url == Endpoint(filtros) && req.params[0] == (Page, NatToString(page))
    {
      if isLoading {
        return;
      }
      if resetPage {
        page := 1;
      }
      if !contenedor {
        return;
      }
      Enviar(filtros);
    }

    /** The part of `cargarNoticias` that sends: the flag goes up, the
        filters are kept and one request for the counter's page goes out. */
    method Enviar(filtros: Filtros)
      requires Valid()
      modifies this
      ensures Valid()
      ensures page == old(page) && hasNext == old(hasNext)
      ensures isLoading && currentFilters == filtros && paginas == old(paginas) + [page]
      ensures |enviadas| == |old(enviadas)| + 1 && enviadas[..|old(enviadas)|] == old(enviadas)
      ensures enviadas[|enviadas| - 1].url == Endpoint(filtros)
    {
      isLoading := true;
      currentFilters := filtros;
      var req := ConstruirPeticion(filtros, page);
      RegistrarOtra(enviadas, paginas, req, page);
      enviadas := enviadas + [req];
      paginas := paginas + [page];
    }

    /** The end of the fetch chain. */
    method OnResponse(resp: Respuesta)
      requires Valid()
      modifies this
      ensures Valid() && enviadas == old(enviadas)
      ensures EstadoActual() == Responder(old(EstadoActual()), resp)
    {
      isLoading := false;
      if resp.Noticias? {
        hasNext := resp.hasNext;
      }
    }

    /** The infinite-scroll observer. */
    method OnSentinel(visible: bool)
      requires Valid()
      modifies this
      ensures Valid()
      ensures EstadoActual() == Scroll(old(EstadoActual()), visible)
    {
      if visible && !isLoading && hasNext {
        page := page + 1;
        CargarNoticias(currentFilters, false, true);
      }
    }

    /** The "Cargar más" button, with the observer's guard. */
    method OnCargarMas()
      requires Valid()
      modifies this
      ensures Valid()
      ensures EstadoActual() == CargarMas(old(EstadoActual()))
    {
      if !isLoading {
        page := page + 1;
        CargarNoticias(currentFilters, false, true);
      }
    }

    /** `goToPage`. */
    method GoToPage(n: nat)
      requires Valid()
      modifies this
      ensures Valid()
      ensures EstadoActual() == IrAPagina(old(EstadoActual()), n)
    {
      page := n;
      CargarNoticias(currentFilters, false, true);
    }
  }
}
