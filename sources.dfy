/** The source registry and the classifier: the department table, the
    department detector, the three-way category decision and the source
    filters over the configured list of news sites. */
module Sources {
  import opened Text

  /** The department table, in its declared (and searched) order: each key
      with its name variants. It has 25 keys, Callao included. */
  const DEPARTAMENTOS_MAP: seq<(string, seq<string>)> := [
    ("amazonas", ["amazonas", "amazonas"]),
    ("ancash", ["ancash", "ancash"]),
    ("apurimac", ["apurimac", "apurimac"]),
    ("arequipa", ["arequipa", "arequipa"]),
    ("ayacucho", ["ayacucho", "ayacucho"]),
    ("cajamarca", ["cajamarca", "cajamarca"]),
    ("callao", ["callao", "callao"]),
    ("cusco", ["cusco", "cusco", "cuzco"]),
    ("huancavelica", ["huancavelica", "huancavelica"]),
    ("huanuco", ["huanuco", "huanuco", "huánuco"]),
    ("ica", ["ica", "ica"]),
    ("junin", ["junin", "junin", "junjín"]),
    ("la-libertad", ["la-libertad", "la libertad", "libertad"]),
    ("lambayeque", ["lambayeque", "lambayeque"]),
    ("lima", ["lima", "lima"]),
    ("loreto", ["loreto", "loreto"]),
    ("madre-de-dios", ["madre-de-dios", "madre de dios"]),
    ("moquegua", ["moquegua", "moquegua"]),
    ("pasco", ["pasco", "pasco"]),
    ("piura", ["piura", "piura"]),
    ("puno", ["puno", "puno"]),
    ("san-martin", ["san-martin", "san martín", "san martin"]),
    ("tacna", ["tacna", "tacna"]),
    ("tumbes", ["tumbes", "tumbes"]),
    ("ucayali", ["ucayali", "ucayali", "ucayali"])
  ]

  /** Some variant of the list occurs in the text. */
  predicate Mentions(variants: seq<string>, text: string) {
    exists i :: 0 <= i < |variants| && Contains(text, variants[i])
  }

  /** The inner loop over one department's variants: stops at the first
      variant found in the text. */
  function AnyVariant(variants: seq<string>, text: string): (found: bool)
    ensures found <==> Mentions(variants, text)
  {
    if variants == [] then false
    else if Contains(text, variants[0]) then true
    else
      var rest := AnyVariant(variants[1..], text);
      assert forall i :: 1 <= i < |variants| ==> variants[i] == variants[1..][i - 1];
      rest
  }

  /** The outer loop over the table: the first department (in table order)
      one of whose variants is a substring of the text. */
  function DetectIn(table: seq<(string, seq<string>)>, text: string): (r: Option<string>)
    ensures r.Some? ==> exists k :: 0 <= k < |table| && table[k].0 == r.value
                                    && Mentions(table[k].1, text)
                                    && forall j :: 0 <= j < k ==> !Mentions(table[j].1, text)
    ensures r.None? <==> forall k :: 0 <= k < |table| ==> !Mentions(table[k].1, text)
  {
    if table == [] then None
    else if AnyVariant(table[0].1, text) then Some(table[0].0)
    else
      var r := DetectIn(table[1..], text);
      assert forall k :: 1 <= k < |table| ==> table[k] == table[1..][k - 1];
      if r.Some? then
        var k :| 0 <= k < |table[1..]| && table[1..][k].0 == r.value
                 && Mentions(table[1..][k].1, text)
                 && forall j :: 0 <= j < k ==> !Mentions(table[1..][j].1, text);
        assert table[k + 1].0 == r.value && Mentions(table[k + 1].1, text);
        r
      else
        r
  }

  /** `detectar_departamento_en_texto`: no department for a missing or empty
      text; otherwise the first department of the table mentioned in the
      lower-cased text. */
  function DetectarDepartamento(texto: Option<string>): (r: Option<string>)
    ensures texto.None? || texto.value == "" ==> r.None?
    ensures r.Some? ==> exists k :: 0 <= k < |DEPARTAMENTOS_MAP| && DEPARTAMENTOS_MAP[k].0 == r.value
                                    && Mentions(DEPARTAMENTOS_MAP[k].1, Lower(texto.value))
                                    && forall j :: 0 <= j < k ==> !Mentions(DEPARTAMENTOS_MAP[j].1, Lower(texto.value))
    ensures texto.Some? && texto.value != "" ==>
              (r.None? <==> forall k :: 0 <= k < |DEPARTAMENTOS_MAP| ==> !Mentions(DEPARTAMENTOS_MAP[k].1, Lower(texto.value)))
  {
    if texto.None? || texto.value == "" then None
    else DetectIn(DEPARTAMENTOS_MAP, Lower(texto.value))
  }

  /** The three categories of the classifier. */
  const NACIONAL := "nacional"
  const INTERNACIONAL := "internacional"
  const REGIONAL := "regional"

  datatype Clasificacion = Clasificacion(categoria: string, departamento: Option<string>)

  /** The text the classifier searches: title and summary, joined by a
      space and lower-cased. */
  function TextoCompleto(titulo: Option<string>, resumen: Option<string>): string {
    Lower(OrEmpty(titulo) + " " + OrEmpty(resumen))
  }

  /** Some department of the table is mentioned in the text. */
  predicate MentionsAnyDepartment(text: string) {
    exists k :: 0 <= k < |DEPARTAMENTOS_MAP| && Mentions(DEPARTAMENTOS_MAP[k].1, text)
  }

  /** `clasificar_noticia`: the source's hint "regional" wins outright (and
      always means Puno); otherwise a department mentioned in the title or
      summary makes the item national news of that department; otherwise
      the hint "nacional" keeps it national; anything else is international.
      Hints are compared exactly, so "Nacional" is not "nacional". */
  function ClasificarNoticia(titulo: Option<string>, resumen: Option<string>, categoriaFuente: string): (r: Clasificacion)
    ensures r.categoria == REGIONAL <==> categoriaFuente == REGIONAL
    ensures categoriaFuente == REGIONAL ==> r.departamento == Some("puno")
    ensures r.categoria == INTERNACIONAL <==>
              categoriaFuente != REGIONAL && categoriaFuente != NACIONAL && !MentionsAnyDepartment(TextoCompleto(titulo, resumen))
    ensures r.categoria == NACIONAL <==>
              categoriaFuente != REGIONAL && (categoriaFuente == NACIONAL || MentionsAnyDepartment(TextoCompleto(titulo, resumen)))
    ensures categoriaFuente != REGIONAL && r.departamento.Some? ==>
              exists k :: 0 <= k < |DEPARTAMENTOS_MAP| && DEPARTAMENTOS_MAP[k].0 == r.departamento.value
                          && Mentions(DEPARTAMENTOS_MAP[k].1, TextoCompleto(titulo, resumen))
                          && forall j :: 0 <= j < k ==> !Mentions(DEPARTAMENTOS_MAP[j].1, TextoCompleto(titulo, resumen))
    ensures categoriaFuente != REGIONAL ==> (r.departamento.None? <==> !MentionsAnyDepartment(TextoCompleto(titulo, resumen)))
  {
    var texto := TextoCompleto(titulo, resumen);
    LowerIdempotent(OrEmpty(titulo) + " " + OrEmpty(resumen));
    var departamento := DetectarDepartamento(Some(texto));
    if categoriaFuente == REGIONAL then Clasificacion(REGIONAL, Some("puno"))
    else if departamento.Some? then Clasificacion(NACIONAL, departamento)
    else if categoriaFuente == NACIONAL then Clasificacion(NACIONAL, None)
    else Clasificacion(INTERNACIONAL, None)
  }

  /** One configured news site. The per-field selector strings of the
      table are not read by any modelled code and are not kept. */
  datatype SourceConfig = SourceConfig(url: string, fuente: string, base: string,
                                       categoria: string, departamento: Option<string>)

  /** `FUENTES`: five national sites, five Puno sites, then two sites per
      department page for Lima, Arequipa, Cusco, La Libertad and Piura. No
      entry carries a `departamento`. */
  const FUENTES: seq<SourceConfig> := [
    SourceConfig("https://rpp.pe/peru", "RPP Noticias", "https://rpp.pe", "nacional", None),
    SourceConfig("https://larepublica.pe", "La República", "https://larepublica.pe", "nacional", None),
    SourceConfig("https://diariocorreo.pe", "Diario Correo", "https://diariocorreo.pe", "nacional", None),
    SourceConfig("https://elcomercio.pe", "El Comercio", "https://elcomercio.pe", "nacional", None),
    SourceConfig("https://peru21.pe", "Perú21", "https://peru21.pe", "nacional", None),
    SourceConfig("https://rpp.pe/peru/puno", "RPP Noticias", "https://rpp.pe", "regional", None),
    SourceConfig("https://larepublica.pe/tag/puno", "La República", "https://larepublica.pe", "regional", None),
    SourceConfig("https://diariocorreo.pe/edicion/puno", "Diario Correo", "https://diariocorreo.pe", "regional", None),
    SourceConfig("https://pachamamaradio.org", "Pachamama Radio", "https://pachamamaradio.org", "regional", None),
    SourceConfig("https://diariosinfronteras.com.pe", "Diario Sin Fronteras", "https://diariosinfronteras.com.pe", "regional", None),
    SourceConfig("https://rpp.pe/peru/lima", "RPP Noticias", "https://rpp.pe", "nacional", None),
    SourceConfig("https://larepublica.pe/tag/lima", "La República", "https://larepublica.pe", "nacional", None),
    SourceConfig("https://rpp.pe/peru/arequipa", "RPP Noticias", "https://rpp.pe", "nacional", None),
    SourceConfig("https://larepublica.pe/tag/arequipa", "La República", "https://larepublica.pe", "nacional", None),
    SourceConfig("https://rpp.pe/peru/cusco", "RPP Noticias", "https://rpp.pe", "nacional", None),
    SourceConfig("https://larepublica.pe/tag/cusco", "La República", "https://larepublica.pe", "nacional", None),
    SourceConfig("https://rpp.pe/peru/la-libertad", "RPP Noticias", "https://rpp.pe", "nacional", None),
    SourceConfig("https://larepublica.pe/tag/la-libertad", "La República", "https://larepublica.pe", "nacional", None),
    SourceConfig("https://rpp.pe/peru/piura", "RPP Noticias", "https://rpp.pe", "nacional", None),
    SourceConfig("https://larepublica.pe/tag/piura", "La República", "https://larepublica.pe", "nacional", None)
  ]

  /** The two keys the source filters look up with `fuente.get(...)`. */
  datatype Field = Categoria | Departamento

  /** `fuente.get(field)`: the category is always present, the department
      only when configured. */
  function Get(f: SourceConfig, field: Field): Option<string> {
    match field
    case Categoria => Some(f.categoria)
    case Departamento => f.departamento
  }

  /** The list comprehension `[f for f in s if f.get(field) == value]`. */
  function Where(s: seq<SourceConfig>, field: Field, value: string): (r: seq<SourceConfig>)
    ensures |r| <= |s|
    ensures forall x :: x in r <==> x in s && Get(x, field) == Some(value)
  {
    if s == [] then []
    else
      var rest := Where(s[1..], field, value);
      assert forall x :: x in s <==> x == s[0] || x in s[1..];
      if Get(s[0], field) == Some(value) then [s[0]] + rest else rest
  }

  /** The comprehension keeps the order of its input: filtering a
      concatenation is concatenating the filtered parts. */
  lemma {:induction false} WhereAppend(s1: seq<SourceConfig>, s2: seq<SourceConfig>, field: Field, value: string)
    ensures Where(s1 + s2, field, value) == Where(s1, field, value) + Where(s2, field, value)
  {
    if s1 == [] {
      assert s1 + s2 == s2;
    } else {
      assert (s1 + s2)[0] == s1[0];
      assert (s1 + s2)[1..] == s1[1..] + s2;
      WhereAppend(s1[1..], s2, field, value);
    }
  }

  /** `obtener_fuentes_por_categoria`: every source for a missing or empty
      category, otherwise the sources whose category equals it, in order. */
  function FuentesPorCategoria(categoria: Option<string>): (r: seq<SourceConfig>)
    ensures categoria.None? || categoria.value == "" ==> r == FUENTES
    ensures categoria.Some? && categoria.value != "" ==>
              forall x :: x in r <==> x in FUENTES && x.categoria == categoria.value
  {
    if categoria.None? || categoria.value == "" then FUENTES
    else Where(FUENTES, Categoria, categoria.value)
  }

  /** `obtener_fuentes_por_departamento`: every source for a missing or empty
      department, otherwise the sources whose department equals it. */
  function FuentesPorDepartamento(departamento: Option<string>): (r: seq<SourceConfig>)
    ensures departamento.None? || departamento.value == "" ==> r == FUENTES
    ensures departamento.Some? && departamento.value != "" ==>
              forall x :: x in r <==> x in FUENTES && x.departamento == departamento
  {
    if departamento.None? || departamento.value == "" then FUENTES
    else Where(FUENTES, Departamento, departamento.value)
  }

  /** No source of the list names a department. */
  predicate NoDepartments(s: seq<SourceConfig>) {
    forall i :: 0 <= i < |s| ==> s[i].departamento.None?
  }

  /** Filtering by department a list in which no source names one leaves
      nothing. */
  lemma {:induction false} WhereNoDepartment(s: seq<SourceConfig>, d: string)
    requires NoDepartments(s)
    ensures Where(s, Departamento, d) == []
  {
    if s != [] {
      WhereNoDepartment(s[1..], d);
    }
  }

  /** Since no configured source names a department, asking for any
      department yields no sources at all. */
  lemma FuentesPorDepartamentoAlwaysEmpty(d: string)
    requires d != ""
    ensures FuentesPorDepartamento(Some(d)) == []
  {
    assert NoDepartments(FUENTES);
    WhereNoDepartment(FUENTES, d);
  }

  // Worked examples of the classifier on concrete text.

  /** The detector's answer is the first department of the table that the
      text mentions. */
  lemma FirstMentioned(text: string, k: nat)
    requires text != "" && Lower(text) == text
    requires k < |DEPARTAMENTOS_MAP| && Mentions(DEPARTAMENTOS_MAP[k].1, text)
    requires forall j :: 0 <= j < k ==> !Mentions(DEPARTAMENTOS_MAP[j].1, text)
    ensures DetectarDepartamento(Some(text)) == Some(DEPARTAMENTOS_MAP[k].0)
  {
    var r := DetectarDepartamento(Some(text));
    assert r.Some?;
    var k' :| 0 <= k' < |DEPARTAMENTOS_MAP| && DEPARTAMENTOS_MAP[k'].0 == r.value
              && Mentions(DEPARTAMENTOS_MAP[k'].1, text)
              && forall j :: 0 <= j < k' ==> !Mentions(DEPARTAMENTOS_MAP[j].1, text);
    assert k' == k;
  }

  lemma EconomicaMentionsNone1(t: string, j: nat)
    requires t == "económica" && j < 2
    ensures !Mentions(DEPARTAMENTOS_MAP[j].1, t)
  {
    if j == 0 { AbsentChar(t, "amazonas", 'z'); } else { AbsentChar(t, "ancash", 's'); }
  }

  lemma EconomicaMentionsNone2(t: string, j: nat)
    requires t == "económica" && 2 <= j < 4
    ensures !Mentions(DEPARTAMENTOS_MAP[j].1, t)
  {
    if j == 2 { AbsentChar(t, "apurimac", 'p'); } else { AbsentChar(t, "arequipa", 'p'); }
  }

  lemma EconomicaMentionsNone3(t: string, j: nat)
    requires t == "económica" && 4 <= j < 6
    ensures !Mentions(DEPARTAMENTOS_MAP[j].1, t)
  {
    if j == 4 { AbsentChar(t, "ayacucho", 'y'); } else { AbsentChar(t, "cajamarca", 'j'); }
  }

  lemma EconomicaMentionsNone4(t: string, j: nat)
    requires t == "económica" && 6 <= j < 8
    ensures !Mentions(DEPARTAMENTOS_MAP[j].1, t)
  {
    if j == 6 { AbsentChar(t, "callao", 'l'); } else { AbsentChar(t, "cusco", 's'); AbsentChar(t, "cuzco", 'z'); }
  }

  lemma EconomicaMentionsNone5(t: string, j: nat)
    requires t == "económica" && 8 <= j < 10
    ensures !Mentions(DEPARTAMENTOS_MAP[j].1, t)
  {
    if j == 8 { AbsentChar(t, "huancavelica", 'h'); } else { AbsentChar(t, "huanuco", 'h'); AbsentChar(t, "huánuco", 'h'); }
  }

  /** Matching is by substring, not by word: "económica" names no place,
      yet it contains "ica" and no earlier department, so it is tagged Ica. */
  lemma EconomicaIsIca(t: string)
    requires t == "económica"
    ensures DetectarDepartamento(Some(t)) == Some("ica")
  {
    EconomicaIsLower(t);
    EconomicaNoneBeforeIca(t);
    EconomicaMentionsIca(t);
    DetectsIca(t);
  }

  /** A lower-case text that mentions Ica and none of the ten departments
      before it in the table is tagged Ica. */
  lemma DetectsIca(t: string)
    requires t != "" && Lower(t) == t
    requires forall k :: 0 <= k < 10 ==> !Mentions(DEPARTAMENTOS_MAP[k].1, t)
    requires 10 < |DEPARTAMENTOS_MAP| && Mentions(DEPARTAMENTOS_MAP[10].1, t)
    ensures DetectarDepartamento(Some(t)) == Some("ica")
  {
    FirstMentioned(t, 10);
    assert DEPARTAMENTOS_MAP[10].0 == "ica";
  }

  lemma EconomicaIsLower(t: string)
    requires t == "económica"
    ensures Lower(t) == t
  {
  }

  lemma EconomicaNoneBeforeIca(t: string)
    requires t == "económica"
    ensures forall k :: 0 <= k < 10 ==> !Mentions(DEPARTAMENTOS_MAP[k].1, t)
  {
    forall k | 0 <= k < 10
      ensures !Mentions(DEPARTAMENTOS_MAP[k].1, t)
    {
      if k < 2 { EconomicaMentionsNone1(t, k); }
      else if k < 4 { EconomicaMentionsNone2(t, k); }
      else if k < 6 { EconomicaMentionsNone3(t, k); }
      else if k < 8 { EconomicaMentionsNone4(t, k); }
      else { EconomicaMentionsNone5(t, k); }
    }
  }

  lemma EconomicaMentionsIca(t: string)
    requires t == "económica"
    ensures 10 < |DEPARTAMENTOS_MAP| && Mentions(DEPARTAMENTOS_MAP[10].1, t)
  {
    assert DEPARTAMENTOS_MAP[10].1[0] == "ica";
    assert Contains(t, "ica") by {
      ContainsIff(t, "ica");
      assert OccursAt(t, "ica", 6);
    }
  }

  /** With no department in the text the hint decides alone, compared
      exactly: "nacional" keeps the item national, while "Nacional" with a
      capital letter, like any other hint but "regional", makes it
      international. */
  lemma HintIsCaseSensitive(titulo: Option<string>, resumen: Option<string>)
    requires !MentionsAnyDepartment(TextoCompleto(titulo, resumen))
    ensures ClasificarNoticia(titulo, resumen, "nacional") == Clasificacion(NACIONAL, None)
    ensures ClasificarNoticia(titulo, resumen, "Nacional") == Clasificacion(INTERNACIONAL, None)
  {
  }
}
