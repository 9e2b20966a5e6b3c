/**
 * The read-only result handlers: the general classification of a category
 * (the controller's and the two route copies share one body), the per-stage
 * statistics (three copies, one body), the public summary and results
 * check, and the `/lista` pagination arithmetic.
 */
module Resultados {
  import opened Base
  import opened Js
  import opened Sorting
  import opened Stats

  // ---------------------------------------------------------------- classification

  /** One row of the classification query: whose time it is and its `tiempo_final` (None is null). */
  datatype Marca = Marca(participanteId: int, tiempoFinal: Option<int>)

  /** One value of `participantesMap`. */
  datatype Entrada = Entrada(participanteId: int, tiempoTotal: int, etapasCompletadas: nat)

  /** One line of the answer: the entry and its place. */
  datatype Fila = Fila(participanteId: int, tiempoTotal: int, etapasCompletadas: nat, posicion: nat)

  /** The participant's total: `+=` of every `tiempo_final`, where a null adds 0. */
  function Total(ms: seq<Marca>, p: int): int
  {
    if ms == [] then 0
    else
      var m := ms[|ms| - 1];
      Total(ms[..|ms| - 1], p) + (if m.participanteId == p then Or0(m.tiempoFinal) else 0)
  }

  /** The participant's number of rows. */
  function Cuenta(ms: seq<Marca>, p: int): nat
  {
    if ms == [] then 0
    else Cuenta(ms[..|ms| - 1], p) + (if ms[|ms| - 1].participanteId == p then 1 else 0)
  }

  /** The sum of every row's `tiempo_final`, nulls as 0. */
  function SumaMarcas(ms: seq<Marca>): int
  {
    if ms == [] then 0 else SumaMarcas(ms[..|ms| - 1]) + Or0(ms[|ms| - 1].tiempoFinal)
  }

  /** The participants in the order they are first seen. */
  function Vistos(ms: seq<Marca>): seq<int>
  {
    if ms == [] then []
    else
      var v := Vistos(ms[..|ms| - 1]);
      var p := ms[|ms| - 1].participanteId;
      if p in v then v else v + [p]
  }

  /** One of the rows is the participant's. */
  predicate Tiene(ms: seq<Marca>, p: int)
  {
    exists k :: 0 <= k < |ms| && ms[k].participanteId == p
  }

  /** One of the lines is the participant's. */
  predicate Aparece(r: seq<Fila>, p: int)
  {
    exists i :: 0 <= i < |r| && r[i].participanteId == p
  }

  /** The participant's entry once every row is counted. */
  function EntradaDe(ms: seq<Marca>, p: int): Entrada
  {
    Entrada(p, Total(ms, p), Cuenta(ms, p))
  }

  /** What `participantesMap` holds once the rows are counted. */
  function Entradas(ms: seq<Marca>): map<int, Entrada>
  {
    map p | p in Vistos(ms) :: EntradaDe(ms, p)
  }

  /** The entries of the participants `v`, in that order. */
  function Canon(v: seq<int>, ms: seq<Marca>): (s: seq<Entrada>)
    ensures |s| == |v| && forall k :: 0 <= k < |v| ==> s[k] == EntradaDe(ms, v[k])
  {
    seq(|v|, k requires 0 <= k < |v| => EntradaDe(ms, v[k]))
  }

  function PorId(e: Entrada): SortKey { NumKey(e.participanteId) }

  function PorTotal(e: Entrada): SortKey { NumKey(e.tiempoTotal) }

  /** `.map((item, index) => ({ ...item, posicion: index + 1 }))`. */
  function Numerar(s: seq<Entrada>): (r: seq<Fila>)
    ensures |r| == |s|
    ensures forall i :: 0 <= i < |s| ==>
      r[i] == Fila(s[i].participanteId, s[i].tiempoTotal, s[i].etapasCompletadas, i + 1)
  {
    seq(|s|, i requires 0 <= i < |s| => Fila(s[i].participanteId, s[i].tiempoTotal, s[i].etapasCompletadas, i + 1))
  }

  /**
   * The answer: `Object.values` of the map (integer keys come out in
   * ascending order), stably sorted by total time, numbered from 1.
   */
  function Clasificacion(ms: seq<Marca>): seq<Fila>
  {
    Numerar(SortBy(SortBy(Canon(Vistos(ms), ms), PorId, false), PorTotal, false))
  }

  /**
   * `getClasificacionGeneral`: the `forEach` that builds `participantesMap`,
   * then the sort and the numbering.
   */
  method ClasificacionGeneral(ms: seq<Marca>) returns (r: seq<Fila>)
    ensures r == Clasificacion(ms)
  {
    var mapa: map<int, Entrada> := map[];
    var claves: seq<int> := [];
    var i := 0;
    while i < |ms|
      invariant 0 <= i <= |ms|
      invariant claves == Vistos(ms[..i]) && mapa == Entradas(ms[..i])
    {
      var p := ms[i].participanteId;
      PasoEntradas(ms, i);
      var e := if p in mapa then mapa[p] else Entrada(p, 0, 0);
      if p !in mapa {
        claves := claves + [p];
      }
      mapa := mapa[p := e.(tiempoTotal := e.tiempoTotal + Or0(ms[i].tiempoFinal), etapasCompletadas := e.etapasCompletadas + 1)];
      i := i + 1;
    }
    assert ms[..|ms|] == ms;
    var valores := seq(|claves|, k requires 0 <= k < |claves| => mapa[claves[k]]);
    assert valores == Canon(Vistos(ms), ms);
    r := Numerar(SortBy(SortBy(valores, PorId, false), PorTotal, false));
  }

  /** One `forEach` step: create the entry on first sight, then add the time and count the stage. */
  lemma PasoEntradas(ms: seq<Marca>, i: int)
    requires 0 <= i < |ms|
    ensures var p, a := ms[i].participanteId, ms[..i];
      var e := if p in Entradas(a) then Entradas(a)[p] else Entrada(p, 0, 0);
      Vistos(ms[..i + 1]) == (if p in Entradas(a) then Vistos(a) else Vistos(a) + [p])
      && Entradas(ms[..i + 1]) == Entradas(a)[p := e.(tiempoTotal := e.tiempoTotal + Or0(ms[i].tiempoFinal), etapasCompletadas := e.etapasCompletadas + 1)]
  {
    var p, a, b := ms[i].participanteId, ms[..i], ms[..i + 1];
    assert b[..|b| - 1] == a && b[|b| - 1] == ms[i];
    NoVisto(a, p);
  }

  /** A participant not yet seen has no time and no stage. */
  lemma {:induction false} NoVisto(ms: seq<Marca>, p: int)
    ensures p !in Vistos(ms) ==> Total(ms, p) == 0 && Cuenta(ms, p) == 0
    ensures p in Vistos(ms) ==> Cuenta(ms, p) > 0
  {
    if ms != [] {
      NoVisto(ms[..|ms| - 1], p);
    }
  }

  /** A participant is seen exactly when one of the rows is theirs, and is seen once. */
  lemma {:induction false} VistosSpec(ms: seq<Marca>)
    ensures forall p :: p in Vistos(ms) <==> Tiene(ms, p)
    ensures forall i, j :: 0 <= i < j < |Vistos(ms)| ==> Vistos(ms)[i] != Vistos(ms)[j]
  {
    if ms != [] {
      var a := ms[..|ms| - 1];
      VistosSpec(a);
      forall p | Tiene(ms, p)
        ensures p in Vistos(ms)
      {
        var k :| 0 <= k < |ms| && ms[k].participanteId == p;
        if k < |a| {
          assert a[k] == ms[k];
        }
      }
      forall p | p in Vistos(ms)
        ensures Tiene(ms, p)
      {
        if p in Vistos(a) {
          assert Tiene(a, p);
          var k :| 0 <= k < |a| && a[k].participanteId == p;
          assert ms[k] == a[k];
        } else {
          assert ms[|ms| - 1].participanteId == p;
        }
      }
    }
  }

  /** Every line of the answer is the entry of a participant seen in the rows. */
  lemma ClasificacionFilas(ms: seq<Marca>)
    ensures var r := Clasificacion(ms);
      |r| == |Vistos(ms)|
      && forall i :: 0 <= i < |r| ==>
        r[i].participanteId in Vistos(ms)
        && r[i].tiempoTotal == Total(ms, r[i].participanteId)
        && r[i].etapasCompletadas == Cuenta(ms, r[i].participanteId) > 0
  {
    var c := Canon(Vistos(ms), ms);
    var s := SortBy(SortBy(c, PorId, false), PorTotal, false);
    forall i | 0 <= i < |s|
      ensures s[i].participanteId in Vistos(ms) && s[i] == EntradaDe(ms, s[i].participanteId)
        && Cuenta(ms, s[i].participanteId) > 0
    {
      assert s[i] in multiset(s);
      assert s[i] in c;
      var k :| 0 <= k < |c| && c[k] == s[i];
      NoVisto(ms, Vistos(ms)[k]);
    }
  }

  /** Each participant with a row appears in the answer, and every line is such a participant's. */
  lemma ClasificacionCubre(ms: seq<Marca>)
    ensures forall p :: Tiene(ms, p) <==> Aparece(Clasificacion(ms), p)
  {
    var v := Vistos(ms);
    var c := Canon(v, ms);
    var s := SortBy(SortBy(c, PorId, false), PorTotal, false);
    var r := Clasificacion(ms);
    VistosSpec(ms);
    ClasificacionFilas(ms);
    forall p | Tiene(ms, p)
      ensures Aparece(r, p)
    {
      var k :| 0 <= k < |v| && v[k] == p;
      assert c[k] in multiset(s);
      var i :| 0 <= i < |s| && s[i] == c[k];
      assert r[i].participanteId == p;
    }
  }

  /** No participant has two lines. */
  lemma ClasificacionUnaVez(ms: seq<Marca>)
    ensures var r := Clasificacion(ms);
      forall i, j :: 0 <= i < j < |r| ==> r[i].participanteId != r[j].participanteId
  {
    var v := Vistos(ms);
    var c := Canon(v, ms);
    var s := SortBy(SortBy(c, PorId, false), PorTotal, false);
    var r := Clasificacion(ms);
    VistosSpec(ms);
    ClasificacionFilas(ms);
    forall i, j | 0 <= i < j < |r|
      ensures r[i].participanteId != r[j].participanteId
    {
      if r[i].participanteId == r[j].participanteId {
        assert s[i] == s[j];
        DosVeces(s, i, j);
        CanonUnaVez(v, ms, s[i]);
      }
    }
  }

  /** The answer is in non-decreasing total time and numbered 1..N. */
  lemma ClasificacionOrdenada(ms: seq<Marca>)
    ensures var r := Clasificacion(ms);
      (forall i :: 0 <= i < |r| ==> r[i].posicion == i + 1)
      && forall i, j :: 0 <= i < j < |r| ==> r[i].tiempoTotal <= r[j].tiempoTotal
  {
    var s := SortBy(SortBy(Canon(Vistos(ms), ms), PorId, false), PorTotal, false);
    SortBySorted(SortBy(Canon(Vistos(ms), ms), PorId, false), PorTotal, false);
    assert forall i, j :: 0 <= i < j < |s| ==> !Before(PorTotal(s[j]), PorTotal(s[i]), false);
  }

  /** The totals of the answer add up to the sum of every row's final time. */
  lemma ClasificacionSuma(ms: seq<Marca>)
    ensures SumaFilas(Clasificacion(ms)) == SumaMarcas(ms)
  {
    var v := Vistos(ms);
    var c := Canon(v, ms);
    var s := SortBy(SortBy(c, PorId, false), PorTotal, false);
    VistosSpec(ms);
    CanonSuma(v, ms);
    SumaPermutacion(c, s);
    NumerarSuma(s);
  }

  // ---------------------------------------------------------------- sums and multiplicities

  function SumaEntradas(s: seq<Entrada>): int
  {
    if s == [] then 0 else SumaEntradas(s[..|s| - 1]) + s[|s| - 1].tiempoTotal
  }

  function SumaFilas(r: seq<Fila>): int
  {
    if r == [] then 0 else SumaFilas(r[..|r| - 1]) + r[|r| - 1].tiempoTotal
  }

  function Ocurrencias(v: seq<int>, p: int): nat
  {
    if v == [] then 0 else Ocurrencias(v[..|v| - 1], p) + (if v[|v| - 1] == p then 1 else 0)
  }

  lemma {:induction false} NumerarSuma(s: seq<Entrada>)
    ensures SumaFilas(Numerar(s)) == SumaEntradas(s)
  {
    if s != [] {
      var a := s[..|s| - 1];
      NumerarSuma(a);
      assert Numerar(s)[..|s| - 1] == Numerar(a);
    }
  }

  lemma {:induction false} SumaConcat(a: seq<Entrada>, b: seq<Entrada>)
    ensures SumaEntradas(a + b) == SumaEntradas(a) + SumaEntradas(b)
  {
    if b == [] {
      assert a + b == a;
    } else {
      SumaConcat(a, b[..|b| - 1]);
      assert (a + b)[..|a + b| - 1] == a + b[..|b| - 1];
    }
  }

  /** Reordering entries keeps their sum. */
  lemma {:induction false} SumaPermutacion(a: seq<Entrada>, b: seq<Entrada>)
    requires multiset(a) == multiset(b)
    ensures SumaEntradas(a) == SumaEntradas(b)
    decreases |a|
  {
    if a != [] {
      var x := a[|a| - 1];
      assert x in multiset(b);
      var i :| 0 <= i < |b| && b[i] == x;
      var b' := b[..i] + b[i + 1..];
      assert b == b[..i] + [x] + b[i + 1..];
      assert a == a[..|a| - 1] + [x];
      assert multiset(b) == multiset(b') + multiset{x};
      assert multiset(a) == multiset(a[..|a| - 1]) + multiset{x};
      assert multiset(a[..|a| - 1]) == multiset(a) - multiset{x} == multiset(b) - multiset{x} == multiset(b');
      SumaPermutacion(a[..|a| - 1], b');
      SumaConcat(b[..i] + [x], b[i + 1..]);
      SumaConcat(b[..i], [x]);
      SumaConcat(b[..i], b[i + 1..]);
      assert SumaEntradas([x]) == x.tiempoTotal by {
        assert [x][..0] == [];
      }
    }
  }

  /** Adding one more row moves the sum over `v` by its time once per occurrence of its participant. */
  lemma {:induction false} CanonPaso(v: seq<int>, ms: seq<Marca>)
    requires ms != []
    ensures var m := ms[|ms| - 1];
      SumaEntradas(Canon(v, ms)) == SumaEntradas(Canon(v, ms[..|ms| - 1])) + Ocurrencias(v, m.participanteId) * Or0(m.tiempoFinal)
  {
    if v != [] {
      var w := v[..|v| - 1];
      CanonPaso(w, ms);
      assert Canon(v, ms)[..|v| - 1] == Canon(w, ms);
      assert Canon(v, ms[..|ms| - 1])[..|v| - 1] == Canon(w, ms[..|ms| - 1]);
    }
  }

  /** Over participants listed once each, the entries add up to the sum of all rows. */
  lemma {:induction false} CanonSuma(v: seq<int>, ms: seq<Marca>)
    requires forall i, j :: 0 <= i < j < |v| ==> v[i] != v[j]
    requires forall k :: 0 <= k < |ms| ==> ms[k].participanteId in v
    ensures SumaEntradas(Canon(v, ms)) == SumaMarcas(ms)
  {
    if ms == [] {
      CanonCero(v);
    } else {
      var a := ms[..|ms| - 1];
      assert forall k :: 0 <= k < |a| ==> a[k] == ms[k];
      CanonSuma(v, a);
      CanonPaso(v, ms);
      OcurrenciasUna(v, ms[|ms| - 1].participanteId);
    }
  }

  lemma {:induction false} CanonCero(v: seq<int>)
    ensures SumaEntradas(Canon(v, [])) == 0
  {
    if v != [] {
      CanonCero(v[..|v| - 1]);
      assert Canon(v, [])[..|v| - 1] == Canon(v[..|v| - 1], []);
    }
  }

  lemma {:induction false} OcurrenciasUna(v: seq<int>, p: int)
    requires forall i, j :: 0 <= i < j < |v| ==> v[i] != v[j]
    ensures p in v ==> Ocurrencias(v, p) == 1
    ensures p !in v ==> Ocurrencias(v, p) == 0
  {
    if v != [] {
      var w := v[..|v| - 1];
      OcurrenciasUna(w, p);
      assert v == w + [v[|v| - 1]];
    }
  }

  /** The entry of a participant occurs at most once among the entries of distinct participants. */
  lemma {:induction false} CanonUnaVez(v: seq<int>, ms: seq<Marca>, x: Entrada)
    requires forall i, j :: 0 <= i < j < |v| ==> v[i] != v[j]
    ensures multiset(Canon(v, ms))[x] <= 1
  {
    if v != [] {
      var w := v[..|v| - 1];
      CanonUnaVez(w, ms, x);
      assert Canon(v, ms) == Canon(w, ms) + [EntradaDe(ms, v[|v| - 1])];
      if x == EntradaDe(ms, v[|v| - 1]) {
        assert x !in Canon(w, ms);
      }
    }
  }

  lemma DosVeces(s: seq<Entrada>, i: int, j: int)
    requires 0 <= i < j < |s| && s[i] == s[j]
    ensures multiset(s)[s[i]] >= 2
  {
    assert s == s[..j] + [s[j]] + s[j + 1..];
    assert s[i] in s[..j];
  }

  // ---------------------------------------------------------------- statistics

  /** The statistics answer: all four are 0 for an empty stage. */
  datatype Estadistica = Estadistica(totalParticipantes: nat, promedio: int, mejor: int, peor: int)

  /** The numbers `Math.min`, `Math.max` and `+` see: a null final time counts as 0. */
  function Numeros(tfs: seq<Option<int>>): (xs: seq<int>)
    ensures |xs| == |tfs| && forall i :: 0 <= i < |tfs| ==> xs[i] == Or0(tfs[i])
  {
    seq(|tfs|, i requires 0 <= i < |tfs| => Or0(tfs[i]))
  }

  /** `getEstadisticasEtapa` over the stage's `tiempo_final` column. */
  function EstadisticasEtapa(tfs: seq<Option<int>>): (e: Estadistica)
    ensures tfs == [] ==> e == Estadistica(0, 0, 0, 0)
    ensures tfs != [] ==>
      (e.totalParticipantes == |tfs|
       && (forall i :: 0 <= i < |tfs| ==> e.mejor <= Or0(tfs[i]) <= e.peor)
       && (exists i :: 0 <= i < |tfs| && Or0(tfs[i]) == e.mejor)
       && (exists i :: 0 <= i < |tfs| && Or0(tfs[i]) == e.peor)
       && e.mejor <= e.promedio <= e.peor)
  {
    if tfs == [] then Estadistica(0, 0, 0, 0)
    else
      var xs := Numeros(tfs);
      MeanBetween(xs);
      Estadistica(|xs|, RoundDiv(Sum(xs), |xs|), MinOf(xs), MaxOf(xs))
  }

  /** A stage whose rows all have the same final time has that time as best, worst and mean. */
  lemma EstadisticasIguales(tfs: seq<Option<int>>, v: int)
    requires tfs != [] && forall i :: 0 <= i < |tfs| ==> tfs[i] == Some(v)
    ensures EstadisticasEtapa(tfs) == Estadistica(|tfs|, v, v, v)
  {
    var xs := Numeros(tfs);
    assert xs == seq(|tfs|, _ => v);
    SumConstante(|tfs|, v);
    MeanOfConstant(|tfs|, v);
  }

  lemma {:induction false} SumConstante(n: nat, v: int)
    ensures Sum(seq(n, _ => v)) == n * v
  {
    if n > 0 {
      SumConstante(n - 1, v);
      assert seq(n, _ => v)[..n - 1] == seq(n - 1, _ => v);
    }
  }

  // ---------------------------------------------------------------- summary and check

  /** The public summary. */
  datatype Resumen = Resumen(
    totalCategorias: nat, totalEtapas: nat, totalTiempos: nat, participantesConTiempos: nat, hayResultados: bool)

  /**
   * `resumen-resultados`: the number of categories, of active stages, of
   * times, and of distinct participants among the times.
   */
  function ResumenResultados(categorias: seq<int>, etapasActivas: seq<bool>, participantesDeTiempos: seq<int>): (r: Resumen)
    ensures r.totalCategorias == |categorias|
    ensures r.totalTiempos == |participantesDeTiempos|
    ensures r.participantesConTiempos == |set p | p in participantesDeTiempos|
    ensures r.participantesConTiempos <= r.totalTiempos
    ensures r.hayResultados <==> r.totalTiempos > 0
    ensures r.hayResultados <==> r.participantesConTiempos > 0
  {
    DistintosHasta(participantesDeTiempos);
    Resumen(|categorias|, Activas(etapasActivas), |participantesDeTiempos|,
            |set p | p in participantesDeTiempos|, |participantesDeTiempos| > 0)
  }

  /** `.eq('activa', true)`: the number of active stages. */
  function Activas(etapas: seq<bool>): (n: nat)
    ensures n <= |etapas|
    ensures n == 0 <==> forall i :: 0 <= i < |etapas| ==> !etapas[i]
  {
    if etapas == [] then 0
    else
      var n := Activas(etapas[..|etapas| - 1]);
      assert forall i :: 0 <= i < |etapas| - 1 ==> etapas[..|etapas| - 1][i] == etapas[i];
      n + (if etapas[|etapas| - 1] then 1 else 0)
  }

  /** There are no more distinct values than values. */
  lemma {:induction false} DistintosHasta(xs: seq<int>)
    ensures |set p | p in xs| <= |xs|
    ensures xs != [] ==> |set p | p in xs| > 0
  {
    if xs != [] {
      assert xs[0] in set p | p in xs;
      var a := xs[..|xs| - 1];
      DistintosHasta(a);
      assert xs == a + [xs[|xs| - 1]];
      assert (set p | p in xs) == (set p | p in a) + {xs[|xs| - 1]};
    }
  }

  /** `check-resultados`: `.limit(1)` finds a row. */
  function HayResultados(tiempos: seq<int>): (b: bool)
    ensures b <==> tiempos != []
  {
    |tiempos[..if |tiempos| < 1 then |tiempos| else 1]| > 0
  }

  // ---------------------------------------------------------------- pagination of `/lista`

  /**
   * A query parameter as `-`, `*` and `/` read it: absent is the default,
   * text goes through `Number`; None is NaN.
   */
  function NumeroDe(v: JsVal, defecto: int): Option<int>
  {
    match v
    case Undef => Some(defecto)
    case Num(n) => Some(n)
    case Text(s) => ToNumber(s)
    case _ => None
  }

  /** `from = (page - 1) * limit`. */
  function Desde(page: JsVal, limit: JsVal): Option<int>
  {
    var p, l := NumeroDe(page, 1), NumeroDe(limit, 100);
    if p.Some? && l.Some? then Some((p.value - 1) * l.value) else None
  }

  /**
   * `to = from + limit - 1` as written: when `limit` came in the query
   * string, `from + limit` joins the decimal text of `from` and `limit`,
   * and `- 1` reads the joined text back as a number.
   */
  function HastaComoEscrito(page: JsVal, limit: JsVal): Option<int>
  {
    var from := Desde(page, limit);
    if from.None? then None
    else if limit.Text? then
      var joined := ToNumber(ShowInt(from.value) + limit.s);
      if joined.Some? then Some(joined.value - 1) else None
    else Some(from.value + NumeroDe(limit, 100).value - 1)
  }

  /** The intended last row: `from + Number(limit) - 1`. */
  function Hasta(page: JsVal, limit: JsVal): (to: Option<int>)
    ensures to.Some? <==> Desde(page, limit).Some?
    ensures to.Some? ==> to.value - Desde(page, limit).value + 1 == NumeroDe(limit, 100).value
  {
    var from := Desde(page, limit);
    if from.None? then None else Some(from.value + NumeroDe(limit, 100).value - 1)
  }

  /** With the intended `to`, page p + 1 starts right after page p ends. */
  lemma PaginasContiguas(p: int, l: int)
    ensures Hasta(Num(p), Num(l)).value + 1 == Desde(Num(p + 1), Num(l)).value
  {
  }

  /** As written, `page=2&limit=10` asks for rows 10..1009 instead of 10..19. */
  lemma HastaComoEscritoConcatena()
    ensures Desde(Text("2"), Text("10")) == Some(10)
    ensures HastaComoEscrito(Text("2"), Text("10")) == Some(1009)
    ensures Hasta(Text("2"), Text("10")) == Some(19)
  {
    TextosDelEjemplo();
    assert ShowInt(10) + "10" == "1010";
  }

  /** The texts the example reads and writes. */
  lemma TextosDelEjemplo()
    ensures ToNumber("2") == Some(2) && ToNumber("10") == Some(10) && ToNumber("1010") == Some(1010)
    ensures ShowInt(10) == "10"
  {
    NumeroTexto("2", 2);
    NumeroTexto("10", 10);
    assert DigitsValue("1010") == 1010 by {
      assert "1010"[..3] == "101" && "101"[..2] == "10" && "10"[..1] == "1" && "1"[..0] == "";
    }
    NumeroTexto("1010", 1010);
    assert ShowNat(10) == ShowNat(1) + [DigitChar(0)];
  }

  lemma NumeroTexto(d: string, n: nat)
    requires AllDigits(d) && d != [] && DigitsValue(d) == n
    ensures ToNumber(d) == Some(n)
  {
    ToNumberDigits(d);
  }

  /** With numbers, as-written and intended agree. */
  lemma HastaNumerico(p: int, l: int)
    ensures HastaComoEscrito(Num(p), Num(l)) == Hasta(Num(p), Num(l))
  {
  }

  /** `Math.ceil(total / limit)`; None is the Infinity or NaN of a zero limit. */
  function TotalPaginas(total: int, limit: int): (n: Option<int>)
    ensures limit == 0 <==> n.None?
    ensures limit > 0 ==> (n.value - 1) * limit < total <= n.value * limit
  {
    if limit == 0 then None
    else if limit > 0 then Some(-((-total) / limit))
    else Some(-(total / (-limit)))
  }

  /** Enough pages to hold every row, and no empty last page. */
  lemma TotalPaginasCubre(total: nat, limit: int)
    requires limit > 0
    ensures TotalPaginas(total, limit).value >= 0
    ensures total > 0 ==> TotalPaginas(total, limit).value >= 1
    ensures total == 0 ==> TotalPaginas(total, limit).value == 0
  {
  }

  /** The pagination block of the answer; `total` None is a null count, read as 0. */
  datatype Paginacion = Paginacion(page: Option<int>, limit: Option<int>, total: int, totalPages: Option<int>)

  function PaginacionDe(page: JsVal, limit: JsVal, total: Option<int>): (r: Paginacion)
    ensures r.total == Or0(total)
    ensures NumeroDe(limit, 100).Some? ==> r.totalPages == TotalPaginas(Or0(total), NumeroDe(limit, 100).value)
    ensures NumeroDe(limit, 100).None? ==> r.totalPages.None?
  {
    var pg := if page.Undef? then Some(1) else ParseIntVal(page);
    var lm := if limit.Undef? then Some(100) else ParseIntVal(limit);
    var l := NumeroDe(limit, 100);
    Paginacion(pg, lm, Or0(total), if l.Some? then TotalPaginas(Or0(total), l.value) else None)
  }
}
