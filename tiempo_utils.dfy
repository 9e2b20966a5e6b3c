/**
 * The helpers of src/utils/tiempoUtils.js that work on lists of joined time
 * rows and on time forms: the absolute difference, the start offset between
 * two `HH:MM` times, sorting, filtering, statistics with per-stage and
 * per-category groups, form validation and normalisation.
 */
module TiempoUtils {
  import opened Base
  import opened Js
  import opened Sorting
  import opened TimeFormat
  import opened Stats

  // ---------------------------------------------------------------- differences

  /** `calcularDiferencia`: `Math.abs(tiempo1 - tiempo2)`. */
  function CalcularDiferencia(t1: int, t2: int): (d: int)
    ensures d >= 0 && (d == t1 - t2 || d == t2 - t1)
    ensures d == 0 <==> t1 == t2
  {
    if t1 >= t2 then t1 - t2 else t2 - t1
  }

  lemma CalcularDiferenciaSymmetric(t1: int, t2: int)
    ensures CalcularDiferencia(t1, t2) == CalcularDiferencia(t2, t1)
  {
  }

  /** A missing, null or empty string: the values `!hora` rejects. */
  predicate Falsy(o: Option<string>)
  {
    o.None? || o.value == ""
  }

  /**
   * `horaToMinutos`: 0 for a missing time, otherwise `Number(h) * 60 + Number(m)`
   * of the first two `:`-separated parts; None is NaN (an unreadable part or no `:`).
   */
  function HoraToMinutos(hora: Option<string>): Option<int>
  {
    if Falsy(hora) then Some(0) else MinutosDe(Split(hora.value, ':'))
  }

  /** `[hours, minutes] = parts.map(Number)` and `hours * 60 + minutes`. */
  function MinutosDe(parts: seq<string>): Option<int>
    requires |parts| >= 1
  {
    var h := ToNumber(parts[0]);
    var m := if |parts| > 1 then ToNumber(parts[1]) else None;
    if h.Some? && m.Some? then Some(h.value * 60 + m.value) else None
  }

  /** `calcularDiferenciaSalida`: 0 when either time is missing, else the minute difference in ms. */
  function CalcularDiferenciaSalida(horaSalida: Option<string>, horaBase: Option<string>): Option<int>
  {
    if Falsy(horaSalida) || Falsy(horaBase) then Some(0)
    else
      var mc := HoraToMinutos(horaSalida);
      var mb := HoraToMinutos(horaBase);
      if mc.Some? && mb.Some? then Some((mc.value - mb.value) * 60 * 1000) else None
  }

  /** A start time written `HH:MM` with both fields zero-padded. */
  function Hhmm(h: nat, m: nat): (s: string)
    ensures |s| >= 5
  {
    Pad2(h) + ":" + Pad2(m)
  }

  /** A time written as `HH:MM` reads back as its minutes since midnight. */
  lemma HoraToMinutosPadded(h: nat, m: nat)
    ensures HoraToMinutos(Some(Hhmm(h, m))).Some?
    ensures HoraToMinutos(Some(Hhmm(h, m))).value == h * 60 + m
  {
    HoraToMinutosDigits(Pad2(h), Pad2(m));
  }

  lemma HoraToMinutosDigits(hs: string, ms: string)
    requires hs != [] && AllDigits(hs) && ms != [] && AllDigits(ms)
    ensures HoraToMinutos(Some(hs + ":" + ms)).Some?
    ensures HoraToMinutos(Some(hs + ":" + ms)).value == DigitsValue(hs) * 60 + DigitsValue(ms)
  {
    var s := hs + ":" + ms;
    assert Split(s, ':') == [hs, ms] by {
      DigitsHaveNo(hs, ':');
      DigitsHaveNo(ms, ':');
      assert s == hs + [':'] + ms;
      SplitFirst(hs, ':', ms);
      SplitNone(ms, ':');
    }
    MinutosDeDigits(hs, ms);
  }

  lemma MinutosDeDigits(hs: string, ms: string)
    requires hs != [] && AllDigits(hs) && ms != [] && AllDigits(ms)
    ensures MinutosDe([hs, ms]).Some? && MinutosDe([hs, ms]).value == DigitsValue(hs) * 60 + DigitsValue(ms)
  {
    ToNumberDigits(hs);
    ToNumberDigits(ms);
  }

  /** The offset is 0 when either time is missing. */
  lemma DiferenciaSalidaMissing(a: Option<string>, b: Option<string>)
    requires Falsy(a) || Falsy(b)
    ensures CalcularDiferenciaSalida(a, b) == Some(0)
  {
  }

  /** The offset of a readable time against itself is 0. */
  lemma DiferenciaSalidaSame(a: Option<string>)
    requires HoraToMinutos(a).Some?
    ensures CalcularDiferenciaSalida(a, a) == Some(0)
  {
  }

  /** Swapping the two times negates the offset, and the offset is a whole number of minutes. */
  lemma DiferenciaSalidaAntisymmetric(a: Option<string>, b: Option<string>)
    ensures CalcularDiferenciaSalida(a, b).Some? <==> CalcularDiferenciaSalida(b, a).Some?
    ensures CalcularDiferenciaSalida(a, b).Some? ==>
      CalcularDiferenciaSalida(b, a).value == -CalcularDiferenciaSalida(a, b).value
      && CalcularDiferenciaSalida(a, b).value % 60000 == 0
  {
    if !Falsy(a) && !Falsy(b) && HoraToMinutos(a).Some? && HoraToMinutos(b).Some? {
      var d := HoraToMinutos(a).value - HoraToMinutos(b).value;
      assert d * 60 * 1000 == 60000 * d;
    }
  }

  /** For two start times written `HH:MM`, the offset is their difference in minutes, in ms. */
  lemma DiferenciaSalidaHHMM(h1: nat, m1: nat, h2: nat, m2: nat)
    ensures CalcularDiferenciaSalida(Some(Hhmm(h1, m1)), Some(Hhmm(h2, m2))).Some?
    ensures CalcularDiferenciaSalida(Some(Hhmm(h1, m1)), Some(Hhmm(h2, m2))).value
         == ((h1 * 60 + m1) - (h2 * 60 + m2)) * 60000
  {
    HoraToMinutosPadded(h1, m1);
    HoraToMinutosPadded(h2, m2);
    DiferenciaSalidaOf(Hhmm(h1, m1), Hhmm(h2, m2));
  }

  lemma DiferenciaSalidaOf(a: string, b: string)
    requires a != [] && b != []
    requires HoraToMinutos(Some(a)).Some? && HoraToMinutos(Some(b)).Some?
    ensures CalcularDiferenciaSalida(Some(a), Some(b)).Some?
    ensures CalcularDiferenciaSalida(Some(a), Some(b)).value
         == (HoraToMinutos(Some(a)).value - HoraToMinutos(Some(b)).value) * 60000
  {
  }

  // ---------------------------------------------------------------- joined rows

  /** The `participantes` join of a time row. */
  datatype ParticipanteRef = ParticipanteRef(
    nombre: Option<string>, apellidos: Option<string>, dorsal: Option<string>, ci: Option<string>,
    categoriaId: Option<int>, categoriaNombre: Option<string>)

  /** The `etapas` join of a time row. */
  datatype EtapaRef = EtapaRef(numeroEtapa: Option<int>, nombre: Option<string>)

  /** A time row as the list endpoints return it, with its joins. */
  datatype TiempoRow = TiempoRow(
    participanteId: int, etapaId: int, tiempoFinal: Option<int>, posicion: Option<int>,
    participante: Option<ParticipanteRef>, etapa: Option<EtapaRef>)

  /** The criteria of `ordenarTiempos` (the date criterion and arbitrary columns are not modelled). */
  datatype Criterio = PorParticipante | PorDorsal | PorEtapa | PorTiempoFinal | PorPosicion | PorCategoria

  /** The value the comparator reads from a row for a criterion. */
  function CriterioKey(c: Criterio, t: TiempoRow): SortKey
  {
    var p := t.participante;
    match c
    case PorParticipante =>
      var nombre := if p.Some? then Some(p.value.nombre) else None;
      var apellidos := if p.Some? then Some(p.value.apellidos) else None;
      TextKey(ToLower(ShowText(nombre) + " " + ShowText(apellidos)))
    case PorDorsal =>
      NumKey(Or0(if p.Some? && p.value.dorsal.Some? then ParseInt(p.value.dorsal.value) else None))
    case PorEtapa =>
      NumKey(Or0(if t.etapa.Some? then t.etapa.value.numeroEtapa else None))
    case PorTiempoFinal => NumKey(Or0(t.tiempoFinal))
    case PorPosicion => NumKey(Or0(t.posicion))
    case PorCategoria =>
      TextKey(if p.Some? && p.value.categoriaNombre.Some? then ToLower(p.value.categoriaNombre.value) else "")
  }

  function KeyFor(c: Criterio): TiempoRow -> SortKey
  {
    t => CriterioKey(c, t)
  }

  /**
   * `ordenarTiempos`: a sorted copy; any direction other than `'asc'` sorts
   * descending. The copy is a permutation, ordered, and rows that tie keep
   * their input order.
   */
  function OrdenarTiempos(ts: seq<TiempoRow>, c: Criterio, direccion: string): (r: seq<TiempoRow>)
    ensures multiset(r) == multiset(ts)
    ensures Sorted(r, KeyFor(c), direccion != "asc")
    ensures forall k :: WithKey(r, KeyFor(c), k) == WithKey(ts, KeyFor(c), k)
  {
    var r := SortBy(ts, KeyFor(c), direccion != "asc");
    SortBySorted(ts, KeyFor(c), direccion != "asc");
    forall k ensures WithKey(r, KeyFor(c), k) == WithKey(ts, KeyFor(c), k) {
      SortByStable(ts, KeyFor(c), direccion != "asc", k);
    }
    r
  }

  /** In ascending order, a row with a smaller key never comes after one with a larger key. */
  lemma OrdenarAscending(ts: seq<TiempoRow>, c: Criterio, i: int, j: int)
    requires 0 <= i < j < |ts|
    ensures var r := OrdenarTiempos(ts, c, "asc");
      !KeyLess(CriterioKey(c, r[j]), CriterioKey(c, r[i]))
  {
  }

  // ---------------------------------------------------------------- filtering

  /** The filters of `filtrarTiempos` other than the two date bounds. */
  datatype Filtros = Filtros(etapaId: JsVal, categoriaId: JsVal, busqueda: Option<string>)

  /** `tiempo.participantes?.categoria_id` as a JavaScript value. */
  function CategoriaVal(t: TiempoRow): JsVal
  {
    if t.participante.None? then Undef
    else if t.participante.value.categoriaId.None? then Null
    else Num(t.participante.value.categoriaId.value)
  }

  /** `x?.toLowerCase().includes(b)` for an optional field. */
  predicate FieldIncludes(x: Option<string>, b: string)
  {
    x.Some? && Contains(ToLower(x.value), b)
  }

  /** The text search: name, surnames, bib, CI or stage name contains the lower-cased query. */
  predicate Coincide(t: TiempoRow, busqueda: string)
  {
    var b := ToLower(busqueda);
    (t.participante.Some? &&
      (FieldIncludes(t.participante.value.nombre, b)
      || FieldIncludes(t.participante.value.apellidos, b)
      || FieldIncludes(t.participante.value.dorsal, b)
      || FieldIncludes(t.participante.value.ci, b)))
    || (t.etapa.Some? && FieldIncludes(t.etapa.value.nombre, b))
  }

  /** Whether a row survives the filters; a filter applies only when its value is truthy. */
  predicate Pasa(f: Filtros, t: TiempoRow)
  {
    (!Truthy(f.etapaId) || ParseIntVal(f.etapaId) == Some(t.etapaId))
    && (!Truthy(f.categoriaId) || CategoriaVal(t) == f.categoriaId)
    && (f.busqueda.None? || f.busqueda.value == "" || Coincide(t, f.busqueda.value))
  }

  /** `filtrarTiempos`: the rows that pass, in their order. */
  function FiltrarTiempos(ts: seq<TiempoRow>, f: Filtros): (r: seq<TiempoRow>)
    ensures |r| <= |ts|
    ensures forall t :: t in r <==> t in ts && Pasa(f, t)
  {
    if ts == [] then []
    else
      var rest := FiltrarTiempos(ts[1..], f);
      assert forall t :: t in ts <==> t == ts[0] || t in ts[1..];
      if Pasa(f, ts[0]) then [ts[0]] + rest else rest
  }

  /** The first row is kept iff it passes, ahead of the filtered rest. */
  lemma FiltrarCabeza(ts: seq<TiempoRow>, f: Filtros)
    requires ts != []
    ensures FiltrarTiempos(ts, f) == (if Pasa(f, ts[0]) then [ts[0]] else []) + FiltrarTiempos(ts[1..], f)
  {
  }

  /** A single row is kept iff it passes. */
  lemma FiltrarUno(t: TiempoRow, f: Filtros)
    ensures FiltrarTiempos([t], f) == if Pasa(f, t) then [t] else []
  {
    assert [t][1..] == [];
  }

  /**
   * Filtering a concatenation filters each part and keeps them in order; with
   * `FiltrarUno` this says the result keeps the passing rows in their order
   * and with their repetitions, as `Array.prototype.filter` does.
   */
  lemma {:induction false} FiltrarConcatena(a: seq<TiempoRow>, b: seq<TiempoRow>, f: Filtros)
    ensures FiltrarTiempos(a + b, f) == FiltrarTiempos(a, f) + FiltrarTiempos(b, f)
  {
    if a == [] {
      assert a + b == b;
    } else {
      assert (a + b)[1..] == a[1..] + b;
      FiltrarCabeza(a + b, f);
      FiltrarCabeza(a, f);
      FiltrarConcatena(a[1..], b, f);
      Reasociar(FiltrarTiempos(a + b, f), if Pasa(f, a[0]) then [a[0]] else [],
        FiltrarTiempos(a[1..], f), FiltrarTiempos(b, f));
    }
  }

  lemma Reasociar(p: seq<TiempoRow>, c: seq<TiempoRow>, x: seq<TiempoRow>, y: seq<TiempoRow>)
    requires p == c + (x + y)
    ensures p == (c + x) + y
  {
  }

  /** With no filter set, every row is kept in order. */
  lemma {:induction false} FiltrarSinFiltros(ts: seq<TiempoRow>)
    ensures FiltrarTiempos(ts, Filtros(Undef, Undef, None)) == ts
  {
    if ts != [] { FiltrarSinFiltros(ts[1..]); }
  }

  /** Filtering twice by the same filters changes nothing more. */
  lemma {:induction false} FiltrarIdempotent(ts: seq<TiempoRow>, f: Filtros)
    ensures FiltrarTiempos(FiltrarTiempos(ts, f), f) == FiltrarTiempos(ts, f)
  {
    if ts != [] {
      FiltrarIdempotent(ts[1..], f);
      if Pasa(f, ts[0]) {
        var r := [ts[0]] + FiltrarTiempos(ts[1..], f);
        assert r[0] == ts[0] && r[1..] == FiltrarTiempos(ts[1..], f);
      }
    }
  }

  /** A category filter given as text (a query-string value) matches no row: the comparison is strict. */
  lemma {:induction false} FiltrarCategoriaTexto(ts: seq<TiempoRow>, s: string, e: JsVal, b: Option<string>)
    requires s != ""
    ensures FiltrarTiempos(ts, Filtros(e, Text(s), b)) == []
  {
    if ts != [] {
      FiltrarCategoriaTexto(ts[1..], s, e, b);
    }
  }

  // ---------------------------------------------------------------- statistics

  /** One entry of `tiempoPorEtapa` or `tiempoPorCategoria`. */
  datatype Grupo = Grupo(id: int, etiqueta: string, count: nat, tiempos: seq<Option<int>>)

  /** The object `calcularEstadisticas` returns; None is null. */
  datatype Estadisticas = Estadisticas(
    totalTiempos: nat, totalParticipantes: nat, porEtapa: seq<Grupo>, porCategoria: seq<Grupo>,
    mejor: Option<int>, promedio: Option<int>, peor: Option<int>)

  /** The stage a row is grouped under. */
  function EtapaKey(t: TiempoRow): Option<int>
  {
    Some(t.etapaId)
  }

  /** `Etapa ${numero_etapa}: ${nombre}`. */
  function EtapaLabel(t: TiempoRow): string
  {
    var numero :=
      if t.etapa.None? then "undefined"
      else if t.etapa.value.numeroEtapa.None? then "null"
      else ShowInt(t.etapa.value.numeroEtapa.value);
    var nombre := ShowText(if t.etapa.Some? then Some(t.etapa.value.nombre) else None);
    "Etapa " + numero + ": " + nombre
  }

  /** The category a row is grouped under; rows whose category id is falsy are skipped. */
  function CategoriaKey(t: TiempoRow): Option<int>
  {
    if t.participante.Some? && t.participante.value.categoriaId.Some? && t.participante.value.categoriaId.value != 0
    then t.participante.value.categoriaId
    else None
  }

  /** The category name, or `Sin categoría` when it is missing or empty. */
  function CategoriaLabel(t: TiempoRow): string
  {
    if t.participante.Some? && t.participante.value.categoriaNombre.Some? && t.participante.value.categoriaNombre.value != ""
    then t.participante.value.categoriaNombre.value
    else "Sin categoría"
  }

  /** One `forEach` step: create the group on first sight, then `count++` and `push`. */
  function AddTo(m: map<int, Grupo>, k: int, etiqueta: string, v: Option<int>): map<int, Grupo>
  {
    var g := if k in m then m[k] else Grupo(k, etiqueta, 0, []);
    m[k := g.(count := g.count + 1, tiempos := g.tiempos + [v])]
  }

  /** The map the `forEach` builds over a list of rows. */
  function Tally(ts: seq<TiempoRow>, keyOf: TiempoRow -> Option<int>, etiquetaOf: TiempoRow -> string): map<int, Grupo>
  {
    if ts == [] then map[]
    else
      var m := Tally(ts[..|ts| - 1], keyOf, etiquetaOf);
      var t := ts[|ts| - 1];
      if keyOf(t).Some? then AddTo(m, keyOf(t).value, etiquetaOf(t), t.tiempoFinal) else m
  }

  /** The keys of that map in the order they were first seen. */
  function FirstSeen(ts: seq<TiempoRow>, keyOf: TiempoRow -> Option<int>): seq<int>
  {
    if ts == [] then []
    else
      var o := FirstSeen(ts[..|ts| - 1], keyOf);
      var k := keyOf(ts[|ts| - 1]);
      if k.Some? && k.value !in o then o + [k.value] else o
  }

  /** The `tiempo_final` values of the rows whose key is `k`, in order. */
  function Column(ts: seq<TiempoRow>, keyOf: TiempoRow -> Option<int>, k: int): seq<Option<int>>
  {
    if ts == [] then []
    else
      var c := Column(ts[..|ts| - 1], keyOf, k);
      if keyOf(ts[|ts| - 1]) == Some(k) then c + [ts[|ts| - 1].tiempoFinal] else c
  }

  /** The groups of the map, in the order their keys were first seen. */
  function Grupos(ts: seq<TiempoRow>, keyOf: TiempoRow -> Option<int>, etiquetaOf: TiempoRow -> string): (vs: seq<Grupo>)
    ensures |vs| == |FirstSeen(ts, keyOf)|
  {
    var o, m := FirstSeen(ts, keyOf), Tally(ts, keyOf, etiquetaOf);
    FirstSeenInTally(ts, keyOf, etiquetaOf);
    seq(|o|, i requires 0 <= i < |o| => m[o[i]])
  }

  function GroupId(g: Grupo): SortKey
  {
    NumKey(g.id)
  }

  /** `Object.values` of the map: its integer keys come out in ascending order. */
  function Agrupados(ts: seq<TiempoRow>, keyOf: TiempoRow -> Option<int>, etiquetaOf: TiempoRow -> string): seq<Grupo>
  {
    SortBy(Grupos(ts, keyOf, etiquetaOf), GroupId, false)
  }

  /** The positive `tiempo_final` values, in order. */
  function Positivos(ts: seq<TiempoRow>): (r: seq<int>)
    ensures forall i :: 0 <= i < |r| ==> r[i] > 0
  {
    if ts == [] then []
    else
      var p := Positivos(ts[..|ts| - 1]);
      var tf := ts[|ts| - 1].tiempoFinal;
      if tf.Some? && tf.value > 0 then p + [tf.value] else p
  }

  function ParticipantIds(ts: seq<TiempoRow>): set<int>
  {
    set t | t in ts :: t.participanteId
  }

  lemma {:induction false} FirstSeenInTally(ts: seq<TiempoRow>, keyOf: TiempoRow -> Option<int>, etiquetaOf: TiempoRow -> string)
    ensures forall k :: k in FirstSeen(ts, keyOf) <==> k in Tally(ts, keyOf, etiquetaOf)
    ensures forall i :: 0 <= i < |FirstSeen(ts, keyOf)| ==> FirstSeen(ts, keyOf)[i] in Tally(ts, keyOf, etiquetaOf)
  {
    if ts != [] {
      FirstSeenInTally(ts[..|ts| - 1], keyOf, etiquetaOf);
    }
  }

  /** Each group holds exactly the `tiempo_final` values of its rows, and counts them. */
  lemma {:induction false} TallyColumns(ts: seq<TiempoRow>, keyOf: TiempoRow -> Option<int>, etiquetaOf: TiempoRow -> string)
    ensures forall k :: k in Tally(ts, keyOf, etiquetaOf) ==>
      var g := Tally(ts, keyOf, etiquetaOf)[k];
      g.id == k && g.tiempos == Column(ts, keyOf, k) && g.count == |g.tiempos| > 0
    ensures forall k :: k !in Tally(ts, keyOf, etiquetaOf) ==> Column(ts, keyOf, k) == []
  {
    if ts != [] {
      TallyColumns(ts[..|ts| - 1], keyOf, etiquetaOf);
    }
  }

  lemma {:induction false} FirstSeenDistinct(ts: seq<TiempoRow>, keyOf: TiempoRow -> Option<int>)
    ensures forall i, j :: 0 <= i < j < |FirstSeen(ts, keyOf)| ==> FirstSeen(ts, keyOf)[i] != FirstSeen(ts, keyOf)[j]
  {
    if ts != [] {
      FirstSeenDistinct(ts[..|ts| - 1], keyOf);
    }
  }

  /** Every row with a key has its group. */
  lemma {:induction false} TallyCovers(ts: seq<TiempoRow>, keyOf: TiempoRow -> Option<int>, etiquetaOf: TiempoRow -> string)
    ensures forall i :: 0 <= i < |ts| && keyOf(ts[i]).Some? ==> keyOf(ts[i]).value in Tally(ts, keyOf, etiquetaOf)
  {
    if ts != [] {
      var init := ts[..|ts| - 1];
      TallyCovers(init, keyOf, etiquetaOf);
      assert forall i :: 0 <= i < |init| ==> init[i] == ts[i];
    }
  }

  /** Before ordering, the groups have pairwise different ids, hold their rows' times, and cover every keyed row. */
  lemma GruposSpec(ts: seq<TiempoRow>, keyOf: TiempoRow -> Option<int>, etiquetaOf: TiempoRow -> string)
    ensures var vs := Grupos(ts, keyOf, etiquetaOf);
      (forall i :: 0 <= i < |vs| ==> vs[i].tiempos == Column(ts, keyOf, vs[i].id) && vs[i].count == |vs[i].tiempos| > 0)
      && (forall i, j :: 0 <= i < j < |vs| ==> vs[i].id != vs[j].id)
      && (forall i :: 0 <= i < |ts| && keyOf(ts[i]).Some? ==> exists p :: 0 <= p < |vs| && vs[p].id == keyOf(ts[i]).value)
  {
    var m := Tally(ts, keyOf, etiquetaOf);
    var o := FirstSeen(ts, keyOf);
    var vs := Grupos(ts, keyOf, etiquetaOf);
    FirstSeenInTally(ts, keyOf, etiquetaOf);
    TallyColumns(ts, keyOf, etiquetaOf);
    FirstSeenDistinct(ts, keyOf);
    TallyCovers(ts, keyOf, etiquetaOf);
    assert forall i :: 0 <= i < |vs| ==> vs[i] == m[o[i]] && vs[i].id == o[i];
    forall i | 0 <= i < |ts| && keyOf(ts[i]).Some?
      ensures exists p :: 0 <= p < |vs| && vs[p].id == keyOf(ts[i]).value
    {
      var k := keyOf(ts[i]).value;
      assert k in o;
      var p :| 0 <= p < |o| && o[p] == k;
      assert vs[p].id == k;
    }
  }

  /**
   * The groups: one per key, in strictly ascending id order, each holding the
   * `tiempo_final` of exactly the rows with that key, with `count` their
   * number; every keyed row has its group.
   */
  lemma AgrupadosSpec(ts: seq<TiempoRow>, keyOf: TiempoRow -> Option<int>, etiquetaOf: TiempoRow -> string)
    ensures var g := Agrupados(ts, keyOf, etiquetaOf);
      (forall i :: 0 <= i < |g| ==> g[i].tiempos == Column(ts, keyOf, g[i].id) && g[i].count == |g[i].tiempos| > 0)
      && (forall i, j :: 0 <= i < j < |g| ==> g[i].id < g[j].id)
      && (forall i :: 0 <= i < |ts| && keyOf(ts[i]).Some? ==> exists j :: 0 <= j < |g| && g[j].id == keyOf(ts[i]).value)
  {
    var vs := Grupos(ts, keyOf, etiquetaOf);
    var g := SortBy(vs, GroupId, false);
    GruposSpec(ts, keyOf, etiquetaOf);
    SortBySorted(vs, GroupId, false);
    forall i | 0 <= i < |g|
      ensures g[i].tiempos == Column(ts, keyOf, g[i].id) && g[i].count == |g[i].tiempos| > 0
    {
      assert g[i] in multiset(vs);
    }
    DistinctPermutation(vs, g, (x: Grupo) => x.id);
    forall i, j | 0 <= i < j < |g|
      ensures g[i].id < g[j].id
    {
      assert !KeyLess(GroupId(g[j]), GroupId(g[i]));
    }
    forall i | 0 <= i < |ts| && keyOf(ts[i]).Some?
      ensures exists j :: 0 <= j < |g| && g[j].id == keyOf(ts[i]).value
    {
      var p :| 0 <= p < |vs| && vs[p].id == keyOf(ts[i]).value;
      assert vs[p] in multiset(g);
      var j :| 0 <= j < |g| && g[j] == vs[p];
    }
  }

  /** `calcularEstadisticas`, with both `forEach` loops. */
  method CalcularEstadisticas(ts: seq<TiempoRow>) returns (r: Estadisticas)
    ensures ts == [] ==> r == Estadisticas(0, 0, [], [], None, None, None)
    ensures r.totalTiempos == |ts| && r.totalParticipantes == |ParticipantIds(ts)|
    ensures r.porEtapa == Agrupados(ts, EtapaKey, EtapaLabel)
    ensures r.porCategoria == Agrupados(ts, CategoriaKey, CategoriaLabel)
    ensures var p := Positivos(ts);
      if p == [] then r.mejor.None? && r.promedio.None? && r.peor.None?
      else r.mejor == Some(MinOf(p)) && r.peor == Some(MaxOf(p)) && r.promedio == Some(RoundDiv(Sum(p), |p|))
  {
    if ts == [] {
      return Estadisticas(0, 0, [], [], None, None, None);
    }
    var porEtapa := Agrupar(ts, EtapaKey, EtapaLabel);
    var porCategoria := Agrupar(ts, CategoriaKey, CategoriaLabel);
    var p := Positivos(ts);
    var mejor, promedio, peor := None, None, None;
    if p != [] {
      mejor, promedio, peor := Some(MinOf(p)), Some(RoundDiv(Sum(p), |p|)), Some(MaxOf(p));
    }
    r := Estadisticas(|ts|, |ParticipantIds(ts)|, porEtapa, porCategoria, mejor, promedio, peor);
  }

  /**
   * One `forEach`: groups the rows by key, creating each group the first time
   * its key is seen, then `Object.values` of the resulting object.
   */
  method Agrupar(ts: seq<TiempoRow>, keyOf: TiempoRow -> Option<int>, etiquetaOf: TiempoRow -> string)
    returns (grupos: seq<Grupo>)
    ensures grupos == Agrupados(ts, keyOf, etiquetaOf)
  {
    var m: map<int, Grupo>, orden: seq<int> := map[], [];
    for i := 0 to |ts|
      invariant m == Tally(ts[..i], keyOf, etiquetaOf)
      invariant orden == FirstSeen(ts[..i], keyOf)
      invariant forall k :: k in orden <==> k in m
      invariant forall j :: 0 <= j < |orden| ==> orden[j] in m
    {
      var t := ts[i];
      assert ts[..i + 1][..i] == ts[..i];
      var k := keyOf(t);
      if k.Some? {
        if k.value !in m {
          m := m[k.value := Grupo(k.value, etiquetaOf(t), 0, [])];
          orden := orden + [k.value];
        }
        m := m[k.value := m[k.value].(count := m[k.value].count + 1, tiempos := m[k.value].tiempos + [t.tiempoFinal])];
      }
    }
    assert ts[..|ts|] == ts;
    var valores := seq(|orden|, j requires 0 <= j < |orden| => m[orden[j]]);
    assert valores == Grupos(ts, keyOf, etiquetaOf);
    grupos := SortBy(valores, GroupId, false);
  }

  lemma EstadisticasOrdered(ts: seq<TiempoRow>)
    requires Positivos(ts) != []
    ensures var p := Positivos(ts);
      0 < MinOf(p) <= RoundDiv(Sum(p), |p|) <= MaxOf(p)
  {
    MeanBetween(Positivos(ts));
  }

  /** There are never more distinct participants than rows. */
  lemma {:induction false} ParticipantesAtMostTiempos(ts: seq<TiempoRow>)
    ensures |ParticipantIds(ts)| <= |ts|
  {
    if ts != [] {
      ParticipantesAtMostTiempos(ts[1..]);
      assert ParticipantIds(ts) == ParticipantIds(ts[1..]) + {ts[0].participanteId} by {
        assert forall t :: t in ts <==> t == ts[0] || t in ts[1..];
      }
    }
  }

  // ---------------------------------------------------------------- form validation

  /** The time form as the frontend holds it. */
  datatype TiempoForm = TiempoForm(
    participanteId: JsVal, etapaId: JsVal, tiempo: JsVal, penalizacion: JsVal, observaciones: Option<string>)

  /** The rules `validarTiempo` checks, one per message it can push. */
  datatype Fallo =
    | SinParticipante | SinEtapa | SinTiempo | FormatoTiempo | TiempoNoMayorACero
    | FormatoPenalizacion | PenalizacionNegativa

  /** The message pushed for each failed rule. */
  function Mensaje(f: Fallo): string
  {
    match f
    case SinParticipante => "Debe seleccionar un participante"
    case SinEtapa => "Debe seleccionar una etapa"
    case SinTiempo => "El tiempo es requerido"
    case FormatoTiempo => "Formato de tiempo inválido. Use MM:SS.CC o HH:MM:SS.CC"
    case TiempoNoMayorACero => "El tiempo debe ser mayor a 0"
    case FormatoPenalizacion => "Formato de penalización inválido. Use MM:SS.CC o HH:MM:SS.CC"
    case PenalizacionNegativa => "La penalización no puede ser negativa"
  }

  /** Different rules push different messages, so a message list names the failed rules. */
  lemma MensajeInjective(f: Fallo, g: Fallo)
    ensures Mensaje(f) == Mensaje(g) <==> f == g
  {
    if f != g {
      assert Largo(f) != Largo(g);
      MensajeLength(f);
      MensajeLength(g);
    }
  }

  /** The length of each message; no two are equal. */
  function Largo(f: Fallo): nat
  {
    match f
    case SinParticipante => 32
    case SinEtapa => 26
    case SinTiempo => 22
    case FormatoTiempo => 54
    case TiempoNoMayorACero => 28
    case FormatoPenalizacion => 60
    case PenalizacionNegativa => 37
  }

  lemma MensajeLength(f: Fallo)
    ensures |Mensaje(f)| == Largo(f)
  {
    match f
    case SinParticipante =>
    case SinEtapa =>
    case SinTiempo =>
    case FormatoTiempo =>
    case TiempoNoMayorACero =>
    case FormatoPenalizacion =>
    case PenalizacionNegativa =>
  }

  /** A present time that is not a positive amount: a well-formed text worth 0 ms, or a negative number. */
  predicate TiempoNoPositivo(v: JsVal)
  {
    (v.Text? && v.s != "" && IsValidTimeFormat(v.s) && ParseTimeString(v.s) <= 0)
    || (v.Num? && v.n < 0)
  }

  /** `validarTiempo`: records one failure per broken rule; the form is valid when none was recorded. */
  method ValidarTiempo(d: TiempoForm) returns (esValido: bool, errores: seq<Fallo>)
    ensures esValido <==> errores == []
    ensures SinParticipante in errores <==> !Truthy(d.participanteId)
    ensures SinEtapa in errores <==> !Truthy(d.etapaId)
    ensures SinTiempo in errores <==> !Truthy(d.tiempo)
    ensures FormatoTiempo in errores <==> d.tiempo.Text? && d.tiempo.s != "" && !IsValidTimeFormat(d.tiempo.s)
    ensures TiempoNoMayorACero in errores <==> TiempoNoPositivo(d.tiempo)
    ensures FormatoPenalizacion in errores <==>
      d.penalizacion.Text? && d.penalizacion.s != "" && !IsValidTimeFormat(d.penalizacion.s)
    ensures PenalizacionNegativa in errores <==> d.penalizacion.Num? && d.penalizacion.n < 0
    ensures |errores| <= 4
    ensures esValido ==> var n := NormalizarTiempoData(d);
      n.tiempo.Num? && n.tiempo.n > 0 && n.penalizacion.Num? && n.penalizacion.n >= 0
  {
    errores := [];
    if !Truthy(d.participanteId) {
      errores := errores + [SinParticipante];
    }
    if !Truthy(d.etapaId) {
      errores := errores + [SinEtapa];
    }
    var deTiempo := ValidarCampoTiempo(d.tiempo);
    var dePenalizacion := ValidarPenalizacion(d.penalizacion);
    errores := errores + deTiempo + dePenalizacion;
    esValido := |errores| == 0;
    if esValido {
      assert |deTiempo| == 0 && |dePenalizacion| == 0;
      NormalizadoPositivo(d);
    }
  }

  /** A time and a penalty that pass the rules normalise to a positive and a non-negative number. */
  lemma NormalizadoPositivo(d: TiempoForm)
    requires (d.tiempo.Num? && d.tiempo.n > 0) || (d.tiempo.Text? && ParseTimeString(d.tiempo.s) > 0)
    requires !Truthy(d.penalizacion) || (d.penalizacion.Text? && ParseTimeString(d.penalizacion.s) >= 0)
      || (d.penalizacion.Num? && d.penalizacion.n >= 0)
    ensures var n := NormalizarTiempoData(d);
      n.tiempo.Num? && n.tiempo.n > 0 && n.penalizacion.Num? && n.penalizacion.n >= 0
  {
  }

  /** The `tiempo` rules of `validarTiempo`: required, well formed when text, and greater than 0. */
  method ValidarCampoTiempo(v: JsVal) returns (errores: seq<Fallo>)
    ensures forall f :: f in errores ==> f == SinTiempo || f == FormatoTiempo || f == TiempoNoMayorACero
    ensures |errores| <= 1
    ensures SinTiempo in errores <==> !Truthy(v)
    ensures FormatoTiempo in errores <==> v.Text? && v.s != "" && !IsValidTimeFormat(v.s)
    ensures TiempoNoMayorACero in errores <==> TiempoNoPositivo(v)
    ensures errores == [] ==> (v.Num? && v.n > 0) || (v.Text? && ParseTimeString(v.s) > 0)
  {
    errores := [];
    if !Truthy(v) {
      errores := [SinTiempo];
    } else if v.Text? {
      if !IsValidTimeFormat(v.s) {
        errores := [FormatoTiempo];
      } else {
        var tiempoMs := ParseTimeString(v.s);
        ValidTextNonNegative(v.s);
        if tiempoMs <= 0 {
          errores := [TiempoNoMayorACero];
        }
      }
    } else if v.Num? {
      if v.n <= 0 {
        errores := [TiempoNoMayorACero];
      }
    }
  }

  /** The `penalizacion` rules of `validarTiempo`: when present, well formed when text and not negative. */
  method ValidarPenalizacion(v: JsVal) returns (errores: seq<Fallo>)
    ensures forall f :: f in errores ==> f == FormatoPenalizacion || f == PenalizacionNegativa
    ensures |errores| <= 1
    ensures FormatoPenalizacion in errores <==> v.Text? && v.s != "" && !IsValidTimeFormat(v.s)
    ensures PenalizacionNegativa in errores <==> v.Num? && v.n < 0
    ensures errores == [] ==> !Truthy(v) || (v.Text? && ParseTimeString(v.s) >= 0) || (v.Num? && v.n >= 0)
  {
    errores := [];
    if Truthy(v) {
      if v.Text? {
        if !IsValidTimeFormat(v.s) {
          errores := [FormatoPenalizacion];
        } else {
          var penalizacionMs := ParseTimeString(v.s);
          ValidTextNonNegative(v.s);
          if penalizacionMs < 0 {
            errores := [PenalizacionNegativa];
          }
        }
      } else if v.Num? {
        if v.n < 0 {
          errores := [PenalizacionNegativa];
        }
      }
    }
  }

  /** `normalizarTiempoData`: text times become milliseconds, a falsy penalty 0, the stage an integer, blank notes null. */
  function NormalizarTiempoData(d: TiempoForm): (n: TiempoForm)
    ensures n.participanteId == d.participanteId
    ensures !Truthy(d.penalizacion) ==> n.penalizacion == Num(0)
    ensures d.penalizacion.Text? ==> n.penalizacion == Num(ParseTimeString(d.penalizacion.s))
    ensures !d.penalizacion.Text? && Truthy(d.penalizacion) ==> n.penalizacion == d.penalizacion
    ensures Truthy(d.etapaId) ==> (n.etapaId.Num? <==> ParseIntVal(d.etapaId).Some?)
    ensures Truthy(d.etapaId) && n.etapaId.Num? ==> n.etapaId.n == ParseIntVal(d.etapaId).value
    ensures !Truthy(d.etapaId) ==> n.etapaId == d.etapaId
    ensures d.observaciones.None? || Trim(d.observaciones.value) == "" <==> n.observaciones.None?
    ensures n.observaciones.Some? ==> n.observaciones == d.observaciones
    ensures !d.tiempo.Text? ==> n.tiempo == d.tiempo
    ensures d.tiempo.Text? ==> n.tiempo == Num(ParseTimeString(d.tiempo.s))
  {
    var tiempo := if d.tiempo.Text? then Num(ParseTimeString(d.tiempo.s)) else d.tiempo;
    var penalizacion :=
      if d.penalizacion.Text? then Num(ParseTimeString(d.penalizacion.s))
      else if !Truthy(d.penalizacion) then Num(0)
      else d.penalizacion;
    var etapaId := if Truthy(d.etapaId) then NumOf(ParseIntVal(d.etapaId)) else d.etapaId;
    var observaciones :=
      if d.observaciones.None? || d.observaciones.value == "" || Trim(d.observaciones.value) == "" then None
      else d.observaciones;
    TiempoForm(d.participanteId, etapaId, tiempo, penalizacion, observaciones)
  }

  /** Normalising a normalised form changes nothing. */
  lemma NormalizarIdempotent(d: TiempoForm)
    ensures NormalizarTiempoData(NormalizarTiempoData(d)) == NormalizarTiempoData(d)
  {
  }
}
