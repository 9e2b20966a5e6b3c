/**
 * The `tiempos` table and the handlers that write it: the two
 * re-ranking passes, the bonus endpoint, the two inserts of the controller,
 * the update of the controller and of the route, and the delete. Each method
 * is proved against the specification functions of `Ranking`.
 */
module TiemposStore {
  import opened Base
  import opened Js
  import opened Sorting
  import opened TimingRules
  import opened Ranking

  /** Why a handler answers with an error and leaves the table as it was. */
  datatype Rechazo =
    | FaltanCampos            // a required field is missing or falsy
    | ValoresInvalidos        // a field that must be a number is NaN, or the time is not positive
    | TiempoRequerido         // the update got no time
    | PenalizacionNegativa
    | YaExiste                // the participant already has a time in that stage
    | ParticipanteNoEncontrado
    | EtapaNoEncontrada
    | NoEncontrado            // no row with that id
    | SinTiempos              // the stage has no rows

  /** Ids are unique and below `n`, the next serial id. */
  ghost predicate IdsBajo(rows: seq<Tiempo>, n: int)
  {
    IdsUnicos(rows) && forall k :: 0 <= k < |rows| ==> rows[k].id < n
  }

  /** At most one row per (participant, stage). */
  predicate UnoPorEtapa(rows: seq<Tiempo>)
  {
    forall i, j :: 0 <= i < j < |rows| ==>
      !(rows[i].participanteId == rows[j].participanteId && rows[i].etapaId == rows[j].etapaId)
  }

  /** `.eq('participante_id', p).eq('etapa_id', e)` finds a row. */
  predicate Registrado(rows: seq<Tiempo>, participante: int, etapa: int)
  {
    exists k :: 0 <= k < |rows| && rows[k].participanteId == participante && rows[k].etapaId == etapa
  }

  /** A row with that id exists. */
  predicate Existe(rows: seq<Tiempo>, id: int)
  {
    exists k :: 0 <= k < |rows| && rows[k].id == id
  }

  // ---------------------------------------------------------------- single-row writes, `.update(...).eq('id', id)`

  /** `.update({ posicion: p }).eq('id', id)`. */
  function PonerPosicion(rows: seq<Tiempo>, id: int, p: int): (r: seq<Tiempo>)
    ensures |r| == |rows|
    ensures forall k :: 0 <= k < |rows| ==>
      r[k] == if rows[k].id == id then rows[k].(posicion := Some(p)) else rows[k]
  {
    MapSeq(rows, (x: Tiempo) => if x.id == id then x.(posicion := Some(p)) else x)
  }

  /** `.update({ tiempo, observaciones }).eq('id', id)`, with `posicion` too when it is given. */
  function PonerBonificacion(rows: seq<Tiempo>, id: int, tiempo: int, posicion: Option<int>, nota: string): (r: seq<Tiempo>)
    ensures |r| == |rows|
    ensures forall k :: 0 <= k < |rows| ==>
      r[k] == if rows[k].id != id then rows[k]
              else if posicion.Some? then rows[k].(tiempo := tiempo, posicion := posicion, observaciones := Some(nota))
              else rows[k].(tiempo := tiempo, observaciones := Some(nota))
  {
    MapSeq(rows, (x: Tiempo) =>
      if x.id != id then x
      else if posicion.Some? then x.(tiempo := tiempo, posicion := posicion, observaciones := Some(nota))
      else x.(tiempo := tiempo, observaciones := Some(nota)))
  }

  /** The note of an insert with a bonus: the given note, if truthy, then the bonus note. */
  function ConNota(observaciones: Option<string>, posicion: int): (s: string)
    ensures |s| >= |Nota(posicion)|
  {
    if observaciones.Some? && observaciones.value != "" then observaciones.value + ". " + Nota(posicion)
    else Nota(posicion)
  }

  // ---------------------------------------------------------------- the state of a pass half-way through

  /** A row once the first pass has written places 1..i. */
  function Hasta(x: Tiempo, p: Option<nat>, i: int): Tiempo
  {
    if p.Some? && p.value < i then Posicionar(x, p) else x
  }

  /** A row once the bonus loop has handled the first i places, after the first pass. */
  function BonificadoHasta(x: Tiempo, p: Option<nat>, i: int): Tiempo
  {
    if p.Some? && p.value < i then Bonificar(x, p) else Posicionar(x, p)
  }

  /** A row once the bonus endpoint has handled the first i places, with no first pass. */
  function SoloBonificadoHasta(x: Tiempo, p: Option<nat>, i: int): Tiempo
  {
    if p.Some? && p.value < i then Bonificar(x, p) else x
  }

  /** Every row of `r0` as the first pass leaves it after i places of the order `o`. */
  ghost predicate PosicionesHasta(r0: seq<Tiempo>, o: seq<Tiempo>, rows: seq<Tiempo>, i: int)
  {
    |rows| == |r0| && forall k :: 0 <= k < |r0| ==> rows[k] == Hasta(r0[k], PosicionEn(o, r0[k].id), i)
  }

  /** Every row of `r0` as the bonus loop after the first pass leaves it after i places. */
  ghost predicate BonificacionesHasta(r0: seq<Tiempo>, o: seq<Tiempo>, rows: seq<Tiempo>, i: int)
  {
    |rows| == |r0| && forall k :: 0 <= k < |r0| ==> rows[k] == BonificadoHasta(r0[k], PosicionEn(o, r0[k].id), i)
  }

  /** Every row of `r0` as the bonus endpoint's loop leaves it after i places. */
  ghost predicate SoloBonificacionesHasta(r0: seq<Tiempo>, o: seq<Tiempo>, rows: seq<Tiempo>, i: int)
  {
    |rows| == |r0| && forall k :: 0 <= k < |r0| ==> rows[k] == SoloBonificadoHasta(r0[k], PosicionEn(o, r0[k].id), i)
  }

  /** `o` lists rows of `r0`, with pairwise different ids: what the loops need of the order. */
  ghost predicate OrdenDe(r0: seq<Tiempo>, o: seq<Tiempo>)
  {
    IdsUnicos(o) && forall j :: 0 <= j < |o| ==> o[j] in r0
  }

  lemma OrdenEsOrdenDe(r0: seq<Tiempo>, etapa: int)
    requires IdsUnicos(r0)
    ensures OrdenDe(r0, Orden(r0, etapa))
  {
    OrdenFacts(r0, etapa);
  }

  /** The row of `o` at index i is, in a table with unique ids, the table's row with that id. */
  lemma FilaDe(r0: seq<Tiempo>, o: seq<Tiempo>, i: int, k: int)
    requires IdsUnicos(r0) && OrdenDe(r0, o) && 0 <= i < |o| && 0 <= k < |r0| && r0[k].id == o[i].id
    ensures o[i] == r0[k] && PosicionEn(o, r0[k].id) == Some(i)
  {
    MismaFila(r0, o[i], r0[k]);
    PosicionUnica(o, i);
  }

  /** One step of the first pass, on the row at index k. */
  lemma PosicionFila(r0: seq<Tiempo>, o: seq<Tiempo>, x: Tiempo, i: int, k: int)
    requires IdsUnicos(r0) && OrdenDe(r0, o) && 0 <= i < |o| && 0 <= k < |r0|
    requires x == Hasta(r0[k], PosicionEn(o, r0[k].id), i)
    ensures (if x.id == o[i].id then x.(posicion := Some(i + 1)) else x) == Hasta(r0[k], PosicionEn(o, r0[k].id), i + 1)
  {
    var p := PosicionEn(o, r0[k].id);
    if r0[k].id == o[i].id {
      FilaDe(r0, o, i, k);
    } else {
      assert p != Some(i);
      assert x.id == r0[k].id;
    }
  }

  /** One step of the first pass: writing place i + 1 on the row with the id of `o[i]`. */
  lemma PasoPosicion(r0: seq<Tiempo>, o: seq<Tiempo>, rows: seq<Tiempo>, i: int)
    requires IdsUnicos(r0) && OrdenDe(r0, o) && 0 <= i < |o|
    requires PosicionesHasta(r0, o, rows, i)
    ensures PosicionesHasta(r0, o, PonerPosicion(rows, o[i].id, i + 1), i + 1)
  {
    var r := PonerPosicion(rows, o[i].id, i + 1);
    forall k | 0 <= k < |r0|
      ensures r[k] == Hasta(r0[k], PosicionEn(o, r0[k].id), i + 1)
    {
      PosicionFila(r0, o, rows[k], i, k);
    }
  }

  /** The writes of the bonus pass on the row in place i + 1 (i < 5), spelt out. */
  lemma BonificarPrimeros(x: Tiempo, i: int)
    requires 0 <= i < 5
    ensures Bonificar(x, Some(i)) == x.(posicion := Some(i + 1), tiempo := AplicarBonificacion(x.tiempo, Some(i + 1)),
                                        observaciones := Some(Nota(i + 1)))
  {
  }

  /** One step of the bonus loop after the first pass, on the row at index k. */
  lemma BonificacionFila(r0: seq<Tiempo>, o: seq<Tiempo>, x: Tiempo, i: int, k: int)
    requires IdsUnicos(r0) && OrdenDe(r0, o) && 0 <= i < |o| && i < 5 && 0 <= k < |r0|
    requires x == BonificadoHasta(r0[k], PosicionEn(o, r0[k].id), i)
    ensures (if x.id != o[i].id then x
             else x.(tiempo := AplicarBonificacion(o[i].tiempo, Some(i + 1)), observaciones := Some(Nota(i + 1))))
      == BonificadoHasta(r0[k], PosicionEn(o, r0[k].id), i + 1)
  {
    var p := PosicionEn(o, r0[k].id);
    BonificarKeeps(r0[k], p);
    if r0[k].id == o[i].id {
      FilaDe(r0, o, i, k);
      assert r0[k] == o[i] && x == r0[k].(posicion := Some(i + 1));
      BonificarPrimeros(r0[k], i);
      assert BonificadoHasta(r0[k], p, i + 1) == Bonificar(r0[k], Some(i));
    } else {
      assert p != Some(i);
      assert x.id == r0[k].id;
    }
  }

  /** One step of the bonus loop after the first pass. */
  lemma PasoBonificacion(r0: seq<Tiempo>, o: seq<Tiempo>, rows: seq<Tiempo>, i: int)
    requires IdsUnicos(r0) && OrdenDe(r0, o) && 0 <= i < |o| && i < 5
    requires BonificacionesHasta(r0, o, rows, i)
    ensures BonificacionesHasta(r0, o,
      PonerBonificacion(rows, o[i].id, AplicarBonificacion(o[i].tiempo, Some(i + 1)), None, Nota(i + 1)), i + 1)
  {
    var r := PonerBonificacion(rows, o[i].id, AplicarBonificacion(o[i].tiempo, Some(i + 1)), None, Nota(i + 1));
    forall k | 0 <= k < |r0|
      ensures r[k] == BonificadoHasta(r0[k], PosicionEn(o, r0[k].id), i + 1)
    {
      BonificacionFila(r0, o, rows[k], i, k);
    }
  }

  /** One step of the bonus endpoint's loop, on the row at index k. */
  lemma SoloBonificacionFila(r0: seq<Tiempo>, o: seq<Tiempo>, x: Tiempo, i: int, k: int)
    requires IdsUnicos(r0) && OrdenDe(r0, o) && 0 <= i < |o| && i < 5 && 0 <= k < |r0|
    requires x == SoloBonificadoHasta(r0[k], PosicionEn(o, r0[k].id), i)
    ensures (if x.id != o[i].id then x
             else x.(tiempo := AplicarBonificacion(o[i].tiempo, Some(i + 1)), posicion := Some(i + 1),
                     observaciones := Some(Nota(i + 1))))
      == SoloBonificadoHasta(r0[k], PosicionEn(o, r0[k].id), i + 1)
  {
    var p := PosicionEn(o, r0[k].id);
    BonificarKeeps(r0[k], p);
    if r0[k].id == o[i].id {
      FilaDe(r0, o, i, k);
      assert x == r0[k] == o[i];
      BonificarPrimeros(r0[k], i);
      assert SoloBonificadoHasta(r0[k], p, i + 1) == Bonificar(r0[k], Some(i));
    } else {
      assert p != Some(i);
      assert x.id == r0[k].id;
    }
  }

  /** The bonus endpoint's own arithmetic is `aplicarBonificacion` for places 1..5. */
  lemma RestaBonificacion(tiempo: int, i: int)
    requires 0 <= i < 5
    ensures (if tiempo - Bonificacion(i + 1) > 0 then tiempo - Bonificacion(i + 1) else 0)
         == AplicarBonificacion(tiempo, Some(i + 1))
  {
  }

  /** One step of the bonus endpoint's loop. */
  lemma PasoSoloBonificacion(r0: seq<Tiempo>, o: seq<Tiempo>, rows: seq<Tiempo>, i: int)
    requires IdsUnicos(r0) && OrdenDe(r0, o) && 0 <= i < |o| && i < 5
    requires SoloBonificacionesHasta(r0, o, rows, i)
    ensures var b := Bonificacion(i + 1);
      SoloBonificacionesHasta(r0, o,
        PonerBonificacion(rows, o[i].id, if o[i].tiempo - b > 0 then o[i].tiempo - b else 0, Some(i + 1), Nota(i + 1)), i + 1)
  {
    RestaBonificacion(o[i].tiempo, i);
    var r := PonerBonificacion(rows, o[i].id, AplicarBonificacion(o[i].tiempo, Some(i + 1)), Some(i + 1), Nota(i + 1));
    forall k | 0 <= k < |r0|
      ensures r[k] == SoloBonificadoHasta(r0[k], PosicionEn(o, r0[k].id), i + 1)
    {
      SoloBonificacionFila(r0, o, rows[k], i, k);
    }
  }

  /** The first pass keeps ids unique and below the same bound. */
  lemma RecalculadoIds(r0: seq<Tiempo>, etapa: int, n: int)
    requires IdsBajo(r0, n)
    ensures var r := Recalculado(r0, etapa);
      IdsBajo(r, n)
  {
    RecalculadoKeeps(r0, etapa);
    MismosIds(r0, Recalculado(r0, etapa), n);
  }

  /** The bonus pass keeps ids unique and below the same bound. */
  lemma BonificadoIds(r0: seq<Tiempo>, etapa: int, n: int)
    requires IdsBajo(r0, n)
    ensures var r := Bonificado(r0, etapa);
      IdsBajo(r, n)
  {
    BonificadoSpec(r0, etapa);
    MismosIds(r0, Bonificado(r0, etapa), n);
  }

  /** With no rows in the stage the bonus pass changes nothing. */
  lemma BonificadoVacio(r0: seq<Tiempo>, etapa: int)
    requires |Orden(r0, etapa)| == 0
    ensures Bonificado(r0, etapa) == r0
  {
    forall k | 0 <= k < |r0|
      ensures Bonificado(r0, etapa)[k] == r0[k]
    {
      BonificadoEn(r0, etapa, k);
    }
  }

  /** A write that keeps every id keeps ids unique and below the same bound. */
  lemma MismosIds(a: seq<Tiempo>, b: seq<Tiempo>, n: int)
    requires |a| == |b| && forall k :: 0 <= k < |a| ==> b[k].id == a[k].id
    ensures IdsUnicos(a) ==> IdsUnicos(b)
    ensures (forall k :: 0 <= k < |a| ==> a[k].id < n) ==> forall k :: 0 <= k < |b| ==> b[k].id < n
  {
  }

  /** Once the first pass has written every place of the order, the table is the recalculated one. */
  lemma FinPosiciones(r0: seq<Tiempo>, etapa: int, rows: seq<Tiempo>)
    requires PosicionesHasta(r0, Orden(r0, etapa), rows, |Orden(r0, etapa)|)
    ensures rows == Recalculado(r0, etapa)
  {
    forall k | 0 <= k < |r0|
      ensures rows[k] == Recalculado(r0, etapa)[k]
    {
      RecalculadoEn(r0, etapa, k);
    }
  }

  /** After the first pass every row is where the bonus loop starts. */
  lemma InicioBonificacion(r0: seq<Tiempo>, etapa: int, rows: seq<Tiempo>)
    requires rows == Recalculado(r0, etapa)
    ensures BonificacionesHasta(r0, Orden(r0, etapa), rows, 0)
  {
    forall k | 0 <= k < |r0|
      ensures rows[k] == BonificadoHasta(r0[k], PosicionEn(Orden(r0, etapa), r0[k].id), 0)
    {
      RecalculadoEn(r0, etapa, k);
    }
  }

  /** Once the bonus loop has handled the first min(5, N) places, the table is the bonus pass's. */
  lemma FinBonificacion(r0: seq<Tiempo>, etapa: int, rows: seq<Tiempo>, i: int)
    requires 0 <= i <= |Orden(r0, etapa)| && (i == 5 || i == |Orden(r0, etapa)|)
    requires BonificacionesHasta(r0, Orden(r0, etapa), rows, i)
    ensures rows == Bonificado(r0, etapa)
  {
    forall k | 0 <= k < |r0|
      ensures rows[k] == Bonificado(r0, etapa)[k]
    {
      BonificadoEn(r0, etapa, k);
    }
  }

  /**
   * Once the bonus endpoint's loop has handled the first min(5, N) places,
   * ids are as before and re-ranking gives the table of the bonus pass.
   */
  lemma FinSoloBonificacion(r0: seq<Tiempo>, etapa: int, rows: seq<Tiempo>, i: int, n: int)
    requires IdsBajo(r0, n)
    requires 0 <= i <= |Orden(r0, etapa)| && (i == 5 || i == |Orden(r0, etapa)|)
    requires SoloBonificacionesHasta(r0, Orden(r0, etapa), rows, i)
    ensures IdsBajo(rows, n)
    ensures Recalculado(rows, etapa) == Bonificado(r0, etapa)
  {
    MismosIds(r0, rows, n);
    BonificadoPorEtapa(r0, etapa, rows, i);
  }

  /** A row with no place in the order is kept by both passes. */
  lemma FueraDelOrden(o: seq<Tiempo>, x: Tiempo)
    requires PosicionEn(o, x.id).None?
    ensures Posicionar(x, PosicionEn(o, x.id)) == x && Bonificar(x, PosicionEn(o, x.id)) == x
  {
  }

  /** A bonus pass never moves a row out of the order or changes what the order reads. */
  lemma BonificarKeeps(x: Tiempo, p: Option<nat>)
    ensures Bonificar(x, p).id == x.id && Bonificar(x, p).etapaId == x.etapaId
    ensures Bonificar(x, p).tiempoFinal == x.tiempoFinal && Bonificar(x, p).participanteId == x.participanteId
  {
  }

  /**
   * The bonus endpoint's loop leaves the stage's first five rows with the
   * bonus, their place and the note; its closing re-rank then gives the table
   * of the bonus pass.
   */
  lemma BonificadoPorEtapa(r0: seq<Tiempo>, etapa: int, t: seq<Tiempo>, i: int)
    requires IdsUnicos(r0) && |t| == |r0| && 0 <= i <= |Orden(r0, etapa)| && (i == 5 || i == |Orden(r0, etapa)|)
    requires forall k :: 0 <= k < |r0| ==>
      t[k] == SoloBonificadoHasta(r0[k], PosicionEn(Orden(r0, etapa), r0[k].id), i)
    ensures Recalculado(t, etapa) == Bonificado(r0, etapa)
  {
    MismoOrden(r0, etapa, t, i);
    forall k | 0 <= k < |r0|
      ensures Recalculado(t, etapa)[k] == Bonificado(r0, etapa)[k]
    {
      BonificadoRepuestoEn(r0, etapa, t, i, k);
    }
  }

  /** The bonus endpoint's writes keep every row where the order had it. */
  lemma MismoOrden(r0: seq<Tiempo>, etapa: int, t: seq<Tiempo>, i: int)
    requires |t| == |r0|
    requires forall k :: 0 <= k < |r0| ==>
      t[k] == SoloBonificadoHasta(r0[k], PosicionEn(Orden(r0, etapa), r0[k].id), i)
    ensures |Recalculado(t, etapa)| == |Bonificado(r0, etapa)|
    ensures forall k :: 0 <= k < |r0| ==>
      PosicionEn(Orden(t, etapa), t[k].id) == PosicionEn(Orden(r0, etapa), r0[k].id)
  {
    var o := Orden(r0, etapa);
    var g := (x: Tiempo) => SoloBonificadoHasta(x, PosicionEn(o, x.id), i);
    assert t == MapSeq(r0, g);
    OrdenMap(r0, etapa, g);
    forall k | 0 <= k < |r0|
      ensures PosicionEn(Orden(t, etapa), t[k].id) == PosicionEn(o, r0[k].id)
    {
      PosicionEnMap(o, g, r0[k].id);
    }
  }

  lemma BonificadoRepuestoEn(r0: seq<Tiempo>, etapa: int, t: seq<Tiempo>, i: int, k: int)
    requires |t| == |r0| && 0 <= k < |r0| && 0 <= i <= |Orden(r0, etapa)| && (i == 5 || i == |Orden(r0, etapa)|)
    requires t[k] == SoloBonificadoHasta(r0[k], PosicionEn(Orden(r0, etapa), r0[k].id), i)
    requires PosicionEn(Orden(t, etapa), t[k].id) == PosicionEn(Orden(r0, etapa), r0[k].id)
    ensures Recalculado(t, etapa)[k] == Bonificado(r0, etapa)[k]
  {
    RecalculadoEn(t, etapa, k);
    BonificadoEn(r0, etapa, k);
    RepuestoBonificado(r0[k], PosicionEn(Orden(r0, etapa), r0[k].id), i, |Orden(r0, etapa)|);
  }

  /** Re-ranking a row the bonus endpoint has handled, or one beyond the first five, gives the bonus pass's row. */
  lemma RepuestoBonificado(x: Tiempo, p: Option<nat>, i: int, n: int)
    requires 0 <= i <= n && (i == 5 || i == n) && (p.Some? ==> p.value < n)
    ensures Posicionar(SoloBonificadoHasta(x, p, i), p) == Bonificar(x, p)
  {
  }

  // ---------------------------------------------------------------- inserting a time

  /**
   * The body of `POST /tiempos`. `participante` None is an absent id, and 0
   * is falsy as in JavaScript; `posicion` None is an absent place;
   * `observaciones` None is an absent note.
   */
  datatype Registro = Registro(
    participante: Option<int>, etapa: JsVal, tiempo: JsVal, posicion: Option<int>,
    penalizacion: JsVal, observaciones: Option<string>)

  /** `!participante_id || !etapa_id || tiempo === undefined || tiempo === null`. */
  predicate Falta(q: Registro)
  {
    q.participante.None? || q.participante.value == 0 || !Truthy(q.etapa) || q.tiempo.Undef? || q.tiempo.Null?
  }

  /** `isNaN(parseInt(etapa_id)) || isNaN(parseInt(tiempo)) || parseInt(tiempo) <= 0`. */
  predicate Invalido(q: Registro)
  {
    ParseIntVal(q.etapa).None? || ParseIntVal(q.tiempo).None? || ParseIntVal(q.tiempo).value <= 0
  }

  /** The place an insert stores: the given one when truthy, else the stage's row count plus one. */
  function PosicionInicial(posicion: Option<int>, rows: seq<Tiempo>, etapa: int): (p: Option<int>)
    ensures p.Some? && p.value != 0
  {
    if posicion.Some? && posicion.value != 0 then posicion else Some(|DeEtapa(rows, etapa)| + 1)
  }

  /**
   * `ORDER BY hora_salida ASC LIMIT 1` over the categories' start times: the
   * smallest non-null one, strings compared code point by code point.
   */
  function HoraBase(horas: seq<Option<string>>): (b: Option<string>)
    ensures b.Some? ==> b in horas
    ensures b.None? <==> forall k :: 0 <= k < |horas| ==> horas[k].None?
  {
    if horas == [] then None
    else
      var r := HoraBase(horas[1..]);
      assert forall k :: 1 <= k < |horas| ==> horas[k] == horas[1..][k - 1];
      if horas[0].None? then r
      else if r.None? || LexLess(horas[0].value, r.value) then horas[0]
      else r
  }

  /** No category starts before the base. */
  lemma {:induction false} HoraBaseMinima(horas: seq<Option<string>>)
    ensures var b := HoraBase(horas);
      b.Some? ==> forall k :: 0 <= k < |horas| && horas[k].Some? ==> !LexLess(horas[k].value, b.value)
  {
    if horas != [] {
      var r := HoraBase(horas[1..]);
      HoraBaseMinima(horas[1..]);
      var b := HoraBase(horas);
      if b.Some? {
        forall k | 0 <= k < |horas| && horas[k].Some?
          ensures !LexLess(horas[k].value, b.value)
        {
          if k == 0 {
            LexLessIrreflexive(b.value);
            if horas[0] != b {
              assert r == b && !LexLess(horas[0].value, r.value);
            }
          } else {
            assert horas[k] == horas[1..][k - 1];
            if b != r {
              assert LexLess(horas[0].value, r.value) && b == horas[0];
              if LexLess(horas[k].value, b.value) {
                LexLessTransitive(horas[k].value, b.value, r.value);
              }
            }
          }
        }
      }
    }
  }

  /**
   * The `tiempo_final` `registrarTiempo` stores: the time plus the start
   * offset of the participant's category against the base, when the category
   * has a start and a base exists. Otherwise the source leaves the column out
   * of the insert; the model takes it to hold the time itself. None is the
   * NaN of an unreadable start, which the JSON body carries as null.
   */
  function TiempoFinalRegistro(tiempo: int, horaCategoria: Option<string>, horas: seq<Option<string>>): Option<int>
  {
    if horaCategoria.Some? && horaCategoria.value != "" then
      var base := HoraBase(horas);
      if base.Some? && base.value != "" then
        var d := DiferenciaSalida(horaCategoria.value, base.value);
        if d.Some? then Some(tiempo + d.value) else None
      else Some(tiempo)
    else Some(tiempo)
  }

  /** Without a category start, or without a base, the stored final time is the time. */
  lemma TiempoFinalSinSalida(tiempo: int, horaCategoria: Option<string>, horas: seq<Option<string>>)
    requires horaCategoria.None? || horaCategoria == Some("") || forall k :: 0 <= k < |horas| ==> horas[k].None?
    ensures TiempoFinalRegistro(tiempo, horaCategoria, horas) == Some(tiempo)
  {
  }

  /** A category that starts with the base has no offset. */
  lemma TiempoFinalCategoriaBase(tiempo: int, horas: seq<Option<string>>)
    requires HoraBase(horas).Some? && HoraBase(horas).value != ""
    requires SegundosDelDia(HoraBase(horas).value).Some?
    ensures TiempoFinalRegistro(tiempo, HoraBase(horas), horas) == Some(tiempo)
  {
    DiferenciaSalidaAntisymmetric(HoraBase(horas).value, HoraBase(horas).value);
  }

  /** With readable starts the final time is the time plus the start difference in ms. */
  lemma TiempoFinalConSalida(tiempo: int, hora: string, horas: seq<Option<string>>)
    requires hora != "" && HoraBase(horas).Some? && HoraBase(horas).value != ""
    requires SegundosDelDia(hora).Some? && SegundosDelDia(HoraBase(horas).value).Some?
    ensures TiempoFinalRegistro(tiempo, Some(hora), horas).Some?
    ensures TiempoFinalRegistro(tiempo, Some(hora), horas).value
         == tiempo + (SegundosDelDia(hora).value - SegundosDelDia(HoraBase(horas).value).value) * 1000
  {
    DiferenciaSalidaOf(hora, HoraBase(horas).value);
  }

  /** An insert of a pair nobody holds, followed by a re-rank, keeps one row per (participant, stage). */
  lemma UnoPorEtapaInsertar(rows: seq<Tiempo>, t: Tiempo, etapa: int)
    requires IdsUnicos(rows + [t]) && UnoPorEtapa(rows) && !Registrado(rows, t.participanteId, t.etapaId)
    ensures UnoPorEtapa(Recalculado(rows + [t], etapa))
  {
    var s := rows + [t];
    assert UnoPorEtapa(s) by {
      forall i, j | 0 <= i < j < |s|
        ensures !(s[i].participanteId == s[j].participanteId && s[i].etapaId == s[j].etapaId)
      {
        if j == |rows| {
          assert s[i] == rows[i];
        } else {
          assert s[i] == rows[i] && s[j] == rows[j];
        }
      }
    }
    UnoPorEtapaRecalculado(s, etapa);
  }

  /** Re-ranking keeps one row per (participant, stage). */
  lemma UnoPorEtapaRecalculado(rows: seq<Tiempo>, etapa: int)
    requires IdsUnicos(rows) && UnoPorEtapa(rows)
    ensures UnoPorEtapa(Recalculado(rows, etapa))
  {
    RecalculadoKeeps(rows, etapa);
    var r := Recalculado(rows, etapa);
    assert forall k :: 0 <= k < |r| ==> r[k].participanteId == rows[k].participanteId && r[k].etapaId == rows[k].etapaId;
  }

  /** The bonus pass keeps one row per (participant, stage). */
  lemma UnoPorEtapaBonificado(rows: seq<Tiempo>, etapa: int)
    requires IdsUnicos(rows) && UnoPorEtapa(rows)
    ensures UnoPorEtapa(Bonificado(rows, etapa))
  {
    BonificadoSpec(rows, etapa);
  }

  /** A fresh id keeps ids unique and below the next one. */
  lemma IdNuevo(rows: seq<Tiempo>, t: Tiempo, n: int)
    requires IdsBajo(rows, n) && t.id == n
    ensures IdsBajo(rows + [t], n + 1)
  {
  }

  // ---------------------------------------------------------------- the table

  // ---------------------------------------------------------------- updating and deleting a time

  /**
   * The body of the controller's `PUT /tiempos/:id`. `participante` and
   * `etapa` None are absent ids (0 is falsy as well); `observaciones` None
   * is an absent key, Some(None) an explicit null.
   */
  datatype Cambio = Cambio(
    participante: Option<int>, etapa: Option<int>, tiempo: JsVal, penalizacion: JsVal,
    observaciones: Option<Option<string>>)

  predicate Dado(x: Option<int>) { x.Some? && x.value != 0 }

  /** The stored row after the update's write, before any re-rank; `tiempo_final` is not written. */
  function Cambiado(a: Tiempo, q: Cambio): (t: Tiempo)
    requires ParseIntVal(q.tiempo).Some?
    ensures t.id == a.id && t.tiempoFinal == a.tiempoFinal && t.posicion == a.posicion
    ensures t.participanteId == (if Dado(q.participante) then q.participante.value else a.participanteId)
    ensures t.etapaId == (if Dado(q.etapa) then q.etapa.value else a.etapaId)
    ensures t.tiempo == ParseIntVal(q.tiempo).value && t.penalizacion == Or0(ParseIntVal(q.penalizacion))
    ensures t.observaciones == (if q.observaciones.Some? then q.observaciones.value else a.observaciones)
  {
    Tiempo(a.id,
      if Dado(q.participante) then q.participante.value else a.participanteId,
      if Dado(q.etapa) then q.etapa.value else a.etapaId,
      ParseIntVal(q.tiempo).value, Or0(ParseIntVal(q.penalizacion)), a.tiempoFinal, a.posicion,
      if q.observaciones.Some? then q.observaciones.value else a.observaciones)
  }

  /** Another row than `id` holds the pair (participant, stage). */
  predicate Conflicto(rows: seq<Tiempo>, id: int, participante: int, etapa: int)
  {
    exists j :: 0 <= j < |rows| && rows[j].id != id && rows[j].participanteId == participante && rows[j].etapaId == etapa
  }

  /**
   * The update as written looks for another row holding the pair only when
   * a truthy stage that differs from the current one is given.
   */
  predicate ConflictoComoEscrito(rows: seq<Tiempo>, id: int, q: Cambio, actual: Tiempo)
  {
    var participante := if Dado(q.participante) then q.participante.value else actual.participanteId;
    Dado(q.etapa) && q.etapa.value != actual.etapaId && Conflicto(rows, id, participante, q.etapa.value)
  }

  /** Updating a row to a pair no other row holds keeps one row per (participant, stage). */
  lemma UnoPorEtapaReemplazar(rows: seq<Tiempo>, k: int, t: Tiempo)
    requires IdsUnicos(rows) && UnoPorEtapa(rows) && 0 <= k < |rows| && t.id == rows[k].id
    requires !Conflicto(rows, t.id, t.participanteId, t.etapaId)
    ensures UnoPorEtapa(rows[k := t])
  {
    var s := rows[k := t];
    forall i, j | 0 <= i < j < |s|
      ensures !(s[i].participanteId == s[j].participanteId && s[i].etapaId == s[j].etapaId)
    {
      if i == k {
        assert rows[j].id != t.id;
      } else if j == k {
        assert rows[i].id != t.id;
      }
    }
  }

  /** Replacing a row by one with the same id keeps ids unique and bounded. */
  lemma IdsReemplazar(rows: seq<Tiempo>, k: int, t: Tiempo, n: int)
    requires IdsBajo(rows, n) && 0 <= k < |rows| && t.id == rows[k].id
    ensures var s := rows[k := t]; IdsBajo(s, n)
  {
  }

  /**
   * The update as written re-ranks only the row's new stage
   * (`recalcularPosiciones(finalEtapaId)`).
   */
  function ReordenComoEscrito(rows: seq<Tiempo>, vieja: int, nueva: int): (r: seq<Tiempo>)
    requires IdsUnicos(rows)
    ensures Densa(r, nueva)
  {
    RecalculadoDense(rows, nueva);
    Recalculado(rows, nueva)
  }

  /** The corrected re-rank: the new stage and, when the row left it, the old one. */
  function Reordenado(rows: seq<Tiempo>, vieja: int, nueva: int): seq<Tiempo>
  {
    var r := Recalculado(rows, nueva);
    if vieja == nueva then r else Recalculado(r, vieja)
  }

  /** After the corrected re-rank both stages hold the places 1..N, each once. */
  lemma ReordenadoDensa(rows: seq<Tiempo>, vieja: int, nueva: int)
    requires IdsUnicos(rows)
    ensures Densa(Reordenado(rows, vieja, nueva), vieja) && Densa(Reordenado(rows, vieja, nueva), nueva)
  {
    var r := Recalculado(rows, nueva);
    RecalculadoDense(rows, nueva);
    if vieja != nueva {
      RecalculadoKeeps(rows, nueva);
      assert IdsUnicos(r) by {
        assert forall j :: 0 <= j < |r| ==> r[j].id == rows[j].id;
      }
      RecalculadoDense(r, vieja);
      DensaOtraEtapa(r, vieja, nueva);
    }
  }

  /** The corrected re-rank changes only places, so it keeps ids and pairs. */
  lemma ReordenadoKeeps(rows: seq<Tiempo>, vieja: int, nueva: int)
    requires IdsUnicos(rows)
    ensures var r := Reordenado(rows, vieja, nueva);
      |r| == |rows| && forall k :: 0 <= k < |rows| ==> r[k] == rows[k].(posicion := r[k].posicion)
  {
    var r := Recalculado(rows, nueva);
    RecalculadoKeeps(rows, nueva);
    if vieja != nueva {
      assert IdsUnicos(r) by {
        assert forall j :: 0 <= j < |r| ==> r[j].id == rows[j].id;
      }
      RecalculadoKeeps(r, vieja);
    }
  }

  /** A re-rank that keeps pairs keeps one row per (participant, stage). */
  lemma UnoPorEtapaReordenado(rows: seq<Tiempo>, vieja: int, nueva: int)
    requires IdsUnicos(rows) && UnoPorEtapa(rows)
    ensures UnoPorEtapa(Reordenado(rows, vieja, nueva))
  {
    ReordenadoKeeps(rows, vieja, nueva);
    var r := Reordenado(rows, vieja, nueva);
    assert forall k :: 0 <= k < |r| ==> r[k].participanteId == rows[k].participanteId && r[k].etapaId == rows[k].etapaId;
  }

  /** Two rows of stage 1, at places 1 and 2, for the counterexamples below. */
  function DosEnEtapaUno(): seq<Tiempo>
  {
    [Tiempo(1, 10, 1, 100, 0, Some(100), Some(1), None), Tiempo(2, 20, 1, 200, 0, Some(200), Some(2), None)]
  }

  /**
   * As written, an update that gives participant 10 to row 2 but no stage
   * skips the pair check and leaves two rows for (10, 1).
   */
  lemma ConflictoComoEscritoDejaDuplicado()
    ensures var rows := DosEnEtapaUno();
      var q := Cambio(Some(10), None, Num(200), Undef, None);
      var t := Cambiado(rows[1], q);
      UnoPorEtapa(rows) && !ConflictoComoEscrito(rows, 2, q, rows[1])
      && Conflicto(rows, 2, t.participanteId, t.etapaId) && !UnoPorEtapa(rows[1 := t])
  {
    var rows := DosEnEtapaUno();
    var q := Cambio(Some(10), None, Num(200), Undef, None);
    var t := Cambiado(rows[1], q);
    assert rows[1 := t][0].participanteId == rows[1 := t][1].participanteId;
    assert rows[0].id != 2;
  }

  /**
   * As written, moving row 1 from stage 1 to stage 2 leaves row 2 alone in
   * stage 1 at place 2, so place 1 of stage 1 is empty.
   */
  lemma ReordenComoEscritoDejaHueco()
    ensures var rows := DosEnEtapaUno()[0 := DosEnEtapaUno()[0].(etapaId := 2)];
      IdsUnicos(rows) && !Densa(ReordenComoEscrito(rows, 1, 2), 1)
  {
    var rows := DosEnEtapaUno()[0 := DosEnEtapaUno()[0].(etapaId := 2)];
    var r := ReordenComoEscrito(rows, 1, 2);
    RecalculadoEn(rows, 2, 1);
    PosicionOtraEtapa(rows, 2, 1);
    assert r[1] == rows[1];
    DeEtapaRecalculado(rows, 2, 1);
    assert DeEtapa(rows, 1) == [rows[1]];
  }

  /** The body of the route's `PUT /tiempos/:id`: JSON numbers, `penalizacion` 0 when absent. */
  datatype CambioCompleto = CambioCompleto(
    participante: int, etapa: int, tiempo: int, penalizacion: int, observaciones: Option<Option<string>>)

  /** The stored row after the route's write, before any re-rank. */
  function CambiadoCompleto(a: Tiempo, q: CambioCompleto): (t: Tiempo)
    ensures t.id == a.id && t.posicion == a.posicion
    ensures t.participanteId == q.participante && t.etapaId == q.etapa
    ensures t.tiempo == q.tiempo && t.penalizacion == q.penalizacion
    ensures t.tiempoFinal == Some(q.tiempo + q.penalizacion)
    ensures t.observaciones == (if q.observaciones.Some? then q.observaciones.value else a.observaciones)
  {
    Tiempo(a.id, q.participante, q.etapa, q.tiempo, q.penalizacion, Some(q.tiempo + q.penalizacion), a.posicion,
      if q.observaciones.Some? then q.observaciones.value else a.observaciones)
  }

  /**
   * The route's `PUT /tiempos/:id` as written: it moves row 1 of the two
   * rows above to stage 2 and re-ranks stage 2 alone, so place 1 of stage 1
   * is left empty.
   */
  lemma PutComoEscritoDejaHueco()
    ensures var a := DosEnEtapaUno();
      var t := CambiadoCompleto(a[0], CambioCompleto(10, 2, 100, 0, None));
      IdsUnicos(a[0 := t]) && !Densa(ReordenComoEscrito(a[0 := t], 1, 2), 1)
  {
    var a := DosEnEtapaUno();
    var t := CambiadoCompleto(a[0], CambioCompleto(10, 2, 100, 0, None));
    assert t == DosEnEtapaUno()[0].(etapaId := 2);
    ReordenComoEscritoDejaHueco();
  }

  /** The update's time is missing, NaN or not positive. */
  predicate TiempoMalo(q: Cambio)
  {
    ParseIntVal(q.tiempo).None? || ParseIntVal(q.tiempo).value <= 0
  }

  /** Removing a row keeps ids unique. */
  lemma QuitarUnicos(rows: seq<Tiempo>, k: int)
    requires IdsUnicos(rows) && 0 <= k < |rows|
    ensures IdsUnicos(Quitar(rows, k))
  {
    var r := Quitar(rows, k);
    forall i, j | 0 <= i < j < |r|
      ensures r[i].id != r[j].id
    {
      var i', j' := if i < k then i else i + 1, if j < k then j else j + 1;
      assert r[i] == rows[i'] && r[j] == rows[j'];
    }
  }

  /** Removing a row keeps ids unique and bounded, and the id is gone. */
  lemma QuitarIds(rows: seq<Tiempo>, k: int, n: int)
    requires IdsBajo(rows, n) && 0 <= k < |rows|
    ensures var r := Quitar(rows, k);
      IdsBajo(r, n) && !Existe(r, rows[k].id)
  {
    QuitarUnicos(rows, k);
  }

  /** Removing a row keeps one row per (participant, stage). */
  lemma QuitarUno(rows: seq<Tiempo>, k: int)
    requires UnoPorEtapa(rows) && 0 <= k < |rows|
    ensures UnoPorEtapa(Quitar(rows, k))
  {
    var r := Quitar(rows, k);
    forall i, j | 0 <= i < j < |r|
      ensures !(r[i].participanteId == r[j].participanteId && r[i].etapaId == r[j].etapaId)
    {
      var i', j' := if i < k then i else i + 1, if j < k then j else j + 1;
      assert r[i] == rows[i'] && r[j] == rows[j'];
    }
  }

  /** Removing a row leaves its stage one row shorter. */
  lemma QuitarCuenta(rows: seq<Tiempo>, k: int)
    requires 0 <= k < |rows|
    ensures |DeEtapa(Quitar(rows, k), rows[k].etapaId)| == |DeEtapa(rows, rows[k].etapaId)| - 1
  {
    var r := Quitar(rows, k);
    var a, x, b := rows[..k], rows[k], rows[k + 1..];
    assert rows == (a + [x]) + b && r == a + b;
    DeEtapaConcat(a + [x], b, x.etapaId);
    DeEtapaConcat(a, [x], x.etapaId);
    DeEtapaConcat(a, b, x.etapaId);
    assert DeEtapa([x], x.etapaId) == DeEtapa([], x.etapaId) + [x] by {
      assert [x][..0] == [];
    }
  }

  /** `deleteTiempo`'s new table: the row removed, then its stage re-ranked when it has one. */
  function Borrado(rows: seq<Tiempo>, k: int): seq<Tiempo>
    requires 0 <= k < |rows|
  {
    var e := rows[k].etapaId;
    if e != 0 then Recalculado(Quitar(rows, k), e) else Quitar(rows, k)
  }

  /** The delete keeps ids unique and bounded, and the id is gone. */
  lemma BorradoIds(rows: seq<Tiempo>, k: int, n: int)
    requires IdsBajo(rows, n) && 0 <= k < |rows|
    ensures var r := Borrado(rows, k);
      IdsBajo(r, n) && !Existe(r, rows[k].id)
  {
    var q := Quitar(rows, k);
    QuitarIds(rows, k, n);
    if rows[k].etapaId != 0 {
      RecalculadoKeeps(q, rows[k].etapaId);
      var r := Recalculado(q, rows[k].etapaId);
      assert forall j :: 0 <= j < |r| ==> r[j].id == q[j].id;
    }
  }

  /** After the delete the row's stage is one row shorter and, when it is a stage, dense. */
  lemma BorradoEtapa(rows: seq<Tiempo>, k: int)
    requires IdsUnicos(rows) && 0 <= k < |rows|
    ensures var r := Borrado(rows, k); var e := rows[k].etapaId;
      |DeEtapa(r, e)| == |DeEtapa(rows, e)| - 1 && (e != 0 ==> Densa(r, e))
  {
    var q := Quitar(rows, k);
    var e := rows[k].etapaId;
    QuitarUnicos(rows, k);
    QuitarCuenta(rows, k);
    if e != 0 {
      DeEtapaRecalculado(q, e, e);
      RecalculadoDense(q, e);
    }
  }

  /** The delete keeps one row per (participant, stage). */
  lemma BorradoUno(rows: seq<Tiempo>, k: int)
    requires IdsUnicos(rows) && UnoPorEtapa(rows) && 0 <= k < |rows|
    ensures UnoPorEtapa(Borrado(rows, k))
  {
    var q := Quitar(rows, k);
    QuitarUno(rows, k);
    if rows[k].etapaId != 0 {
      QuitarUnicos(rows, k);
      UnoPorEtapaRecalculado(q, rows[k].etapaId);
    }
  }

  /** Filtering a stage distributes over concatenation. */
  lemma {:induction false} DeEtapaConcat(a: seq<Tiempo>, b: seq<Tiempo>, etapa: int)
    ensures DeEtapa(a + b, etapa) == DeEtapa(a, etapa) + DeEtapa(b, etapa)
  {
    if b == [] {
      assert a + b == a;
    } else {
      var c := b[..|b| - 1];
      DeEtapaConcat(a, c, etapa);
      assert (a + b)[..|a + b| - 1] == a + c;
    }
  }

  /** The `tiempos` table: its rows in insertion order and the next serial id. */
  class TiemposTable {
    var rows: seq<Tiempo>
    var siguienteId: int

    /** Ids are unique and below the next serial id. */
    ghost predicate Valid()
      reads this
    {
      IdsBajo(rows, siguienteId)
    }

    constructor ()
      ensures Valid() && rows == [] && siguienteId == 1
    {
      rows := [];
      siguienteId := 1;
    }

    /** The first pass: writes place i + 1 on the row at index i of the order `o`. */
    method EscribirPosiciones(ghost etapa: int, o: seq<Tiempo>)
      requires Valid() && o == Orden(rows, etapa)
      modifies this
      ensures rows == Recalculado(old(rows), etapa) && siguienteId == old(siguienteId)
    {
      ghost var r0 := rows;
      OrdenEsOrdenDe(r0, etapa);
      var i := 0;
      while i < |o|
        invariant 0 <= i <= |o|
        invariant siguienteId == old(siguienteId)
        invariant PosicionesHasta(r0, o, rows, i)
      {
        PasoPosicion(r0, o, rows, i);
        rows := PonerPosicion(rows, o[i].id, i + 1);
        i := i + 1;
      }
      FinPosiciones(r0, etapa, rows);
    }

    /** `recalcularPosiciones(etapa)`, both copies: the stage's rows get places 1..N in final-time order. */
    method RecalcularPosiciones(etapa: int)
      requires Valid()
      modifies this
      ensures rows == Recalculado(old(rows), etapa) && siguienteId == old(siguienteId)
      ensures Valid()
    {
      ghost var r0 := rows;
      RecalculadoIds(r0, etapa, siguienteId);
      var o := Orden(rows, etapa);
      EscribirPosiciones(etapa, o);
      assert rows == Recalculado(r0, etapa);
    }

    /**
     * `recalcularPosicionesConBonificaciones(etapa)`: the first pass, then
     * the bonus of its place off the `tiempo` read before the passes, for
     * the first five.
     */
    method RecalcularConBonificaciones(etapa: int)
      requires Valid()
      modifies this
      ensures rows == Bonificado(old(rows), etapa) && siguienteId == old(siguienteId)
      ensures Valid()
    {
      ghost var r0 := rows;
      BonificadoIds(r0, etapa, siguienteId);
      var o := Orden(rows, etapa);
      if |o| == 0 {
        BonificadoVacio(r0, etapa);
        return;
      }
      EscribirPosiciones(etapa, o);
      InicioBonificacion(r0, etapa, rows);
      OrdenEsOrdenDe(r0, etapa);
      EscribirBonificaciones(r0, o);
      FinBonificacion(r0, etapa, rows, if |o| < 5 then |o| else 5);
    }

    /** The bonus loop after the first pass: the bonus of place i + 1 off the `tiempo` of `o[i]`, for i < 5. */
    method EscribirBonificaciones(ghost r0: seq<Tiempo>, o: seq<Tiempo>)
      requires IdsUnicos(r0) && OrdenDe(r0, o) && BonificacionesHasta(r0, o, rows, 0)
      modifies this
      ensures BonificacionesHasta(r0, o, rows, if |o| < 5 then |o| else 5) && siguienteId == old(siguienteId)
    {
      var i := 0;
      while i < 5 && i < |o|
        invariant 0 <= i <= |o| && i <= 5
        invariant siguienteId == old(siguienteId)
        invariant BonificacionesHasta(r0, o, rows, i)
      {
        var t := o[i];
        var posicion := i + 1;
        var tiempoConBonificacion := AplicarBonificacion(t.tiempo, Some(posicion));
        PasoBonificacion(r0, o, rows, i);
        rows := PonerBonificacion(rows, t.id, tiempoConBonificacion, None, Nota(posicion));
        i := i + 1;
      }
    }

    /**
     * `aplicarBonificacionesEtapa(etapa)`: rejects a stage with no rows;
     * otherwise gives the first five rows of the order their bonus, place
     * and note, then re-ranks the stage. The answer is the number of rows
     * that got a bonus.
     */
    method AplicarBonificacionesEtapa(etapa: int) returns (r: Result<nat, Rechazo>)
      requires Valid()
      modifies this
      ensures |DeEtapa(old(rows), etapa)| == 0 <==> r == Failure(SinTiempos)
      ensures r.Failure? ==> rows == old(rows)
      ensures r.Success? ==>
        rows == Bonificado(old(rows), etapa)
        && r.value == (if |DeEtapa(old(rows), etapa)| < 5 then |DeEtapa(old(rows), etapa)| else 5)
      ensures siguienteId == old(siguienteId) && Valid()
    {
      ghost var r0 := rows;
      var o := Orden(rows, etapa);
      OrdenLargo(r0, etapa);
      if |o| == 0 {
        return Failure(SinTiempos);
      }
      var n := BonificarEtapa(etapa, o);
      r := Success(n);
    }

    /** The bonus endpoint on a stage with rows: the loop over its first five, then the re-rank. */
    method BonificarEtapa(etapa: int, o: seq<Tiempo>) returns (n: nat)
      requires Valid() && o == Orden(rows, etapa)
      modifies this
      ensures rows == Bonificado(old(rows), etapa) && n == (if |o| < 5 then |o| else 5)
      ensures siguienteId == old(siguienteId) && Valid()
    {
      ghost var r0 := rows;
      OrdenEsOrdenDe(r0, etapa);
      n := EscribirSoloBonificaciones(r0, o);
      FinSoloBonificacion(r0, etapa, rows, n, siguienteId);
      ghost var r1 := rows;
      RecalcularPosiciones(etapa);
      assert rows == Recalculado(r1, etapa) == Bonificado(r0, etapa);
    }

    /** The bonus endpoint's loop: bonus, place i + 1 and note on `o[i]`, for i < 5; answers how many rows it wrote. */
    method EscribirSoloBonificaciones(ghost r0: seq<Tiempo>, o: seq<Tiempo>) returns (n: nat)
      requires IdsUnicos(r0) && OrdenDe(r0, o) && rows == r0
      modifies this
      ensures n == (if |o| < 5 then |o| else 5)
      ensures SoloBonificacionesHasta(r0, o, rows, n) && siguienteId == old(siguienteId)
    {
      var i := 0;
      while i < 5 && i < |o|
        invariant 0 <= i <= |o| && i <= 5
        invariant siguienteId == old(siguienteId)
        invariant SoloBonificacionesHasta(r0, o, rows, i)
      {
        var t := o[i];
        var posicion := i + 1;
        var bonificacion := Bonificacion(posicion);
        var tiempoConBonificacion := if t.tiempo - bonificacion > 0 then t.tiempo - bonificacion else 0;
        PasoSoloBonificacion(r0, o, rows, i);
        rows := PonerBonificacion(rows, t.id, tiempoConBonificacion, Some(posicion), Nota(posicion));
        i := i + 1;
      }
      n := i;
    }

    /** `.insert(t)` with the next serial id. */
    method Insertar(t: Tiempo)
      requires Valid() && t.id == siguienteId
      modifies this
      ensures rows == old(rows) + [t] && siguienteId == old(siguienteId) + 1
      ensures Valid()
    {
      IdNuevo(rows, t, siguienteId);
      rows := rows + [t];
      siguienteId := siguienteId + 1;
    }

    /**
     * `registrarTiempo`: checks the fields, rejects a second time for the
     * same (participant, stage) and an unknown participant, stores the time
     * with its start offset and a default place, then re-ranks the stage.
     * `categoriaDe` maps each participant to their category's `hora_salida`;
     * `horas` holds every category's `hora_salida`.
     */
    method RegistrarTiempo(q: Registro, categoriaDe: map<int, Option<string>>, horas: seq<Option<string>>)
      returns (r: Result<Tiempo, Rechazo>)
      requires Valid()
      modifies this
      ensures Falta(q) <==> r == Failure(FaltanCampos)
      ensures !Falta(q) ==> (Invalido(q) <==> r == Failure(ValoresInvalidos))
      ensures !Falta(q) && !Invalido(q) ==>
        (Registrado(old(rows), q.participante.value, ParseIntVal(q.etapa).value) <==> r == Failure(YaExiste))
      ensures !Falta(q) && !Invalido(q) && !Registrado(old(rows), q.participante.value, ParseIntVal(q.etapa).value) ==>
        (q.participante.value !in categoriaDe <==> r == Failure(ParticipanteNoEncontrado))
      ensures r.Failure? ==> rows == old(rows) && siguienteId == old(siguienteId)
      ensures r.Success? ==>
        var t := r.value;
        var tiempo := ParseIntVal(q.tiempo).value;
        t.id == old(siguienteId) && t.participanteId == q.participante.value
        && t.etapaId == ParseIntVal(q.etapa).value && t.tiempo == tiempo
        && t.penalizacion == Or0(ParseIntVal(q.penalizacion))
        && t.tiempoFinal == TiempoFinalRegistro(tiempo, categoriaDe[q.participante.value], horas)
        && t.posicion == PosicionInicial(q.posicion, old(rows), t.etapaId)
        && t.observaciones == OrNull(q.observaciones)
        && rows == Recalculado(old(rows) + [t], t.etapaId)
      ensures UnoPorEtapa(old(rows)) ==> UnoPorEtapa(rows)
      ensures Valid()
    {
      if Falta(q) {
        return Failure(FaltanCampos);
      }
      var etapaNum := ParseIntVal(q.etapa);
      var tiempoNum := ParseIntVal(q.tiempo);
      var penalizacionNum := Or0(ParseIntVal(q.penalizacion));
      if etapaNum.None? || tiempoNum.None? || tiempoNum.value <= 0 {
        return Failure(ValoresInvalidos);
      }
      var participante := q.participante.value;
      var etapa := etapaNum.value;
      if Registrado(rows, participante, etapa) {
        return Failure(YaExiste);
      }
      if participante !in categoriaDe {
        return Failure(ParticipanteNoEncontrado);
      }
      var tiempoFinal := TiempoFinalRegistro(tiempoNum.value, categoriaDe[participante], horas);
      var posicion := PosicionInicial(q.posicion, rows, etapa);
      var t := Tiempo(siguienteId, participante, etapa, tiempoNum.value, penalizacionNum, tiempoFinal, posicion,
                      OrNull(q.observaciones));
      InsertarYReordenar(t, false);
      r := Success(t);
    }

    /**
     * `registrarTiempoConBonificacion`: the same checks without the
     * participant lookup; with `aplicar` and a truthy place up to 5 the bonus
     * of that place comes off the time and a note is added; the time is
     * stored with no start offset, then the stage is re-ranked, with the
     * bonus pass when `aplicar`. The answer carries the bonus taken off.
     */
    method RegistrarConBonificacion(q: Registro, aplicar: bool) returns (r: Result<(Tiempo, int), Rechazo>)
      requires Valid()
      modifies this
      ensures Falta(q) <==> r == Failure(FaltanCampos)
      ensures !Falta(q) ==> (Invalido(q) <==> r == Failure(ValoresInvalidos))
      ensures !Falta(q) && !Invalido(q) ==>
        (Registrado(old(rows), q.participante.value, ParseIntVal(q.etapa).value) <==> r == Failure(YaExiste))
      ensures r.Failure? ==> rows == old(rows) && siguienteId == old(siguienteId)
      ensures r.Success? ==>
        var (t, b) := r.value;
        var tiempo := ParseIntVal(q.tiempo).value;
        var conBonificacion := aplicar && q.posicion.Some? && q.posicion.value != 0 && q.posicion.value <= 5;
        t.id == old(siguienteId) && t.participanteId == q.participante.value
        && t.etapaId == ParseIntVal(q.etapa).value
        && t.tiempo == (if conBonificacion then AplicarBonificacion(tiempo, q.posicion) else tiempo)
        && b == (if conBonificacion then Bonificacion(q.posicion.value) else 0)
        && t.penalizacion == Or0(ParseIntVal(q.penalizacion))
        && t.tiempoFinal == Some(t.tiempo)
        && t.posicion == PosicionInicial(q.posicion, old(rows), t.etapaId)
        && t.observaciones == (if conBonificacion then Some(ConNota(q.observaciones, q.posicion.value)) else q.observaciones)
        && rows == (if aplicar then Bonificado(old(rows) + [t], t.etapaId) else Recalculado(old(rows) + [t], t.etapaId))
      ensures UnoPorEtapa(old(rows)) ==> UnoPorEtapa(rows)
      ensures Valid()
    {
      if Falta(q) {
        return Failure(FaltanCampos);
      }
      var etapaNum := ParseIntVal(q.etapa);
      var tiempoNum := ParseIntVal(q.tiempo);
      var penalizacionNum := Or0(ParseIntVal(q.penalizacion));
      if etapaNum.None? || tiempoNum.None? || tiempoNum.value <= 0 {
        return Failure(ValoresInvalidos);
      }
      var tiempo := tiempoNum.value;
      var observaciones := q.observaciones;
      var bonificacion := 0;
      if aplicar && q.posicion.Some? && q.posicion.value != 0 && q.posicion.value <= 5 {
        tiempo := AplicarBonificacion(tiempo, q.posicion);
        bonificacion := Bonificacion(q.posicion.value);
        observaciones := Some(ConNota(q.observaciones, q.posicion.value));
      }
      var participante := q.participante.value;
      var etapa := etapaNum.value;
      if Registrado(rows, participante, etapa) {
        return Failure(YaExiste);
      }
      var posicion := PosicionInicial(q.posicion, rows, etapa);
      var t := Tiempo(siguienteId, participante, etapa, tiempo, penalizacionNum, Some(tiempo), posicion, observaciones);
      InsertarYReordenar(t, aplicar);
      r := Success((t, bonificacion));
    }

    /** Inserts a row for a pair nobody holds, then re-ranks its stage, with the bonus pass when `aplicar`. */
    method InsertarYReordenar(t: Tiempo, aplicar: bool)
      requires Valid() && t.id == siguienteId && !Registrado(rows, t.participanteId, t.etapaId)
      modifies this
      ensures rows == (if aplicar then Bonificado(old(rows) + [t], t.etapaId) else Recalculado(old(rows) + [t], t.etapaId))
      ensures siguienteId == old(siguienteId) + 1
      ensures UnoPorEtapa(old(rows)) ==> UnoPorEtapa(rows)
      ensures Valid()
    {
      ghost var r0 := rows;
      Insertar(t);
      if aplicar {
        if UnoPorEtapa(r0) {
          UnoPorEtapaInsertar(r0, t, t.etapaId);
          UnoPorEtapaBonificado(r0 + [t], t.etapaId);
        }
        RecalcularConBonificaciones(t.etapaId);
      } else {
        if UnoPorEtapa(r0) {
          UnoPorEtapaInsertar(r0, t, t.etapaId);
        }
        RecalcularPosiciones(t.etapaId);
      }
    }

    /**
     * The controller's `updateTiempo`: checks the time and the penalty, finds
     * the row, checks a given participant and stage exist, writes the fields
     * (not `tiempo_final`) and re-ranks the row's new stage. Unlike the source
     * (see `ConflictoComoEscritoDejaDuplicado` and `ReordenComoEscritoDejaHueco`),
     * it rejects every pair another row holds, not only when the stage
     * changes, and it re-ranks the old stage too when the row moved.
     */
    method UpdateTiempo(id: int, q: Cambio, participantes: set<int>, etapas: set<int>) returns (r: Result<Tiempo, Rechazo>)
      requires Valid()
      modifies this
      ensures !Truthy(q.tiempo) <==> r == Failure(TiempoRequerido)
      ensures Truthy(q.tiempo) ==> (TiempoMalo(q) <==> r == Failure(ValoresInvalidos))
      ensures Truthy(q.tiempo) && !TiempoMalo(q) ==>
        (Or0(ParseIntVal(q.penalizacion)) < 0 <==> r == Failure(PenalizacionNegativa))
      ensures Truthy(q.tiempo) && !TiempoMalo(q) && Or0(ParseIntVal(q.penalizacion)) >= 0 ==>
        (!Existe(old(rows), id) <==> r == Failure(NoEncontrado))
      ensures Truthy(q.tiempo) && !TiempoMalo(q) && Or0(ParseIntVal(q.penalizacion)) >= 0 && Existe(old(rows), id) ==>
        (Dado(q.participante) && q.participante.value !in participantes <==> r == Failure(ParticipanteNoEncontrado))
      ensures (Truthy(q.tiempo) && !TiempoMalo(q) && Or0(ParseIntVal(q.penalizacion)) >= 0 && Existe(old(rows), id)
        && !(Dado(q.participante) && q.participante.value !in participantes)) ==>
        (Dado(q.etapa) && q.etapa.value !in etapas <==> r == Failure(EtapaNoEncontrada))
      ensures (Truthy(q.tiempo) && !TiempoMalo(q) && Or0(ParseIntVal(q.penalizacion)) >= 0 && Existe(old(rows), id)
        && !(Dado(q.participante) && q.participante.value !in participantes) && !(Dado(q.etapa) && q.etapa.value !in etapas)) ==>
        var t := Cambiado(old(rows)[PosicionEn(old(rows), id).value], q);
        (Conflicto(old(rows), id, t.participanteId, t.etapaId) <==> r == Failure(YaExiste))
      ensures r.Failure? ==> rows == old(rows) && siguienteId == old(siguienteId)
      ensures r.Success? ==>
        Existe(old(rows), id) && !TiempoMalo(q)
        && var k := PosicionEn(old(rows), id).value;
        var a := old(rows)[k];
        r.value == Cambiado(a, q)
        && rows == Reordenado(old(rows)[k := r.value], a.etapaId, r.value.etapaId)
        && Densa(rows, a.etapaId) && Densa(rows, r.value.etapaId)
      ensures UnoPorEtapa(old(rows)) ==> UnoPorEtapa(rows)
      ensures Valid()
    {
      if !Truthy(q.tiempo) {
        return Failure(TiempoRequerido);
      }
      var tiempoNum := ParseIntVal(q.tiempo);
      var penalizacionNum := Or0(ParseIntVal(q.penalizacion));
      if tiempoNum.None? || tiempoNum.value <= 0 {
        return Failure(ValoresInvalidos);
      }
      if penalizacionNum < 0 {
        return Failure(PenalizacionNegativa);
      }
      var k := PosicionEn(rows, id);
      if k.None? {
        return Failure(NoEncontrado);
      }
      var a := rows[k.value];
      if Dado(q.participante) && q.participante.value !in participantes {
        return Failure(ParticipanteNoEncontrado);
      }
      if Dado(q.etapa) && q.etapa.value !in etapas {
        return Failure(EtapaNoEncontrada);
      }
      var t := Cambiado(a, q);
      if Conflicto(rows, id, t.participanteId, t.etapaId) {
        return Failure(YaExiste);
      }
      ghost var r0 := rows;
      IdsReemplazar(rows, k.value, t, siguienteId);
      if UnoPorEtapa(r0) {
        UnoPorEtapaReemplazar(r0, k.value, t);
        UnoPorEtapaReordenado(r0[k.value := t], a.etapaId, t.etapaId);
      }
      ReordenadoDensa(r0[k.value := t], a.etapaId, t.etapaId);
      rows := rows[k.value := t];
      Reordenar(a.etapaId, t.etapaId);
      r := Success(t);
    }

    /** Re-ranks the new stage, then the old one when it differs. */
    method Reordenar(vieja: int, nueva: int)
      requires Valid()
      modifies this
      ensures rows == Reordenado(old(rows), vieja, nueva) && siguienteId == old(siguienteId)
      ensures Valid()
    {
      ghost var r0 := rows;
      RecalcularPosiciones(nueva);
      if vieja != nueva {
        RecalcularPosiciones(vieja);
      }
      assert rows == Reordenado(r0, vieja, nueva);
    }

    /**
     * The route's `PUT /tiempos/:id`: all fields required, writes them with
     * `tiempo_final` = time + penalty and re-ranks; it has no pair check.
     * The source re-ranks only the new stage (see `PutComoEscritoDejaHueco`);
     * this method re-ranks the old stage as well, so both stay dense.
     */
    method PutTiempo(id: int, q: CambioCompleto, participantes: set<int>, etapas: set<int>) returns (r: Result<Tiempo, Rechazo>)
      requires Valid()
      modifies this
      ensures q.participante == 0 || q.etapa == 0 || q.tiempo == 0 <==> r == Failure(FaltanCampos)
      ensures q.participante != 0 && q.etapa != 0 && q.tiempo != 0 ==> (q.tiempo < 0 <==> r == Failure(ValoresInvalidos))
      ensures q.participante != 0 && q.etapa != 0 && q.tiempo > 0 ==> (q.penalizacion < 0 <==> r == Failure(PenalizacionNegativa))
      ensures q.participante != 0 && q.etapa != 0 && q.tiempo > 0 && q.penalizacion >= 0 ==>
        (!Existe(old(rows), id) <==> r == Failure(NoEncontrado))
      ensures q.participante != 0 && q.etapa != 0 && q.tiempo > 0 && q.penalizacion >= 0 && Existe(old(rows), id) ==>
        (q.participante !in participantes <==> r == Failure(ParticipanteNoEncontrado))
      ensures (q.participante != 0 && q.etapa != 0 && q.tiempo > 0 && q.penalizacion >= 0 && Existe(old(rows), id)
        && q.participante in participantes) ==>
        (q.etapa !in etapas <==> r == Failure(EtapaNoEncontrada))
      ensures r.Failure? ==> rows == old(rows) && siguienteId == old(siguienteId)
      ensures r.Success? ==>
        Existe(old(rows), id)
        && var k := PosicionEn(old(rows), id).value;
        var a := old(rows)[k];
        r.value == CambiadoCompleto(a, q)
        && rows == Reordenado(old(rows)[k := r.value], a.etapaId, q.etapa)
        && Densa(rows, a.etapaId) && Densa(rows, q.etapa)
      ensures Valid()
    {
      if q.participante == 0 || q.etapa == 0 || q.tiempo == 0 {
        return Failure(FaltanCampos);
      }
      if q.tiempo <= 0 {
        return Failure(ValoresInvalidos);
      }
      if q.penalizacion < 0 {
        return Failure(PenalizacionNegativa);
      }
      var k := PosicionEn(rows, id);
      if k.None? {
        return Failure(NoEncontrado);
      }
      if q.participante !in participantes {
        return Failure(ParticipanteNoEncontrado);
      }
      if q.etapa !in etapas {
        return Failure(EtapaNoEncontrada);
      }
      var a := rows[k.value];
      var t := CambiadoCompleto(a, q);
      IdsReemplazar(rows, k.value, t, siguienteId);
      ReordenadoDensa(rows[k.value := t], a.etapaId, t.etapaId);
      rows := rows[k.value := t];
      Reordenar(a.etapaId, t.etapaId);
      r := Success(t);
    }

    /**
     * `deleteTiempo`: removes the row and, when it had a stage, re-ranks
     * that stage. The answer carries the removed row.
     */
    method DeleteTiempo(id: int) returns (r: Result<Tiempo, Rechazo>)
      requires Valid()
      modifies this
      ensures !Existe(old(rows), id) <==> r == Failure(NoEncontrado)
      ensures r.Failure? ==> rows == old(rows) && siguienteId == old(siguienteId)
      ensures r.Success? ==>
        Existe(old(rows), id)
        && var k := PosicionEn(old(rows), id).value;
        var e := r.value.etapaId;
        r.value == old(rows)[k] && rows == Borrado(old(rows), k) && !Existe(rows, id)
        && |DeEtapa(rows, e)| == |DeEtapa(old(rows), e)| - 1
        && (e != 0 ==> Densa(rows, e))
      ensures UnoPorEtapa(old(rows)) ==> UnoPorEtapa(rows)
      ensures Valid()
    {
      var k := PosicionEn(rows, id);
      if k.None? {
        return Failure(NoEncontrado);
      }
      var a := rows[k.value];
      ghost var r0 := rows;
      BorradoIds(rows, k.value, siguienteId);
      BorradoEtapa(rows, k.value);
      if UnoPorEtapa(r0) {
        BorradoUno(r0, k.value);
      }
      Borrar(k.value);
      r := Success(a);
    }

    /** Removes the row at index k, then re-ranks its stage when it has one. */
    method Borrar(k: int)
      requires Valid() && 0 <= k < |rows|
      modifies this
      ensures rows == Borrado(old(rows), k) && siguienteId == old(siguienteId)
      ensures Valid()
    {
      var e := rows[k].etapaId;
      ghost var r0 := rows;
      BorradoIds(rows, k, siguienteId);
      QuitarIds(rows, k, siguienteId);
      rows := Quitar(rows, k);
      if e != 0 {
        RecalcularPosiciones(e);
      }
      assert rows == Borrado(r0, k);
    }
  }
}
