/**
 * The stage ranking as the controller and the routes recompute it: a stage's
 * rows are read in ascending `tiempo_final` order (a null `tiempo_final`
 * last) and the i-th one gets `posicion = i + 1`; the bonus pass also takes
 * the bonus of their place off the `tiempo` of the first five. Everything
 * here is a specification on the rows of the `tiempos` table; the methods
 * of `TiemposStore` are proved against it.
 */
module Ranking {
  import opened Base
  import opened Js
  import opened Sorting
  import opened TimingRules

  /** A row of the `tiempos` table. */
  datatype Tiempo = Tiempo(
    id: int, participanteId: int, etapaId: int, tiempo: int, penalizacion: int,
    tiempoFinal: Option<int>, posicion: Option<int>, observaciones: Option<string>)

  /** The primary key: no two rows share an id. */
  predicate IdsUnicos(rows: seq<Tiempo>)
  {
    forall i, j :: 0 <= i < j < |rows| ==> rows[i].id != rows[j].id
  }

  /** `ORDER BY tiempo_final ASC`: numbers ascending, a null after every number. */
  function ClaveFinal(t: Tiempo): SortKey
  {
    if t.tiempoFinal.Some? then NumKey(t.tiempoFinal.value) else TextKey("")
  }

  /** `.eq('etapa_id', etapa)`: the stage's rows in table order. */
  function DeEtapa(rows: seq<Tiempo>, etapa: int): (r: seq<Tiempo>)
    ensures forall x :: x in r <==> x in rows && x.etapaId == etapa
    ensures forall j :: 0 <= j < |r| ==> r[j].etapaId == etapa
    ensures |r| <= |rows|
  {
    if rows == [] then []
    else
      var rest := DeEtapa(rows[..|rows| - 1], etapa);
      var x := rows[|rows| - 1];
      assert rows == rows[..|rows| - 1] + [x];
      if x.etapaId == etapa then rest + [x] else rest
  }

  /** The stage's rows as the recalculation reads them: sorted by final time, ties in table order. */
  function Orden(rows: seq<Tiempo>, etapa: int): seq<Tiempo>
  {
    SortBy(DeEtapa(rows, etapa), ClaveFinal, false)
  }

  /** The index of the first row with that id. */
  function PosicionEn(o: seq<Tiempo>, id: int): (p: Option<nat>)
    ensures p.Some? ==> p.value < |o| && o[p.value].id == id
    ensures p.None? ==> forall k :: 0 <= k < |o| ==> o[k].id != id
  {
    if o == [] then None
    else if o[0].id == id then Some(0)
    else
      var p := PosicionEn(o[1..], id);
      if p.Some? then Some(p.value + 1) else None
  }

  /** The write of the first pass: the row at index `p` of the order gets place `p + 1`. */
  function Posicionar(x: Tiempo, p: Option<nat>): Tiempo
  {
    if p.Some? then x.(posicion := Some(p.value + 1)) else x
  }

  /** The table after `recalcularPosiciones(etapa)`. */
  function Recalculado(rows: seq<Tiempo>, etapa: int): seq<Tiempo>
  {
    var o := Orden(rows, etapa);
    MapSeq(rows, (x: Tiempo) => Posicionar(x, PosicionEn(o, x.id)))
  }

  /** The note a bonus pass writes on the row in place `posicion` (1..5). */
  function Nota(posicion: int): string
  {
    NotaBonificacion(Bonificacion(posicion), ShowInt(posicion))
  }

  /** The writes of the bonus pass: a place, and for the first five the bonus off `tiempo` and a note. */
  function Bonificar(x: Tiempo, p: Option<nat>): Tiempo
  {
    if p.None? then x
    else if p.value < 5 then
      var posicion := p.value + 1;
      x.(posicion := Some(posicion), tiempo := AplicarBonificacion(x.tiempo, Some(posicion)),
         observaciones := Some(Nota(posicion)))
    else x.(posicion := Some(p.value + 1))
  }

  /** The table after `recalcularPosicionesConBonificaciones(etapa)`. */
  function Bonificado(rows: seq<Tiempo>, etapa: int): seq<Tiempo>
  {
    var o := Orden(rows, etapa);
    MapSeq(rows, (x: Tiempo) => Bonificar(x, PosicionEn(o, x.id)))
  }

  // ---------------------------------------------------------------- facts about the order

  lemma {:induction false} DeEtapaIdsUnicos(rows: seq<Tiempo>, etapa: int)
    requires IdsUnicos(rows)
    ensures IdsUnicos(DeEtapa(rows, etapa))
  {
    if rows != [] {
      var init := rows[..|rows| - 1];
      assert IdsUnicos(init) by {
        assert forall i :: 0 <= i < |init| ==> init[i] == rows[i];
      }
      DeEtapaIdsUnicos(init, etapa);
      var x := rows[|rows| - 1];
      var rest := DeEtapa(init, etapa);
      if x.etapaId == etapa {
        forall j | 0 <= j < |rest|
          ensures rest[j].id != x.id
        {
          assert rest[j] in init;
          var i :| 0 <= i < |init| && init[i] == rest[j];
          assert rows[i] == rest[j];
        }
      }
    }
  }

  /**
   * The order holds exactly the stage's rows, once each, sorted by final
   * time, with pairwise different ids.
   */
  lemma OrdenFacts(rows: seq<Tiempo>, etapa: int)
    requires IdsUnicos(rows)
    ensures var o := Orden(rows, etapa);
      IdsUnicos(o) && Sorted(o, ClaveFinal, false)
      && multiset(o) == multiset(DeEtapa(rows, etapa))
      && (forall j :: 0 <= j < |o| ==> o[j] in rows && o[j].etapaId == etapa)
      && (forall k :: 0 <= k < |rows| && rows[k].etapaId == etapa ==> rows[k] in o)
  {
    var d := DeEtapa(rows, etapa);
    var o := Orden(rows, etapa);
    DeEtapaIdsUnicos(rows, etapa);
    DistinctPermutation(d, o, (x: Tiempo) => x.id);
    SortBySorted(d, ClaveFinal, false);
    forall j | 0 <= j < |o|
      ensures o[j] in rows && o[j].etapaId == etapa
    {
      assert o[j] in multiset(d);
    }
    forall k | 0 <= k < |rows| && rows[k].etapaId == etapa
      ensures rows[k] in o
    {
      assert rows[k] in d;
      assert rows[k] in multiset(o);
    }
  }

  /** In a list with pairwise different ids, the row at index j is the first with its id. */
  lemma {:induction false} PosicionUnica(o: seq<Tiempo>, j: int)
    requires IdsUnicos(o) && 0 <= j < |o|
    ensures PosicionEn(o, o[j].id) == Some(j)
  {
    if j > 0 {
      assert o[0].id != o[j].id;
      assert IdsUnicos(o[1..]) by {
        assert forall i :: 0 <= i < |o[1..]| ==> o[1..][i] == o[i + 1];
      }
      assert o[1..][j - 1] == o[j];
      PosicionUnica(o[1..], j - 1);
    }
  }

  /** Two rows of a table with pairwise different ids that share an id are the same row. */
  lemma MismaFila(rows: seq<Tiempo>, a: Tiempo, b: Tiempo)
    requires IdsUnicos(rows) && a in rows && b in rows && a.id == b.id
    ensures a == b
  {
    var i :| 0 <= i < |rows| && rows[i] == a;
    var j :| 0 <= j < |rows| && rows[j] == b;
    assert i == j;
  }

  /** The row at index k after the first pass: its own place written in. */
  lemma RecalculadoEn(rows: seq<Tiempo>, etapa: int, k: int)
    requires 0 <= k < |rows|
    ensures |Recalculado(rows, etapa)| == |rows|
    ensures Recalculado(rows, etapa)[k] == Posicionar(rows[k], PosicionEn(Orden(rows, etapa), rows[k].id))
  {
  }

  /** The row at index k after the bonus pass. */
  lemma BonificadoEn(rows: seq<Tiempo>, etapa: int, k: int)
    requires 0 <= k < |rows|
    ensures |Bonificado(rows, etapa)| == |rows|
    ensures Bonificado(rows, etapa)[k] == Bonificar(rows[k], PosicionEn(Orden(rows, etapa), rows[k].id))
  {
  }

  /** The place of a row of the stage is its index in the order, plus one. */
  lemma PosicionDeFila(rows: seq<Tiempo>, etapa: int, k: int)
    requires IdsUnicos(rows) && 0 <= k < |rows| && rows[k].etapaId == etapa
    ensures var o := Orden(rows, etapa);
      PosicionEn(o, rows[k].id).Some? && o[PosicionEn(o, rows[k].id).value] == rows[k]
  {
    var o := Orden(rows, etapa);
    OrdenFacts(rows, etapa);
    var a :| 0 <= a < |o| && o[a] == rows[k];
    PosicionUnica(o, a);
  }

  /** A row of another stage has no place in the order. */
  lemma PosicionOtraEtapa(rows: seq<Tiempo>, etapa: int, k: int)
    requires IdsUnicos(rows) && 0 <= k < |rows| && rows[k].etapaId != etapa
    ensures PosicionEn(Orden(rows, etapa), rows[k].id).None?
  {
    var o := Orden(rows, etapa);
    OrdenFacts(rows, etapa);
    var p := PosicionEn(o, rows[k].id);
    if p.Some? {
      MismaFila(rows, o[p.value], rows[k]);
    }
  }

  // ---------------------------------------------------------------- what the recalculation promises

  /** Only `posicion` changes, and only on the stage's rows: every other row, and every other column, is kept. */
  lemma RecalculadoKeeps(rows: seq<Tiempo>, etapa: int)
    requires IdsUnicos(rows)
    ensures var r := Recalculado(rows, etapa);
      |r| == |rows|
      && (forall k :: 0 <= k < |rows| ==> r[k] == rows[k].(posicion := r[k].posicion))
      && (forall k :: 0 <= k < |rows| && rows[k].etapaId != etapa ==> r[k] == rows[k])
  {
    forall k | 0 <= k < |rows| && rows[k].etapaId != etapa
      ensures Recalculado(rows, etapa)[k] == rows[k]
    {
      PosicionOtraEtapa(rows, etapa, k);
    }
  }

  /**
   * The stage's places are exactly 1..N for its N rows: each row gets one in
   * that range, two rows never share one, and every place is taken.
   */
  lemma RecalculadoDense(rows: seq<Tiempo>, etapa: int)
    requires IdsUnicos(rows)
    ensures Densa(Recalculado(rows, etapa), etapa)
  {
    var r := Recalculado(rows, etapa);
    RecalculadoKeeps(rows, etapa);
    DeEtapaRecalculado(rows, etapa, etapa);
    assert forall k :: 0 <= k < |rows| ==> r[k].etapaId == rows[k].etapaId;
    RecalculadoRango(rows, etapa);
    RecalculadoDistintas(rows, etapa);
    RecalculadoCubre(rows, etapa);
  }

  lemma RecalculadoRango(rows: seq<Tiempo>, etapa: int)
    requires IdsUnicos(rows)
    ensures var r := Recalculado(rows, etapa);
      forall k :: 0 <= k < |rows| && rows[k].etapaId == etapa ==>
        r[k].posicion.Some? && 1 <= r[k].posicion.value <= |DeEtapa(rows, etapa)|
  {
    var r := Recalculado(rows, etapa);
    OrdenLargo(rows, etapa);
    forall k | 0 <= k < |rows| && rows[k].etapaId == etapa
      ensures r[k].posicion.Some? && 1 <= r[k].posicion.value <= |DeEtapa(rows, etapa)|
    {
      PosicionDeFila(rows, etapa, k);
      RecalculadoEn(rows, etapa, k);
    }
  }

  lemma RecalculadoDistintas(rows: seq<Tiempo>, etapa: int)
    requires IdsUnicos(rows)
    ensures var r := Recalculado(rows, etapa);
      forall k, l :: 0 <= k < l < |rows| && rows[k].etapaId == etapa && rows[l].etapaId == etapa ==>
        r[k].posicion != r[l].posicion
  {
    var r := Recalculado(rows, etapa);
    forall k, l | 0 <= k < l < |rows| && rows[k].etapaId == etapa && rows[l].etapaId == etapa
      ensures r[k].posicion != r[l].posicion
    {
      PosicionDeFila(rows, etapa, k);
      PosicionDeFila(rows, etapa, l);
      RecalculadoEn(rows, etapa, k);
      RecalculadoEn(rows, etapa, l);
      assert rows[k].id != rows[l].id;
    }
  }

  lemma RecalculadoCubre(rows: seq<Tiempo>, etapa: int)
    requires IdsUnicos(rows)
    ensures var r := Recalculado(rows, etapa);
      forall p :: 1 <= p <= |DeEtapa(rows, etapa)| ==>
        exists k :: 0 <= k < |rows| && rows[k].etapaId == etapa && r[k].posicion == Some(p)
  {
    var r := Recalculado(rows, etapa);
    var o := Orden(rows, etapa);
    OrdenFacts(rows, etapa);
    OrdenLargo(rows, etapa);
    forall p | 1 <= p <= |DeEtapa(rows, etapa)|
      ensures exists k :: 0 <= k < |rows| && rows[k].etapaId == etapa && r[k].posicion == Some(p)
    {
      var x := o[p - 1];
      assert x in rows;
      var k :| 0 <= k < |rows| && rows[k] == x;
      PosicionUnica(o, p - 1);
      RecalculadoEn(rows, etapa, k);
      assert r[k].posicion == Some(p);
    }
  }

  /** The order has one entry per row of the stage. */
  lemma OrdenLargo(rows: seq<Tiempo>, etapa: int)
    ensures |Orden(rows, etapa)| == |DeEtapa(rows, etapa)|
  {
    var d := DeEtapa(rows, etapa);
    assert |multiset(Orden(rows, etapa))| == |multiset(d)|;
  }

  /** The stage's N rows hold the places 1..N, each once. */
  predicate Densa(rows: seq<Tiempo>, etapa: int)
  {
    var n := |DeEtapa(rows, etapa)|;
    (forall k :: 0 <= k < |rows| && rows[k].etapaId == etapa ==>
       rows[k].posicion.Some? && 1 <= rows[k].posicion.value <= n)
    && (forall k, l :: 0 <= k < l < |rows| && rows[k].etapaId == etapa && rows[l].etapaId == etapa ==>
       rows[k].posicion != rows[l].posicion)
    && (forall p :: 1 <= p <= n ==>
       exists k :: 0 <= k < |rows| && rows[k].etapaId == etapa && rows[k].posicion == Some(p))
  }

  /** Re-ranking a stage keeps every stage's row count. */
  lemma DeEtapaRecalculado(rows: seq<Tiempo>, etapa: int, otra: int)
    ensures |DeEtapa(Recalculado(rows, etapa), otra)| == |DeEtapa(rows, otra)|
  {
    var o := Orden(rows, etapa);
    DeEtapaMap(rows, otra, (x: Tiempo) => Posicionar(x, PosicionEn(o, x.id)));
  }

  /** Re-ranking one stage keeps the dense places of another. */
  lemma DensaOtraEtapa(rows: seq<Tiempo>, etapa: int, otra: int)
    requires IdsUnicos(rows) && etapa != otra && Densa(rows, otra)
    ensures Densa(Recalculado(rows, etapa), otra)
  {
    var r := Recalculado(rows, etapa);
    RecalculadoKeeps(rows, etapa);
    DeEtapaRecalculado(rows, etapa, otra);
    assert forall k :: 0 <= k < |rows| && (rows[k].etapaId == otra || r[k].etapaId == otra) ==> r[k] == rows[k];
    DensaIgual(rows, r, otra);
  }

  /** A table that keeps a stage's rows where they were, and its row count, keeps its dense places. */
  lemma DensaIgual(a: seq<Tiempo>, b: seq<Tiempo>, e: int)
    requires |a| == |b| && |DeEtapa(a, e)| == |DeEtapa(b, e)| && Densa(a, e)
    requires forall k :: 0 <= k < |a| && (a[k].etapaId == e || b[k].etapaId == e) ==> b[k] == a[k]
    ensures Densa(b, e)
  {
    var n := |DeEtapa(a, e)|;
    assert n == |DeEtapa(b, e)|;
    forall k | 0 <= k < |b| && b[k].etapaId == e
      ensures b[k].posicion.Some? && 1 <= b[k].posicion.value <= n
    {
      assert b[k] == a[k];
    }
    forall k, l | 0 <= k < l < |b| && b[k].etapaId == e && b[l].etapaId == e
      ensures b[k].posicion != b[l].posicion
    {
      assert b[k] == a[k] && b[l] == a[l];
    }
    forall p | 1 <= p <= n
      ensures exists k :: 0 <= k < |b| && b[k].etapaId == e && b[k].posicion == Some(p)
    {
      var k :| 0 <= k < |a| && a[k].etapaId == e && a[k].posicion == Some(p);
      assert b[k] == a[k];
    }
  }

  /** A strictly smaller final time gets a strictly better place. */
  lemma RecalculadoOrdered(rows: seq<Tiempo>, etapa: int, k: int, l: int)
    requires IdsUnicos(rows) && 0 <= k < |rows| && 0 <= l < |rows|
    requires rows[k].etapaId == etapa && rows[l].etapaId == etapa
    requires KeyLess(ClaveFinal(rows[k]), ClaveFinal(rows[l]))
    ensures var r := Recalculado(rows, etapa);
      r[k].posicion.Some? && r[l].posicion.Some? && r[k].posicion.value < r[l].posicion.value
  {
    var o := Orden(rows, etapa);
    OrdenFacts(rows, etapa);
    PosicionDeFila(rows, etapa, k);
    PosicionDeFila(rows, etapa, l);
    RecalculadoEn(rows, etapa, k);
    RecalculadoEn(rows, etapa, l);
    var a := PosicionEn(o, rows[k].id).value;
    var b := PosicionEn(o, rows[l].id).value;
    OrdenAntes(o, a, b, rows[k], rows[l]);
  }

  /** In a sorted order, the row with the strictly smaller key sits strictly earlier. */
  lemma OrdenAntes(o: seq<Tiempo>, a: nat, b: nat, x: Tiempo, y: Tiempo)
    requires Sorted(o, ClaveFinal, false) && a < |o| && b < |o| && o[a] == x && o[b] == y
    requires KeyLess(ClaveFinal(x), ClaveFinal(y))
    ensures a < b
  {
    KeyLessOrder(ClaveFinal(x), ClaveFinal(y), ClaveFinal(x));
  }

  /** A stage without rows leaves the table as it was. */
  lemma RecalculadoEmpty(rows: seq<Tiempo>, etapa: int)
    requires DeEtapa(rows, etapa) == []
    ensures Recalculado(rows, etapa) == rows
  {
    assert Orden(rows, etapa) == [];
  }

  /** Recomputing the places of a stage whose places were just computed changes nothing. */
  lemma RecalculadoIdempotent(rows: seq<Tiempo>, etapa: int)
    ensures Recalculado(Recalculado(rows, etapa), etapa) == Recalculado(rows, etapa)
  {
    var o := Orden(rows, etapa);
    var g := (x: Tiempo) => Posicionar(x, PosicionEn(o, x.id));
    var r := Recalculado(rows, etapa);
    assert r == MapSeq(rows, g);
    OrdenMap(rows, etapa, g);
    forall k | 0 <= k < |r|
      ensures Recalculado(r, etapa)[k] == r[k]
    {
      PosicionEnMap(o, g, r[k].id);
    }
  }

  /** A change that keeps ids, stages and final times leaves the stage order the same up to that change. */
  lemma OrdenMap(rows: seq<Tiempo>, etapa: int, g: Tiempo -> Tiempo)
    requires forall y :: g(y).id == y.id && g(y).etapaId == y.etapaId && g(y).tiempoFinal == y.tiempoFinal
    ensures Orden(MapSeq(rows, g), etapa) == MapSeq(Orden(rows, etapa), g)
  {
    DeEtapaMap(rows, etapa, g);
    assert forall y :: ClaveFinal(g(y)) == ClaveFinal(y);
    SortByMap(DeEtapa(rows, etapa), ClaveFinal, false, g);
  }

  lemma {:induction false} DeEtapaMap(rows: seq<Tiempo>, etapa: int, g: Tiempo -> Tiempo)
    requires forall y :: g(y).etapaId == y.etapaId
    ensures DeEtapa(MapSeq(rows, g), etapa) == MapSeq(DeEtapa(rows, etapa), g)
  {
    if rows != [] {
      var init, x := rows[..|rows| - 1], rows[|rows| - 1];
      var m := MapSeq(rows, g);
      assert rows == init + [x];
      MapSeqSnoc(init, x, g);
      assert m[..|m| - 1] == MapSeq(init, g) && m[|m| - 1] == g(x);
      DeEtapaMap(init, etapa, g);
      if x.etapaId == etapa {
        MapSeqSnoc(DeEtapa(init, etapa), x, g);
      }
    }
  }

  lemma {:induction false} PosicionEnMap(o: seq<Tiempo>, g: Tiempo -> Tiempo, id: int)
    requires forall y :: g(y).id == y.id
    ensures PosicionEn(MapSeq(o, g), id) == PosicionEn(o, id)
  {
    if o != [] {
      assert MapSeq(o, g)[1..] == MapSeq(o[1..], g);
      PosicionEnMap(o[1..], g, id);
    }
  }

  // ---------------------------------------------------------------- what the bonus pass promises

  /**
   * The bonus pass gives the same places as the plain recalculation; on the
   * first five it takes their place's bonus off `tiempo` and writes the note;
   * nothing else changes.
   */
  lemma BonificadoSpec(rows: seq<Tiempo>, etapa: int)
    requires IdsUnicos(rows)
    ensures |Bonificado(rows, etapa)| == |rows|
    ensures forall k :: 0 <= k < |rows| ==>
      var b := Bonificado(rows, etapa)[k]; var r := Recalculado(rows, etapa)[k];
      b.posicion == r.posicion && b.id == rows[k].id && b.etapaId == rows[k].etapaId
      && b.tiempoFinal == rows[k].tiempoFinal && b.penalizacion == rows[k].penalizacion
      && b.participanteId == rows[k].participanteId
      && (rows[k].etapaId != etapa ==> b == rows[k])
      && (rows[k].etapaId == etapa ==>
            r.posicion.Some?
            && b.tiempo == (if r.posicion.value <= 5 then AplicarBonificacion(rows[k].tiempo, r.posicion) else rows[k].tiempo)
            && b.observaciones == (if r.posicion.value <= 5 then Some(Nota(r.posicion.value)) else rows[k].observaciones))
  {
    if rows != [] {
      BonificadoEn(rows, etapa, 0);
    }
    forall k | 0 <= k < |rows|
      ensures var b := Bonificado(rows, etapa)[k]; var r := Recalculado(rows, etapa)[k];
      b.posicion == r.posicion && b.id == rows[k].id && b.etapaId == rows[k].etapaId
      && b.tiempoFinal == rows[k].tiempoFinal && b.penalizacion == rows[k].penalizacion
      && b.participanteId == rows[k].participanteId
      && (rows[k].etapaId != etapa ==> b == rows[k])
      && (rows[k].etapaId == etapa ==>
            r.posicion.Some?
            && b.tiempo == (if r.posicion.value <= 5 then AplicarBonificacion(rows[k].tiempo, r.posicion) else rows[k].tiempo)
            && b.observaciones == (if r.posicion.value <= 5 then Some(Nota(r.posicion.value)) else rows[k].observaciones))
    {
      BonificadoFila(rows, etapa, k);
    }
  }

  lemma BonificadoFila(rows: seq<Tiempo>, etapa: int, k: int)
    requires IdsUnicos(rows) && 0 <= k < |rows|
    ensures var b := Bonificado(rows, etapa)[k]; var r := Recalculado(rows, etapa)[k];
      b.posicion == r.posicion && b.id == rows[k].id && b.etapaId == rows[k].etapaId
      && b.tiempoFinal == rows[k].tiempoFinal && b.penalizacion == rows[k].penalizacion
      && b.participanteId == rows[k].participanteId
      && (rows[k].etapaId != etapa ==> b == rows[k])
      && (rows[k].etapaId == etapa ==>
            r.posicion.Some? && b.tiempo == (if r.posicion.value <= 5 then AplicarBonificacion(rows[k].tiempo, r.posicion) else rows[k].tiempo)
            && b.observaciones == (if r.posicion.value <= 5 then Some(Nota(r.posicion.value)) else rows[k].observaciones))
  {
    BonificadoEn(rows, etapa, k);
    RecalculadoEn(rows, etapa, k);
    if rows[k].etapaId == etapa {
      PosicionDeFila(rows, etapa, k);
    } else {
      PosicionOtraEtapa(rows, etapa, k);
    }
  }

  /**
   * Running the bonus pass twice takes the bonus off twice: the pass is not
   * idempotent. The stage leader with a `tiempo` of at least 20 s ends
   * 10 s lower after the second run than after the first.
   */
  lemma BonificadoTwice(rows: seq<Tiempo>, etapa: int, k: int)
    requires IdsUnicos(rows) && 0 <= k < |rows| && rows[k].etapaId == etapa
    requires Recalculado(rows, etapa)[k].posicion == Some(1) && rows[k].tiempo >= 20000
    ensures Bonificado(rows, etapa)[k].tiempo == rows[k].tiempo - 10000
    ensures Bonificado(Bonificado(rows, etapa), etapa)[k].tiempo == rows[k].tiempo - 20000
  {
    var o := Orden(rows, etapa);
    var p := PosicionEn(o, rows[k].id);
    PosicionDeFila(rows, etapa, k);
    assert Recalculado(rows, etapa)[k] == Posicionar(rows[k], p);
    assert p == Some(0);
    var g := (x: Tiempo) => Bonificar(x, PosicionEn(o, x.id));
    var b := Bonificado(rows, etapa);
    assert b == MapSeq(rows, g);
    assert b[k] == Bonificar(rows[k], Some(0));
    assert b[k].tiempo == rows[k].tiempo - 10000 && b[k].id == rows[k].id;
    OrdenMap(rows, etapa, g);
    PosicionEnMap(o, g, rows[k].id);
    assert PosicionEn(Orden(b, etapa), b[k].id) == Some(0);
    assert Bonificado(b, etapa)[k] == Bonificar(b[k], Some(0));
  }
}
