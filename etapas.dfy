/**
 * The `etapas` table and its `etapa_categorias` link table: creating,
 * updating and deleting a stage, with the stage's set of categories
 * replaced on update and removed on delete.
 */
module Etapas {
  import opened Base
  import opened Js
  import Categorias

  /** A row of `etapas`. `distanciaKm` is a whole number of kilometres. */
  datatype Etapa = Etapa(
    id: int,
    numeroEtapa: int,
    nombre: string,
    descripcion: Option<string>,
    distanciaKm: Option<int>,
    activa: bool)

  /** A row of `etapa_categorias`: the stage is run by the category. */
  datatype Enlace = Enlace(etapaId: int, categoriaId: int)

  /** The request body of create and update; None is a field that is absent or null. */
  datatype Datos = Datos(
    numeroEtapa: Option<int>,
    nombre: Option<string>,
    descripcion: Option<string>,
    categoriasIds: Option<seq<int>>,
    distanciaKm: Option<int>,
    activa: Option<bool>)

  /** Why a handler answers with an error and leaves both tables as they were. */
  datatype Rechazo =
    | Obligatorios                   // numero_etapa, nombre or a non-empty categorias_ids missing
    | NombreVacio                    // nombre blank once trimmed
    | NumeroNoPositivo
    | DistanciaNoPositiva
    | NoEncontrada                   // no stage with that id
    | CategoriaNoEncontrada(id: int) // the first listed category that does not exist

  // ---------------------------------------------------------------- the request

  /** A number field is truthy: present and not 0. */
  predicate Dado(x: Option<int>)
  {
    x.Some? && x.value != 0
  }

  /** `!numero_etapa || !nombre || !categorias_ids || categorias_ids.length === 0` fails. */
  predicate Requeridos(q: Datos)
  {
    Dado(q.numeroEtapa) && Lleno(q.nombre) && q.categoriasIds.Some? && q.categoriasIds.value != []
  }

  /** The row a valid request stores under `id`. */
  function Fila(id: int, q: Datos): (e: Etapa)
    requires Requeridos(q)
    ensures e.id == id && e.numeroEtapa == q.numeroEtapa.value
    ensures e.nombre == Categorias.Normalizado(q.nombre.value)
    ensures e.descripcion.Some? <==> Lleno(q.descripcion)
    ensures e.descripcion.Some? ==> e.descripcion.value == Trim(q.descripcion.value)
    ensures e.distanciaKm.Some? <==> Dado(q.distanciaKm)
    ensures e.distanciaKm.Some? ==> e.distanciaKm == q.distanciaKm
    ensures q.activa.None? ==> e.activa
    ensures q.activa.Some? ==> e.activa == q.activa.value
  {
    Etapa(
      id,
      q.numeroEtapa.value,
      Categorias.Normalizado(q.nombre.value),
      if Lleno(q.descripcion) then Some(Trim(q.descripcion.value)) else None,
      if Dado(q.distanciaKm) then q.distanciaKm else None,
      if q.activa.Some? then q.activa.value else true)
  }

  // ---------------------------------------------------------------- the link table

  /** `categorias_ids.map(categoria_id => ({ etapa_id, categoria_id }))`. */
  function EnlacesDe(id: int, ids: seq<int>): (r: seq<Enlace>)
    ensures |r| == |ids|
    ensures forall i :: 0 <= i < |ids| ==> r[i] == Enlace(id, ids[i])
  {
    seq(|ids|, i requires 0 <= i < |ids| => Enlace(id, ids[i]))
  }

  /** `.from('etapa_categorias').delete().eq('etapa_id', id)`: the links of the other stages, in order. */
  function SinEtapa(enlaces: seq<Enlace>, id: int): (r: seq<Enlace>)
    ensures |r| <= |enlaces|
    ensures forall i :: 0 <= i < |r| ==> r[i].etapaId != id && r[i] in enlaces
  {
    if enlaces == [] then []
    else if enlaces[0].etapaId == id then SinEtapa(enlaces[1..], id)
    else [enlaces[0]] + SinEtapa(enlaces[1..], id)
  }

  /**
   * The `categorias_ids` of a stage: the category of each of its links,
   * one per link and in the order of `etapa_categorias`.
   */
  function CategoriasDe(enlaces: seq<Enlace>, id: int): (r: seq<int>)
    ensures |r| <= |enlaces|
  {
    if enlaces == [] then []
    else if enlaces[0].etapaId == id then [enlaces[0].categoriaId] + CategoriasDe(enlaces[1..], id)
    else CategoriasDe(enlaces[1..], id)
  }

  /** Reading a stage's categories splits over concatenated link tables. */
  lemma {:induction false} CategoriasDeConcat(a: seq<Enlace>, b: seq<Enlace>, id: int)
    ensures CategoriasDe(a + b, id) == CategoriasDe(a, id) + CategoriasDe(b, id)
  {
    if a != [] {
      assert (a + b)[1..] == a[1..] + b;
      CategoriasDeConcat(a[1..], b, id);
    } else {
      assert a + b == b;
    }
  }

  /** After the delete of a stage's links, it has no category and every other stage keeps its own. */
  lemma {:induction false} CategoriasDeSin(enlaces: seq<Enlace>, id: int, e: int)
    ensures CategoriasDe(SinEtapa(enlaces, id), e) == if e == id then [] else CategoriasDe(enlaces, e)
  {
    if enlaces != [] {
      CategoriasDeSin(enlaces[1..], id, e);
      if enlaces[0].etapaId != id {
        assert SinEtapa(enlaces, id) == [enlaces[0]] + SinEtapa(enlaces[1..], id);
        CategoriasDeConcat([enlaces[0]], SinEtapa(enlaces[1..], id), e);
      }
    }
  }

  /** The inserted links give the stage exactly the listed categories, in order, and no other stage any. */
  lemma {:induction false} CategoriasDeNuevos(id: int, ids: seq<int>, e: int)
    ensures CategoriasDe(EnlacesDe(id, ids), e) == if e == id then ids else []
  {
    if ids != [] {
      CategoriasDeNuevos(id, ids[1..], e);
      assert EnlacesDe(id, ids)[1..] == EnlacesDe(id, ids[1..]);
    }
  }

  /** A stage with no link row has no category. */
  lemma {:induction false} CategoriasDeAusente(enlaces: seq<Enlace>, id: int)
    requires forall k :: 0 <= k < |enlaces| ==> enlaces[k].etapaId < id
    ensures CategoriasDe(enlaces, id) == []
  {
    if enlaces != [] {
      CategoriasDeAusente(enlaces[1..], id);
    }
  }

  /** Replacing a stage's links gives it exactly the new list and leaves the other stages' lists alone. */
  lemma Reemplazo(enlaces: seq<Enlace>, id: int, ids: seq<int>, e: int)
    ensures CategoriasDe(SinEtapa(enlaces, id) + EnlacesDe(id, ids), e)
            == if e == id then ids else CategoriasDe(enlaces, e)
  {
    CategoriasDeConcat(SinEtapa(enlaces, id), EnlacesDe(id, ids), e);
    CategoriasDeSin(enlaces, id, e);
    CategoriasDeNuevos(id, ids, e);
  }

  // ---------------------------------------------------------------- the category check of update

  /** `c` is the first entry of `ids` that is not a known category. */
  predicate PrimeraFuera(ids: seq<int>, categorias: set<int>, c: int)
  {
    exists i :: 0 <= i < |ids| && ids[i] == c && ids[i] !in categorias
      && forall j :: 0 <= j < i ==> ids[j] in categorias
  }

  /**
   * The `for (const categoria_id of categorias_ids)` loop of update: looks
   * each id up in turn and stops at the first one that does not exist.
   */
  method BuscarFaltante(ids: seq<int>, categorias: set<int>) returns (f: Option<int>)
    ensures f.None? <==> forall i :: 0 <= i < |ids| ==> ids[i] in categorias
    ensures f.Some? ==> f.value !in categorias && PrimeraFuera(ids, categorias, f.value)
  {
    var i := 0;
    while i < |ids|
      invariant 0 <= i <= |ids|
      invariant forall j :: 0 <= j < i ==> ids[j] in categorias
    {
      if ids[i] !in categorias {
        return Some(ids[i]);
      }
      i := i + 1;
    }
    return None;
  }

  // ---------------------------------------------------------------- the table

  /** Ids are unique. */
  predicate IdsUnicos(etapas: seq<Etapa>)
  {
    forall i, j :: 0 <= i < j < |etapas| ==> etapas[i].id != etapas[j].id
  }

  /** The primary key of a row. */
  function IdDe(x: Etapa): int { x.id }

  /** A stage with that id exists. */
  predicate Existe(etapas: seq<Etapa>, id: int)
  {
    TieneClave(etapas, IdDe, id)
  }

  /** `.eq('id', id).single()`: the index of the stage with that id. */
  function Indice(etapas: seq<Etapa>, id: int): Option<nat>
  {
    IndicePor(etapas, IdDe, id)
  }

  /** Removing a stage keeps ids unique and leaves no stage with its id. */
  lemma QuitarUnicos(etapas: seq<Etapa>, k: int)
    requires 0 <= k < |etapas| && IdsUnicos(etapas)
    ensures IdsUnicos(Quitar(etapas, k)) && !Existe(Quitar(etapas, k), etapas[k].id)
  {
    var s := Quitar(etapas, k);
    forall i, j | 0 <= i < j < |s|
      ensures s[i].id != s[j].id
    {
      var a := if i < k then i else i + 1;
      var b := if j < k then j else j + 1;
      assert a < b && s[i] == etapas[a] && s[j] == etapas[b];
    }
  }

  /** Both tables and the next serial id of `etapas`. */
  class EtapasTable {
    var etapas: seq<Etapa>
    var enlaces: seq<Enlace>
    var siguienteId: int

    /** Stage ids are unique, and every stage id, even in a link, is below the next serial id. */
    ghost predicate Valid()
      reads this
    {
      IdsUnicos(etapas)
      && (forall k :: 0 <= k < |etapas| ==> etapas[k].id < siguienteId)
      && (forall k :: 0 <= k < |enlaces| ==> enlaces[k].etapaId < siguienteId)
    }

    constructor ()
      ensures Valid() && etapas == [] && enlaces == [] && siguienteId == 1
    {
      etapas := [];
      enlaces := [];
      siguienteId := 1;
    }

    /**
     * `createEtapa`: the three fields are required; the stage is stored
     * with its normalized name and defaults, then one link per listed
     * category.
     */
    method Crear(q: Datos) returns (r: Result<Etapa, Rechazo>)
      requires Valid()
      modifies this
      ensures !Requeridos(q) <==> r == Failure(Obligatorios)
      ensures r.Failure? ==> etapas == old(etapas) && enlaces == old(enlaces) && siguienteId == old(siguienteId)
      ensures r.Success? ==>
        Requeridos(q) && r.value == Fila(old(siguienteId), q)
        && etapas == old(etapas) + [r.value] && siguienteId == old(siguienteId) + 1
        && enlaces == old(enlaces) + EnlacesDe(r.value.id, q.categoriasIds.value)
      ensures r.Success? ==> CategoriasDe(enlaces, r.value.id) == q.categoriasIds.value
      ensures r.Success? ==> forall e :: e != r.value.id ==> CategoriasDe(enlaces, e) == CategoriasDe(old(enlaces), e)
      ensures Valid()
    {
      if !Requeridos(q) {
        return Failure(Obligatorios);
      }
      var e := Fila(siguienteId, q);
      var ids := q.categoriasIds.value;
      CategoriasDeAusente(enlaces, e.id);
      forall x
        ensures CategoriasDe(enlaces + EnlacesDe(e.id, ids), x)
                == CategoriasDe(enlaces, x) + (if x == e.id then ids else [])
      {
        CategoriasDeConcat(enlaces, EnlacesDe(e.id, ids), x);
        CategoriasDeNuevos(e.id, ids, x);
      }
      etapas := etapas + [e];
      enlaces := enlaces + EnlacesDe(e.id, ids);
      siguienteId := siguienteId + 1;
      r := Success(e);
    }

    /**
     * `updateEtapa`: the three fields are required, the name must not be
     * blank, the number must be positive and a given distance too; an
     * unknown stage, then the first unknown category, is not found;
     * otherwise the row is rewritten and its links replaced by the list.
     */
    method Actualizar(id: int, q: Datos, categorias: set<int>) returns (r: Result<Etapa, Rechazo>)
      requires Valid()
      modifies this
      ensures !Requeridos(q) <==> r == Failure(Obligatorios)
      ensures Requeridos(q) ==>
        (Trim(q.nombre.value) == [] <==> r == Failure(NombreVacio))
      ensures (Requeridos(q) && Trim(q.nombre.value) != []) ==>
        (q.numeroEtapa.value <= 0 <==> r == Failure(NumeroNoPositivo))
      ensures (Requeridos(q) && Trim(q.nombre.value) != [] && q.numeroEtapa.value > 0) ==>
        ((Dado(q.distanciaKm) && q.distanciaKm.value <= 0) <==> r == Failure(DistanciaNoPositiva))
      ensures (Requeridos(q) && Trim(q.nombre.value) != [] && q.numeroEtapa.value > 0
               && !(Dado(q.distanciaKm) && q.distanciaKm.value <= 0)) ==>
        (!Existe(old(etapas), id) <==> r == Failure(NoEncontrada))
        && (Existe(old(etapas), id) ==>
              ((exists i :: 0 <= i < |q.categoriasIds.value| && q.categoriasIds.value[i] !in categorias)
               <==> r.Failure?))
      ensures r.Failure? && r.error.CategoriaNoEncontrada? ==>
        Requeridos(q) && PrimeraFuera(q.categoriasIds.value, categorias, r.error.id)
      ensures r.Failure? ==> etapas == old(etapas) && enlaces == old(enlaces)
      ensures r.Success? ==>
        Requeridos(q) && Existe(old(etapas), id)
        && var k := Indice(old(etapas), id).value;
        r.value == Fila(id, q) && etapas == old(etapas)[k := r.value]
        && enlaces == SinEtapa(old(enlaces), id) + EnlacesDe(id, q.categoriasIds.value)
      ensures r.Success? ==>
        (CategoriasDe(enlaces, id) == q.categoriasIds.value
         && forall e :: e != id ==> CategoriasDe(enlaces, e) == CategoriasDe(old(enlaces), e))
      ensures siguienteId == old(siguienteId) && Valid()
    {
      if !Requeridos(q) {
        return Failure(Obligatorios);
      }
      if Trim(q.nombre.value) == [] {
        return Failure(NombreVacio);
      }
      if q.numeroEtapa.value <= 0 {
        return Failure(NumeroNoPositivo);
      }
      if Dado(q.distanciaKm) && q.distanciaKm.value <= 0 {
        return Failure(DistanciaNoPositiva);
      }
      var k := Indice(etapas, id);
      if k.None? {
        return Failure(NoEncontrada);
      }
      var ids := q.categoriasIds.value;
      var f := BuscarFaltante(ids, categorias);
      if f.Some? {
        return Failure(CategoriaNoEncontrada(f.value));
      }
      var e := Fila(id, q);
      forall x
        ensures CategoriasDe(SinEtapa(enlaces, id) + EnlacesDe(id, ids), x)
                == if x == id then ids else CategoriasDe(enlaces, x)
      {
        Reemplazo(enlaces, id, ids, x);
      }
      etapas := etapas[k.value := e];
      enlaces := SinEtapa(enlaces, id) + EnlacesDe(id, ids);
      r := Success(e);
    }

    /** `deleteEtapa`: an unknown stage is not found; otherwise its links go, then the stage. */
    method Eliminar(id: int) returns (r: Result<Etapa, Rechazo>)
      requires Valid()
      modifies this
      ensures !Existe(old(etapas), id) <==> r == Failure(NoEncontrada)
      ensures r.Failure? ==> etapas == old(etapas) && enlaces == old(enlaces)
      ensures r.Success? ==>
        var k := Indice(old(etapas), id).value;
        r.value == old(etapas)[k] && etapas == Quitar(old(etapas), k) && !Existe(etapas, id)
        && enlaces == SinEtapa(old(enlaces), id)
      ensures r.Success? ==>
        (CategoriasDe(enlaces, id) == []
         && forall e :: e != id ==> CategoriasDe(enlaces, e) == CategoriasDe(old(enlaces), e))
      ensures siguienteId == old(siguienteId) && Valid()
    {
      var k := Indice(etapas, id);
      if k.None? {
        return Failure(NoEncontrada);
      }
      var e := etapas[k.value];
      QuitarUnicos(etapas, k.value);
      forall x
        ensures CategoriasDe(SinEtapa(enlaces, id), x) == if x == id then [] else CategoriasDe(enlaces, x)
      {
        CategoriasDeSin(enlaces, id, x);
      }
      enlaces := SinEtapa(enlaces, id);
      etapas := Quitar(etapas, k.value);
      r := Success(e);
    }
  }
}
