/**
 * The `participantes` table and the registration handlers: the public
 * registration with its age rules, the administrator's create and update
 * with their CI/dorsal conflict check, the delete with the list of stored
 * files it removes, and the dorsal availability query.
 */
module Participantes {
  import opened Base
  import opened Js

  /** A row of `participantes`; the four URLs are storage paths. */
  datatype Participante = Participante(
    id: int,
    nombre: string,
    apellidos: string,
    ci: string,
    fechaNacimiento: string,
    dorsal: Option<string>,
    categoriaId: int,
    equipo: Option<string>,
    metodoPago: string,
    comprobanteUrl: Option<string>,
    comunidad: Option<string>,
    fotoAnversoUrl: Option<string>,
    fotoReversoUrl: Option<string>,
    autorizacionUrl: Option<string>)

  /** The request body; None is a field that is absent or null. */
  datatype Solicitud = Solicitud(
    nombre: Option<string>,
    apellidos: Option<string>,
    ci: Option<string>,
    fechaNacimiento: Option<string>,
    dorsal: Option<string>,
    categoriaId: Option<int>,
    equipo: Option<string>,
    metodoPago: Option<string>,
    comprobanteUrl: Option<string>,
    comunidad: Option<string>,
    fotoAnversoUrl: Option<string>,
    fotoReversoUrl: Option<string>,
    autorizacionUrl: Option<string>)

  /** The uploaded files of the public registration: the storage path of each one sent. */
  datatype Archivos = Archivos(
    comprobante: Option<string>,
    fotoAnverso: Option<string>,
    fotoReverso: Option<string>,
    autorizacion: Option<string>)

  /** A calendar date as year, month and day of the month. */
  datatype Fecha = Fecha(anio: int, mes: int, dia: int)

  /** What `checkDorsal` answers. */
  datatype Disponibilidad = Disponibilidad(existe: bool, disponible: bool)

  /** Why a handler answers with an error and leaves the table as it was. */
  datatype Rechazo =
    | FaltanCampos
    | CiDuplicado          // another participant has that CI
    | DorsalDuplicado      // another participant has that dorsal
    | NoEncontrado         // no participant with that id
    | SinArchivos          // the public registration got no files at all
    | FaltanArchivos       // the receipt or a side of the identity card is missing
    | AnioNoAdmitido       // born before 2011
    | FaltaAutorizacion    // under 18 and no signed authorization
    | DorsalRequerido

  // ---------------------------------------------------------------- the request

  /** A number field is truthy: present and not 0. */
  predicate Dado(x: Option<int>)
  {
    x.Some? && x.value != 0
  }

  /** The required fields of the administrator's create and update. */
  predicate Requeridos(q: Solicitud)
  {
    Lleno(q.nombre) && Lleno(q.apellidos) && Lleno(q.ci) && Lleno(q.fechaNacimiento)
    && Lleno(q.dorsal) && Dado(q.categoriaId) && Lleno(q.metodoPago)
  }

  /** The required fields of the public registration: `comunidad` instead of `dorsal`. */
  predicate RequeridosPublico(q: Solicitud)
  {
    Lleno(q.nombre) && Lleno(q.apellidos) && Lleno(q.ci) && Lleno(q.fechaNacimiento)
    && Dado(q.categoriaId) && Lleno(q.metodoPago) && Lleno(q.comunidad)
  }

  /** The row the administrator's create and update store: required fields as sent, the optional ones `|| null`. */
  function Fila(id: int, q: Solicitud): (p: Participante)
    requires Requeridos(q)
    ensures p.id == id && p.ci == q.ci.value && p.dorsal == q.dorsal
    ensures p.equipo.Some? <==> Lleno(q.equipo)
    ensures p.comunidad.Some? <==> Lleno(q.comunidad)
  {
    Participante(
      id, q.nombre.value, q.apellidos.value, q.ci.value, q.fechaNacimiento.value,
      q.dorsal, q.categoriaId.value, OrNull(q.equipo), q.metodoPago.value,
      OrNull(q.comprobanteUrl), OrNull(q.comunidad),
      OrNull(q.fotoAnversoUrl), OrNull(q.fotoReversoUrl), OrNull(q.autorizacionUrl))
  }

  /** The row the public registration stores: the dorsal only if one was sent, the URLs of the uploads. */
  function FilaPublica(id: int, q: Solicitud, a: Archivos): (p: Participante)
    requires RequeridosPublico(q)
    ensures p.id == id && p.ci == q.ci.value
    ensures p.dorsal.Some? <==> Lleno(q.dorsal)
    ensures p.comprobanteUrl == a.comprobante && p.autorizacionUrl == a.autorizacion
  {
    Participante(
      id, q.nombre.value, q.apellidos.value, q.ci.value, q.fechaNacimiento.value,
      OrNull(q.dorsal), q.categoriaId.value, OrNull(q.equipo), q.metodoPago.value,
      a.comprobante, q.comunidad,
      a.fotoAnverso, a.fotoReverso, a.autorizacion)
  }

  // ---------------------------------------------------------------- age

  /** `a` is on or before `b`. */
  predicate NoDespues(a: Fecha, b: Fecha)
  {
    a.anio < b.anio || (a.anio == b.anio && (a.mes < b.mes || (a.mes == b.mes && a.dia <= b.dia)))
  }

  /** By `hoy`, the `n`-th birthday of someone born on `nacimiento` has come. */
  predicate Cumplidos(hoy: Fecha, nacimiento: Fecha, n: int)
  {
    NoDespues(Fecha(nacimiento.anio + n, nacimiento.mes, nacimiento.dia), hoy)
  }

  /**
   * The age computation of the public registration: the difference of the
   * years, one less when this year's birthday, judged by month and then
   * by day, is still to come. The result is the number of birthdays had.
   */
  method Edad(hoy: Fecha, nacimiento: Fecha) returns (edad: int)
    ensures Cumplidos(hoy, nacimiento, edad) && !Cumplidos(hoy, nacimiento, edad + 1)
  {
    edad := hoy.anio - nacimiento.anio;
    var diferenciaMes := hoy.mes - nacimiento.mes;
    if diferenciaMes < 0 || (diferenciaMes == 0 && hoy.dia < nacimiento.dia) {
      edad := edad - 1;
    }
  }

  /** A later birthday that has come means every earlier one has. */
  lemma CumplidosAntes(hoy: Fecha, nacimiento: Fecha, m: int, n: int)
    requires m <= n && Cumplidos(hoy, nacimiento, n)
    ensures Cumplidos(hoy, nacimiento, m)
  {
  }

  /** The age is determined by the two dates: two numbers that both fit are equal. */
  lemma EdadUnica(hoy: Fecha, nacimiento: Fecha, a: int, b: int)
    requires Cumplidos(hoy, nacimiento, a) && !Cumplidos(hoy, nacimiento, a + 1)
    requires Cumplidos(hoy, nacimiento, b) && !Cumplidos(hoy, nacimiento, b + 1)
    ensures a == b
  {
    if a < b {
      CumplidosAntes(hoy, nacimiento, a + 1, b);
    } else if b < a {
      CumplidosAntes(hoy, nacimiento, b + 1, a);
    }
  }

  /** `age < 18` exactly when the eighteenth birthday is still to come. */
  lemma MenorDeEdad(hoy: Fecha, nacimiento: Fecha, edad: int)
    requires Cumplidos(hoy, nacimiento, edad) && !Cumplidos(hoy, nacimiento, edad + 1)
    ensures edad < 18 <==> !Cumplidos(hoy, nacimiento, 18)
  {
    if edad < 18 && Cumplidos(hoy, nacimiento, 18) {
      CumplidosAntes(hoy, nacimiento, edad + 1, 18);
    }
    if edad >= 18 {
      CumplidosAntes(hoy, nacimiento, 18, edad);
    }
  }

  /**
   * With births from 2011 on, everyone registering up to 2028 is under 18,
   * so the signed authorization is always required then.
   */
  lemma SiempreMenor(hoy: Fecha, nacimiento: Fecha, edad: int)
    requires nacimiento.anio >= 2011 && hoy.anio <= 2028
    requires Cumplidos(hoy, nacimiento, edad)
    ensures edad < 18
  {
  }

  // ---------------------------------------------------------------- the conflict check

  /** Ids are unique. */
  predicate IdsUnicos(rows: seq<Participante>)
  {
    forall i, j :: 0 <= i < j < |rows| ==> rows[i].id != rows[j].id
  }

  /** No two participants share a CI. */
  predicate CisUnicos(rows: seq<Participante>)
  {
    forall i, j :: 0 <= i < j < |rows| ==> rows[i].ci != rows[j].ci
  }

  /** No two participants share a (non-null) dorsal. */
  predicate DorsalesUnicos(rows: seq<Participante>)
  {
    forall i, j :: 0 <= i < j < |rows| && rows[i].dorsal.Some? ==> rows[i].dorsal != rows[j].dorsal
  }

  /** The primary key of a row. */
  function IdDe(x: Participante): int { x.id }

  /** A participant with that id exists. */
  predicate Existe(rows: seq<Participante>, id: int)
  {
    TieneClave(rows, IdDe, id)
  }

  /** `.or('ci.eq.…,dorsal.eq.…')`, with `.neq('id', id)` when one is excluded, selects this row. */
  predicate Coincide(p: Participante, ci: string, dorsal: string, excluir: Option<int>)
  {
    (p.ci == ci || p.dorsal == Some(dorsal)) && excluir != Some(p.id)
  }

  /** The index of the first selected row: `existingParticipant[0]`. */
  function Primera(rows: seq<Participante>, ci: string, dorsal: string, excluir: Option<int>): (p: Option<nat>)
    ensures p.Some? ==>
      (p.value < |rows| && Coincide(rows[p.value], ci, dorsal, excluir)
       && forall j :: 0 <= j < p.value ==> !Coincide(rows[j], ci, dorsal, excluir))
    ensures p.None? ==> forall k :: 0 <= k < |rows| ==> !Coincide(rows[k], ci, dorsal, excluir)
  {
    if rows == [] then None
    else if Coincide(rows[0], ci, dorsal, excluir) then Some(0)
    else
      var p := Primera(rows[1..], ci, dorsal, excluir);
      assert forall k :: 1 <= k < |rows| ==> rows[k] == rows[1..][k - 1];
      if p.Some? then Some(p.value + 1) else None
  }

  /**
   * The conflict decision of the administrator's create and update: only
   * the first selected row is looked at, a CI clash on it before a dorsal
   * clash, and both compare strings exactly.
   */
  function Conflicto(rows: seq<Participante>, ci: string, dorsal: string, excluir: Option<int>): (r: Option<Rechazo>)
    ensures r.None? <==> forall k :: 0 <= k < |rows| ==> !Coincide(rows[k], ci, dorsal, excluir)
    ensures r.Some? ==> r.value == CiDuplicado || r.value == DorsalDuplicado
    ensures r == Some(CiDuplicado) ==> exists k :: 0 <= k < |rows| && rows[k].ci == ci && excluir != Some(rows[k].id)
    ensures r == Some(DorsalDuplicado) ==>
      exists k :: 0 <= k < |rows| && rows[k].dorsal == Some(dorsal) && excluir != Some(rows[k].id)
  {
    var p := Primera(rows, ci, dorsal, excluir);
    if p.None? then None
    else if rows[p.value].ci == ci then Some(CiDuplicado)
    else Some(DorsalDuplicado)
  }

  /** Two rows of the example: dorsal "7" first, then CI "123". */
  function DosInscritos(): seq<Participante>
  {
    [ Participante(1, "ANA", "ROJAS", "555", "2012-03-04", Some("7"), 1, None, "QR", None, None, None, None, None),
      Participante(2, "LUIS", "PAZ", "123", "2012-05-06", Some("8"), 1, None, "QR", None, None, None, None, None) ]
  }

  /** Dorsals are compared as strings: "007" is not taken when "7" is. */
  lemma DorsalConCeros()
    ensures Conflicto(DosInscritos(), "999", "007", None).None?
  {
    var rows := DosInscritos();
    assert "007" != "7" && "007" != "8" by {
      assert "007"[0] != "7"[0];
      assert "007"[0] != "8"[0];
    }
    assert !Coincide(rows[0], "999", "007", None);
    assert !Coincide(rows[1], "999", "007", None);
  }

  /** Only the first selected row decides: its dorsal clash is reported although a later row has the CI. */
  lemma PrimeraDecide()
    ensures Conflicto(DosInscritos(), "123", "7", None) == Some(DorsalDuplicado)
  {
    var rows := DosInscritos();
    assert "555" != "123" by {
      assert "555"[0] != "123"[0];
    }
    assert Coincide(rows[0], "123", "7", None);
    assert Primera(rows, "123", "7", None) == Some(0);
  }

  // ---------------------------------------------------------------- uniqueness kept

  /** Appending a participant whose CI no row has keeps CIs unique. */
  lemma AgregarCi(rows: seq<Participante>, p: Participante)
    requires CisUnicos(rows) && forall k :: 0 <= k < |rows| ==> rows[k].ci != p.ci
    ensures CisUnicos(rows + [p])
  {
    var s := rows + [p];
    forall i, j | 0 <= i < j < |s|
      ensures s[i].ci != s[j].ci
    {
      assert s[i] == rows[i];
    }
  }

  /** Appending a participant with no dorsal, or a dorsal no row has, keeps dorsals unique. */
  lemma AgregarDorsal(rows: seq<Participante>, p: Participante)
    requires DorsalesUnicos(rows)
    requires p.dorsal.None? || forall k :: 0 <= k < |rows| ==> rows[k].dorsal != p.dorsal
    ensures DorsalesUnicos(rows + [p])
  {
    var s := rows + [p];
    forall i, j | 0 <= i < j < |s| && s[i].dorsal.Some?
      ensures s[i].dorsal != s[j].dorsal
    {
      assert s[i] == rows[i];
    }
  }

  /** Rewriting a row with a CI and dorsal that no other id has keeps both unique. */
  lemma ReemplazarUnicos(rows: seq<Participante>, k: int, p: Participante, d: string)
    requires 0 <= k < |rows| && rows[k].id == p.id && IdsUnicos(rows) && p.dorsal == Some(d)
    requires forall j :: 0 <= j < |rows| ==> !Coincide(rows[j], p.ci, d, Some(p.id))
    ensures CisUnicos(rows) ==> CisUnicos(rows[k := p])
    ensures DorsalesUnicos(rows) ==> DorsalesUnicos(rows[k := p])
  {
    var s := rows[k := p];
    forall i, j | 0 <= i < j < |s| && i != k && j != k
      ensures s[i] == rows[i] && s[j] == rows[j]
    {
    }
    forall j | 0 <= j < |s| && j != k
      ensures s[j].ci != p.ci && s[j].dorsal != p.dorsal
    {
      assert rows[j].id != p.id;
      assert !Coincide(rows[j], p.ci, d, Some(p.id));
    }
  }

  /** Removing a row keeps ids, CIs and dorsals unique and leaves no row with its id. */
  lemma QuitarUnicos(rows: seq<Participante>, k: int)
    requires 0 <= k < |rows| && IdsUnicos(rows)
    ensures IdsUnicos(Quitar(rows, k)) && !Existe(Quitar(rows, k), rows[k].id)
    ensures CisUnicos(rows) ==> CisUnicos(Quitar(rows, k))
    ensures DorsalesUnicos(rows) ==> DorsalesUnicos(Quitar(rows, k))
  {
    var s := Quitar(rows, k);
    forall i, j | 0 <= i < j < |s|
      ensures exists a, b :: 0 <= a < b < |rows| && s[i] == rows[a] && s[j] == rows[b]
    {
      var a := if i < k then i else i + 1;
      var b := if j < k then j else j + 1;
      assert s[i] == rows[a] && s[j] == rows[b];
    }
  }

  // ---------------------------------------------------------------- delete and checkDorsal

  /** `if (url) filesToDelete.push(url)` contributes the URL when it is truthy. */
  function Uno(x: Option<string>): (r: seq<string>)
    ensures |r| <= 1
  {
    if Lleno(x) then [x.value] else []
  }

  /** The truthy URLs among `s`, in order: the stored files a delete removes. */
  function Presentes(s: seq<Option<string>>): (r: seq<string>)
    ensures |r| <= |s|
  {
    if s == [] then [] else Uno(s[0]) + Presentes(s[1..])
  }

  /**
   * The list holds exactly the truthy URLs: each entry is a non-empty URL
   * of `s`, each truthy URL of `s` is in it, and it is empty exactly when
   * none is truthy (when the storage is not called).
   */
  lemma {:induction false} PresentesSpec(s: seq<Option<string>>)
    ensures var r := Presentes(s);
      (forall i :: 0 <= i < |r| ==> r[i] != "" && Some(r[i]) in s)
      && (forall i :: 0 <= i < |s| && Lleno(s[i]) ==> s[i].value in r)
      && (r == [] <==> forall i :: 0 <= i < |s| ==> !Lleno(s[i]))
  {
    if s != [] {
      PresentesSpec(s[1..]);
      var r := Presentes(s);
      var t := Presentes(s[1..]);
      assert r == Uno(s[0]) + t;
      assert forall i :: 1 <= i < |s| ==> s[i] == s[1..][i - 1];
      forall i | 0 <= i < |r|
        ensures r[i] != "" && Some(r[i]) in s
      {
        if i >= |Uno(s[0])| {
          assert r[i] == t[i - |Uno(s[0])|];
          assert Some(r[i]) in s[1..];
        }
      }
    }
  }

  /** Four URLs give the truthy ones among them, in order. */
  lemma PresentesCuatro(a: Option<string>, b: Option<string>, c: Option<string>, d: Option<string>)
    ensures Presentes([a, b, c, d]) == Uno(a) + Uno(b) + Uno(c) + Uno(d)
  {
    assert [d][1..] == [];
    assert Presentes([d]) == Uno(d) + Presentes([]);
    assert [c, d][1..] == [d];
    assert Presentes([c, d]) == Uno(c) + Uno(d);
    assert [b, c, d][1..] == [c, d];
    assert Presentes([b, c, d]) == Uno(b) + (Uno(c) + Uno(d));
    assert [a, b, c, d][1..] == [b, c, d];
    assert Presentes([a, b, c, d]) == Uno(a) + (Uno(b) + (Uno(c) + Uno(d)));
  }

  /** The four storage URLs of a participant, in the order the delete looks at them. */
  function Urls(p: Participante): seq<Option<string>>
  {
    [p.comprobanteUrl, p.fotoAnversoUrl, p.fotoReversoUrl, p.autorizacionUrl]
  }

  /**
   * The `filesToDelete` list of `deleteParticipante`: each of the four URLs
   * is pushed when it is truthy.
   */
  method ArchivosABorrar(p: Participante) returns (files: seq<string>)
    ensures files == Presentes(Urls(p))
  {
    files := [];
    if Lleno(p.comprobanteUrl) {
      files := files + [p.comprobanteUrl.value];
    }
    assert files == Uno(p.comprobanteUrl);
    if Lleno(p.fotoAnversoUrl) {
      files := files + [p.fotoAnversoUrl.value];
    }
    assert files == Uno(p.comprobanteUrl) + Uno(p.fotoAnversoUrl);
    if Lleno(p.fotoReversoUrl) {
      files := files + [p.fotoReversoUrl.value];
    }
    assert files == Uno(p.comprobanteUrl) + Uno(p.fotoAnversoUrl) + Uno(p.fotoReversoUrl);
    if Lleno(p.autorizacionUrl) {
      files := files + [p.autorizacionUrl.value];
    }
    PresentesCuatro(p.comprobanteUrl, p.fotoAnversoUrl, p.fotoReversoUrl, p.autorizacionUrl);
  }

  /** `.select('dorsal').eq('dorsal', d)`: the number of rows answered. */
  function ConDorsal(rows: seq<Participante>, d: string): (n: nat)
    ensures n <= |rows|
    ensures n > 0 <==> exists k :: 0 <= k < |rows| && rows[k].dorsal == Some(d)
  {
    if rows == [] then 0
    else
      assert forall k :: 1 <= k < |rows| ==> rows[k] == rows[1..][k - 1];
      (if rows[0].dorsal == Some(d) then 1 else 0) + ConDorsal(rows[1..], d)
  }

  /** `checkDorsal`: a dorsal is taken exactly when some participant has that very string; available is its negation. */
  function ComprobarDorsal(rows: seq<Participante>, dorsal: Option<string>): (r: Result<Disponibilidad, Rechazo>)
    ensures !Lleno(dorsal) <==> r == Failure(DorsalRequerido)
    ensures r.Success? ==>
      (r.value.existe <==> exists k :: 0 <= k < |rows| && rows[k].dorsal == dorsal)
      && r.value.disponible == !r.value.existe
  {
    if !Lleno(dorsal) then Failure(DorsalRequerido)
    else
      var existe := ConDorsal(rows, dorsal.value) > 0;
      Success(Disponibilidad(existe, !existe))
  }

  // ---------------------------------------------------------------- the table

  /** `.eq('id', id)`: the index of the row with that id. */
  function Indice(rows: seq<Participante>, id: int): Option<nat>
  {
    IndicePor(rows, IdDe, id)
  }

  /** `.eq('ci', ci)` answers a row. */
  predicate CiTomado(rows: seq<Participante>, ci: string)
  {
    exists k :: 0 <= k < |rows| && rows[k].ci == ci
  }

  /** `.select('ci').eq('ci', ci)`: whether any row answers. */
  function BuscarCi(rows: seq<Participante>, ci: string): (b: bool)
    ensures b <==> CiTomado(rows, ci)
  {
    if rows == [] then false
    else
      assert forall k :: 1 <= k < |rows| ==> rows[k] == rows[1..][k - 1];
      rows[0].ci == ci || BuscarCi(rows[1..], ci)
  }

  /** The `participantes` table: its rows in insertion order and the next serial id. */
  class ParticipantesTable {
    var rows: seq<Participante>
    var siguienteId: int

    /** Ids are unique and below the next serial id. */
    ghost predicate Valid()
      reads this
    {
      IdsUnicos(rows) && forall k :: 0 <= k < |rows| ==> rows[k].id < siguienteId
    }

    constructor ()
      ensures Valid() && rows == [] && siguienteId == 1
    {
      rows := [];
      siguienteId := 1;
    }

    /**
     * `createParticipante` (administrator): the required fields, then the
     * CI/dorsal conflict over all rows; otherwise the row is inserted.
     */
    method Crear(q: Solicitud) returns (r: Result<Participante, Rechazo>)
      requires Valid()
      modifies this
      ensures !Requeridos(q) <==> r == Failure(FaltanCampos)
      ensures Requeridos(q) ==>
        (r.Failure? <==> Conflicto(old(rows), q.ci.value, q.dorsal.value, None).Some?)
        && (r.Failure? ==> r.error == Conflicto(old(rows), q.ci.value, q.dorsal.value, None).value)
      ensures r.Failure? ==> rows == old(rows) && siguienteId == old(siguienteId)
      ensures r.Success? ==>
        Requeridos(q) && r.value == Fila(old(siguienteId), q)
        && rows == old(rows) + [r.value] && siguienteId == old(siguienteId) + 1
      ensures CisUnicos(old(rows)) ==> CisUnicos(rows)
      ensures DorsalesUnicos(old(rows)) ==> DorsalesUnicos(rows)
      ensures Valid()
    {
      if !Requeridos(q) {
        return Failure(FaltanCampos);
      }
      var c := Conflicto(rows, q.ci.value, q.dorsal.value, None);
      if c.Some? {
        return Failure(c.value);
      }
      var p := Fila(siguienteId, q);
      assert forall k :: 0 <= k < |rows| ==> !Coincide(rows[k], p.ci, q.dorsal.value, None);
      if CisUnicos(rows) {
        AgregarCi(rows, p);
      }
      if DorsalesUnicos(rows) {
        AgregarDorsal(rows, p);
      }
      rows := rows + [p];
      siguienteId := siguienteId + 1;
      r := Success(p);
    }

    /**
     * `updateParticipante`: the required fields, then the CI/dorsal
     * conflict with every other id, then an unknown id is not found;
     * otherwise the row is rewritten.
     */
    method Actualizar(id: int, q: Solicitud) returns (r: Result<Participante, Rechazo>)
      requires Valid()
      modifies this
      ensures !Requeridos(q) <==> r == Failure(FaltanCampos)
      ensures Requeridos(q) ==>
        var c := Conflicto(old(rows), q.ci.value, q.dorsal.value, Some(id));
        (c.Some? ==> r == Failure(c.value))
        && (c.None? ==> (!Existe(old(rows), id) <==> r == Failure(NoEncontrado)))
      ensures r.Failure? ==> rows == old(rows)
      ensures r.Success? ==>
        Requeridos(q) && Existe(old(rows), id)
        && r.value == Fila(id, q) && rows == old(rows)[Indice(old(rows), id).value := r.value]
      ensures CisUnicos(old(rows)) ==> CisUnicos(rows)
      ensures DorsalesUnicos(old(rows)) ==> DorsalesUnicos(rows)
      ensures siguienteId == old(siguienteId) && Valid()
    {
      if !Requeridos(q) {
        return Failure(FaltanCampos);
      }
      var c := Conflicto(rows, q.ci.value, q.dorsal.value, Some(id));
      if c.Some? {
        return Failure(c.value);
      }
      var k := Indice(rows, id);
      if k.None? {
        return Failure(NoEncontrado);
      }
      var p := Fila(id, q);
      ReemplazarUnicos(rows, k.value, p, q.dorsal.value);
      rows := rows[k.value := p];
      r := Success(p);
    }

    /**
     * `createParticipantePublico`: the required fields, the files, the
     * birth year, the authorization of a minor and the CI, in that order;
     * otherwise the row is inserted with the uploaded files' paths.
     * `nacimiento` is the date `fecha_nacimiento` denotes, `hoy` the
     * current date.
     */
    method CrearPublico(q: Solicitud, archivos: Option<Archivos>, nacimiento: Fecha, hoy: Fecha)
      returns (r: Result<Participante, Rechazo>)
      requires Valid()
      modifies this
      ensures !RequeridosPublico(q) <==> r == Failure(FaltanCampos)
      ensures RequeridosPublico(q) ==> (archivos.None? <==> r == Failure(SinArchivos))
      ensures (RequeridosPublico(q) && archivos.Some?) ==>
        var a := archivos.value;
        ((a.comprobante.None? || a.fotoAnverso.None? || a.fotoReverso.None?) <==> r == Failure(FaltanArchivos))
        && ((a.comprobante.Some? && a.fotoAnverso.Some? && a.fotoReverso.Some?) ==>
              (nacimiento.anio < 2011 <==> r == Failure(AnioNoAdmitido))
              && (nacimiento.anio >= 2011 ==>
                    ((!Cumplidos(hoy, nacimiento, 18) && a.autorizacion.None?) <==> r == Failure(FaltaAutorizacion))
                    && ((Cumplidos(hoy, nacimiento, 18) || a.autorizacion.Some?) ==>
                          (CiTomado(old(rows), q.ci.value) <==> r == Failure(CiDuplicado)))))
      ensures r.Failure? ==> rows == old(rows) && siguienteId == old(siguienteId)
      ensures r.Success? ==>
        RequeridosPublico(q) && archivos.Some?
        && r.value == FilaPublica(old(siguienteId), q, archivos.value)
        && rows == old(rows) + [r.value] && siguienteId == old(siguienteId) + 1
      ensures CisUnicos(old(rows)) ==> CisUnicos(rows)
      ensures (DorsalesUnicos(old(rows)) && !Lleno(q.dorsal)) ==> DorsalesUnicos(rows)
      ensures Valid()
    {
      if !RequeridosPublico(q) {
        return Failure(FaltanCampos);
      }
      if archivos.None? {
        return Failure(SinArchivos);
      }
      var a := archivos.value;
      if a.comprobante.None? || a.fotoAnverso.None? || a.fotoReverso.None? {
        return Failure(FaltanArchivos);
      }
      var edad := Edad(hoy, nacimiento);
      MenorDeEdad(hoy, nacimiento, edad);
      if nacimiento.anio < 2011 {
        return Failure(AnioNoAdmitido);
      }
      if edad < 18 && a.autorizacion.None? {
        return Failure(FaltaAutorizacion);
      }
      if BuscarCi(rows, q.ci.value) {
        return Failure(CiDuplicado);
      }
      var p := FilaPublica(siguienteId, q, a);
      if CisUnicos(rows) {
        AgregarCi(rows, p);
      }
      if DorsalesUnicos(rows) && !Lleno(q.dorsal) {
        AgregarDorsal(rows, p);
      }
      rows := rows + [p];
      siguienteId := siguienteId + 1;
      r := Success(p);
    }

    /**
     * `deleteParticipante`: an unknown id is not found; otherwise the
     * answer is the row and the stored files to remove, and the row is
     * deleted.
     */
    method Eliminar(id: int) returns (r: Result<(Participante, seq<string>), Rechazo>)
      requires Valid()
      modifies this
      ensures !Existe(old(rows), id) <==> r == Failure(NoEncontrado)
      ensures r.Failure? ==> rows == old(rows)
      ensures r.Success? ==>
        var k := Indice(old(rows), id).value;
        r.value.0 == old(rows)[k] && r.value.1 == Presentes(Urls(old(rows)[k]))
        && rows == Quitar(old(rows), k) && !Existe(rows, id)
      ensures CisUnicos(old(rows)) ==> CisUnicos(rows)
      ensures DorsalesUnicos(old(rows)) ==> DorsalesUnicos(rows)
      ensures siguienteId == old(siguienteId) && Valid()
    {
      var k := Indice(rows, id);
      if k.None? {
        return Failure(NoEncontrado);
      }
      var p := rows[k.value];
      var files := ArchivosABorrar(p);
      QuitarUnicos(rows, k.value);
      rows := Quitar(rows, k.value);
      r := Success((p, files));
    }
  }
}
