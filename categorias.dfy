/**
 * The `categorias` table and its three write handlers: create, update and
 * delete. A category's name is stored trimmed and upper-cased, and no two
 * categories may share a stored name.
 */
module Categorias {
  import opened Base
  import opened Js

  /** A row of `categorias`. */
  datatype Categoria = Categoria(id: int, nombre: string, horaSalida: string)

  /** Why a handler answers with an error and leaves the table as it was. */
  datatype Rechazo =
    | Obligatorios   // nombre or hora_salida missing or empty
    | Vacios         // nombre or hora_salida blank once trimmed
    | YaExiste       // another category already holds the stored name
    | NoEncontrada   // no category with that id

  // ---------------------------------------------------------------- the stored name

  /** `nombre.trim().toUpperCase()`. */
  function Normalizado(nombre: string): (r: string)
    ensures r == [] || (!IsSpace(r[0]) && !IsSpace(r[|r| - 1]))
    ensures |r| == |Trim(nombre)|
    ensures forall i :: 0 <= i < |r| ==> !IsLowerLetter(r[i])
  {
    UpperBordes(Trim(nombre));
    ToUpper(Trim(nombre))
  }

  /** Upper-casing never turns a visible character at either end into white space. */
  lemma UpperBordes(t: string)
    requires t == [] || (!IsSpace(t[0]) && !IsSpace(t[|t| - 1]))
    ensures var u := ToUpper(t); u == [] || (!IsSpace(u[0]) && !IsSpace(u[|u| - 1]))
  {
  }

  /** A string with no white space at either end is its own trim. */
  lemma TrimSinBordes(s: string)
    requires s == [] || (!IsSpace(s[0]) && !IsSpace(s[|s| - 1]))
    ensures Trim(s) == s
  {
  }

  /** Normalizing a stored name gives it back: a stored name passes the check unchanged. */
  lemma NormalizadoIdempotente(s: string)
    ensures Normalizado(Normalizado(s)) == Normalizado(s)
  {
    var u := Normalizado(s);
    TrimSinBordes(u);
    assert ToUpper(u) == u by {
      forall i | 0 <= i < |u|
        ensures ToUpper(u)[i] == u[i]
      {
      }
    }
  }

  /** `trimStart` commutes with lower-casing, which keeps every white-space character. */
  lemma {:induction false} TrimStartLower(s: string)
    ensures TrimStart(ToLower(s)) == ToLower(TrimStart(s))
  {
    if s != [] {
      assert ToLower(s)[1..] == ToLower(s[1..]);
      assert IsSpace(ToLower(s)[0]) <==> IsSpace(s[0]);
      if IsSpace(s[0]) {
        TrimStartLower(s[1..]);
      }
    }
  }

  /** `trimEnd` commutes with lower-casing. */
  lemma {:induction false} TrimEndLower(s: string)
    ensures TrimEnd(ToLower(s)) == ToLower(TrimEnd(s))
  {
    if s != [] {
      var n := |s|;
      assert ToLower(s)[..n - 1] == ToLower(s[..n - 1]);
      assert IsSpace(ToLower(s)[n - 1]) <==> IsSpace(s[n - 1]);
      if IsSpace(s[n - 1]) {
        TrimEndLower(s[..n - 1]);
      }
    }
  }

  /** `trim` commutes with lower-casing. */
  lemma TrimLower(s: string)
    ensures Trim(ToLower(s)) == ToLower(Trim(s))
  {
    TrimStartLower(s);
    TrimEndLower(TrimStart(s));
  }

  /** Upper-casing forgets an earlier lower-casing. */
  lemma UpperLower(t: string)
    ensures ToUpper(ToLower(t)) == ToUpper(t)
  {
    var a := ToUpper(ToLower(t));
    var b := ToUpper(t);
    assert |a| == |b|;
    forall i | 0 <= i < |t|
      ensures a[i] == b[i]
    {
      assert a[i] == UpperChar(LowerChar(t[i]));
    }
  }

  /** Names that differ only in letter case or surrounding blanks are stored alike, so they clash. */
  lemma MismoNombre(s: string)
    ensures Normalizado(ToLower(s)) == Normalizado(s)
  {
    TrimLower(s);
    UpperLower(Trim(s));
  }

  /** Accented letters clash too: `niñas` and `NIÑAS` are both stored as `NIÑAS`. */
  lemma MismoNombreAcentos()
    ensures Normalizado("niñas") == Normalizado("NIÑAS") == "NIÑAS"
  {
    assert Trim("niñas") == "niñas";
    assert Trim("NIÑAS") == "NIÑAS";
  }

  // ---------------------------------------------------------------- the table

  /** Ids are unique. */
  predicate IdsUnicos(rows: seq<Categoria>)
  {
    forall i, j :: 0 <= i < j < |rows| ==> rows[i].id != rows[j].id
  }

  /** No two categories share a stored name. */
  predicate NombresUnicos(rows: seq<Categoria>)
  {
    forall i, j :: 0 <= i < j < |rows| ==> rows[i].nombre != rows[j].nombre
  }

  /** A category other than `excluir` holds that stored name. */
  predicate Tomado(rows: seq<Categoria>, nombre: string, excluir: Option<int>)
  {
    exists k :: 0 <= k < |rows| && rows[k].nombre == nombre && excluir != Some(rows[k].id)
  }

  /** The primary key of a row. */
  function IdDe(x: Categoria): int { x.id }

  /** A category with that id exists. */
  predicate Existe(rows: seq<Categoria>, id: int)
  {
    TieneClave(rows, IdDe, id)
  }

  /** `.eq('id', id).maybeSingle()`: the index of the row with that id. */
  function Indice(rows: seq<Categoria>, id: int): Option<nat>
  {
    IndicePor(rows, IdDe, id)
  }

  /** `.eq('nombre', nombre)`, with `.neq('id', id)` when one is excluded: some row answers. */
  function Buscar(rows: seq<Categoria>, nombre: string, excluir: Option<int>): (b: bool)
    ensures b <==> Tomado(rows, nombre, excluir)
  {
    if rows == [] then false
    else
      assert forall k :: 1 <= k < |rows| ==> rows[k] == rows[1..][k - 1];
      assert Tomado(rows[1..], nombre, excluir) ==> Tomado(rows, nombre, excluir) by {
        if Tomado(rows[1..], nombre, excluir) {
          var k :| 0 <= k < |rows[1..]| && rows[1..][k].nombre == nombre && excluir != Some(rows[1..][k].id);
          assert rows[k + 1] == rows[1..][k];
        }
      }
      (rows[0].nombre == nombre && excluir != Some(rows[0].id)) || Buscar(rows[1..], nombre, excluir)
  }

  /** Appending a category whose name no row holds keeps names unique. */
  lemma AgregarUnicos(rows: seq<Categoria>, c: Categoria)
    requires NombresUnicos(rows) && !Tomado(rows, c.nombre, None)
    ensures NombresUnicos(rows + [c])
  {
    var s := rows + [c];
    forall i, j | 0 <= i < j < |s|
      ensures s[i].nombre != s[j].nombre
    {
      if j == |rows| {
        assert s[i] == rows[i];
      }
    }
  }

  /** Rewriting a row with a name no other id holds keeps names unique. */
  lemma ReemplazarUnicos(rows: seq<Categoria>, k: int, c: Categoria)
    requires 0 <= k < |rows| && rows[k].id == c.id && IdsUnicos(rows)
    requires NombresUnicos(rows) && !Tomado(rows, c.nombre, Some(c.id))
    ensures NombresUnicos(rows[k := c])
  {
    var s := rows[k := c];
    forall i, j | 0 <= i < j < |s|
      ensures s[i].nombre != s[j].nombre
    {
      if i == k {
        assert rows[j].id != c.id;
      } else if j == k {
        assert rows[i].id != c.id;
      }
    }
  }

  /** Removing a row keeps ids and names unique. */
  lemma QuitarUnicos(rows: seq<Categoria>, k: int)
    requires 0 <= k < |rows| && IdsUnicos(rows)
    ensures IdsUnicos(Quitar(rows, k)) && !Existe(Quitar(rows, k), rows[k].id)
    ensures NombresUnicos(rows) ==> NombresUnicos(Quitar(rows, k))
  {
    var s := Quitar(rows, k);
    forall i, j | 0 <= i < j < |s|
      ensures s[i].id != s[j].id
      ensures NombresUnicos(rows) ==> s[i].nombre != s[j].nombre
    {
      var a := if i < k then i else i + 1;
      var b := if j < k then j else j + 1;
      assert a < b && s[i] == rows[a] && s[j] == rows[b];
    }
  }

  /** The `categorias` table: its rows in insertion order and the next serial id. */
  class CategoriasTable {
    var rows: seq<Categoria>
    var siguienteId: int

    /** Ids are unique and below the next serial id. */
    ghost predicate Valid()
      reads this
    {
      IdsUnicos(rows) && forall k :: 0 <= k < |rows| ==> rows[k].id < siguienteId
    }

    constructor ()
      ensures Valid() && rows == [] && siguienteId == 1
    {
      rows := [];
      siguienteId := 1;
    }

    /**
     * `createCategoria`: both fields are required; a category whose
     * normalized name is already stored is refused; otherwise the
     * normalized name and the trimmed start time are inserted.
     */
    method Crear(nombre: Option<string>, horaSalida: Option<string>) returns (r: Result<Categoria, Rechazo>)
      requires Valid()
      modifies this
      ensures !(Lleno(nombre) && Lleno(horaSalida)) <==> r == Failure(Obligatorios)
      ensures (Lleno(nombre) && Lleno(horaSalida)) ==>
        (Tomado(old(rows), Normalizado(nombre.value), None) <==> r == Failure(YaExiste))
      ensures r.Failure? ==> rows == old(rows) && siguienteId == old(siguienteId)
      ensures r.Success? ==>
        r.value == Categoria(old(siguienteId), Normalizado(nombre.value), Trim(horaSalida.value))
        && rows == old(rows) + [r.value] && siguienteId == old(siguienteId) + 1
      ensures NombresUnicos(old(rows)) ==> NombresUnicos(rows)
      ensures Valid()
    {
      if !Lleno(nombre) || !Lleno(horaSalida) {
        return Failure(Obligatorios);
      }
      var n := Normalizado(nombre.value);
      if Buscar(rows, n, None) {
        return Failure(YaExiste);
      }
      var c := Categoria(siguienteId, n, Trim(horaSalida.value));
      if NombresUnicos(rows) {
        AgregarUnicos(rows, c);
      }
      rows := rows + [c];
      siguienteId := siguienteId + 1;
      r := Success(c);
    }

    /**
     * `updateCategoria`: both fields are required and must not be blank
     * once trimmed; an unknown id is not found; a name held by another id
     * is refused, the category's own name is not; otherwise the row gets
     * the normalized name and the trimmed start time.
     */
    method Actualizar(id: int, nombre: Option<string>, horaSalida: Option<string>) returns (r: Result<Categoria, Rechazo>)
      requires Valid()
      modifies this
      ensures !(Lleno(nombre) && Lleno(horaSalida)) <==> r == Failure(Obligatorios)
      ensures (Lleno(nombre) && Lleno(horaSalida)) ==>
        ((Normalizado(nombre.value) == [] || Trim(horaSalida.value) == []) <==> r == Failure(Vacios))
      ensures (Lleno(nombre) && Lleno(horaSalida) && Normalizado(nombre.value) != [] && Trim(horaSalida.value) != []) ==>
        (!Existe(old(rows), id) <==> r == Failure(NoEncontrada))
        && (Existe(old(rows), id) ==>
              (Tomado(old(rows), Normalizado(nombre.value), Some(id)) <==> r == Failure(YaExiste)))
      ensures r.Failure? ==> rows == old(rows)
      ensures r.Success? ==>
        var k := Indice(old(rows), id).value;
        r.value == Categoria(id, Normalizado(nombre.value), Trim(horaSalida.value))
        && rows == old(rows)[k := r.value]
      ensures NombresUnicos(old(rows)) ==> NombresUnicos(rows)
      ensures siguienteId == old(siguienteId) && Valid()
    {
      if !Lleno(nombre) || !Lleno(horaSalida) {
        return Failure(Obligatorios);
      }
      var n := Normalizado(nombre.value);
      var h := Trim(horaSalida.value);
      if n == [] || h == [] {
        return Failure(Vacios);
      }
      var k := Indice(rows, id);
      if k.None? {
        return Failure(NoEncontrada);
      }
      if Buscar(rows, n, Some(id)) {
        return Failure(YaExiste);
      }
      var c := Categoria(id, n, h);
      if NombresUnicos(rows) {
        ReemplazarUnicos(rows, k.value, c);
      }
      rows := rows[k.value := c];
      r := Success(c);
    }

    /** `deleteCategoria`: an unknown id is not found; otherwise only that row is removed. */
    method Eliminar(id: int) returns (r: Result<Categoria, Rechazo>)
      requires Valid()
      modifies this
      ensures !Existe(old(rows), id) <==> r == Failure(NoEncontrada)
      ensures r.Failure? ==> rows == old(rows)
      ensures r.Success? ==>
        var k := Indice(old(rows), id).value;
        r.value == old(rows)[k] && rows == Quitar(old(rows), k) && !Existe(rows, id)
      ensures NombresUnicos(old(rows)) ==> NombresUnicos(rows)
      ensures siguienteId == old(siguienteId) && Valid()
    {
      var k := Indice(rows, id);
      if k.None? {
        return Failure(NoEncontrada);
      }
      var c := rows[k.value];
      QuitarUnicos(rows, k.value);
      rows := Quitar(rows, k.value);
      r := Success(c);
    }
  }
}
