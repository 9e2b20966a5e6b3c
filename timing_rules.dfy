/**
 * The pure rules of the timing controller: the time of day of a category
 * start, the start offset between two categories, the fixed bonus table of
 * the first five places and the bonus it takes off a time.
 */
module TimingRules {
  import opened Base
  import opened Js
  import TiempoUtils

  // ---------------------------------------------------------------- start offset

  /**
   * `timeToMinutes`, kept in whole seconds: `[hours, minutes, seconds = 0]`
   * read with `Number`; a missing minutes field or a field that is not a
   * number makes the result NaN (None).
   */
  function SegundosDelDia(hora: string): Option<int>
  {
    SegundosDe(Split(hora, ':'))
  }

  function SegundosDe(parts: seq<string>): Option<int>
    requires |parts| >= 1
  {
    var h := ToNumber(parts[0]);
    var m := if |parts| > 1 then ToNumber(parts[1]) else None;
    var s := if |parts| > 2 then ToNumber(parts[2]) else Some(0);
    if h.Some? && m.Some? && s.Some? then Some(h.value * 3600 + m.value * 60 + s.value) else None
  }

  /** `calcularDiferenciaSalida` of the controller: the difference of the two times of day, in ms. */
  function DiferenciaSalida(horaCategoria: string, horaBase: string): Option<int>
  {
    var c := SegundosDelDia(horaCategoria);
    var b := SegundosDelDia(horaBase);
    if c.Some? && b.Some? then Some((c.value - b.value) * 1000) else None
  }

  /** A time of day written `HH:MM:SS` with every field zero-padded. */
  function Hms(h: nat, m: nat, s: nat): string
  {
    Pad2(h) + ":" + Pad2(m) + ":" + Pad2(s)
  }

  /** `HH:MM:SS` reads back as its seconds since midnight. */
  lemma SegundosDelDiaHms(h: nat, m: nat, s: nat)
    ensures SegundosDelDia(Hms(h, m, s)).Some?
    ensures SegundosDelDia(Hms(h, m, s)).value == h * 3600 + m * 60 + s
  {
    SplitHms(h, m, s);
    ToNumberPad2(h);
    ToNumberPad2(m);
    ToNumberPad2(s);
    SegundosDeOf([Pad2(h), Pad2(m), Pad2(s)]);
  }

  lemma SegundosDeOf(parts: seq<string>)
    requires |parts| == 3
    requires ToNumber(parts[0]).Some? && ToNumber(parts[1]).Some? && ToNumber(parts[2]).Some?
    ensures SegundosDe(parts).Some?
    ensures SegundosDe(parts).value == ToNumber(parts[0]).value * 3600 + ToNumber(parts[1]).value * 60 + ToNumber(parts[2]).value
  {
  }

  lemma SplitHms(h: nat, m: nat, s: nat)
    ensures Split(Hms(h, m, s), ':') == [Pad2(h), Pad2(m), Pad2(s)]
  {
    var hs, ms, ss := Pad2(h), Pad2(m), Pad2(s);
    DigitsHaveNo(hs, ':');
    DigitsHaveNo(ms, ':');
    DigitsHaveNo(ss, ':');
    assert Hms(h, m, s) == hs + [':'] + (ms + [':'] + ss);
    Split3(hs, ms, ss, ':');
  }

  /** `HH:MM` reads back as its seconds since midnight: the missing seconds count as 0. */
  lemma SegundosDelDiaHhmm(h: nat, m: nat)
    ensures SegundosDelDia(TiempoUtils.Hhmm(h, m)).Some?
    ensures SegundosDelDia(TiempoUtils.Hhmm(h, m)).value == h * 3600 + m * 60
  {
    SplitHhmm(h, m);
    ToNumberPad2(h);
    ToNumberPad2(m);
    SegundosDeOf2([Pad2(h), Pad2(m)]);
  }

  lemma SplitHhmm(h: nat, m: nat)
    ensures Split(TiempoUtils.Hhmm(h, m), ':') == [Pad2(h), Pad2(m)]
  {
    var hs, ms := Pad2(h), Pad2(m);
    DigitsHaveNo(hs, ':');
    DigitsHaveNo(ms, ':');
    assert TiempoUtils.Hhmm(h, m) == hs + [':'] + ms;
    Split2(hs, ms, ':');
  }

  lemma SegundosDeOf2(parts: seq<string>)
    requires |parts| == 2
    requires ToNumber(parts[0]).Some? && ToNumber(parts[1]).Some?
    ensures SegundosDe(parts).Some?
    ensures SegundosDe(parts).value == ToNumber(parts[0]).value * 3600 + ToNumber(parts[1]).value * 60
  {
  }

  /** The offset of two `HH:MM:SS` starts is the difference of their seconds since midnight, times 1000. */
  lemma DiferenciaSalidaHms(h1: nat, m1: nat, s1: nat, h2: nat, m2: nat, s2: nat)
    ensures DiferenciaSalida(Hms(h1, m1, s1), Hms(h2, m2, s2)).Some?
    ensures DiferenciaSalida(Hms(h1, m1, s1), Hms(h2, m2, s2)).value
         == ((h1 * 3600 + m1 * 60 + s1) - (h2 * 3600 + m2 * 60 + s2)) * 1000
  {
    SegundosDelDiaHms(h1, m1, s1);
    SegundosDelDiaHms(h2, m2, s2);
    DiferenciaSalidaOf(Hms(h1, m1, s1), Hms(h2, m2, s2));
  }

  lemma DiferenciaSalidaOf(a: string, b: string)
    requires SegundosDelDia(a).Some? && SegundosDelDia(b).Some?
    ensures DiferenciaSalida(a, b).Some?
    ensures DiferenciaSalida(a, b).value == (SegundosDelDia(a).value - SegundosDelDia(b).value) * 1000
  {
  }

  /** A category that starts with the base has no offset; swapping the two negates the offset. */
  lemma DiferenciaSalidaAntisymmetric(a: string, b: string)
    ensures SegundosDelDia(a).Some? ==> DiferenciaSalida(a, a) == Some(0)
    ensures DiferenciaSalida(a, b).Some? <==> DiferenciaSalida(b, a).Some?
    ensures DiferenciaSalida(a, b).Some? ==> DiferenciaSalida(b, a).value == -DiferenciaSalida(a, b).value
  {
  }

  /** On `HH:MM` starts the controller's offset and the one of the shared utilities agree. */
  lemma DiferenciaSalidaCopiesAgree(h1: nat, m1: nat, h2: nat, m2: nat)
    ensures TiempoUtils.CalcularDiferenciaSalida(Some(TiempoUtils.Hhmm(h1, m1)), Some(TiempoUtils.Hhmm(h2, m2)))
         == DiferenciaSalida(TiempoUtils.Hhmm(h1, m1), TiempoUtils.Hhmm(h2, m2))
  {
    var a, b := TiempoUtils.Hhmm(h1, m1), TiempoUtils.Hhmm(h2, m2);
    TiempoUtils.DiferenciaSalidaHHMM(h1, m1, h2, m2);
    SegundosDelDiaHhmm(h1, m1);
    SegundosDelDiaHhmm(h2, m2);
    DiferenciaSalidaOf(a, b);
    assert TiempoUtils.CalcularDiferenciaSalida(Some(a), Some(b)).value == DiferenciaSalida(a, b).value;
  }

  // ---------------------------------------------------------------- bonus

  /** `BONIFICACIONES[posicion] || 0`: ms taken off the first five places, nothing elsewhere. */
  function Bonificacion(posicion: int): (b: nat)
    ensures 1 <= posicion <= 5 <==> b > 0
    ensures b % 1000 == 0 && b <= 10000
  {
    if posicion == 1 then 10000
    else if posicion == 2 then 6000
    else if posicion == 3 then 4000
    else if posicion == 4 then 2000
    else if posicion == 5 then 1000
    else 0
  }

  /** A better place never earns a smaller bonus; among the five the table strictly decreases. */
  lemma BonificacionDecreasing(p: int, q: int)
    requires 1 <= p < q <= 5
    ensures Bonificacion(p) > Bonificacion(q)
  {
  }

  /** `aplicarBonificacion`; `posicion` None stands for a missing or NaN place. */
  function AplicarBonificacion(tiempo: int, posicion: Option<int>): (r: int)
    ensures posicion.None? || posicion.value == 0 || posicion.value > 5 ==> r == tiempo
    ensures posicion.Some? && posicion.value != 0 && posicion.value <= 5 ==>
      r >= 0 && r >= tiempo - Bonificacion(posicion.value)
      && (r == 0 || r == tiempo - Bonificacion(posicion.value))
  {
    if posicion.None? || posicion.value == 0 || posicion.value > 5 then tiempo
    else
      var b := Bonificacion(posicion.value);
      if tiempo - b > 0 then tiempo - b else 0
  }

  /** A bonus never makes a time negative nor longer, and for places 1..5 it takes off the whole table value when it fits. */
  lemma AplicarBonificacionBounds(tiempo: int, p: int)
    requires tiempo >= 0
    ensures 0 <= AplicarBonificacion(tiempo, Some(p)) <= tiempo
    ensures 1 <= p <= 5 && tiempo >= Bonificacion(p) ==> AplicarBonificacion(tiempo, Some(p)) == tiempo - Bonificacion(p)
    ensures 1 <= p <= 5 && tiempo < Bonificacion(p) ==> AplicarBonificacion(tiempo, Some(p)) == 0
  {
  }

  /** The better of two bonus places never ends with the longer time. */
  lemma AplicarBonificacionMonotone(tiempo: int, p: int, q: int)
    requires 1 <= p < q <= 5
    ensures AplicarBonificacion(tiempo, Some(p)) <= AplicarBonificacion(tiempo, Some(q))
  {
    BonificacionDecreasing(p, q);
  }

  /** The note written on a row that got the bonus of its place. */
  function NotaBonificacion(bonificacion: int, posicion: string): (s: string)
    ensures |s| > |"Bonificación aplicada: s (Posición )"|
  {
    "Bonificación aplicada: " + ShowInt(bonificacion / 1000) + "s (Posición " + posicion + ")"
  }
}
