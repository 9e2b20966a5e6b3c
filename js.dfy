/**
 * The JavaScript values and string built-ins that the race backend relies on:
 * truthiness, `toString`/`padStart`, `parseInt`, `Number`, `split`, `trim`,
 * ASCII `toUpperCase`/`toLowerCase`, `includes` and `<` on strings.
 */
module Js {
  import opened Base

  /** A value as it reaches a handler: a request field or a column of a row. */
  datatype JsVal = Undef | Null | NaN | Num(n: int) | Text(s: string)

  /** JavaScript truthiness; `!v` is its negation. */
  predicate Truthy(v: JsVal)
  {
    match v
    case Undef => false
    case Null => false
    case NaN => false
    case Num(n) => n != 0
    case Text(s) => s != ""
  }

  /** The number a `parseInt` or `Number` result denotes, NaN when there is none. */
  function NumOf(x: Option<int>): (v: JsVal)
    ensures x.Some? <==> v.Num?
    ensures x.Some? ==> v.n == x.value
  {
    if x.Some? then Num(x.value) else NaN
  }

  /** `x || 0` applied to the result of `parseInt`, where None stands for NaN. */
  function Or0(x: Option<int>): (r: int)
    ensures x.None? ==> r == 0
    ensures x.Some? ==> r == x.value
  {
    if x.Some? then x.value else 0
  }

  /** A string field is truthy: present and not empty. */
  predicate Lleno(s: Option<string>)
  {
    s.Some? && s.value != ""
  }

  /** `s || null` on a string field: a falsy string is stored as null. */
  function OrNull(s: Option<string>): (r: Option<string>)
    ensures r.Some? <==> Lleno(s)
    ensures r.Some? ==> r == s
  {
    if Lleno(s) then s else None
  }

  // ---------------------------------------------------------------- digits

  predicate IsDigit(c: char) { '0' <= c <= '9' }

  predicate AllDigits(s: string) { forall i :: 0 <= i < |s| ==> IsDigit(s[i]) }

  function DigitChar(d: nat): (c: char)
    requires d < 10
    ensures IsDigit(c)
  {
    ('0' as int + d) as char
  }

  function DigitValue(c: char): (d: nat)
    requires IsDigit(c)
    ensures d < 10
  {
    c as int - '0' as int
  }

  /** `n.toString()` for a non-negative integer: decimal digits, no leading zero. */
  function ShowNat(n: nat): (s: string)
    ensures 1 <= |s| && AllDigits(s)
    ensures |s| > 1 ==> s[0] != '0'
    decreases n
  {
    if n < 10 then [DigitChar(n)] else ShowNat(n / 10) + [DigitChar(n % 10)]
  }

  /** `n.toString()` for any integer. */
  function ShowInt(n: int): (s: string)
    ensures s != []
  {
    if n < 0 then "-" + ShowNat(-n) else ShowNat(n)
  }

  /**
   * `${x?.f}` in a template literal, given `x` (None when missing) and its
   * column `f` (None when null): `undefined` for a missing `x`, `null` for a
   * null column.
   */
  function ShowText(o: Option<Option<string>>): string
  {
    if o.None? then "undefined" else if o.value.None? then "null" else o.value.value
  }

  /** The value of a string of decimal digits, most significant digit first. */
  function DigitsValue(s: string): nat
    requires AllDigits(s)
  {
    if s == [] then 0 else DigitsValue(s[..|s| - 1]) * 10 + DigitValue(s[|s| - 1])
  }

  /** Reading back what `toString` printed gives the number again. */
  lemma {:induction false} DigitsValueShowNat(n: nat)
    ensures DigitsValue(ShowNat(n)) == n
  {
    if n >= 10 {
      var s := ShowNat(n);
      assert s[..|s| - 1] == ShowNat(n / 10);
      DigitsValueShowNat(n / 10);
    }
  }

  /** A leading zero does not change the value of a digit string. */
  lemma {:induction false} DigitsValueLeadingZero(s: string)
    requires AllDigits(s)
    ensures AllDigits(['0'] + s) && DigitsValue(['0'] + s) == DigitsValue(s)
  {
    if s != [] {
      var t := ['0'] + s;
      assert t[..|t| - 1] == ['0'] + s[..|s| - 1];
      DigitsValueLeadingZero(s[..|s| - 1]);
    }
  }

  /** `s.padStart(2, '0')`. */
  function PadStart2(s: string): (r: string)
    ensures |s| >= 2 ==> r == s
    ensures |s| < 2 ==> |r| == 2 && r == seq(2 - |s|, _ => '0') + s
  {
    if |s| >= 2 then s else seq(2 - |s|, _ => '0') + s
  }

  /** `n.toString().padStart(2, '0')`: the field format of the clock strings. */
  function Pad2(n: nat): (r: string)
    ensures AllDigits(r) && |r| >= 2
    ensures n < 100 ==> |r| == 2
    ensures DigitsValue(r) == n
  {
    var s := ShowNat(n);
    DigitsValueShowNat(n);
    if n < 10 then
      assert PadStart2(s) == ['0'] + s;
      DigitsValueLeadingZero(s);
      PadStart2(s)
    else
      PadStart2(s)
  }

  // ---------------------------------------------------------------- whitespace and case

  /** The JavaScript WhiteSpace and LineTerminator characters that `trim` and `parseInt` skip. */
  predicate IsSpace(c: char)
  {
    c == ' ' || c == '\t' || c == '\n' || c == '\r' || c == '\U{000B}' || c == '\U{000C}'
    || c == '\U{00A0}' || c == '\U{1680}' || ('\U{2000}' <= c <= '\U{200A}')
    || c == '\U{2028}' || c == '\U{2029}' || c == '\U{202F}' || c == '\U{205F}'
    || c == '\U{3000}' || c == '\U{FEFF}'
  }

  /** `s.trimStart()`. */
  function TrimStart(s: string): (r: string)
    ensures r == [] || !IsSpace(r[0])
  {
    if s != [] && IsSpace(s[0]) then TrimStart(s[1..]) else s
  }

  /** `s.trimEnd()`. */
  function TrimEnd(s: string): (r: string)
    ensures r == [] || !IsSpace(r[|r| - 1])
    ensures |r| <= |s| && r == s[..|r|]
  {
    if s != [] && IsSpace(s[|s| - 1]) then TrimEnd(s[..|s| - 1]) else s
  }

  /** `s.trim()`. */
  function Trim(s: string): (r: string)
    ensures r == [] || (!IsSpace(r[0]) && !IsSpace(r[|r| - 1]))
  {
    TrimEnd(TrimStart(s))
  }

  /**
   * A letter whose upper case is the letter 32 code points below it: ASCII
   * `a`-`z` and the Latin-1 letters `à`-`þ` except the sign `÷`.
   */
  predicate IsLowerLetter(c: char)
  {
    'a' <= c <= 'z' || ('\U{00E0}' <= c <= '\U{00FE}' && c != '\U{00F7}')
  }

  /** The upper-case partners of `IsLowerLetter`: `A`-`Z` and `À`-`Þ` except `×`. */
  predicate IsUpperLetter(c: char)
  {
    'A' <= c <= 'Z' || ('\U{00C0}' <= c <= '\U{00DE}' && c != '\U{00D7}')
  }

  function UpperChar(c: char): (u: char)
    ensures !IsLowerLetter(u)
  {
    if IsLowerLetter(c) then (c as int - 32) as char else c
  }

  function LowerChar(c: char): (l: char)
    ensures !IsUpperLetter(l)
  {
    if IsUpperLetter(c) then (c as int + 32) as char else c
  }

  /** `s.toUpperCase()` on the ASCII and Latin-1 letters. */
  function ToUpper(s: string): (r: string)
    ensures |r| == |s| && forall i :: 0 <= i < |s| ==> r[i] == UpperChar(s[i])
  {
    seq(|s|, i requires 0 <= i < |s| => UpperChar(s[i]))
  }

  /** `s.toLowerCase()` on the ASCII and Latin-1 letters. */
  function ToLower(s: string): (r: string)
    ensures |r| == |s| && forall i :: 0 <= i < |s| ==> r[i] == LowerChar(s[i])
  {
    seq(|s|, i requires 0 <= i < |s| => LowerChar(s[i]))
  }

  /** `hay.includes(needle)`. */
  predicate Contains(hay: string, needle: string)
    decreases |hay|
  {
    needle <= hay || (hay != [] && Contains(hay[1..], needle))
  }

  // ---------------------------------------------------------------- parseInt and Number

  /** The longest prefix of `s` made of decimal digits. */
  function DigitPrefix(s: string): (d: string)
    ensures AllDigits(d) && |d| <= |s| && d == s[..|d|]
    ensures |d| < |s| ==> !IsDigit(s[|d|])
  {
    if s != [] && IsDigit(s[0]) then [s[0]] + DigitPrefix(s[1..]) else []
  }

  predicate IsHexDigit(c: char) { IsDigit(c) || 'a' <= c <= 'f' || 'A' <= c <= 'F' }

  predicate AllHexDigits(s: string) { forall i :: 0 <= i < |s| ==> IsHexDigit(s[i]) }

  function HexDigitValue(c: char): (d: nat)
    requires IsHexDigit(c)
    ensures d < 16
  {
    if IsDigit(c) then DigitValue(c)
    else if 'a' <= c <= 'f' then c as int - 'a' as int + 10
    else c as int - 'A' as int + 10
  }

  /** The value of a string of hexadecimal digits, most significant digit first. */
  function HexValue(s: string): nat
    requires AllHexDigits(s)
  {
    if s == [] then 0 else HexValue(s[..|s| - 1]) * 16 + HexDigitValue(s[|s| - 1])
  }

  /** The longest prefix of `s` made of hexadecimal digits. */
  function HexPrefix(s: string): (d: string)
    ensures AllHexDigits(d) && |d| <= |s| && d == s[..|d|]
    ensures |d| < |s| ==> !IsHexDigit(s[|d|])
  {
    if s != [] && IsHexDigit(s[0]) then [s[0]] + HexPrefix(s[1..]) else []
  }

  /** `t` starts with `0x` or `0X`. */
  predicate HexStart(t: string)
  {
    |t| >= 2 && t[0] == '0' && (t[1] == 'x' || t[1] == 'X')
  }

  /**
   * The digits after an optional sign: with a `0x` or `0X` prefix the longest
   * run of hexadecimal digits, otherwise of decimal ones; None when the run is empty.
   */
  function Magnitude(t: string): Option<nat>
  {
    if HexStart(t) then
      var h := HexPrefix(t[2..]);
      if h == [] then None else Some(HexValue(h))
    else
      var d := DigitPrefix(t);
      if d == [] then None else Some(DigitsValue(d))
  }

  /** A sign followed by digits, read as an integer; None when no digit follows. */
  function SignedDigits(t: string): Option<int>
  {
    if t != [] && (t[0] == '-' || t[0] == '+') then
      var m := Magnitude(t[1..]);
      var v: int := if m.None? then 0 else m.value;
      if m.None? then None else Some(if t[0] == '-' then -v else v)
    else
      Magnitude(t)
  }

  /**
   * `parseInt(s)` without a radix: leading blanks are skipped, then a sign, then
   * decimal digits or, after `0x`/`0X`, hexadecimal ones; None stands for NaN.
   */
  function ParseInt(s: string): Option<int>
  {
    SignedDigits(TrimStart(s))
  }

  /** A `0x` prefix switches `parseInt` to hexadecimal. */
  lemma ParseIntHexadecimal()
    ensures ParseInt("0x1A") == Some(26)
  {
    assert "0x1A"[2..] == "1A";
    assert HexPrefix("1A") == "1A";
    assert "1A"[..1] == "1" && "1"[..0] == [];
  }

  /** The sign comes before the `0x` prefix. */
  lemma ParseIntSignedHexadecimal()
    ensures ParseInt("-0X1a") == Some(-26)
  {
    assert "-0X1a"[1..] == "0X1a";
    assert "0X1a"[2..] == "1a";
    assert HexPrefix("1a") == "1a";
    assert "1a"[..1] == "1" && "1"[..0] == [];
  }

  /** A `0x` prefix with no hexadecimal digit after it is NaN. */
  lemma ParseIntBareHexPrefix()
    ensures ParseInt("0x") == None && ParseInt("0xG") == None
  {
    assert "0x"[2..] == [];
    assert "0xG"[2..] == "G";
  }

  /** `parseInt(v)` for a request value: a number is kept, a string is parsed, anything else is NaN. */
  function ParseIntVal(v: JsVal): Option<int>
  {
    match v
    case Num(n) => Some(n)
    case Text(s) => ParseInt(s)
    case _ => None
  }

  /** `parseInt` reads a plain digit string as its decimal value. */
  lemma ParseIntDigits(d: string)
    requires AllDigits(d) && d != []
    ensures ParseInt(d) == Some(DigitsValue(d))
  {
    assert TrimStart(d) == d;
    assert !HexStart(d) by { assert IsDigit(d[|d| - 1]); if |d| >= 2 { assert IsDigit(d[1]); } }
    assert DigitPrefix(d) == d by { DigitPrefixAll(d); }
  }

  lemma {:induction false} DigitPrefixAll(d: string)
    requires AllDigits(d)
    ensures DigitPrefix(d) == d
  {
    if d != [] { DigitPrefixAll(d[1..]); }
  }

  /**
   * `Number(s)` for blank strings (0) and optionally signed decimal integers;
   * None is NaN, which the model also gives for hexadecimal, exponent,
   * fractional and `Infinity` texts.
   */
  function ToNumber(s: string): Option<int>
  {
    var t := Trim(s);
    if t == [] then Some(0)
    else if t[0] == '-' || t[0] == '+' then
      if |t| > 1 && AllDigits(t[1..]) then
        var v: int := DigitsValue(t[1..]);
        Some(if t[0] == '-' then -v else v)
      else None
    else if AllDigits(t) then Some(DigitsValue(t))
    else None
  }

  /** `Number` reads a plain digit string as its decimal value. */
  lemma ToNumberDigits(d: string)
    requires AllDigits(d) && d != []
    ensures ToNumber(d) == Some(DigitsValue(d))
  {
    assert TrimStart(d) == d;
    assert TrimEnd(d) == d;
  }

  /** `Number` reads a two-digit clock field back as its value. */
  lemma ToNumberPad2(n: nat)
    ensures ToNumber(Pad2(n)) == Some(n)
  {
    ToNumberDigits(Pad2(n));
  }

  // ---------------------------------------------------------------- split

  /** The index of the first `c` in `s`. */
  function IndexOf(s: string, c: char): (i: nat)
    requires c in s
    ensures i < |s| && s[i] == c && c !in s[..i]
  {
    if s[0] == c then 0 else 1 + IndexOf(s[1..], c)
  }

  /** `s.split(sep)` for a one-character separator. */
  function Split(s: string, sep: char): (parts: seq<string>)
    ensures |parts| >= 1
    decreases |s|
  {
    if sep !in s then [s]
    else
      var i := IndexOf(s, sep);
      [s[..i]] + Split(s[i + 1..], sep)
  }

  /** Splitting at the first separator. */
  lemma SplitFirst(a: string, sep: char, b: string)
    requires sep !in a
    ensures Split(a + [sep] + b, sep) == [a] + Split(b, sep)
  {
    var s := a + [sep] + b;
    assert s[|a|] == sep;
    assert IndexOf(s, sep) == |a| by { IndexOfAfter(a, sep, b); }
    assert s[..|a|] == a;
    assert s[|a| + 1..] == b;
  }

  lemma {:induction false} IndexOfAfter(a: string, sep: char, b: string)
    requires sep !in a
    ensures sep in a + [sep] + b && IndexOf(a + [sep] + b, sep) == |a|
  {
    var s := a + [sep] + b;
    assert s[|a|] == sep;
    if a != [] {
      assert s[1..] == a[1..] + [sep] + b;
      IndexOfAfter(a[1..], sep, b);
    }
  }

  /** Splitting a string with exactly one separator. */
  lemma Split2(a: string, b: string, sep: char)
    requires sep !in a && sep !in b
    ensures Split(a + [sep] + b, sep) == [a, b]
  {
    SplitFirst(a, sep, b);
    SplitNone(b, sep);
  }

  /** Splitting a string with exactly two separators. */
  lemma Split3(a: string, b: string, c: string, sep: char)
    requires sep !in a && sep !in b && sep !in c
    ensures Split(a + [sep] + (b + [sep] + c), sep) == [a, b, c]
  {
    SplitFirst(a, sep, b + [sep] + c);
    Split2(b, c, sep);
  }

  /** A string without the separator is not split. */
  lemma SplitNone(a: string, sep: char)
    requires sep !in a
    ensures Split(a, sep) == [a]
  {
  }

  /** A digit string holds no separator. */
  lemma DigitsHaveNo(d: string, c: char)
    requires AllDigits(d) && !IsDigit(c)
    ensures c !in d
  {
    assert forall i :: 0 <= i < |d| ==> d[i] != c;
  }
}
