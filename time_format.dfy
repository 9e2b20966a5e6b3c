/**
 * Race times as text: `formatTime` (milliseconds to `MM:SS.cc` or
 * `HH:MM:SS.cc`), its minutes-only copy in the route files, `parseTimeString`
 * and `isValidTimeFormat`. Every formatted string is the rendering of a
 * `TimeText`, and parsing a rendering reads its fields back.
 */
module TimeFormat {
  import opened Base
  import opened Js
  import Stats

  /** The broken-down fields of a non-negative number of milliseconds. */
  datatype Clock = Clock(hours: nat, minutes: nat, seconds: nat, centis: nat)

  /** The four fields as the source computes them with `Math.floor`, `/` and `%`. */
  function ClockOf(ms: nat): (c: Clock)
    ensures c.minutes < 60 && c.seconds < 60 && c.centis < 100
    ensures c.hours * 3600000 + c.minutes * 60000 + c.seconds * 1000 + c.centis * 10 == ms - ms % 10
  {
    var c := Clock(ms / 3600000, (ms % 3600000) / 60000, (ms % 60000) / 1000, (ms % 1000) / 10);
    ClockArithmetic(ms);
    c
  }

  lemma ClockArithmetic(ms: nat)
    ensures (ms % 3600000) / 60000 < 60
    ensures (ms / 3600000) * 3600000 + ((ms % 3600000) / 60000) * 60000
          + ((ms % 60000) / 1000) * 1000 + ((ms % 1000) / 10) * 10 == ms - ms % 10
  {
    var h, r1 := ms / 3600000, ms % 3600000;
    var m, r2 := r1 / 60000, r1 % 60000;
    assert ms == 60000 * (60 * h + m) + r2;
    assert ms % 60000 == r2 by { ModUnique(ms, 60000, 60 * h + m, r2); }
    var s, r3 := r2 / 1000, r2 % 1000;
    assert ms == 1000 * (60 * (60 * h + m) + s) + r3;
    assert ms % 1000 == r3 by { ModUnique(ms, 1000, 60 * (60 * h + m) + s, r3); }
    var cs, r4 := r3 / 10, r3 % 10;
    assert ms == 10 * (100 * (60 * (60 * h + m) + s) + cs) + r4;
    assert ms % 10 == r4 by { ModUnique(ms, 10, 100 * (60 * (60 * h + m) + s) + cs, r4); }
  }

  lemma ModUnique(n: int, d: int, q: int, r: int)
    requires d > 0 && n == d * q + r && 0 <= r < d
    ensures n % d == r && n / d == q
  {
    var q2, r2 := n / d, n % d;
    if q2 > q {
      assert d * q2 >= d * q + d by { Stats.MulLe(d, q + 1, q2); }
    } else if q2 < q {
      Stats.MulLe(d, q2 + 1, q);
    }
  }

  /**
   * The text of a time: an optional hour field, then minutes, seconds and
   * hundredths, rendered as `[HH:]MM:SS.cc`.
   */
  datatype TimeText = TimeText(hours: Option<string>, minutes: string, seconds: string, centis: string)

  function Render(t: TimeText): string
  {
    (if t.hours.Some? then t.hours.value + ":" else "") + t.minutes + ":" + t.seconds + "." + t.centis
  }

  /** Every field is a non-empty digit string. */
  predicate DigitFields(t: TimeText)
  {
    (t.hours.Some? ==> t.hours.value != [] && AllDigits(t.hours.value))
    && t.minutes != [] && AllDigits(t.minutes)
    && t.seconds != [] && AllDigits(t.seconds)
    && t.centis != [] && AllDigits(t.centis)
  }

  /** The fields allowed by the pattern `^(\d{1,2}:)?(\d{1,2}):(\d{2})\.(\d{2})$`. */
  predicate Pattern(t: TimeText)
  {
    DigitFields(t)
    && (t.hours.Some? ==> |t.hours.value| <= 2)
    && |t.minutes| <= 2 && |t.seconds| == 2 && |t.centis| == 2
  }

  /** The milliseconds a well-formed text denotes. */
  function TextMs(t: TimeText): int
    requires DigitFields(t)
  {
    (if t.hours.Some? then DigitsValue(t.hours.value) else 0) * 3600000
    + DigitsValue(t.minutes) * 60000 + DigitsValue(t.seconds) * 1000 + DigitsValue(t.centis) * 10
  }

  /** The rendering of a clock: hours shown only when positive, every field padded to two digits. */
  function ClockText(c: Clock): (t: TimeText)
    ensures DigitFields(t) && TextMs(t) == c.hours * 3600000 + c.minutes * 60000 + c.seconds * 1000 + c.centis * 10
    ensures t.hours.Some? <==> c.hours > 0
  {
    TimeText(if c.hours > 0 then Some(Pad2(c.hours)) else None, Pad2(c.minutes), Pad2(c.seconds), Pad2(c.centis))
  }

  /** `formatTime` of src/utils/tiempoUtils.js; None is a missing value or NaN. */
  function FormatTime(timeMs: Option<int>): string
  {
    if timeMs.None? || timeMs.value == 0 || timeMs.value < 0 then "00:00.00"
    else Render(ClockText(ClockOf(timeMs.value)))
  }

  /** The minutes-only `formatTime` of the route files: minutes are not reduced modulo 60. */
  function FormatMinutes(timeMs: Option<int>): string
  {
    if timeMs.None? || timeMs.value == 0 || timeMs.value < 0 then "00:00.00"
    else
      var ms := timeMs.value;
      Render(TimeText(None, Pad2(ms / 60000), Pad2((ms % 60000) / 1000), Pad2((ms % 1000) / 10)))
  }

  /** The seconds and hundredths of `parts[last]`, split at `.`; a missing hundredths part is NaN, read as 0. */
  function SecondsAndCentis(part: string): (int, int)
  {
    var sp := Split(part, '.');
    (Or0(ParseInt(sp[0])), if |sp| > 1 then Or0(ParseInt(sp[1])) else 0)
  }

  /** `parseTimeString`: each field read with `parseInt(...) || 0`; other part counts give 0. */
  function ParseTimeString(s: string): int
  {
    if s == "" then 0
    else
      var parts := Split(s, ':');
      if |parts| == 3 then
        var (sec, cs) := SecondsAndCentis(parts[2]);
        Or0(ParseInt(parts[0])) * 3600000 + Or0(ParseInt(parts[1])) * 60000 + sec * 1000 + cs * 10
      else if |parts| == 2 then
        var (sec, cs) := SecondsAndCentis(parts[1]);
        Or0(ParseInt(parts[0])) * 60000 + sec * 1000 + cs * 10
      else 0
  }

  /** A head of one or two digits. */
  predicate Digits12(h: string)
  {
    1 <= |h| <= 2 && AllDigits(h)
  }

  /** What precedes `:SS.cc`: `M`, `MM`, or one of those preceded by `H:` or `HH:`. */
  predicate ClockHead(h: string)
  {
    Digits12(h)
    || (|h| >= 3 && h[1] == ':' && Digits12(h[..1]) && Digits12(h[2..]))
    || (|h| >= 4 && h[2] == ':' && Digits12(h[..2]) && Digits12(h[3..]))
  }

  /** `isValidTimeFormat`: false for the empty string, otherwise the regular expression. */
  predicate IsValidTimeFormat(s: string)
  {
    s != ""
    && |s| >= 7
    && s[|s| - 6] == ':' && IsDigit(s[|s| - 5]) && IsDigit(s[|s| - 4])
    && s[|s| - 3] == '.' && IsDigit(s[|s| - 2]) && IsDigit(s[|s| - 1])
    && ClockHead(s[..|s| - 6])
  }

  // ---------------------------------------------------------------- lemmas

  lemma DigitsFree(d: string, c: char)
    requires AllDigits(d) && !IsDigit(c)
    ensures c !in d
  {
    DigitsHaveNo(d, c);
  }

  /** Splitting two and three separator-free pieces joined by the separator. */
  /** How `split(':')` cuts a rendering. */
  lemma SplitRender(t: TimeText)
    requires DigitFields(t)
    ensures Split(Render(t), ':')
         == (if t.hours.Some? then [t.hours.value] else []) + [t.minutes, t.seconds + "." + t.centis]
  {
    var tail := t.seconds + "." + t.centis;
    DigitsFree(t.seconds, ':');
    DigitsFree(t.centis, ':');
    assert ':' !in tail by {
      assert tail == t.seconds + ['.'] + t.centis;
    }
    DigitsFree(t.minutes, ':');
    if t.hours.Some? {
      DigitsFree(t.hours.value, ':');
      assert Render(t) == t.hours.value + [':'] + (t.minutes + [':'] + tail);
      Split3(t.hours.value, t.minutes, tail, ':');
    } else {
      assert Render(t) == t.minutes + [':'] + tail;
      Split2(t.minutes, tail, ':');
    }
  }

  lemma SecondsAndCentisDigits(sec: string, cs: string)
    requires sec != [] && AllDigits(sec) && cs != [] && AllDigits(cs)
    ensures SecondsAndCentis(sec + "." + cs) == (DigitsValue(sec), DigitsValue(cs))
  {
    DigitsFree(sec, '.');
    DigitsFree(cs, '.');
    assert sec + "." + cs == sec + ['.'] + cs;
    Split2(sec, cs, '.');
    ParseIntDigits(sec);
    ParseIntDigits(cs);
  }

  /** Parsing a rendering reads its fields back: h·3600000 + m·60000 + s·1000 + cs·10. */
  lemma ParseRender(t: TimeText)
    requires DigitFields(t)
    ensures ParseTimeString(Render(t)) == TextMs(t)
  {
    if t.hours.Some? { ParseRenderWithHours(t); } else { ParseRenderMinutes(t); }
  }

  lemma ParseRenderWithHours(t: TimeText)
    requires DigitFields(t) && t.hours.Some?
    ensures ParseTimeString(Render(t)) == TextMs(t)
  {
    var s := Render(t);
    var parts := Split(s, ':');
    SplitRender(t);
    var tail := t.seconds + "." + t.centis;
    assert s != "" by { assert |s| >= |tail|; }
    assert parts == [t.hours.value, t.minutes, tail];
    ParseByPartCount(s);
    var h, m := Or0(ParseInt(parts[0])), Or0(ParseInt(parts[1]));
    var sc := SecondsAndCentis(parts[2]);
    assert ParseTimeString(s) == h * 3600000 + m * 60000 + sc.0 * 1000 + sc.1 * 10;
    SecondsAndCentisDigits(t.seconds, t.centis);
    assert sc == (DigitsValue(t.seconds), DigitsValue(t.centis));
    ParseIntDigits(t.minutes);
    ParseIntDigits(t.hours.value);
    assert h == DigitsValue(t.hours.value);
    assert m == DigitsValue(t.minutes);
  }

  lemma ParseRenderMinutes(t: TimeText)
    requires DigitFields(t) && t.hours.None?
    ensures ParseTimeString(Render(t)) == TextMs(t)
  {
    var s := Render(t);
    var parts := Split(s, ':');
    SplitRender(t);
    var tail := t.seconds + "." + t.centis;
    assert s != "" by { assert |s| >= |tail|; }
    assert parts == [t.minutes, tail];
    ParseByPartCount(s);
    var m := Or0(ParseInt(parts[0]));
    var sc := SecondsAndCentis(parts[1]);
    assert ParseTimeString(s) == m * 60000 + sc.0 * 1000 + sc.1 * 10;
    SecondsAndCentisDigits(t.seconds, t.centis);
    assert sc == (DigitsValue(t.seconds), DigitsValue(t.centis));
    ParseIntDigits(t.minutes);
    assert m == DigitsValue(t.minutes);
  }

  /**
   * `parseTimeString` by the number of `:`-separated parts: three are read as
   * hours, minutes and seconds, two as minutes and seconds, and an empty text
   * or any other count gives 0.
   */
  lemma ParseByPartCount(s: string)
    ensures s == "" ==> ParseTimeString(s) == 0
    ensures var parts := Split(s, ':');
      s != "" && |parts| == 3 ==>
        ParseTimeString(s) == Or0(ParseInt(parts[0])) * 3600000 + Or0(ParseInt(parts[1])) * 60000
          + SecondsAndCentis(parts[2]).0 * 1000 + SecondsAndCentis(parts[2]).1 * 10
    ensures var parts := Split(s, ':');
      s != "" && |parts| == 2 ==>
        ParseTimeString(s) == Or0(ParseInt(parts[0])) * 60000
          + SecondsAndCentis(parts[1]).0 * 1000 + SecondsAndCentis(parts[1]).1 * 10
    ensures var parts := Split(s, ':');
      s != "" && |parts| != 2 && |parts| != 3 ==> ParseTimeString(s) == 0
  {
  }

  /** A missing, zero or negative time prints as `00:00.00`, which reads back as 0. */
  lemma ZeroTextParses()
    ensures FormatTime(None) == "00:00.00" && FormatMinutes(None) == "00:00.00"
    ensures forall n :: n <= 0 ==> FormatTime(Some(n)) == "00:00.00" && FormatMinutes(Some(n)) == "00:00.00"
    ensures ParseTimeString("00:00.00") == 0
  {
    var z := TimeText(None, "00", "00", "00");
    assert Render(z) == "00:00.00";
    assert DigitsValue("00") == 0 by {
      assert "00"[..1] == "0";
      assert ("0")[..0] == "";
    }
    ParseRender(z);
  }

  /** Round trip: parsing a formatted time gives it back, truncated to the 10 ms bucket. */
  lemma FormatTimeRoundTrip(n: int)
    requires n >= 0
    ensures ParseTimeString(FormatTime(Some(n))) == n - n % 10
  {
    if n == 0 {
      ZeroTextParses();
    } else {
      var c := ClockOf(n);
      var t := ClockText(c);
      assert FormatTime(Some(n)) == Render(t);
      ParseRender(t);
    }
  }

  /** The same round trip for the minutes-only formatter, whose minute field may grow past 59. */
  lemma FormatMinutesRoundTrip(n: int)
    requires n >= 0
    ensures ParseTimeString(FormatMinutes(Some(n))) == n - n % 10
  {
    if n == 0 {
      ZeroTextParses();
    } else {
      var t := TimeText(None, Pad2(n / 60000), Pad2((n % 60000) / 1000), Pad2((n % 1000) / 10));
      assert FormatMinutes(Some(n)) == Render(t);
      ParseRender(t);
      assert TextMs(t) == (n / 60000) * 60000 + ((n % 60000) / 1000) * 1000 + ((n % 1000) / 10) * 10;
      MinutesArithmetic(n);
    }
  }

  lemma MinutesArithmetic(ms: nat)
    ensures (ms / 60000) * 60000 + ((ms % 60000) / 1000) * 1000 + ((ms % 1000) / 10) * 10 == ms - ms % 10
  {
    var m, r2 := ms / 60000, ms % 60000;
    var s, r3 := r2 / 1000, r2 % 1000;
    assert ms == 1000 * (60 * m + s) + r3;
    assert ms % 1000 == r3 by { ModUnique(ms, 1000, 60 * m + s, r3); }
    var cs, r4 := r3 / 10, r3 % 10;
    assert ms == 10 * (100 * (60 * m + s) + cs) + r4;
    assert ms % 10 == r4 by { ModUnique(ms, 10, 100 * (60 * m + s) + cs, r4); }
  }

  /** The hour field appears exactly when the time reaches one hour. */
  lemma FormatTimeParts(n: int)
    requires n > 0
    ensures |Split(FormatTime(Some(n)), ':')| == (if n >= 3600000 then 3 else 2)
    ensures ClockOf(n).minutes < 60 && ClockOf(n).seconds < 60 && ClockOf(n).centis < 100
  {
    SplitRender(ClockText(ClockOf(n)));
  }

  /** Below one hour both formatters agree. */
  lemma FormattersAgreeBelowOneHour(n: int)
    requires n < 3600000
    ensures FormatTime(Some(n)) == FormatMinutes(Some(n))
  {
    if n > 0 {
      assert n / 3600000 == 0 && n % 3600000 == n by { ModUnique(n, 3600000, 0, n); }
      var c := ClockOf(n);
      assert c == Clock(0, n / 60000, (n % 60000) / 1000, (n % 1000) / 10);
      assert ClockText(c) == TimeText(None, Pad2(n / 60000), Pad2((n % 60000) / 1000), Pad2((n % 1000) / 10));
    }
  }

  /** The minutes-only formatter keeps seconds below 60 and hundredths below 100, but not minutes. */
  lemma FormatMinutesFields(n: int)
    requires n > 0
    ensures Split(FormatMinutes(Some(n)), ':')
         == [Pad2(n / 60000), Pad2((n % 60000) / 1000) + "." + Pad2((n % 1000) / 10)]
    ensures (n % 60000) / 1000 < 60 && (n % 1000) / 10 < 100
    ensures n >= 6000000 ==> |Pad2(n / 60000)| > 2
  {
    SplitRender(TimeText(None, Pad2(n / 60000), Pad2((n % 60000) / 1000), Pad2((n % 1000) / 10)));
    if n >= 6000000 {
      DigitsValueShowNat(n / 60000);
      ShowNatLength(n / 60000);
    }
  }

  lemma {:induction false} ShowNatLength(n: nat)
    ensures n >= 100 ==> |ShowNat(n)| >= 3
  {
    if n >= 100 { ShowNatLength(n / 10); }
  }

  lemma RenderSuffix(t: TimeText)
    requires Pattern(t)
    ensures var s := Render(t);
      |s| >= 7 && s[..|s| - 6] == (if t.hours.Some? then t.hours.value + ":" else "") + t.minutes
      && s[|s| - 6..] == [':'] + t.seconds + ['.'] + t.centis
  {
  }

  /** The fields a text accepted by the format check is made of. */
  function PatternOf(s: string): (t: TimeText)
    requires IsValidTimeFormat(s)
    ensures Pattern(t) && Render(t) == s
  {
    var n := |s|;
    var head := s[..n - 6];
    var sec, cs := s[n - 5..n - 3], s[n - 2..];
    SuffixFields(s);
    if Digits12(head) then
      RenderParts(None, head, sec, cs);
      TimeText(None, head, sec, cs)
    else if |head| >= 3 && head[1] == ':' && Digits12(head[..1]) && Digits12(head[2..]) then
      assert head == head[..1] + ":" + head[2..];
      RenderParts(Some(head[..1]), head[2..], sec, cs);
      TimeText(Some(head[..1]), head[2..], sec, cs)
    else
      assert head == head[..2] + ":" + head[3..];
      RenderParts(Some(head[..2]), head[3..], sec, cs);
      TimeText(Some(head[..2]), head[3..], sec, cs)
  }

  lemma SuffixFields(s: string)
    requires IsValidTimeFormat(s)
    ensures var n := |s|;
      s == s[..n - 6] + ([':'] + s[n - 5..n - 3] + ['.'] + s[n - 2..])
      && |s[n - 5..n - 3]| == 2 && AllDigits(s[n - 5..n - 3])
      && |s[n - 2..]| == 2 && AllDigits(s[n - 2..])
  {
    var n := |s|;
    assert s[n - 6..] == [':'] + s[n - 5..n - 3] + ['.'] + s[n - 2..];
    assert s == s[..n - 6] + s[n - 6..];
  }

  lemma RenderParts(hours: Option<string>, minutes: string, sec: string, cs: string)
    ensures Render(TimeText(hours, minutes, sec, cs))
         == ((if hours.Some? then hours.value + ":" else "") + minutes) + ([':'] + sec + ['.'] + cs)
  {
  }

  lemma PatternValid(t: TimeText)
    requires Pattern(t)
    ensures IsValidTimeFormat(Render(t))
  {
    var s := Render(t);
    RenderSuffix(t);
    var head := s[..|s| - 6];
    if t.hours.Some? {
      var hv := t.hours.value;
      assert head == hv + ":" + t.minutes;
      if |hv| == 1 {
        assert head[1] == ':' && head[..1] == hv && head[2..] == t.minutes;
      } else {
        assert head[2] == ':' && head[..2] == hv && head[3..] == t.minutes;
      }
    }
  }

  /** `isValidTimeFormat` accepts exactly the renderings of texts allowed by the pattern. */
  lemma ValidIffPattern(s: string)
    ensures IsValidTimeFormat(s) <==> exists t :: Pattern(t) && Render(t) == s
  {
    if IsValidTimeFormat(s) {
      var t := PatternOf(s);
      assert Pattern(t) && Render(t) == s;
    }
    if exists t :: Pattern(t) && Render(t) == s {
      var t :| Pattern(t) && Render(t) == s;
      PatternValid(t);
    }
  }

  /** A formatted time passes the format check exactly when it is below 100 hours. */
  lemma FormatTimeValid(n: int)
    requires n >= 0
    ensures IsValidTimeFormat(FormatTime(Some(n))) <==> n < 360000000
  {
    if n == 0 {
      assert FormatTime(Some(n)) == "00:00.00";
      ValidIffPattern("00:00.00");
      assert Render(TimeText(None, "00", "00", "00")) == "00:00.00";
    } else {
      var c := ClockOf(n);
      var t := ClockText(c);
      ValidIffPattern(Render(t));
      if n < 360000000 {
        assert c.hours < 100;
        assert Pattern(t);
      } else {
        assert c.hours >= 100;
        ShowNatLength(c.hours);
        var s := Render(t);
        assert s == Pad2(c.hours) + ":" + t.minutes + ":" + t.seconds + "." + t.centis;
        assert |s[..|s| - 6]| >= 6;
      }
    }
  }

  /** A text the format check accepts parses to the milliseconds its fields denote. */
  lemma ValidParses(s: string)
    requires IsValidTimeFormat(s)
    ensures exists t :: Pattern(t) && Render(t) == s && ParseTimeString(s) == TextMs(t)
  {
    ValidIffPattern(s);
    var t :| Pattern(t) && Render(t) == s;
    ParseRender(t);
  }

  /** Every text the format check accepts denotes a non-negative time. */
  lemma ValidTextNonNegative(s: string)
    requires IsValidTimeFormat(s)
    ensures ParseTimeString(s) >= 0
  {
    ValidParses(s);
  }
}
