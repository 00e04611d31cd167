/**
 * Text handling behind the settings form of MainActivity.kt: Kotlin's
 * String.trim, the two time-of-day regular expressions, java.time's
 * LocalTime.parse with ISO_LOCAL_TIME, the "%02d:%02d" formatter,
 * String.toIntOrNull, and the two validators built from them.
 */
module TimeText {
  import opened Wrappers

  // ---------------------------------------------------------------- trimming

  /**
   * Kotlin's Char.isWhitespace on the JVM: Character.isWhitespace or
   * Character.isSpaceChar, i.e. the ASCII controls TAB..CR and FS..US,
   * SPACE, and the Unicode space, line and paragraph separators.
   */
  predicate IsWhitespace(c: char) {
    var n := c as int;
    (9 <= n <= 13) || (28 <= n <= 32) || n == 0xA0 || n == 0x1680
    || (0x2000 <= n <= 0x200A) || n == 0x2028 || n == 0x2029 || n == 0x202F
    || n == 0x205F || n == 0x3000
  }

  /** How many whitespace characters open s. */
  function LeadingBlanks(s: string): (k: nat)
    ensures k <= |s|
    ensures forall i | 0 <= i < k :: IsWhitespace(s[i])
    ensures k < |s| ==> !IsWhitespace(s[k])
  {
    if s != [] && IsWhitespace(s[0]) then
      var k := LeadingBlanks(s[1..]);
      assert forall i | 1 <= i < k + 1 :: s[i] == s[1..][i - 1];
      k + 1
    else 0
  }

  function TrimStart(s: string): (r: string)
    ensures |r| <= |s|
    ensures forall i | 0 <= i < |r| :: r[i] == s[|s| - |r| + i]
    ensures r == [] || !IsWhitespace(r[0])
    ensures forall i | 0 <= i < |s| - |r| :: IsWhitespace(s[i])
  {
    s[LeadingBlanks(s)..]
  }

  function TrimEnd(s: string): (r: string)
    ensures |r| <= |s|
    ensures forall i | 0 <= i < |r| :: r[i] == s[i]
    ensures r == [] || !IsWhitespace(r[|r| - 1])
    ensures forall i | |r| <= i < |s| :: IsWhitespace(s[i])
  {
    if s != [] && IsWhitespace(s[|s| - 1]) then TrimEnd(s[..|s| - 1]) else s
  }

  /** String.trim(): the longest infix with no whitespace at either end. */
  function Trim(s: string): (r: string)
    ensures r == [] || (!IsWhitespace(r[0]) && !IsWhitespace(r[|r| - 1]))
    ensures |r| <= |s|
    ensures r == [] ==> forall i | 0 <= i < |s| :: IsWhitespace(s[i])
    ensures LeadingBlanks(s) + |r| <= |s| && r == s[LeadingBlanks(s)..LeadingBlanks(s) + |r|]
    ensures forall i | LeadingBlanks(s) + |r| <= i < |s| :: IsWhitespace(s[i])
  {
    TrimEndIsPrefix(s[LeadingBlanks(s)..]);
    TrimEnd(s[LeadingBlanks(s)..])
  }

  /** TrimEnd keeps a prefix and drops only whitespace after it. */
  lemma TrimEndIsPrefix(t: string)
    ensures TrimEnd(t) == t[..|TrimEnd(t)|]
  {
    var r := TrimEnd(t);
    assert forall i | 0 <= i < |r| :: r[i] == t[i];
  }

  lemma TrimUnchanged(s: string)
    requires s == [] || (!IsWhitespace(s[0]) && !IsWhitespace(s[|s| - 1]))
    ensures Trim(s) == s
  {
  }

  // ----------------------------------------------------------------- digits

  /** The regex class \d without UNICODE_CHARACTER_CLASS: ASCII digits only. */
  predicate IsDigit(c: char) {
    '0' <= c <= '9'
  }

  function DigitValue(c: char): (d: nat)
    requires IsDigit(c)
    ensures d < 10
  {
    c as int - '0' as int
  }

  function DigitChar(d: nat): (c: char)
    requires d < 10
    ensures IsDigit(c) && DigitValue(c) == d
  {
    ('0' as int + d) as char
  }

  predicate AllDigits(s: string) {
    forall i | 0 <= i < |s| :: IsDigit(s[i])
  }

  /** The number a run of decimal digits denotes, most significant first. */
  function DigitsValue(s: string): (v: nat)
    requires AllDigits(s)
  {
    if s == [] then 0 else DigitsValue(s[..|s| - 1]) * 10 + DigitValue(s[|s| - 1])
  }

  /** Two digits read as a number from 0 to 99. */
  function TwoDigits(a: char, b: char): (v: nat)
    requires IsDigit(a) && IsDigit(b)
    ensures v < 100
  {
    DigitValue(a) * 10 + DigitValue(b)
  }

  /** "%02d" for a value below 100. */
  function Pad2(n: nat): (s: string)
    requires n < 100
    ensures |s| == 2 && IsDigit(s[0]) && IsDigit(s[1]) && TwoDigits(s[0], s[1]) == n
  {
    [DigitChar(n / 10), DigitChar(n % 10)]
  }

  // ------------------------------------------------------- the two regexes

  /** `^\d{4}$`, matched against the whole (trimmed) text. */
  predicate FourDigitShape(t: string) {
    |t| == 4 && AllDigits(t)
  }

  /** `^\d{1,2}:\d{2}$`, matched against the whole (trimmed) text. */
  predicate ColonShape(t: string) {
    (|t| == 4 || |t| == 5) && t[|t| - 3] == ':' && AllDigits(t[..|t| - 3]) && AllDigits(t[|t| - 2..])
  }

  // ---------------------------------------------------------------- LocalTime

  /** A java.time.LocalTime down to the second. */
  datatype LocalTime = LocalTime(hour: nat, minute: nat, second: nat)

  predicate ValidTime(t: LocalTime) {
    t.hour < 24 && t.minute < 60 && t.second < 60
  }

  /**
   * LocalTime.parse with ISO_LOCAL_TIME under its strict resolver:
   * exactly two digits of hour (00-23), ':', two digits of minute (00-59),
   * optionally ':' and two digits of second (00-59). Anything else throws,
   * which is None here.
   */
  function ParseLocalTime(s: string): (r: Option<LocalTime>)
    ensures r.Some? ==> ValidTime(r.value)
    ensures r.Some? ==> |s| >= 5 && IsDigit(s[0]) && IsDigit(s[1]) && s[2] == ':'
                        && IsDigit(s[3]) && IsDigit(s[4])
                        && r.value.hour == TwoDigits(s[0], s[1])
                        && r.value.minute == TwoDigits(s[3], s[4])
  {
    if |s| >= 5 && IsDigit(s[0]) && IsDigit(s[1]) && s[2] == ':' && IsDigit(s[3]) && IsDigit(s[4]) then
      var hh := TwoDigits(s[0], s[1]);
      var mm := TwoDigits(s[3], s[4]);
      if hh > 23 || mm > 59 then None
      else if |s| == 5 then Some(LocalTime(hh, mm, 0))
      else if |s| == 8 && s[5] == ':' && IsDigit(s[6]) && IsDigit(s[7]) && TwoDigits(s[6], s[7]) <= 59 then
        Some(LocalTime(hh, mm, TwoDigits(s[6], s[7])))
      else None
    else None
  }

  /** "%02d:%02d".format(hour, minute). */
  function FormatHourMinute(t: LocalTime): (s: string)
    requires ValidTime(t)
    ensures |s| == 5 && s[2] == ':'
  {
    Pad2(t.hour) + ":" + Pad2(t.minute)
  }

  /** Printing the value of two digits with "%02d" gives back those digits. */
  lemma Pad2OfDigits(a: char, b: char)
    requires IsDigit(a) && IsDigit(b)
    ensures Pad2(TwoDigits(a, b)) == [a, b]
  {
    var n := TwoDigits(a, b);
    assert n / 10 == DigitValue(a) && n % 10 == DigitValue(b);
  }

  /** A canonical time of day: "HH:mm" with an hour below 24 and a minute below 60. */
  predicate IsCanonicalTime(s: string) {
    |s| == 5 && IsDigit(s[0]) && IsDigit(s[1]) && s[2] == ':' && IsDigit(s[3]) && IsDigit(s[4])
    && TwoDigits(s[0], s[1]) <= 23 && TwoDigits(s[3], s[4]) <= 59
  }

  lemma ParseCanonical(s: string)
    requires IsCanonicalTime(s)
    ensures ParseLocalTime(s) == Some(LocalTime(TwoDigits(s[0], s[1]), TwoDigits(s[3], s[4]), 0))
    ensures FormatHourMinute(ParseLocalTime(s).value) == s
  {
    var t := ParseLocalTime(s).value;
    Pad2OfDigits(s[0], s[1]);
    Pad2OfDigits(s[3], s[4]);
    calc {
      FormatHourMinute(t);
      Pad2(t.hour) + ":" + Pad2(t.minute);
      [s[0], s[1]] + ":" + [s[3], s[4]];
      { assert s == [s[0], s[1], s[2], s[3], s[4]]; }
      s;
    }
  }

  /** A canonical time is accepted by LocalTime.parse. */
  lemma CanonicalParses(s: string)
    requires IsCanonicalTime(s)
    ensures ParseLocalTime(s).Some?
  {
    ParseCanonical(s);
  }

  // ------------------------------------------------------ normalizeTimeOrNull

  /** The text handed to LocalTime.parse, or None when neither regex matches. */
  function Candidate(t: string): Option<string> {
    if FourDigitShape(t) then Some(t[..2] + ":" + t[2..])
    else if ColonShape(t) then Some(t)
    else None
  }

  /**
   * normalizeTimeOrNull: trim, rewrite "HHmm" as "HH:mm", keep "H:mm" and
   * "HH:mm" as they are, parse as a LocalTime, and print it back as "HH:mm".
   */
  function NormalizeTimeOrNull(raw: string): (r: Option<string>)
    ensures r.Some? ==> IsCanonicalTime(r.value)
    ensures !FourDigitShape(Trim(raw)) && !ColonShape(Trim(raw)) ==> r == None
  {
    match Candidate(Trim(raw))
    case None => None
    case Some(c) =>
      match ParseLocalTime(c)
      case None => None
      case Some(t) =>
        var s := FormatHourMinute(t);
        assert TwoDigits(s[0], s[1]) == t.hour && TwoDigits(s[3], s[4]) == t.minute;
        Some(s)
  }

  /** Four digits "HHmm" normalise to "HH:mm" exactly when HH <= 23 and mm <= 59. */
  lemma NormalizeFourDigits(raw: string)
    requires FourDigitShape(Trim(raw))
    ensures var t := Trim(raw);
            var hh := TwoDigits(t[0], t[1]);
            var mm := TwoDigits(t[2], t[3]);
            NormalizeTimeOrNull(raw) == if hh <= 23 && mm <= 59 then Some(t[..2] + ":" + t[2..]) else None
  {
    var t := Trim(raw);
    var c := t[..2] + ":" + t[2..];
    assert c[0] == t[0] && c[1] == t[1] && c[2] == ':' && c[3] == t[2] && c[4] == t[3] && |c| == 5;
    if TwoDigits(t[0], t[1]) <= 23 && TwoDigits(t[2], t[3]) <= 59 {
      ParseCanonical(c);
    }
  }

  /** "HH:mm" normalises to itself exactly when it is a real time of day. */
  lemma NormalizeTwoDigitHour(raw: string)
    requires ColonShape(Trim(raw)) && |Trim(raw)| == 5
    ensures var t := Trim(raw);
            NormalizeTimeOrNull(raw) == if IsCanonicalTime(t) then Some(t) else None
  {
    var t := Trim(raw);
    assert IsDigit(t[0]) && IsDigit(t[1]) && IsDigit(t[3]) && IsDigit(t[4]) by {
      assert t[0] == t[..2][0] && t[1] == t[..2][1] && t[3] == t[3..][0] && t[4] == t[3..][1];
    }
    if IsCanonicalTime(t) {
      ParseCanonical(t);
    }
  }

  /**
   * A one-digit hour such as "4:56" passes the second regex but not
   * LocalTime.parse, whose ISO format wants two hour digits: the result is None.
   */
  lemma NormalizeRejectsOneDigitHour(raw: string)
    requires ColonShape(Trim(raw)) && |Trim(raw)| == 4
    ensures NormalizeTimeOrNull(raw) == None
  {
    assert Trim(raw)[1] == ':';
  }

  /** A normalised time normalises to itself. */
  lemma NormalizeIdempotent(raw: string)
    requires NormalizeTimeOrNull(raw).Some?
    ensures NormalizeTimeOrNull(NormalizeTimeOrNull(raw).value) == NormalizeTimeOrNull(raw)
  {
    var s := NormalizeTimeOrNull(raw).value;
    TrimUnchanged(s);
    assert AllDigits(s[..2]) && AllDigits(s[3..]);
    NormalizeTwoDigitHour(s);
  }

  lemma NormalizeExampleFourDigits(t: string)
    requires t == "0456"
    ensures NormalizeTimeOrNull(t) == Some("04:56")
  {
    assert |t| == 4 && t[0] == '0' && t[1] == '4' && t[2] == '5' && t[3] == '6';
    TrimUnchanged(t);
    assert FourDigitShape(t);
    var c := t[..2] + ":" + t[2..];
    assert c[0] == '0' && c[1] == '4' && c[2] == ':' && c[3] == '5' && c[4] == '6';
    assert c == "04:56";
    NormalizeFourDigits(t);
  }

  lemma NormalizeExampleOutOfRange(t: string)
    requires t == "2400" || t == "25:61"
    ensures NormalizeTimeOrNull(t) == None
  {
    if t == "2400" {
      Rejects2400(t);
    } else {
      Rejects2561(t);
    }
  }

  lemma Rejects2400(t: string)
    requires t == "2400"
    ensures NormalizeTimeOrNull(t) == None
  {
    assert |t| == 4 && t[0] == '2' && t[1] == '4' && t[2] == '0' && t[3] == '0';
    TrimUnchanged(t);
    assert FourDigitShape(t);
    assert TwoDigits(t[0], t[1]) == 24;
    NormalizeFourDigits(t);
  }

  lemma Rejects2561(t: string)
    requires t == "25:61"
    ensures NormalizeTimeOrNull(t) == None
  {
    assert |t| == 5 && t[0] == '2' && t[1] == '5' && t[2] == ':' && t[3] == '6' && t[4] == '1';
    TrimUnchanged(t);
    assert AllDigits(t[..2]) && AllDigits(t[3..]);
    assert TwoDigits(t[0], t[1]) == 25;
    NormalizeTwoDigitHour(t);
  }

  lemma TrimStartDropsOne(s: string)
    requires |s| >= 2 && IsWhitespace(s[0]) && !IsWhitespace(s[1])
    ensures TrimStart(s) == s[1..]
  {
    assert s[1..][0] == s[1];
  }

  lemma TrimEndDropsOne(s: string)
    requires |s| >= 2 && IsWhitespace(s[|s| - 1]) && !IsWhitespace(s[|s| - 2])
    ensures TrimEnd(s) == s[..|s| - 1]
  {
    assert s[..|s| - 1][|s| - 2] == s[|s| - 2];
  }

  lemma TrimOneBlankEachSide(s: string)
    requires |s| >= 3 && IsWhitespace(s[0]) && IsWhitespace(s[|s| - 1])
    requires !IsWhitespace(s[1]) && !IsWhitespace(s[|s| - 2])
    ensures Trim(s) == s[1..|s| - 1]
  {
    var a := s[1..];
    assert a[|a| - 1] == s[|s| - 1] && a[|a| - 2] == s[|s| - 2];
    calc {
      Trim(s);
      TrimEnd(TrimStart(s));
      { TrimStartDropsOne(s); }
      TrimEnd(a);
      { TrimEndDropsOne(a); }
      a[..|a| - 1];
      s[1..|s| - 1];
    }
  }

  lemma NormalizeExampleSpaces(raw: string)
    requires raw == " 09:05 "
    ensures NormalizeTimeOrNull(raw) == Some("09:05")
  {
    assert |raw| == 7 && raw[0] == ' ' && raw[1] == '0' && raw[5] == '5' && raw[6] == ' ';
    TrimOneBlankEachSide(raw);
    var t := raw[1..6];
    assert t[0] == '0' && t[1] == '9' && t[2] == ':' && t[3] == '0' && t[4] == '5' && |t| == 5;
    assert t == "09:05";
    assert t[..2] == "09" && t[3..] == "05";
    NormalizeTwoDigitHour(raw);
  }

  lemma NormalizeExampleRejected(t: string)
    requires t == "4:56" || t == "12-30"
    ensures NormalizeTimeOrNull(t) == None
  {
    if t == "4:56" {
      assert |t| == 4 && t[0] == '4' && t[1] == ':' && t[2] == '5' && t[3] == '6';
      TrimUnchanged(t);
      assert AllDigits(t[..1]) && AllDigits(t[2..]);
      NormalizeRejectsOneDigitHour(t);
    } else {
      assert |t| == 5 && t[0] == '1' && t[4] == '0' && t[2] == '-';
      TrimUnchanged(t);
      assert !ColonShape(t) && !FourDigitShape(t);
    }
  }

  // ------------------------------------------------------------ toIntOrNull

  const IntMin: int := -0x8000_0000
  const IntMax: int := 0x7FFF_FFFF

  /**
   * String.toIntOrNull(): an optional '+' or '-', then one or more digits,
   * nothing else, and a value that fits a 32-bit Int.
   */
  function ToIntOrNull(s: string): (r: Option<int>)
    ensures r.Some? ==> IntMin <= r.value <= IntMax
  {
    if |s| == 0 then None
    else
      var negative := s[0] == '-';
      var digits := if s[0] == '-' || s[0] == '+' then s[1..] else s;
      if digits == [] || !AllDigits(digits) then None
      else
        var magnitude: int := DigitsValue(digits);
        var v := if negative then -magnitude else magnitude;
        if IntMin <= v <= IntMax then Some(v) else None
  }

  /** The decimal digits of a natural number, without leading zeros. */
  function NatDigits(n: nat): (s: string)
    ensures s != [] && AllDigits(s) && DigitsValue(s) == n
  {
    if n < 10 then [DigitChar(n)]
    else
      var s := NatDigits(n / 10) + [DigitChar(n % 10)];
      assert s[..|s| - 1] == NatDigits(n / 10);
      s
  }

  /** Int.toString(). */
  function IntToString(n: int): string {
    if n < 0 then "-" + NatDigits(-n) else NatDigits(n)
  }

  /** toIntOrNull reads back every Int its toString writes. */
  lemma ToIntOrNullRoundTrip(n: int)
    requires IntMin <= n <= IntMax
    ensures ToIntOrNull(IntToString(n)) == Some(n)
  {
    var s := IntToString(n);
    if n < 0 {
      assert s[0] == '-' && s[1..] == NatDigits(-n);
    } else {
      assert s[0] != '-' && s[0] != '+' by { assert IsDigit(s[0]); }
    }
  }

  // ------------------------------------------------------------- duration

  /** isDurationValid: the text parses as an Int between 1 and 10. */
  function IsDurationValid(s: string): (ok: bool)
    ensures ok ==> s != [] && (s[0] == '+' || IsDigit(s[0])) && AllDigits(s[1..])
  {
    ToIntOrNull(s).Some? && 1 <= ToIntOrNull(s).value <= 10
  }

  /** The printed form of a number is a valid duration exactly when the number is in 1..10. */
  lemma DurationValidIff(n: int)
    requires IntMin <= n <= IntMax
    ensures IsDurationValid(IntToString(n)) <==> 1 <= n <= 10
  {
    ToIntOrNullRoundTrip(n);
  }

  lemma DurationExamples()
    ensures IsDurationValid("8") && IsDurationValid("10") && IsDurationValid("+3") && IsDurationValid("07")
    ensures !IsDurationValid("0") && !IsDurationValid("11") && !IsDurationValid(" 8") && !IsDurationValid("")
    ensures !IsDurationValid("-") && !IsDurationValid("8s")
  {
    assert AllDigits("07") && DigitsValue("07") == 7 by { assert "07"[..1] == "0"; }
    assert DigitsValue("11") == 11 by { assert "11"[..1] == "1"; }
    assert DigitsValue("10") == 10 by { assert "10"[..1] == "1"; }
    assert "+3"[1..] == "3";
    assert !AllDigits(" 8") by { assert !IsDigit(" 8"[0]); }
    assert !AllDigits("8s") by { assert !IsDigit("8s"[1]); }
  }
}
