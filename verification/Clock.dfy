/** Instants as UTC civil fields, the two text layouts the service stores, and the parser
    that reads both of them back (the profile of section 5.6 of RFC 3339 in UTC). */
module Clock {
  import opened Digits
  import opened Results

  datatype Instant = Instant(
    year: int, month: nat, day: nat, hour: nat, minute: nat, second: nat, nanos: nat)

  predicate LeapYear(year: int) {
    year % 4 == 0 && (year % 100 != 0 || year % 400 == 0)
  }

  function DaysIn(year: int, month: nat): nat {
    if month == 2 then (if LeapYear(year) then 29 else 28)
    else if month == 4 || month == 6 || month == 9 || month == 11 then 30
    else 31
  }

  predicate ValidInstant(t: Instant) {
    && 1 <= t.month <= 12
    && 1 <= t.day <= DaysIn(t.year, t.month)
    && t.hour < 24 && t.minute < 60 && t.second < 60
    && t.nanos < 1_000_000_000
  }

  type Time = t: Instant | ValidInstant(t) witness Instant(1, 1, 1, 0, 0, 0, 0)

  /** The zero `time.Time`. */
  const ZERO: Time := Instant(1, 1, 1, 0, 0, 0, 0)

  /** The years that four digits can spell. */
  predicate FourDigitYear(t: Instant) { 0 <= t.year <= 9999 }

  // ---------------------------------------------------------------- printing

  function Two(n: nat): (s: string)
    requires n < 100
    ensures |s| == 2 && AllDigits(s)
  {
    [Digit(n / 10), Digit(n % 10)]
  }

  function YearText(year: int): string {
    if year < 0 then "-" + PadYear(-year) else PadYear(year)
  }

  function PadYear(n: nat): string {
    if n < 10000 then Fixed(n, 4) else Decimal(n)
  }

  /** Everything between the year and the fraction. */
  function DateTimeText(t: Time): (s: string)
    ensures |s| == 15
  {
    "-" + Two(t.month) + "-" + Two(t.day) + "T" + Two(t.hour) + ":" + Two(t.minute) + ":" + Two(t.second)
  }

  /** The canonical layout: always nine fraction digits. */
  function CanonicalTime(t: Time): string {
    YearText(t.year) + DateTimeText(t) + ("." + Fixed(t.nanos, 9) + "Z")
  }

  /** The RFC 3339 layout with trailing fraction zeros dropped. */
  function LedgerTime(t: Time): string {
    YearText(t.year) + DateTimeText(t) + FractionText(t.nanos)
  }

  function FractionText(nanos: nat): string {
    if nanos == 0 then "Z" else "." + DropZeros(Fixed(nanos, 9)) + "Z"
  }

  function DropZeros(ds: string): (r: string)
    ensures r <= ds
    ensures forall i :: |r| <= i < |ds| ==> ds[i] == '0'
  {
    if ds != "" && ds[|ds| - 1] == '0' then DropZeros(ds[..|ds| - 1]) else ds
  }

  // ---------------------------------------------------------------- parsing

  function TwoValue(s: string, i: nat): nat
    requires i + 2 <= |s| && IsDigit(s[i]) && IsDigit(s[i + 1])
  {
    10 * DigitValue(s[i]) + DigitValue(s[i + 1])
  }

  predicate DateTimeShape(s: string) {
    && |s| == 15
    && s[0] == '-' && s[3] == '-' && s[6] == 'T' && s[9] == ':' && s[12] == ':'
    && forall i :: 0 <= i < 15 && i % 3 != 0 ==> IsDigit(s[i])
  }

  /** Right-pads or truncates fraction digits to nanoseconds. */
  function NineDigits(ds: string): (r: string)
    ensures |r| == 9
    ensures AllDigits(ds) ==> AllDigits(r)
  {
    if |ds| >= 9 then ds[..9] else ds + seq(9 - |ds|, _ => '0')
  }

  function ParseFraction(s: string): Option<nat> {
    if s == "Z" then Some(0)
    else if |s| >= 3 && s[0] == '.' && s[|s| - 1] == 'Z' && AllDigits(s[1..|s| - 1]) then
      Some(Value(NineDigits(s[1..|s| - 1])))
    else None
  }

  /** `time.Parse(time.RFC3339Nano, s)` for texts in UTC. */
  function ParseTime(s: string): Option<Time> {
    if |s| < 20 || !AllDigits(s[..4]) || !DateTimeShape(s[4..19]) || ParseFraction(s[19..]).None? then None
    else
      var d := s[4..19];
      var t := Instant(Value(s[..4]), TwoValue(d, 1), TwoValue(d, 4), TwoValue(d, 7), TwoValue(d, 10),
                       TwoValue(d, 13), ParseFraction(s[19..]).value);
      if ValidInstant(t) then Some(t) else None
  }

  // ---------------------------------------------------------------- round trip

  lemma DateTimeParses(t: Time)
    ensures DateTimeShape(DateTimeText(t))
    ensures TwoValue(DateTimeText(t), 1) == t.month && TwoValue(DateTimeText(t), 4) == t.day
    ensures TwoValue(DateTimeText(t), 7) == t.hour && TwoValue(DateTimeText(t), 10) == t.minute
    ensures TwoValue(DateTimeText(t), 13) == t.second
  {
  }

  lemma {:induction false} DropZerosPads(ds: string)
    requires |ds| == 9 && AllDigits(ds)
    ensures AllDigits(DropZeros(ds)) && NineDigits(DropZeros(ds)) == ds
  {
    hide Value, Fixed;
    var r := DropZeros(ds);
    assert r + seq(9 - |r|, _ => '0') == ds;
  }

  lemma {:induction false} AllZerosValue(ds: string)
    requires AllDigits(ds) && DropZeros(ds) == ""
    ensures Value(ds) == 0
  {
    if ds != "" {
      assert ds[|ds| - 1] == '0';
      assert forall i :: 0 <= i < |ds| ==> ds[i] == '0';
      var front := ds[..|ds| - 1];
      AllZerosValue(front);
    }
  }

  lemma FractionParses(nanos: nat)
    requires nanos < 1_000_000_000
    ensures ParseFraction(FractionText(nanos)) == Some(nanos)
    ensures ParseFraction("." + Fixed(nanos, 9) + "Z") == Some(nanos)
  {
    var ds := Fixed(nanos, 9);
    NineDigitsFit(nanos);
    hide Value, Fixed, DropZeros, NineDigits;
    var s := "." + ds + "Z";
    assert s[1..|s| - 1] == ds;
    assert NineDigits(ds) == ds by { DropNothing(ds); }
    if nanos > 0 {
      var r := DropZeros(ds);
      DropZerosPads(ds);
      if r == "" { AllZerosValue(ds); }
      var u := "." + r + "Z";
      assert u[1..|u| - 1] == r;
    }
  }

  lemma NineDigitsFit(nanos: nat)
    requires nanos < 1_000_000_000
    ensures Value(Fixed(nanos, 9)) == nanos
  {
    assert Pow10(3) == 1000;
    assert Pow10(6) == 1_000_000;
    assert Pow10(9) == 1_000_000_000;
    FixedValue(nanos, 9);
  }

  lemma DropNothing(ds: string)
    requires |ds| == 9
    ensures NineDigits(ds) == ds
  {
  }

  /** The shape of a stored instant whose year does not fit in four digits is rejected. */
  lemma OddYearRejected(year: int, rest: string)
    requires !(0 <= year <= 9999) && |rest| >= 15 && rest[0] == '-'
    ensures ParseTime(YearText(year) + rest).None?
  {
    var s := YearText(year) + rest;
    if year < 0 {
      assert s[..4][0] == '-';
    } else {
      assert Pow10(4) == 10000;
      DecimalLength(year, 4);
      assert s[4] == Decimal(year)[4] && s[4..][0] == s[4];
    }
  }

  lemma InstantParses(t: Time, fraction: string)
    requires ParseFraction(fraction) == Some(t.nanos) && fraction != ""
    ensures ParseTime(YearText(t.year) + DateTimeText(t) + fraction) == if FourDigitYear(t) then Some(t) else None
  {
    var d := DateTimeText(t);
    var s := YearText(t.year) + d + fraction;
    DateTimeParses(t);
    if FourDigitYear(t) {
      assert Pow10(4) == 10000;
      FixedValue(t.year, 4);
      hide Fixed, Value, DateTimeText, DateTimeShape, ParseFraction;
      assert s[..4] == Fixed(t.year, 4) && s[4..19] == d && s[19..] == fraction;
    } else {
      assert s == YearText(t.year) + (d + fraction);
      OddYearRejected(t.year, d + fraction);
    }
  }

  /** Both layouts read back to the instant they were printed from exactly when its UTC
      year is in 0..9999; any other instant prints to a text that cannot be read. */
  lemma TimeRoundTrip(t: Time)
    ensures ParseTime(CanonicalTime(t)) == if FourDigitYear(t) then Some(t) else None
    ensures ParseTime(LedgerTime(t)) == if FourDigitYear(t) then Some(t) else None
  {
    hide ParseTime, ParseFraction, Fixed, FractionText;
    FractionParses(t.nanos);
    assert FractionText(t.nanos) != "" by { FractionNonEmpty(t.nanos); }
    InstantParses(t, FractionText(t.nanos));
    InstantParses(t, "." + Fixed(t.nanos, 9) + "Z");
  }

  lemma FractionNonEmpty(nanos: nat)
    ensures FractionText(nanos) != ""
  {
  }

  lemma YearTextInjective(a: int, b: int)
    requires YearText(a) == YearText(b)
    ensures a == b
  {
    assert Pow10(4) == 10000;
    PadYearValue(if a < 0 then -a else a);
    PadYearValue(if b < 0 then -b else b);
    hide Fixed, Decimal, Value, PadYear;
    var sa, sb := YearText(a), YearText(b);
    if a < 0 { assert sa[0] == '-' && sa[1..] == PadYear(-a); }
    if b < 0 { assert sb[0] == '-' && sb[1..] == PadYear(-b); }
  }

  lemma PadYearValue(n: nat)
    ensures PadYear(n) != "" && AllDigits(PadYear(n)) && Value(PadYear(n)) == n
  {
    assert Pow10(4) == 10000;
    if n < 10000 { FixedValue(n, 4); } else { DecimalValue(n); }
  }

  /** The canonical layout determines the instant, for every year. */
  lemma CanonicalTimeInjective(a: Time, b: Time)
    requires CanonicalTime(a) == CanonicalTime(b)
    ensures a == b
  {
    var fa, fb := "." + Fixed(a.nanos, 9) + "Z", "." + Fixed(b.nanos, 9) + "Z";
    var sa, sb := CanonicalTime(a), CanonicalTime(b);
    var n := |sa| - 11;
    assert sa[n..] == fa && sb[n..] == fb;
    assert sa[n - 15..n] == DateTimeText(a) && sb[n - 15..n] == DateTimeText(b);
    assert sa[..n - 15] == YearText(a.year) && sb[..n - 15] == YearText(b.year);
    hide Fixed, DateTimeText, YearText;
    YearTextInjective(a.year, b.year);
    DateTimeParses(a);
    DateTimeParses(b);
    assert fa[1..10] == Fixed(a.nanos, 9) && fb[1..10] == Fixed(b.nanos, 9);
    NineDigitsFit(a.nanos);
    NineDigitsFit(b.nanos);
  }

  // ---------------------------------------------------------------- the layouts, character by character

  lemma TwoDigitValue(n: nat)
    requires n < 100
    ensures Value(Two(n)) == n
  {
    var s := Two(n);
    assert s[..1][..0] == "" && s[..1][0] == s[0];
    assert Value(s[..1]) == n / 10;
  }

  /** Where each part stands in the canonical layout. */
  predicate LaidOut(s: string, t: Time) {
    && |s| == 30 && AllDigits(s[..4]) && Value(s[..4]) == t.year
    && s[4] == '-' && AllDigits(s[5..7]) && Value(s[5..7]) == t.month
    && s[7] == '-' && AllDigits(s[8..10]) && Value(s[8..10]) == t.day
    && s[10] == 'T' && AllDigits(s[11..13]) && Value(s[11..13]) == t.hour
    && s[13] == ':' && AllDigits(s[14..16]) && Value(s[14..16]) == t.minute
    && s[16] == ':' && AllDigits(s[17..19]) && Value(s[17..19]) == t.second
    && s[19] == '.' && AllDigits(s[20..29]) && Value(s[20..29]) == t.nanos && s[29] == 'Z'
  }

  lemma DateTimeLayout(t: Time)
    ensures var d := DateTimeText(t);
            && d[0] == '-' && d[1..3] == Two(t.month) && d[3] == '-' && d[4..6] == Two(t.day)
            && d[6] == 'T' && d[7..9] == Two(t.hour) && d[9] == ':' && d[10..12] == Two(t.minute)
            && d[12] == ':' && d[13..15] == Two(t.second)
  {
    hide Two;
  }

  lemma CanonicalSlices(t: Time)
    requires FourDigitYear(t)
    ensures var s := CanonicalTime(t);
            && |s| == 30 && s[..4] == Fixed(t.year, 4) && s[4..19] == DateTimeText(t)
            && s[..19] == YearText(t.year) + DateTimeText(t)
            && s[19] == '.' && s[20..29] == Fixed(t.nanos, 9) && s[29] == 'Z'
  {
    hide DateTimeText, Fixed;
  }

  /** The canonical layout of an instant with a four-digit year, position by position. */
  lemma CanonicalTimeExactly(t: Time)
    requires FourDigitYear(t)
    ensures LaidOut(CanonicalTime(t), t)
  {
    assert Pow10(4) == 10000;
    FixedValue(t.year, 4);
    NineDigitsFit(t.nanos);
    TwoDigitValue(t.month);
    TwoDigitValue(t.day);
    TwoDigitValue(t.hour);
    TwoDigitValue(t.minute);
    TwoDigitValue(t.second);
    CanonicalSlices(t);
    DateTimeLayout(t);
    hide Value, Fixed, Two, DateTimeText, CanonicalTime, Pow10;
    var s := CanonicalTime(t);
    var d := DateTimeText(t);
    assert s[5..7] == d[1..3] && s[8..10] == d[4..6] && s[11..13] == d[7..9];
    assert s[14..16] == d[10..12] && s[17..19] == d[13..15];
    assert s[4] == d[0] && s[7] == d[3] && s[10] == d[6] && s[13] == d[9] && s[16] == d[12];
  }

  /** The other layout is the canonical one without the zeros at the end of the fraction, and
      without the point when nothing is left of it. */
  lemma LedgerTimeExactly(t: Time) returns (digits: string, zeros: string)
    requires FourDigitYear(t)
    ensures |CanonicalTime(t)| == 30 && CanonicalTime(t)[20..29] == digits + zeros
    ensures LedgerTime(t) == CanonicalTime(t)[..19] + (if digits == "" then "Z" else "." + digits + "Z")
    ensures (forall i :: 0 <= i < |zeros| ==> zeros[i] == '0') && (digits != "" ==> digits[|digits| - 1] != '0')
  {
    var ds := Fixed(t.nanos, 9);
    digits, zeros := DropZeros(ds), ds[|DropZeros(ds)|..];
    LastKept(ds);
    CanonicalSlices(t);
    FractionVanishes(t.nanos);
    hide Value, Fixed, DropZeros, DateTimeText, CanonicalTime, YearText;
    assert ds == digits + zeros;
  }

  lemma FractionVanishes(nanos: nat)
    requires nanos < 1_000_000_000
    ensures nanos == 0 <==> DropZeros(Fixed(nanos, 9)) == ""
  {
    NineDigitsFit(nanos);
    AllZeros(9);
    hide Value, Fixed, DropZeros;
    if DropZeros(Fixed(nanos, 9)) == "" { AllZerosValue(Fixed(nanos, 9)); }
  }

  lemma {:induction false} LastKept(ds: string)
    ensures DropZeros(ds) != "" ==> DropZeros(ds)[|DropZeros(ds)| - 1] != '0'
  {
    if ds != "" && ds[|ds| - 1] == '0' { LastKept(ds[..|ds| - 1]); }
  }

  lemma {:induction false} AllZeros(width: nat)
    ensures DropZeros(Fixed(0, width)) == ""
  {
    if width > 0 {
      AllZeros(width - 1);
      assert Fixed(0, width)[..width - 1] == Fixed(0, width - 1);
    }
  }
}
