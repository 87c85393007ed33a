/** `instant` as one formula over the digits of a date, and what a zone does to it. */
module DateFormula {
  import opened Options
  import opened Dates
  import opened DateOrder

  /** The proleptic Gregorian calendar: a leap day every four years, but every hundred, but every four hundred. */
  lemma {:induction false} YearFormula(y: nat)
    requires y >= 1
    ensures DaysBeforeYear(y) == 365 * (y - 1) + (y - 1) / 4 - (y - 1) / 100 + (y - 1) / 400
  {
    if y > 1 {
      YearFormula(y - 1);
      MonthFormula(y - 1, 13);
      LeapStep(y - 1);
      SameLeap(y - 1);
    }
  }

  lemma LeapStep(y: nat)
    requires y >= 1
    ensures y / 4 - (y - 1) / 4 == (if y % 4 == 0 then 1 else 0)
    ensures y / 100 - (y - 1) / 100 == (if y % 100 == 0 then 1 else 0)
    ensures y / 400 - (y - 1) / 400 == (if y % 400 == 0 then 1 else 0)
    ensures (y % 400 == 0 ==> y % 100 == 0) && (y % 100 == 0 ==> y % 4 == 0)
  {
  }

  /** Days of a common year before month `m`; 13 is the next year's first. */
  function BeforeMonth(m: nat): nat {
    if m <= 1 then 0 else if m == 2 then 31 else if m == 3 then 59 else if m == 4 then 90 else if m == 5 then 120
    else if m == 6 then 151 else if m == 7 then 181 else if m == 8 then 212 else if m == 9 then 243
    else if m == 10 then 273 else if m == 11 then 304 else if m == 12 then 334 else 365
  }

  predicate LeapYear(y: nat) { if y % 100 == 0 then y % 400 == 0 else y % 4 == 0 }

  lemma SameLeap(y: nat)
    ensures Leap(y) <==> LeapYear(y)
  {
    assert y % 100 == 0 ==> y % 4 == 0;
  }

  /** Days before each month of a common year, and one more behind February of a leap year. */
  lemma {:induction false} MonthFormula(y: nat, m: nat)
    requires 1 <= m <= 13
    ensures DaysBeforeMonth(y, m) == BeforeMonth(m) + if m > 2 && LeapYear(y) then 1 else 0
  {
    if m > 1 {
      MonthFormula(y, m - 1);
      SameLeap(y);
      MonthStep(m - 1, MonthLength(y, m - 1), LeapYear(y));
    }
  }

  lemma MonthStep(m: nat, length: nat, leap: bool)
    requires 1 <= m <= 12
    requires length == if m == 2 then (if leap then 29 else 28) else if m == 4 || m == 6 || m == 9 || m == 11 then 30 else 31
    ensures BeforeMonth(m + 1) == BeforeMonth(m) + length - if m == 2 && leap then 1 else 0
  {
  }

  /** The dates there are: the month's days follow from where the next month starts. */
  lemma ValidIff(f: Fields)
    ensures f.Valid() <==>
            && 1 <= f.year < 10000 && 1 <= f.month < 13 && f.day >= 1
            && BeforeMonth(f.month) + f.day <= BeforeMonth(f.month + 1) + (if f.month == 2 && LeapYear(f.year) then 1 else 0)
            && f.hour <= 23 && f.minute <= 59 && f.second <= 59 && Digits(f.fraction) && -1440 < f.offset < 1440
  {
    SameLeap(f.year);
    if 1 <= f.month <= 12 {
      MonthStep(f.month, MonthLength(f.year, f.month), LeapYear(f.year));
    }
  }

  /** Days since 1970-01-01. */
  function EpochDays(y: nat, m: nat, d: nat): int
    requires y >= 1 && 1 <= m <= 12
  {
    365 * (y - 1970) + ((y - 1) / 4 - 492) - ((y - 1) / 100 - 19) + ((y - 1) / 400 - 4)
    + BeforeMonth(m) + (if m > 2 && LeapYear(y) then 1 else 0) + d - 1
  }

  lemma EpochFormula(y: nat, m: nat, d: nat)
    requires y >= 1 && 1 <= m <= 12 && d >= 1
    ensures DayNumber(y, m, d) - EPOCH_DAY == EpochDays(y, m, d)
  {
    YearFormula(y);
    MonthFormula(y, m);
  }

  /** Nanoseconds since 1970-01-01 00:00:00 UTC. */
  function EpochNanos(y: nat, m: nat, d: nat, hour: nat, minute: nat, second: nat, fraction: string): int
    requires y >= 1 && 1 <= m <= 12 && Digits(fraction)
  {
    (86400 * EpochDays(y, m, d) + 3600 * hour + 60 * minute + second) * 1_000_000_000 + NinthDigits(fraction)
  }

  /** The first nine digits of a fraction, filled up with zeros. */
  function NinthDigits(fraction: string): nat
    requires Digits(fraction)
  {
    Num((fraction + "000000000")[..9])
  }

  lemma FieldsFormula(f: Fields)
    requires f.Valid() && f.offset == 0
    ensures f.Instant() == EpochNanos(f.year, f.month, f.day, f.hour, f.minute, f.second, f.fraction)
  {
    EpochFormula(f.year, f.month, f.day);
    assert Zeros(9) == "000000000";
  }

  /** A date without zone is read in UTC, to the nanosecond. */
  lemma InstantFormula(s: string)
    requires Zoneless(s)
    ensures var y, m, d := Num(s[..4]), Num(s[5..7]), Num(s[8..10]);
            && y >= 1 && 1 <= m <= 12
            && Instant(s) == Some(EpochNanos(y, m, d, Num(s[11..13]), Num(s[14..16]), Num(s[17..19]), PlainFraction(s)))
  {
    PlainInstant(s);
    FieldsFormula(PlainFields(s));
  }

  // ----- zones ---------------------------------------------------------------------------------------------

  lemma {:induction false} DigitRunStops(digits: string, rest: string)
    requires Digits(digits) && (rest == "" || !IsDigit(rest[0]))
    ensures DigitRun(digits + rest) == |digits|
  {
    if digits == "" {
      assert digits + rest == rest;
    } else {
      assert (digits + rest)[1..] == digits[1..] + rest;
      DigitRunStops(digits[1..], rest);
    }
  }

  /** A zone text: Z, or a sign and digits. */
  predicate ZoneText(z: string) {
    z != "" && (z[0] == 'Z' || z[0] == '+' || z[0] == '-') && !IsSpace(z[|z| - 1])
  }

  lemma StampedStays(s: string, z: string)
    requires Stamped(s)
    ensures Stamped(s + z)
    ensures (s + z)[..4] == s[..4] && (s + z)[5..7] == s[5..7] && (s + z)[8..10] == s[8..10]
    ensures (s + z)[11..13] == s[11..13] && (s + z)[14..16] == s[14..16] && (s + z)[17..19] == s[17..19]
  {
    SliceStays(s, z, 0, 4);
    SliceStays(s, z, 5, 7);
    SliceStays(s, z, 8, 10);
    SliceStays(s, z, 11, 13);
    SliceStays(s, z, 14, 16);
    SliceStays(s, z, 17, 19);
  }

  lemma SliceStays(s: string, z: string, i: nat, j: nat)
    requires i <= j <= |s|
    ensures (s + z)[i..j] == s[i..j]
  {
  }

  lemma FractionStays(s: string, z: string)
    requires Zoneless(s) && ZoneText(z)
    ensures Fraction((s + z)[19..]) == Some(PlainFraction(s))
    ensures (s + z)[19 + (if PlainFraction(s) == "" then 0 else 1 + |PlainFraction(s)|)..] == z
  {
    var rest := (s + z)[19..];
    if |s| == 19 {
      assert rest == z;
    } else {
      var digits := s[20..];
      assert rest == "." + (digits + z);
      assert rest[1..] == digits + z;
      DigitRunStops(digits, z);
      assert rest[1..1 + |digits|] == digits;
    }
  }

  lemma ParseZoned(s: string, z: string, minutes: int)
    requires Zoneless(s) && ZoneText(z) && Zone(z) == Some(minutes)
    ensures Parse(s + z) == Some(PlainFields(s).(offset := minutes))
  {
    StampedStays(s, z);
    FractionStays(s, z);
  }

  lemma ZonedStripped(s: string, z: string)
    requires Stamped(s) && ZoneText(z)
    ensures Strip(s + z) == s + z
  {
    StampChars(s, 0);
    assert (s + z)[0] == s[0] && (s + z)[|s + z| - 1] == z[|z| - 1];
  }

  /** An instant read in a zone of so many minutes; None when no zone is that far. */
  function InZone(instant: int, minutes: int): Option<int> {
    if -1440 < minutes < 1440 then Some(instant - minutes * 60 * 1_000_000_000) else None
  }

  /** The same date with a zone is that much earlier, east of Greenwich, or later. */
  lemma ZoneShifts(s: string, z: string, minutes: int)
    requires Zoneless(s) && ZoneText(z) && Zone(z) == Some(minutes)
    ensures Instant(s).Some? && Instant(s + z) == InZone(Instant(s).value, minutes)
  {
    var f := PlainFields(s);
    ZonedInstant(s, z, f, minutes);
    PlainInstant(s);
  }

  lemma ZonedInstant(s: string, z: string, f: Fields, minutes: int)
    requires Zoneless(s) && ZoneText(z) && Zone(z) == Some(minutes) && f == PlainFields(s)
    ensures Instant(s + z) == InZone(f.Instant(), minutes)
  {
    ZonedStripped(s, z);
    ParseZoned(s, z, minutes);
    InstantInZone(s + z, f, minutes);
  }

  lemma InstantInZone(value: string, f: Fields, minutes: int)
    requires Strip(value) == value && Parse(value) == Some(f.(offset := minutes)) && f.Valid() && f.offset == 0
    ensures Instant(value) == InZone(f.Instant(), minutes)
  {
    InstantOf(value, f.(offset := minutes));
    ZonedFields(f, minutes);
  }

  lemma InstantOf(value: string, f: Fields)
    requires Strip(value) == value && Parse(value) == Some(f)
    ensures Instant(value) == if f.Valid() then Some(f.Instant()) else None
  {
  }

  lemma ZonedFields(f: Fields, minutes: int)
    requires f.Valid() && f.offset == 0
    ensures var zoned := f.(offset := minutes);
            && (zoned.Valid() <==> -1440 < minutes < 1440)
            && (zoned.Valid() ==> zoned.Instant() == f.Instant() - minutes * 60 * 1_000_000_000)
  {
    var zoned := f.(offset := minutes);
    if zoned.Valid() {
      assert zoned.Seconds() == f.Seconds() - minutes * 60;
      assert zoned.Nanos() == f.Nanos();
    }
  }

  /** Hours and minutes behind a sign, with a colon or without; or Z. */
  lemma ZoneMeans(z: string)
    requires z == "Z" || (|z| == 6 && TwoDigits(z, 1) && z[3] == ':' && TwoDigits(z, 4)) || (|z| == 5 && TwoDigits(z, 1) && TwoDigits(z, 3))
    requires z != "Z" ==> z[0] == '+' || z[0] == '-'
    ensures z == "Z" ==> Zone(z) == Some(0)
    ensures |z| == 6 ==> Zone(z) == Some((if z[0] == '+' then 1 else -1) * (60 * Num(z[1..3]) + Num(z[4..6])))
    ensures |z| == 5 ==> Zone(z) == Some((if z[0] == '+' then 1 else -1) * (60 * Num(z[1..3]) + Num(z[3..5])))
  {
  }

  /** Digits are read as decimals. */
  lemma TwoDigitsMean(a: char, b: char)
    requires IsDigit(a) && IsDigit(b)
    ensures Num([a, b]) == 10 * (a as int - '0' as int) + (b as int - '0' as int)
  {
    assert [a, b][..1] == [a];
    assert Num([a]) == a as int - '0' as int by {
      assert [a][..0] == "";
    }
  }

  // ----- surrounding white space ---------------------------------------------------------------------------------

  predicate White(s: string) { forall i :: 0 <= i < |s| ==> s[i] in {' ', '\t', '\n', '\r', 11 as char, 12 as char} }

  lemma WhiteIsSpace(c: char)
    ensures IsSpace(c) <==> c in {' ', '\t', '\n', '\r', 11 as char, 12 as char}
  {
  }

  lemma {:induction false} StripsLeft(left: string, core: string)
    requires White(left) && core != "" && !IsSpace(core[0]) && !IsSpace(core[|core| - 1])
    ensures Strip(left + core) == core
  {
    if left == "" {
      assert left + core == core;
    } else {
      WhiteIsSpace(left[0]);
      assert (left + core)[1..] == left[1..] + core;
      StripsLeft(left[1..], core);
    }
  }

  /** White space around a date is stripped. */
  lemma {:induction false} StripsBoth(left: string, core: string, right: string)
    requires White(left) && White(right) && core != "" && !IsSpace(core[0]) && !IsSpace(core[|core| - 1])
    ensures Strip(left + core + right) == core
    decreases |left| + |right|
  {
    var s := left + core + right;
    if right == "" {
      assert s == left + core;
      StripsLeft(left, core);
    } else if left != "" {
      WhiteIsSpace(left[0]);
      assert s[1..] == left[1..] + core + right;
      StripsBoth(left[1..], core, right);
    } else {
      WhiteIsSpace(right[|right| - 1]);
      assert s[0] == core[0] && s[..|s| - 1] == left + core + right[..|right| - 1];
      StripsBoth(left, core, right[..|right| - 1]);
    }
  }

  lemma PaddedInstant(left: string, s: string, right: string)
    requires Zoneless(s) && White(left) && White(right)
    ensures Instant(left + s + right) == Instant(s)
  {
    StampChars(s, 0);
    LastChar(s);
    StripsBoth(left, s, right);
    StripsBoth("", s, "");
    assert "" + s + "" == s;
  }

  lemma LastChar(s: string)
    requires Zoneless(s)
    ensures !IsSpace(s[|s| - 1])
  {
    if |s| == 19 {
      StampChars(s, 18);
    } else {
      assert IsDigit(s[20..][|s| - 21]);
    }
  }

  // ----- an anchor --------------------------------------------------------------------------------------------------

  lemma FourDigitsMean(a: char, b: char, c: char, d: char)
    requires IsDigit(a) && IsDigit(b) && IsDigit(c) && IsDigit(d)
    ensures Digits([a, b, c, d]) && Num([a, b, c, d]) == 100 * Num([a, b]) + Num([c, d])
  {
    assert [a, b, c, d] == [a, b] + [c, d];
    NumConcat([a, b], [c, d]);
    assert Pow10(2) == 10 * Pow10(1) && Pow10(1) == 10 * Pow10(0);
  }

  lemma EpochParts()
    ensures var s := "1970-01-01 00:00:00";
            s[..4] == "1970" && s[5..7] == "01" && s[8..10] == "01" && s[11..13] == "00" && s[14..16] == "00" && s[17..19] == "00"
  {
  }

  lemma EpochNumbers()
    ensures Digits("1970") && Digits("01") && Digits("00") && Num("1970") == 1970 && Num("01") == 1 && Num("00") == 0
  {
    FourDigitsMean('1', '9', '7', '0');
    TwoDigitsMean('1', '9');
    TwoDigitsMean('7', '0');
    TwoDigitsMean('0', '1');
    TwoDigitsMean('0', '0');
    assert "1970" == ['1', '9', '7', '0'] && "01" == ['0', '1'] && "00" == ['0', '0'];
  }

  /** The epoch is a stored date. */
  lemma EpochZoneless()
    ensures Zoneless("1970-01-01 00:00:00")
  {
    EpochParts();
    EpochNumbers();
    assert MonthLength(1970, 1) == 31;
  }

  /** And counts as zero. */
  lemma EpochIsZero()
    ensures EpochNanos(1970, 1, 1, 0, 0, 0, "") == 0
  {
    NoFraction();
  }

  lemma NoFraction()
    ensures NinthDigits("") == 0
  {
    var z := ("" + "000000000")[..9];
    assert z == Zeros(9);
    ZerosAreZero(9);
  }

  lemma {:induction false} ZerosAreZero(n: nat)
    ensures Num(Zeros(n)) == 0
  {
    if n > 0 {
      ZerosAreZero(n - 1);
      assert Zeros(n)[..n - 1] == Zeros(n - 1);
    }
  }

  /** Digits are the ten. */
  lemma DigitIff(c: char)
    ensures IsDigit(c) <==> c in {'0', '1', '2', '3', '4', '5', '6', '7', '8', '9'}
  {
  }
}
