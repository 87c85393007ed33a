/**
 LastPlayedDate as the adoption gate reads it two ways (gates/adoption/watch_history.py):
 `instant` orders plays exactly, `tick_text` is the padded text the conflict query compares.
 */
module Dates {
  import opened Options

  // ----- text ---------------------------------------------------------------------------

  predicate IsDigit(c: char) { '0' <= c <= '9' }

  predicate Digits(s: string) { forall i :: 0 <= i < |s| ==> IsDigit(s[i]) }

  /** The decimal value of a digit string. */
  function Num(s: string): nat
    requires Digits(s)
  {
    if s == "" then 0 else 10 * Num(s[..|s| - 1]) + (s[|s| - 1] as int - '0' as int)
  }

  function Zeros(n: nat): (z: string)
    ensures |z| == n && Digits(z)
  {
    seq(n, i => '0')
  }

  /** Text order, as SQLite and Python compare strings. */
  predicate TextLess(a: string, b: string) {
    b != "" && (a == "" || a[0] < b[0] || (a[0] == b[0] && TextLess(a[1..], b[1..])))
  }

  // ----- the calendar ---------------------------------------------------------------------

  predicate Leap(y: nat) { y % 4 == 0 && (y % 100 != 0 || y % 400 == 0) }

  function MonthLength(y: nat, m: nat): (d: nat)
    ensures d > 0
  {
    if m == 2 then (if Leap(y) then 29 else 28)
    else if m == 4 || m == 6 || m == 9 || m == 11 then 30 else 31
  }

  /** Days of year `y` before month `m`. */
  function DaysBeforeMonth(y: nat, m: nat): nat {
    if m <= 1 then 0 else DaysBeforeMonth(y, m - 1) + MonthLength(y, m - 1)
  }

  function DaysBeforeYear(y: nat): nat {
    if y <= 1 then 0 else DaysBeforeYear(y - 1) + DaysBeforeMonth(y - 1, 13)
  }

  /** Days from 0001-01-01. */
  function DayNumber(y: nat, m: nat, d: nat): nat
    requires d >= 1
  {
    DaysBeforeYear(y) + DaysBeforeMonth(y, m) + d - 1
  }

  const EPOCH_DAY := 719162

  // ----- instant ---------------------------------------------------------------------------

  /** The groups of the date pattern; `offset` is the zone in minutes. */
  datatype Fields = Fields(year: nat, month: nat, day: nat, hour: nat, minute: nat, second: nat,
                           fraction: string, offset: int)
  {
    /** What the date constructor accepts. */
    predicate Valid() {
      && 1 <= year <= 9999 && 1 <= month <= 12 && 1 <= day <= MonthLength(year, month)
      && hour < 24 && minute < 60 && second < 60
      && Digits(fraction) && -1440 < offset < 1440
    }

    function Seconds(): int
      requires Valid()
    {
      (DayNumber(year, month, day) - EPOCH_DAY) * 86400 + hour * 3600 + minute * 60 + second - offset * 60
    }

    /** Nanoseconds of the fraction: nine digits, further ones cut. */
    function Nanos(): nat
      requires Valid()
    {
      Num((fraction + Zeros(9))[..9])
    }

    function Instant(): int
      requires Valid()
    {
      Seconds() * 1_000_000_000 + Nanos()
    }
  }

  predicate TwoDigits(s: string, i: nat) { i + 2 <= |s| && Digits(s[i..i + 2]) }

  /** `YYYY-MM-DD?HH:MM:SS`, the separator being a space or T. */
  predicate Stamped(s: string) {
    && |s| >= 19 && Digits(s[..4])
    && TwoDigits(s, 5) && TwoDigits(s, 8) && TwoDigits(s, 11) && TwoDigits(s, 14) && TwoDigits(s, 17)
    && s[4] == '-' && s[7] == '-' && (s[10] == ' ' || s[10] == 'T') && s[13] == ':' && s[16] == ':'
  }

  /** Length of the run of digits `s` starts with. */
  function DigitRun(s: string): (n: nat)
    ensures n <= |s| && Digits(s[..n]) && (n < |s| ==> !IsDigit(s[n]))
  {
    if s == "" || !IsDigit(s[0]) then 0 else 1 + DigitRun(s[1..])
  }

  /** The optional fraction after the seconds; None when a point has no digit behind it. */
  function Fraction(rest: string): Option<string> {
    if rest == "" || rest[0] != '.' then Some("")
    else if DigitRun(rest[1..]) == 0 then None
    else Some(rest[1..1 + DigitRun(rest[1..])])
  }

  /** The optional zone that must end the text, in minutes. */
  function Zone(rest: string): Option<int> {
    if rest == "" || rest == "Z" then Some(0)
    else if rest[0] != '+' && rest[0] != '-' then None
    else
      var sign := if rest[0] == '+' then 1 else -1;
      if |rest| == 6 && TwoDigits(rest, 1) && rest[3] == ':' && TwoDigits(rest, 4) then
        Some(sign * (60 * Num(rest[1..3]) + Num(rest[4..6])))
      else if |rest| == 5 && TwoDigits(rest, 1) && TwoDigits(rest, 3) then
        Some(sign * (60 * Num(rest[1..3]) + Num(rest[3..5])))
      else None
  }

  predicate IsSpace(c: char) { c == ' ' || '\t' <= c <= '\r' }

  function Strip(s: string): string {
    if s == "" then s
    else if IsSpace(s[0]) then Strip(s[1..])
    else if IsSpace(s[|s| - 1]) then Strip(s[..|s| - 1])
    else s
  }

  function Parse(s: string): Option<Fields> {
    if !Stamped(s) then None
    else
      var fraction := Fraction(s[19..]);
      if fraction.None? then None
      else
        var zone := Zone(s[19 + (if fraction.value == "" then 0 else 1 + |fraction.value|)..]);
        if zone.None? then None
        else Some(Fields(Num(s[..4]), Num(s[5..7]), Num(s[8..10]), Num(s[11..13]), Num(s[14..16]), Num(s[17..19]),
                         fraction.value, zone.value))
  }

  /** Nanoseconds since the epoch, or None where the source raises. */
  function Instant(value: string): Option<int> {
    var f := Parse(Strip(value));
    if f.Some? && f.value.Valid() then Some(f.value.Instant()) else None
  }

  /** The stored text padded to seven fraction digits. */
  function TickText(value: string): string {
    if '.' !in value then value + ".0000000"
    else if |value| + 7 < 27 then value + Zeros(7) else (value + Zeros(7))[..27]
  }
}
