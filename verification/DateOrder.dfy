/**
 For the dates the server stores (a space separator, no zone, at most seven fraction digits)
 the conflict test and the winner rule see the same dates: equal padded text is equal
 instant, and text order is instant order.
 */
module DateOrder {
  import opened Options
  import opened Dates

  // ----- digit strings: text order is numeric order ------------------------------------------

  lemma {:induction false} NumBound(s: string)
    requires Digits(s)
    ensures Num(s) < Pow10(|s|)
  {
    if s != "" { NumBound(s[..|s| - 1]); }
  }

  function Pow10(n: nat): (p: nat)
    ensures p > 0
  {
    if n == 0 then 1 else 10 * Pow10(n - 1)
  }

  lemma {:induction false} NumConcat(a: string, b: string)
    requires Digits(a) && Digits(b)
    ensures Digits(a + b) && Num(a + b) == Num(a) * Pow10(|b|) + Num(b)
  {
    if b == "" {
      assert a + b == a;
    } else {
      var b0 := b[..|b| - 1];
      NumConcat(a, b0);
      assert (a + b)[..|a + b| - 1] == a + b0;
      assert (a + b)[|a + b| - 1] == b[|b| - 1];
      assert Num(a) * Pow10(|b|) == 10 * (Num(a) * Pow10(|b0|));
    }
  }

  lemma {:induction false} TextConcat(a: string, b: string, x: string, y: string)
    requires |a| == |b|
    ensures TextLess(a + x, b + y) <==> TextLess(a, b) || (a == b && TextLess(x, y))
  {
    if a == "" {
      assert a + x == x && b + y == y;
    } else {
      TextConcat(a[1..], b[1..], x, y);
      assert (a + x)[1..] == a[1..] + x && (b + y)[1..] == b[1..] + y;
      assert a == [a[0]] + a[1..] && b == [b[0]] + b[1..];
    }
  }

  lemma {:induction false} TextIrreflexive(a: string)
    ensures !TextLess(a, a)
  {
    if a != "" { TextIrreflexive(a[1..]); }
  }

  /** Equal-length digit strings compare as the numbers they spell. */
  lemma {:induction false} DigitsOrder(a: string, b: string)
    requires Digits(a) && Digits(b) && |a| == |b|
    ensures TextLess(a, b) <==> Num(a) < Num(b)
    ensures a == b <==> Num(a) == Num(b)
  {
    if a != "" {
      var a0, b0, x, y := a[..|a| - 1], b[..|b| - 1], a[|a| - 1..], b[|b| - 1..];
      assert a == a0 + x && b == b0 + y;
      DigitsOrder(a0, b0);
      TextConcat(a0, b0, x, y);
    }
  }

  // ----- the calendar is monotone --------------------------------------------------------------

  lemma {:induction false} MonthsMonotone(y: nat, m: nat, n: nat)
    requires 1 <= m < n
    ensures DaysBeforeMonth(y, m) + MonthLength(y, m) <= DaysBeforeMonth(y, n)
    decreases n
  {
    if m + 1 < n { MonthsMonotone(y, m, n - 1); }
  }

  lemma {:induction false} YearsMonotone(y: nat, z: nat)
    requires 1 <= y < z
    ensures DaysBeforeYear(y) + DaysBeforeMonth(y, 13) <= DaysBeforeYear(z)
    decreases z
  {
    if y + 1 < z { YearsMonotone(y, z - 1); }
  }

  predicate DayLess(a: Fields, b: Fields) {
    a.year < b.year || (a.year == b.year && (a.month < b.month || (a.month == b.month && a.day < b.day)))
  }

  lemma EarlierDay(a: Fields, b: Fields)
    requires a.Valid() && b.Valid() && DayLess(a, b)
    ensures DayNumber(a.year, a.month, a.day) < DayNumber(b.year, b.month, b.day)
  {
    if a.year < b.year {
      MonthsMonotone(a.year, a.month, 13);
      YearsMonotone(a.year, b.year);
    } else if a.month < b.month {
      MonthsMonotone(a.year, a.month, b.month);
    }
  }

  predicate SameDay(a: Fields, b: Fields) { a.year == b.year && a.month == b.month && a.day == b.day }

  predicate TimeLess(a: Fields, b: Fields) {
    a.hour < b.hour || (a.hour == b.hour && (a.minute < b.minute || (a.minute == b.minute && a.second < b.second)))
  }

  predicate SameTime(a: Fields, b: Fields) { a.hour == b.hour && a.minute == b.minute && a.second == b.second }

  lemma SecondsOrder(a: Fields, b: Fields)
    requires a.Valid() && b.Valid() && a.offset == b.offset
    ensures a.Seconds() < b.Seconds() <==> DayLess(a, b) || (SameDay(a, b) && TimeLess(a, b))
    ensures a.Seconds() == b.Seconds() <==> SameDay(a, b) && SameTime(a, b)
  {
    if DayLess(a, b) {
      EarlierDay(a, b);
    } else if DayLess(b, a) {
      EarlierDay(b, a);
    }
  }

  // ----- the stored form --------------------------------------------------------------------------

  /** A valid date with no zone and at most seven fraction digits. */
  predicate Zoneless(s: string) {
    && Stamped(s)
    && (|s| == 19 || (s[19] == '.' && 21 <= |s| <= 27 && Digits(s[20..])))
    && PlainFields(s).Valid()
  }

  /** The stored form: such a date with a space separator. */
  predicate Plain(s: string) { Zoneless(s) && s[10] == ' ' }

  function PlainFraction(s: string): string {
    if |s| <= 20 then "" else s[20..]
  }

  function PlainFields(s: string): Fields
    requires Stamped(s)
  {
    Fields(Num(s[..4]), Num(s[5..7]), Num(s[8..10]), Num(s[11..13]), Num(s[14..16]), Num(s[17..19]), PlainFraction(s), 0)
  }

  /** The seven digits the padding settles on. */
  function Ticks(s: string): (t: string)
    requires Plain(s)
    ensures |t| == 7 && Digits(t)
  {
    (PlainFraction(s) + Zeros(7))[..7]
  }

  lemma {:induction false} DigitRunAll(s: string)
    requires Digits(s)
    ensures DigitRun(s) == |s|
  {
    if s != "" { DigitRunAll(s[1..]); }
  }

  lemma StampChars(s: string, i: nat)
    requires Stamped(s) && i < 19
    ensures s[i] != '.' && (i != 10 ==> !IsSpace(s[i]))
  {
    if i < 4 {
      assert IsDigit(s[..4][i]);
    } else if i == 5 || i == 6 {
      assert IsDigit(s[5..7][i - 5]);
    } else if i == 8 || i == 9 {
      assert IsDigit(s[8..10][i - 8]);
    } else if i == 11 || i == 12 {
      assert IsDigit(s[11..13][i - 11]);
    } else if i == 14 || i == 15 {
      assert IsDigit(s[14..16][i - 14]);
    } else if i == 17 || i == 18 {
      assert IsDigit(s[17..19][i - 17]);
    }
  }

  lemma PlainInstant(s: string)
    requires Zoneless(s)
    ensures Instant(s) == Some(PlainFields(s).Instant())
  {
    StampChars(s, 0);
    if |s| == 19 {
      StampChars(s, 18);
      assert s[19..] == "";
    } else {
      var rest := s[19..];
      assert s[|s| - 1] == s[20..][|s| - 21];
      assert rest[1..] == s[20..];
      DigitRunAll(s[20..]);
      assert rest[1..1 + |s[20..]|] == s[20..];
      assert s[|s|..] == "";
    }
  }

  lemma PlainTickText(s: string)
    requires Plain(s)
    ensures TickText(s) == s[..19] + "." + Ticks(s)
  {
    if |s| == 19 {
      forall i | 0 <= i < |s|
        ensures s[i] != '.'
      {
        StampChars(s, i);
      }
      assert Ticks(s) == "0000000" && s == s[..19];
    } else {
      assert s[19] == '.';
      assert s == s[..19] + "." + s[20..];
      assert (s + Zeros(7))[..27] == s[..19] + "." + (s[20..] + Zeros(7))[..7];
    }
  }

  lemma PlainNanos(s: string)
    requires Plain(s)
    ensures PlainFields(s).Nanos() == 100 * Num(Ticks(s))
  {
    var f := PlainFraction(s);
    assert (f + Zeros(9))[..9] == Ticks(s) + "00";
    NumConcat(Ticks(s), "00");
    assert Num("0") == 0 && "00"[..1] == "0";
    assert Pow10(2) == 100;
  }

  // ----- the stamp's text order --------------------------------------------------------------------

  /** A stamp is its digit runs between fixed separators. */
  lemma StampParts(s: string)
    requires Stamped(s) && s[10] == ' '
    ensures s[..19] == s[..4] + ("-" + (s[5..7] + ("-" + (s[8..10] + (" " +
                       (s[11..13] + (":" + (s[14..16] + (":" + s[17..19])))))))))
  {
  }

  /** One field of both texts, then the same separator, then the rest. */
  lemma FieldOrder(f: string, g: string, sep: string, x: string, y: string)
    requires Digits(f) && Digits(g) && |f| == |g| && |sep| == 1
    ensures TextLess(f + (sep + x), g + (sep + y)) <==> Num(f) < Num(g) || (Num(f) == Num(g) && TextLess(x, y))
  {
    DigitsOrder(f, g);
    TextConcat(f, g, sep + x, sep + y);
    TextConcat(sep, sep, x, y);
    TextIrreflexive(sep);
  }

  lemma StampOrder(s: string, t: string)
    requires Stamped(s) && Stamped(t) && s[10] == ' ' == t[10]
    ensures TextLess(s[..19], t[..19]) <==>
            DayLess(PlainFields(s), PlainFields(t)) || (SameDay(PlainFields(s), PlainFields(t)) && TimeLess(PlainFields(s), PlainFields(t)))
    ensures s[..19] == t[..19] <==> SameDay(PlainFields(s), PlainFields(t)) && SameTime(PlainFields(s), PlainFields(t))
  {
    StampParts(s);
    StampParts(t);
    var s6, t6 := s[17..19], t[17..19];
    var s5, t5 := s[14..16] + (":" + s6), t[14..16] + (":" + t6);
    var s4, t4 := s[11..13] + (":" + s5), t[11..13] + (":" + t5);
    var s3, t3 := s[8..10] + (" " + s4), t[8..10] + (" " + t4);
    var s2, t2 := s[5..7] + ("-" + s3), t[5..7] + ("-" + t3);
    FieldOrder(s[..4], t[..4], "-", s2, t2);
    FieldOrder(s[5..7], t[5..7], "-", s3, t3);
    FieldOrder(s[8..10], t[8..10], " ", s4, t4);
    FieldOrder(s[11..13], t[11..13], ":", s5, t5);
    FieldOrder(s[14..16], t[14..16], ":", s6, t6);
    DigitsOrder(s6, t6);
    StampEqual(s, t);
  }

  lemma StampEqual(s: string, t: string)
    requires Stamped(s) && Stamped(t) && s[10] == ' ' == t[10]
    ensures s[..19] == t[..19] <==> SameDay(PlainFields(s), PlainFields(t)) && SameTime(PlainFields(s), PlainFields(t))
  {
    DigitsOrder(s[..4], t[..4]);
    DigitsOrder(s[5..7], t[5..7]);
    DigitsOrder(s[8..10], t[8..10]);
    DigitsOrder(s[11..13], t[11..13]);
    DigitsOrder(s[14..16], t[14..16]);
    DigitsOrder(s[17..19], t[17..19]);
    if SameDay(PlainFields(s), PlainFields(t)) && SameTime(PlainFields(s), PlainFields(t)) {
      StampParts(s);
      StampParts(t);
    }
    if s[..19] == t[..19] {
      assert s[..4] == s[..19][..4] && t[..4] == t[..19][..4];
      assert s[5..7] == s[..19][5..7] && t[5..7] == t[..19][5..7];
      assert s[8..10] == s[..19][8..10] && t[8..10] == t[..19][8..10];
      assert s[11..13] == s[..19][11..13] && t[11..13] == t[..19][11..13];
      assert s[14..16] == s[..19][14..16] && t[14..16] == t[..19][14..16];
      assert s[17..19] == s[..19][17..19] && t[17..19] == t[..19][17..19];
    }
  }

  // ----- the two readings agree -----------------------------------------------------------------------

  lemma TickTextAgrees(a: string, b: string)
    requires Plain(a) && Plain(b)
    ensures Instant(a).Some? && Instant(b).Some?
    ensures TickText(a) == TickText(b) <==> Instant(a).value == Instant(b).value
    ensures TextLess(TickText(a), TickText(b)) <==> Instant(a).value < Instant(b).value
  {
    PlainInstant(a);
    PlainInstant(b);
    PlainNanos(a);
    PlainNanos(b);
    NumBound(Ticks(a));
    NumBound(Ticks(b));
    assert Pow10(7) == 10_000_000;
    SecondsOrder(PlainFields(a), PlainFields(b));
    StampOrder(a, b);
    DigitsOrder(Ticks(a), Ticks(b));
    PaddedOrder(a, b);
  }

  /** Padded texts compare by stamp, then by ticks. */
  lemma PaddedOrder(a: string, b: string)
    requires Plain(a) && Plain(b)
    ensures TickText(a) == TickText(b) <==> a[..19] == b[..19] && Ticks(a) == Ticks(b)
    ensures TextLess(TickText(a), TickText(b)) <==>
            TextLess(a[..19], b[..19]) || (a[..19] == b[..19] && TextLess(Ticks(a), Ticks(b)))
  {
    PlainTickText(a);
    PlainTickText(b);
    assert TickText(a) == a[..19] + ("." + Ticks(a)) && TickText(b) == b[..19] + ("." + Ticks(b));
    TextConcat(a[..19], b[..19], "." + Ticks(a), "." + Ticks(b));
    TextConcat(".", ".", Ticks(a), Ticks(b));
    TextIrreflexive(".");
    assert TickText(a)[..19] == a[..19] && TickText(a)[20..] == Ticks(a);
    assert TickText(b)[..19] == b[..19] && TickText(b)[20..] == Ticks(b);
  }

  /** Outside the stored form the two readings part: the T spelling of a date is the same instant, other text. */
  lemma SeparatorMatters(s: string)
    requires Plain(s)
    ensures Instant(s[10 := 'T']) == Instant(s) && Instant(s).Some?
    ensures TickText(s[10 := 'T']) != TickText(s)
  {
    var t := s[10 := 'T'];
    assert t[..4] == s[..4] && t[5..7] == s[5..7] && t[8..10] == s[8..10] && t[11..13] == s[11..13];
    assert t[14..16] == s[14..16] && t[17..19] == s[17..19] && PlainFraction(t) == PlainFraction(s);
    assert |s| > 19 ==> t[20..] == s[20..];
    assert PlainFields(t) == PlainFields(s);
    PlainInstant(s);
    PlainInstant(t);
    assert TickText(t)[10] == 'T' && TickText(s)[10] == ' ';
  }
}
