/** Server clock readings and the text form under which SQLite stores and compares them.

    `formatTime` writes `time.RFC3339Nano`: a fixed-width date and time of day, then the
    fraction of a second with its trailing zeros dropped, then `Z`. Two SQL statements compare
    such stamps as text (the tombstone purge and the pruning of used refresh tokens), so this
    module works out exactly when that text order is the order of time. */
module Rfc3339 {

  const NANOS := 1_000_000_000
  const DAY_SECONDS := 86_400
  /** Days from 0000-01-01 to 10000-01-01 in the proleptic Gregorian calendar. */
  const DAYS := 3_652_425

  /** Nanoseconds since 0000-01-01T00:00:00Z, for the four-digit years of RFC 3339. */
  type Instant = t: int | 0 <= t < DAYS * DAY_SECONDS * NANOS witness 0

  function Second(t: Instant): nat { t / NANOS }

  // ---- The calendar ----

  predicate Leap(y: nat) { y % 4 == 0 && (y % 100 != 0 || y % 400 == 0) }

  function YearLength(y: nat): nat { if Leap(y) then 366 else 365 }

  function MonthLength(y: nat, m: nat): nat
  {
    if m == 2 then if Leap(y) then 29 else 28
    else if m == 4 || m == 6 || m == 9 || m == 11 then 30
    else 31
  }

  /** The year that day `d`, counted from January 1 of year `y`, falls in, and its day there. */
  function YearAndDay(y: nat, d: nat): (r: (nat, nat))
    ensures y <= r.0
    decreases d
  {
    if d < YearLength(y) then (y, d) else YearAndDay(y + 1, d - YearLength(y))
  }

  /** The month that day `d`, counted from the first day of month `m`, falls in, and its day
      there; December takes whatever is left. */
  function MonthAndDay(y: nat, m: nat, d: nat): (r: (nat, nat))
    requires 1 <= m <= 12
    ensures m <= r.0 <= 12
    decreases 12 - m
  {
    if m == 12 || d < MonthLength(y, m) then (m, d) else MonthAndDay(y, m + 1, d - MonthLength(y, m))
  }

  function DaysBefore(y: nat): int
  {
    365 * y + (y + 3) / 4 - (y + 99) / 100 + (y + 399) / 400
  }

  lemma Quotient(a: nat, k: nat, q: nat)
    requires 0 < k && k * q <= a < k * q + k
    ensures a / k == q
  {
    var d, r := a / k, a % k;
    assert a == k * d + r;
    Multiples(k, d, q + 1);
    Multiples(k, q, d + 1);
  }

  lemma Multiples(p: nat, a: nat, b: nat)
    ensures a >= b ==> p * a >= p * b
  {
  }

  lemma NextMultiple(y: nat, k: nat)
    requires 0 < k
    ensures (y + k) / k == (y + k - 1) / k + if y % k == 0 then 1 else 0
  {
    var q, r := y / k, y % k;
    assert y == k * q + r && k * (q + 1) == k * q + k;
    Quotient(y + k, k, q + 1);
    if r == 0 {
      Quotient(y + k - 1, k, q);
    } else {
      Quotient(y + k - 1, k, q + 1);
    }
  }

  lemma MultipleOfMultiple(y: nat, k: nat, j: nat)
    requires 0 < k && 0 < j && y % (k * j) == 0
    ensures y % k == 0
  {
    var q := y / (k * j);
    assert y == k * j * q == k * (j * q);
    Quotient(y, k, j * q);
  }

  lemma DaysBeforeNext(y: nat)
    ensures DaysBefore(y + 1) == DaysBefore(y) + YearLength(y)
  {
    NextMultiple(y, 4);
    NextMultiple(y, 100);
    NextMultiple(y, 400);
    if y % 100 == 0 { MultipleOfMultiple(y, 4, 25); }
    if y % 400 == 0 { MultipleOfMultiple(y, 100, 4); }
  }

  lemma {:induction false} FourDigitYear(y: nat, d: nat)
    requires DaysBefore(y) + d < DAYS
    ensures YearAndDay(y, d).0 < 10_000
    decreases d
  {
    DaysBeforeNext(y);
    if d < YearLength(y) {
      if y >= 10_000 { YearsAdd(10_000, y); }
    } else {
      FourDigitYear(y + 1, d - YearLength(y));
    }
  }

  lemma {:induction false} YearsAdd(y: nat, z: nat)
    requires y <= z
    ensures DaysBefore(y) <= DaysBefore(z)
    decreases z - y
  {
    if y < z {
      DaysBeforeNext(y);
      YearsAdd(y + 1, z);
    }
  }

  lemma {:induction false} DayFits(y: nat, d: nat)
    ensures YearAndDay(y, d).1 < YearLength(YearAndDay(y, d).0)
    decreases d
  {
    if d >= YearLength(y) { DayFits(y + 1, d - YearLength(y)); }
  }

  /** Days left from the first of month `m` to the end of the year. */
  function DaysLeft(y: nat, m: nat): nat
    requires 1 <= m <= 12
    decreases 12 - m
  {
    MonthLength(y, m) + if m == 12 then 0 else DaysLeft(y, m + 1)
  }

  lemma {:induction false} MonthDayFits(y: nat, m: nat, d: nat)
    requires 1 <= m <= 12 && d < DaysLeft(y, m)
    ensures MonthAndDay(y, m, d).1 < 31
    decreases 12 - m
  {
    if m < 12 && d >= MonthLength(y, m) { MonthDayFits(y, m + 1, d - MonthLength(y, m)); }
  }

  lemma DaysLeftYear(y: nat)
    ensures DaysLeft(y, 1) == YearLength(y)
  {
    assert DaysLeft(y, 12) == 31;
    assert DaysLeft(y, 10) == 92;
    assert DaysLeft(y, 8) == 153;
    assert DaysLeft(y, 6) == 214;
    assert DaysLeft(y, 4) == 275;
    assert DaysLeft(y, 3) == 306;
  }

  // ---- The text ----

  /** SQLite's BINARY collation on text: byte by byte, a proper prefix first. */
  predicate TextBefore(a: string, b: string)
  {
    b != "" && (a == "" || a[0] < b[0] || (a[0] == b[0] && TextBefore(a[1..], b[1..])))
  }

  function Digit(n: nat): char
    requires n < 10
  {
    '0' + n as char
  }

  function Pad2(n: nat): string
    requires n < 100
  {
    [Digit(n / 10), Digit(n % 10)]
  }

  function Pow10(w: nat): (p: nat)
    ensures p >= 1
  {
    if w == 0 then 1 else 10 * Pow10(w - 1)
  }

  lemma LeadingDigit(n: nat, p: nat)
    requires 0 < p && n < 10 * p
    ensures n / p < 10 && n % p < p && n == p * (n / p) + n % p
  {
  }

  /** The `w` decimal digits of `n`, most significant first, trailing zeros dropped. */
  function Fraction(n: nat, w: nat): string
    requires n < Pow10(w)
  {
    if n == 0 then ""
    else
      LeadingDigit(n, Pow10(w - 1));
      [Digit(n / Pow10(w - 1))] + Fraction(n % Pow10(w - 1), w - 1)
  }

  /** Two-digit numbers, each followed by its separator. */
  function Fields(ns: seq<nat>, seps: seq<string>): string
    requires |ns| == |seps| && forall i :: 0 <= i < |ns| ==> ns[i] < 100
  {
    if ns == [] then "" else Pad2(ns[0]) + (seps[0] + Fields(ns[1..], seps[1..]))
  }

  const SEPARATORS := ["", "-", "-", "T", ":", ":", ""]

  /** The date of a day, as two-digit numbers from the century down. */
  function DateFields(day: nat): (r: seq<nat>)
    requires day < DAYS
    ensures |r| == 4 && (forall i :: 0 <= i < 4 ==> r[i] < 100) && 1 <= r[2] <= 12 && 1 <= r[3]
  {
    var (y, doy) := YearAndDay(0, day);
    var (m, dom) := MonthAndDay(y, 1, doy);
    FourDigitYear(0, day);
    DayFits(0, day);
    DaysLeftYear(y);
    MonthDayFits(y, 1, doy);
    [y / 100, y % 100, m, dom + 1]
  }

  /** The time of day, as hour, minute and second. */
  function TimeFields(t: nat): (r: seq<nat>)
    requires t < DAY_SECONDS
    ensures |r| == 3 && forall i :: 0 <= i < 3 ==> r[i] < 100
  {
    [t / 3600, t / 60 % 60, t % 60]
  }

  function SecondFields(s: nat): (r: seq<nat>)
    requires s < DAYS * DAY_SECONDS
    ensures |r| == |SEPARATORS| && forall i :: 0 <= i < |r| ==> r[i] < 100
  {
    DateFields(s / DAY_SECONDS) + TimeFields(s % DAY_SECONDS)
  }

  function SecondText(s: nat): string
    requires s < DAYS * DAY_SECONDS
  {
    Fields(SecondFields(s), SEPARATORS)
  }

  function SubsecondDigits(t: Instant): string
  {
    assert Pow10(9) == NANOS by { NinePlaces(); }
    Fraction(t % NANOS, 9)
  }

  lemma NinePlaces()
    ensures Pow10(9) == NANOS
  {
    assert Pow10(3) == 1000;
    assert Pow10(6) == 1_000_000;
  }

  /** `t.UTC().Format(time.RFC3339Nano)`. */
  function Format(t: Instant): string
  {
    var frac := SubsecondDigits(t);
    SecondText(Second(t)) + (if frac == "" then "" else "." + frac) + "Z"
  }

  // ---- Text order against time order ----

  lemma {:induction false} TextIrreflexive(a: string)
    ensures !TextBefore(a, a)
  {
    if a == "" {
    } else {
      TextIrreflexive(a[1..]);
    }
  }

  /** Texts of one length decide the order of whatever follows them. */
  lemma {:induction false} HeadDecides(a: string, b: string, x: string, y: string)
    requires |a| == |b|
    ensures TextBefore(a, b) ==> TextBefore(a + x, b + y)
    ensures a == b ==> TextBefore(a + x, b + y) == TextBefore(x, y)
  {
    if a == "" {
      assert a + x == x && b + y == y;
    } else {
      assert (a + x)[1..] == a[1..] + x && (b + y)[1..] == b[1..] + y;
      HeadDecides(a[1..], b[1..], x, y);
    }
  }

  lemma Pad2Order(a: nat, b: nat)
    requires a < b < 100
    ensures TextBefore(Pad2(a), Pad2(b))
  {
    assert Pad2(a)[1..] == [Digit(a % 10)] && Pad2(b)[1..] == [Digit(b % 10)];
    assert a / 10 < b / 10 || (a / 10 == b / 10 && a % 10 < b % 10);
  }

  lemma {:induction false} YearAndDayOrder(y: nat, c: nat, d: nat)
    requires c < d
    ensures var (y0, d0) := YearAndDay(y, c); var (y1, d1) := YearAndDay(y, d);
            y0 < y1 || (y0 == y1 && d0 < d1)
    decreases c
  {
    if c >= YearLength(y) { YearAndDayOrder(y + 1, c - YearLength(y), d - YearLength(y)); }
  }

  lemma {:induction false} MonthAndDayOrder(y: nat, m: nat, c: nat, d: nat)
    requires 1 <= m <= 12 && c < d
    ensures var (m0, d0) := MonthAndDay(y, m, c); var (m1, d1) := MonthAndDay(y, m, d);
            m0 < m1 || (m0 == m1 && d0 < d1)
    decreases 12 - m
  {
    if m < 12 && c >= MonthLength(y, m) { MonthAndDayOrder(y, m + 1, c - MonthLength(y, m), d - MonthLength(y, m)); }
  }

  function Width(seps: seq<string>): nat { if seps == [] then 0 else 2 + |seps[0]| + Width(seps[1..]) }

  lemma {:induction false} FieldsWidth(a: seq<nat>, seps: seq<string>)
    requires |a| == |seps|
    requires forall i :: 0 <= i < |a| ==> a[i] < 100
    ensures |Fields(a, seps)| == Width(seps)
  {
    if a == [] {
    } else {
      FieldsWidth(a[1..], seps[1..]);
    }
  }

  lemma {:induction false} FieldsOrder(a: seq<nat>, b: seq<nat>, seps: seq<string>, k: nat)
    requires |a| == |b| == |seps| && k < |a| && a[..k] == b[..k] && a[k] < b[k]
    requires forall i :: 0 <= i < |a| ==> a[i] < 100 && b[i] < 100
    ensures TextBefore(Fields(a, seps), Fields(b, seps))
  {
    var x, y := Fields(a[1..], seps[1..]), Fields(b[1..], seps[1..]);
    HeadDecides(Pad2(a[0]), Pad2(b[0]), seps[0] + x, seps[0] + y);
    if k == 0 {
      Pad2Order(a[0], b[0]);
    } else {
      assert a[0] == a[..k][0] == b[..k][0] == b[0];
      assert a[1..][..k - 1] == a[..k][1..] == b[..k][1..] == b[1..][..k - 1];
      FieldsOrder(a[1..], b[1..], seps[1..], k - 1);
      HeadDecides(seps[0], seps[0], x, y);
    }
  }

  lemma DateFieldsOrder(c: nat, d: nat) returns (k: nat)
    requires c < d < DAYS
    ensures k < 4 && DateFields(c)[..k] == DateFields(d)[..k] && DateFields(c)[k] < DateFields(d)[k]
  {
    var y, z := YearAndDay(0, c), YearAndDay(0, d);
    YearAndDayOrder(0, c, d);
    if y.0 < z.0 {
      k := if y.0 / 100 < z.0 / 100 then 0 else 1;
    } else {
      MonthAndDayOrder(y.0, 1, y.1, z.1);
      k := if DateFields(c)[2] < DateFields(d)[2] then 2 else 3;
    }
  }

  lemma TimeFieldsOrder(p: nat, q: nat) returns (k: nat)
    requires p < q < DAY_SECONDS
    ensures k < 3 && TimeFields(p)[..k] == TimeFields(q)[..k] && TimeFields(p)[k] < TimeFields(q)[k]
  {
    assert p / 60 / 60 == p / 3600 && q / 60 / 60 == q / 3600;
    k := if p / 3600 < q / 3600 then 0 else if p / 60 < q / 60 then 1 else 2;
  }

  /** An earlier second has a smaller number in the first place where the two differ. */
  lemma SecondFieldsOrder(s: nat, t: nat) returns (k: nat)
    requires s < t < DAYS * DAY_SECONDS
    ensures k < |SEPARATORS| && SecondFields(s)[..k] == SecondFields(t)[..k] && SecondFields(s)[k] < SecondFields(t)[k]
  {
    var c, d := s / DAY_SECONDS, t / DAY_SECONDS;
    if c == d {
      k := TimeFieldsOrder(s % DAY_SECONDS, t % DAY_SECONDS);
      k := k + 4;
      assert SecondFields(s)[..k] == DateFields(c) + TimeFields(s % DAY_SECONDS)[..k - 4];
      assert SecondFields(t)[..k] == DateFields(d) + TimeFields(t % DAY_SECONDS)[..k - 4];
    } else {
      k := DateFieldsOrder(c, d);
      assert SecondFields(s)[..k] == DateFields(c)[..k] && SecondFields(t)[..k] == DateFields(d)[..k];
    }
  }

  lemma SecondTextsOrder(s: nat, t: nat)
    requires s < t < DAYS * DAY_SECONDS
    ensures |SecondText(s)| == |SecondText(t)| && TextBefore(SecondText(s), SecondText(t))
  {
    var k := SecondFieldsOrder(s, t);
    FieldsOrder(SecondFields(s), SecondFields(t), SEPARATORS, k);
    FieldsWidth(SecondFields(s), SEPARATORS);
    FieldsWidth(SecondFields(t), SEPARATORS);
  }

  /** Stamps of different seconds compare, as text, in the order of time. */
  lemma SecondsDecide(a: Instant, b: Instant)
    requires Second(a) < Second(b)
    ensures TextBefore(Format(a), Format(b)) && !TextBefore(Format(b), Format(a))
  {
    var p, q := SecondText(Second(a)), SecondText(Second(b));
    SecondTextsOrder(Second(a), Second(b));
    var x, y := Format(a)[|p|..], Format(b)[|q|..];
    assert Format(a) == p + x && Format(b) == q + y;
    HeadDecides(p, q, x, y);
    TextAsymmetric(p + x, q + y);
  }

  lemma {:induction false} TextAsymmetric(a: string, b: string)
    requires TextBefore(a, b)
    ensures !TextBefore(b, a)
  {
    if a != "" && a[0] == b[0] { TextAsymmetric(a[1..], b[1..]); }
  }

  lemma FractionHead(n: nat, w: nat) returns (d: nat, r: nat)
    requires 0 < n < Pow10(w)
    ensures 0 < w && d < 10 && r < Pow10(w - 1) && d == n / Pow10(w - 1) && r == n % Pow10(w - 1)
    ensures Fraction(n, w) == [Digit(d)] + Fraction(r, w - 1)
  {
    LeadingDigit(n, Pow10(w - 1));
    d, r := n / Pow10(w - 1), n % Pow10(w - 1);
  }

  lemma {:induction false} FractionsOrder(n: nat, m: nat, w: nat)
    requires n < m < Pow10(w)
    ensures TextBefore(Fraction(n, w), Fraction(m, w))
  {
    var e, s := FractionHead(m, w);
    if n == 0 {
    } else {
      var d, r := FractionHead(n, w);
      QuotientOrder(n, m, Pow10(w - 1));
      if d == e { FractionsOrder(r, s, w - 1); }
      DigitsDecide(d, e, Fraction(r, w - 1), Fraction(s, w - 1));
    }
  }

  lemma DigitsDecide(d: nat, e: nat, f: string, g: string)
    requires d <= e < 10 && (d == e ==> TextBefore(f, g))
    ensures TextBefore([Digit(d)] + f, [Digit(e)] + g)
  {
    HeadDecides([Digit(d)], [Digit(e)], f, g);
  }

  lemma QuotientOrder(n: nat, m: nat, p: nat)
    requires 0 < p && n < m
    ensures n / p < m / p || (n / p == m / p && n % p < m % p)
  {
    var a, b := n / p, m / p;
    assert n == p * a + n % p && m == p * b + m % p && p * (b + 1) == p * b + p;
    Multiples(p, a, b + 1);
  }

  lemma {:induction false} FractionIsDigits(n: nat, w: nat)
    requires n < Pow10(w)
    ensures forall c :: c in Fraction(n, w) ==> c < 'Z'
  {
    if n == 0 {
    } else {
      var d, r := FractionHead(n, w);
      FractionIsDigits(r, w - 1);
      assert Digit(d) < 'Z';
    }
  }

  /** Closing both texts with `Z`, which sorts after every digit, turns their order around
      exactly when the first begins the second. */
  lemma {:induction false} ZuluTurnsPrefixes(f: string, g: string)
    requires TextBefore(f, g)
    requires forall c :: c in f || c in g ==> c < 'Z'
    ensures TextBefore(f + "Z", g + "Z") <==> !(f <= g)
    ensures TextBefore(g + "Z", f + "Z") <==> f <= g
  {
    assert g[0] in g && (g + "Z")[0] == g[0];
    if f != "" {
      assert (f + "Z")[1..] == f[1..] + "Z" && (g + "Z")[1..] == g[1..] + "Z";
      if f[0] == g[0] {
        assert forall c :: c in f[1..] || c in g[1..] ==> c in f || c in g;
        ZuluTurnsPrefixes(f[1..], g[1..]);
        assert f <= g <==> f[1..] <= g[1..];
      }
    }
  }

  /** What follows the seconds of a stamp with these fraction digits. */
  function Tail(f: string): string { (if f == "" then "" else "." + f) + "Z" }

  lemma TailsOrder(f: string, g: string)
    requires TextBefore(f, g) && forall c :: c in f || c in g ==> c < 'Z'
    ensures TextBefore(Tail(f), Tail(g)) <==> !(f <= g)
    ensures TextBefore(Tail(g), Tail(f)) <==> f <= g
  {
    assert Tail(g) == "." + (g + "Z");
    if f == "" {
      assert Tail(f) == "Z";
    } else {
      assert Tail(f) == "." + (f + "Z");
      ZuluTurnsPrefixes(f, g);
      HeadDecides(".", ".", f + "Z", g + "Z");
      HeadDecides(".", ".", g + "Z", f + "Z");
    }
  }

  lemma FormatHasTail(t: Instant)
    ensures Format(t) == SecondText(Second(t)) + Tail(SubsecondDigits(t))
  {
  }

  /** Of two instants, the earlier one comes first as text unless both lie in the same second and its
      fraction's digits begin the other's. */
  lemma TextOrderByDigits(a: Instant, b: Instant)
    requires a < b
    ensures TextBefore(Format(a), Format(b)) <==> Second(a) < Second(b) || !(SubsecondDigits(a) <= SubsecondDigits(b))
    ensures TextBefore(Format(b), Format(a)) <==> Second(a) == Second(b) && SubsecondDigits(a) <= SubsecondDigits(b)
  {
    if Second(a) < Second(b) {
      SecondsDecide(a, b);
    } else {
      NinePlaces();
      var n, m := a % NANOS, b % NANOS;
      FractionsOrder(n, m, 9);
      FractionIsDigits(n, 9);
      FractionIsDigits(m, 9);
      var p, f, g := SecondText(Second(a)), SubsecondDigits(a), SubsecondDigits(b);
      TailsOrder(f, g);
      FormatHasTail(a);
      FormatHasTail(b);
      HeadDecides(p, p, Tail(f), Tail(g));
      HeadDecides(p, p, Tail(g), Tail(f));
    }
  }

  /** The bound the text comparison does give: it is right from one second of distance on. */
  lemma TextOrderWithinASecond(a: Instant, b: Instant)
    ensures a + NANOS <= b ==> TextBefore(Format(a), Format(b))
    ensures TextBefore(Format(a), Format(b)) ==> a < b + NANOS
  {
    if a + NANOS <= b { SecondsDecide(a, b); }
    if b + NANOS <= a { SecondsDecide(b, a); }
  }

  /** A whole second comes after everything later in that second. */
  lemma WholeSecondComesLast(t: Instant, f: nat)
    requires t % NANOS == 0 && 0 < f < NANOS && t + f < DAYS * DAY_SECONDS * NANOS
    ensures TextBefore(Format(t + f), Format(t))
  {
    assert Second(t + f) == Second(t) && SubsecondDigits(t) == "";
    TextOrderByDigits(t, t + f);
  }

  /** Half a second past 0000-01-01T00:00:05Z is stored as a text that comes before it. */
  lemma TextOrderFailsInsideASecond()
    ensures var a: Instant, b: Instant := 5 * NANOS, 5 * NANOS + NANOS / 2;
            a < b && TextBefore(Format(b), Format(a))
  {
    WholeSecondComesLast(5 * NANOS, NANOS / 2);
  }

  // ---- Reading a stamp back ----

  /** Days from year 0 to the first of month `m`, plus `d`. */
  function DayNumber(y: nat, m: nat, d: nat): int
    requires 1 <= m <= 12
  {
    DaysBefore(y) + YearLength(y) - DaysLeft(y, m) + d
  }

  lemma {:induction false} YearAndDayCounts(y: nat, d: nat)
    ensures var (z, e) := YearAndDay(y, d); DaysBefore(z) + e == DaysBefore(y) + d
    decreases d
  {
    if d >= YearLength(y) {
      DaysBeforeNext(y);
      YearAndDayCounts(y + 1, d - YearLength(y));
    }
  }

  lemma {:induction false} MonthAndDayCounts(y: nat, m: nat, d: nat)
    requires 1 <= m <= 12
    ensures var (n, e) := MonthAndDay(y, m, d); DaysLeft(y, m) - DaysLeft(y, n) + e == d
    decreases 12 - m
  {
    if m == 12 || d < MonthLength(y, m) {
      assert MonthAndDay(y, m, d) == (m, d);
    } else {
      MonthAndDayCounts(y, m + 1, d - MonthLength(y, m));
      assert DaysLeft(y, m) == MonthLength(y, m) + DaysLeft(y, m + 1);
    }
  }

  /** The day that date fields stand for. */
  function DayOf(f: seq<int>): int
    requires |f| == 4
  {
    if f[0] < 0 || f[1] < 0 || !(1 <= f[2] <= 12) || f[3] < 1 then 0
    else DayNumber(100 * f[0] + f[1], f[2], f[3] - 1)
  }

  function TimeOf(f: seq<int>): int
    requires |f| == 3
  {
    (f[0] * 60 + f[1]) * 60 + f[2]
  }

  function Number(c: char, d: char): int { 10 * (c as int - '0' as int) + d as int - '0' as int }

  function ReadFields(text: string, seps: seq<string>): seq<int>
  {
    if seps == [] || |text| < 2 + |seps[0]| then []
    else [Number(text[0], text[1])] + ReadFields(text[2 + |seps[0]|..], seps[1..])
  }

  function ReadFraction(text: string, w: nat): int
  {
    if w == 0 || text == "" then 0
    else (text[0] as int - '0' as int) * Pow10(w - 1) + ReadFraction(text[1..], w - 1)
  }

  /** `time.Parse(time.RFC3339Nano, text)` on a UTC stamp; other texts are not its concern. */
  function Parse(text: string): int { Assemble(ReadFields(text, SEPARATORS), text) }

  function Assemble(f: seq<int>, text: string): int
  {
    if |f| != 7 || |text| < 20 then 0
    else
      var frac := if |text| == 20 then 0 else ReadFraction(text[20..|text| - 1], 9);
      (DayOf(f[..4]) * DAY_SECONDS + TimeOf(f[4..])) * NANOS + frac
  }

  lemma {:induction false} FieldsReadBack(ns: seq<nat>, seps: seq<string>, rest: string)
    requires |ns| == |seps| && forall i :: 0 <= i < |ns| ==> ns[i] < 100
    ensures ReadFields(Fields(ns, seps) + rest, seps) == ns
  {
    if ns == [] {
    } else {
      var tail := Fields(ns[1..], seps[1..]) + rest;
      var text := Fields(ns, seps) + rest;
      assert text == Pad2(ns[0]) + (seps[0] + tail);
      assert text[2 + |seps[0]|..] == tail;
      FieldsReadBack(ns[1..], seps[1..], rest);
    }
  }

  lemma {:induction false} FractionReadsBack(n: nat, w: nat)
    requires n < Pow10(w)
    ensures ReadFraction(Fraction(n, w), w) == n
  {
    if n == 0 {
    } else {
      var d, r := FractionHead(n, w);
      var text, p := Fraction(n, w), Pow10(w - 1);
      assert text[0] == Digit(d) && text[1..] == Fraction(r, w - 1);
      FractionReadsBack(r, w - 1);
      LeadingDigit(n, p);
      assert ReadFraction(text, w) == d * p + r;
    }
  }

  lemma DateReadsBack(day: nat)
    requires day < DAYS
    ensures DayOf(DateFields(day)) == day
  {
    var (y, doy) := YearAndDay(0, day);
    var (m, dom) := MonthAndDay(y, 1, doy);
    var f := DateFields(day);
    assert f == [y / 100, y % 100, m, dom + 1];
    DateCounts(day, y, doy, m, dom);
    Centuries(y, m, dom);
  }

  lemma Centuries(y: nat, m: nat, d: nat)
    requires 1 <= m <= 12
    ensures DayOf([y / 100, y % 100, m, d + 1]) == DayNumber(y, m, d)
  {
    var c, r := y / 100, y % 100;
    assert 100 * c + r == y;
    assert DayOf([c, r, m, d + 1]) == DayNumber(100 * c + r, m, d);
  }

  lemma DateCounts(day: nat, y: nat, doy: nat, m: nat, dom: nat)
    requires (y, doy) == YearAndDay(0, day) && (m, dom) == MonthAndDay(y, 1, doy)
    ensures DayNumber(y, m, dom) == day
  {
    YearAndDayCounts(0, day);
    MonthAndDayCounts(y, 1, doy);
    DaysLeftYear(y);
  }

  lemma TimeReadsBack(t: nat)
    requires t < DAY_SECONDS
    ensures TimeOf(TimeFields(t)) == t
  {
    assert t / 60 / 60 == t / 3600;
  }

  lemma StampShape(t: Instant)
    ensures var frac, text := SubsecondDigits(t), Format(t);
            ReadFields(text, SEPARATORS) == SecondFields(Second(t)) &&
            if frac == "" then |text| == 20 else |text| == 21 + |frac| && text[20..|text| - 1] == frac
  {
    var s, frac, fields := SecondText(Second(t)), SubsecondDigits(t), SecondFields(Second(t));
    var rest := (if frac == "" then "" else "." + frac) + "Z";
    assert Format(t) == s + rest;
    FieldsReadBack(fields, SEPARATORS, rest);
    FieldsWidth(fields, SEPARATORS);
    assert Width(["", "-", "-", "T", ":", ":", ""]) == 19;
  }

  /** A stamp read back is the instant it was written for, to the nanosecond. */
  lemma StampRoundTrip(t: Instant)
    ensures Parse(Format(t)) == t
  {
    StampShape(t);
    var f, s := SecondFields(Second(t)), Second(t);
    DateReadsBack(s / DAY_SECONDS);
    TimeReadsBack(s % DAY_SECONDS);
    assert f[..4] == DateFields(s / DAY_SECONDS) && f[4..] == TimeFields(s % DAY_SECONDS);
    NinePlaces();
    FractionReadsBack(t % NANOS, 9);
  }
}
