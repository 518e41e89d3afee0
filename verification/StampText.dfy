/** What a stored stamp says, in numbers: its fraction digits, its calendar date, and when the order of two
    texts is the order of time. */
module StampText {
  import opened Rfc3339

  // ---- The fraction digits ----

  /** The number that decimal digits stand for. */
  function DecimalValue(s: string): int
  {
    if s == "" then 0 else 10 * DecimalValue(s[..|s| - 1]) + (s[|s| - 1] as int - '0' as int)
  }

  predicate Decimal(s: string) { forall i :: 0 <= i < |s| ==> '0' <= s[i] <= '9' }

  lemma {:induction false} Pow10Add(a: nat, b: nat)
    ensures Pow10(a) * Pow10(b) == Pow10(a + b)
  {
    if a == 0 {
    } else {
      Pow10Add(a - 1, b);
      assert 10 * Pow10(a - 1) * Pow10(b) == 10 * Pow10(a - 1 + b);
    }
  }

  lemma {:induction false} ValueOfBoth(f: string, h: string)
    ensures DecimalValue(f + h) == DecimalValue(f) * Pow10(|h|) + DecimalValue(h)
  {
    if h == "" {
      assert f + h == f;
    } else {
      var n := |h| - 1;
      assert (f + h)[..|f| + n] == f + h[..n] && (f + h)[|f| + n] == h[n];
      ValueOfBoth(f, h[..n]);
      TenTimes(DecimalValue(f), Pow10(n));
    }
  }

  lemma TenTimes(v: int, p: int)
    ensures v * (10 * p) == 10 * (v * p)
  {
  }

  lemma {:induction false} LeadingValue(c: char, s: string)
    ensures DecimalValue([c] + s) == (c as int - '0' as int) * Pow10(|s|) + DecimalValue(s)
  {
    ValueOfBoth([c], s);
    assert [c][..0] == "";
  }

  /** The digits after the point that make `n` out of `w` decimal places. */
  predicate Spells(f: string, n: int, w: nat)
  {
    && |f| <= w && Decimal(f) && (f != "" ==> f[|f| - 1] != '0')
    && DecimalValue(f) * Pow10(w - |f|) == n
  }

  lemma FractionSplit(n: nat, w: nat) returns (d: nat, r: nat)
    requires 0 < n < Pow10(w)
    ensures 0 < w && d < 10 && r < Pow10(w - 1) && n == d * Pow10(w - 1) + r
    ensures Fraction(n, w) == [Digit(d)] + Fraction(r, w - 1)
  {
    d, r := FractionHead(n, w);
    LeadingDigit(n, Pow10(w - 1));
  }

  lemma {:induction false} OneDigitMore(d: nat, g: string, r: nat, w: nat)
    requires d < 10 && 0 < w && Spells(g, r, w - 1) && (g == "" ==> 0 < d)
    ensures Spells([Digit(d)] + g, d * Pow10(w - 1) + r, w)
  {
    var p, q := Pow10(|g|), Pow10(w - 1 - |g|);
    LeadingValue(Digit(d), g);
    Pow10Add(|g|, w - 1 - |g|);
    Distributed(d, p, DecimalValue(g), q);
  }

  lemma {:induction false} FractionDigits(n: nat, w: nat)
    requires n < Pow10(w)
    ensures Spells(Fraction(n, w), n, w) && (n > 0 ==> Fraction(n, w) != "")
  {
    if n == 0 {
    } else {
      var d, r := FractionSplit(n, w);
      FractionDigits(r, w - 1);
      OneDigitMore(d, Fraction(r, w - 1), r, w);
    }
  }

  lemma Distributed(d: int, p: int, v: int, q: int)
    ensures (d * p + v) * q == d * (p * q) + v * q
  {
  }

  /** The digits after the point: at most nine, no trailing zero, and together the stamp's nanoseconds. */
  lemma SubsecondDigitsExact(t: Instant)
    ensures var f := SubsecondDigits(t);
            && |f| <= 9 && (forall i :: 0 <= i < |f| ==> '0' <= f[i] <= '9') && (f != "" ==> f[|f| - 1] != '0')
            && DecimalValue(f) * Pow10(9 - |f|) == t % 1_000_000_000
  {
    NinePlaces();
    FractionDigits(t % NANOS, 9);
  }

  // ---- When one fraction's digits begin the other's ----

  const PLACES: seq<nat> :=
    [1, 10, 100, 1_000, 10_000, 100_000, 1_000_000, 10_000_000, 100_000_000, 1_000_000_000]

  /** `n` is `m` cut off at some decimal place. */
  predicate CutShort(n: nat, m: nat) { exists k :: 0 <= k < |PLACES| && n == m - m % PLACES[k] }

  lemma PlacesArePowers(k: nat)
    requires k < |PLACES|
    ensures PLACES[k] == Pow10(k)
  {
    assert Pow10(2) == 100 && Pow10(4) == 10_000 && Pow10(6) == 1_000_000 && Pow10(8) == 100_000_000;
  }

  lemma Modulo(x: nat, q: nat, a: nat, b: nat)
    requires 0 < q && b < q && x == a * q + b
    ensures x % q == b
  {
    Quotient(x, q, a);
    assert x == q * (x / q) + x % q;
  }

  /** `n` is a multiple of `10^k` that is at most `m`, and the next one is above `m`. */
  predicate Cuts(n: int, m: int, k: nat, c: int) { n == c * Pow10(k) && n <= m < n + Pow10(k) }

  lemma {:induction false} ValueFits(f: string)
    requires Decimal(f)
    ensures 0 <= DecimalValue(f) < Pow10(|f|) && (f != "" && f[|f| - 1] != '0' ==> 0 < DecimalValue(f))
  {
    if f == "" {
    } else {
      ValueFits(f[..|f| - 1]);
    }
  }

  lemma ValueOfPrefix(f: string, g: string) returns (x: nat)
    requires Decimal(g) && f <= g
    ensures DecimalValue(g) == DecimalValue(f) * Pow10(|g| - |f|) + x && x < Pow10(|g| - |f|)
  {
    var h := g[|f|..];
    assert g == f + h && Decimal(h);
    ValueOfBoth(f, h);
    ValueFits(h);
    x := DecimalValue(h);
  }

  lemma Shifted(v: int, x: nat, p: nat, q: nat)
    requires x < p && 0 < q
    ensures v * (p * q) <= (v * p + x) * q < v * (p * q) + p * q
  {
    Distributed(v, p, x, q);
    Product(p - 1, x, q);
    Product(x, 0, q);
  }

  /** Fraction digits that begin others: what follows is less than one of the last place. */
  lemma {:induction false} PrefixMeansCut(f: string, n: nat, g: string, m: nat, w: nat)
    requires Spells(f, n, w) && Spells(g, m, w) && f <= g
    ensures Cuts(n, m, w - |f|, DecimalValue(f))
  {
    var x := ValueOfPrefix(f, g);
    Pow10Add(|g| - |f|, w - |g|);
    Shifted(DecimalValue(f), x, Pow10(|g| - |f|), Pow10(w - |g|));
  }

  lemma {:induction false} FirstValue(f: string) returns (d: nat)
    requires Decimal(f) && f != ""
    ensures d < 10 && f == [Digit(d)] + f[1..] && Decimal(f[1..])
    ensures DecimalValue(f) == d * Pow10(|f| - 1) + DecimalValue(f[1..])
    ensures 0 <= DecimalValue(f[1..]) < Pow10(|f| - 1)
  {
    d := f[0] as int - '0' as int;
    assert f == [f[0]] + f[1..];
    LeadingValue(f[0], f[1..]);
    ValueFits(f[1..]);
  }

  lemma FirstOfProduct(d: int, v: nat, p: nat, q: nat)
    requires v < p && 0 < q
    ensures (d * p + v) * q == d * (p * q) + v * q && 0 <= v * q < p * q
  {
    Distributed(d, p, v, q);
    Product(p - 1, v, q);
    Product(v, 0, q);
  }

  lemma {:induction false} FirstDigit(f: string, n: nat, w: nat) returns (d: nat, r: nat)
    requires Spells(f, n, w) && f != ""
    ensures d < 10 && f == [Digit(d)] + f[1..] && r < Pow10(w - 1) && n == d * Pow10(w - 1) + r
    ensures Spells(f[1..], r, w - 1)
  {
    d := FirstValue(f);
    var v, p, q := DecimalValue(f[1..]), Pow10(|f| - 1), Pow10(w - |f|);
    Pow10Add(|f| - 1, w - |f|);
    FirstOfProduct(d, v, p, q);
    r := v * q;
  }

  lemma SpelledIsPositive(f: string, n: nat, w: nat)
    requires Spells(f, n, w) && f != ""
    ensures 0 < n
  {
    ValueFits(f);
    Product(DecimalValue(f), 1, Pow10(w - |f|));
  }

  lemma PrefixOfRest(d: nat, e: nat, f: string, g: string)
    requires d < 10 && e < 10
    ensures [Digit(d)] + f <= [Digit(e)] + g <==> d == e && f <= g
  {
    var a, b := [Digit(d)] + f, [Digit(e)] + g;
    assert a[0] == Digit(d) && b[0] == Digit(e);
    assert a[1..] == f && b[1..] == g;
    if a <= b { assert forall i :: 0 <= i < |f| ==> f[i] == a[i + 1] == b[i + 1] == g[i]; }
    if d == e && f <= g { assert forall i :: 0 < i < |a| ==> a[i] == f[i - 1] == g[i - 1] == b[i]; }
  }

  lemma SameLead(d: nat, r: nat, e: nat, s: nat, c: int, o: nat, q: nat) returns (b: int)
    requires 0 < q && r < o * q && s < o * q
    requires d * (o * q) + r == c * q && c * q <= e * (o * q) + s < c * q + q
    ensures d == e && r == b * q && r <= s < r + q
  {
    b := c - d * o;
    Distributed(0 - d, o, c, q);
    NextMultipleFits(r, b, o, q);
    WholeBelow(d, e, r, s, o * q, q);
  }

  lemma NextMultipleFits(r: nat, b: int, o: nat, q: nat)
    requires 0 < q && r == b * q && r < o * q
    ensures r + q <= o * q
  {
    if b >= o { Product(b, o, q); } else { Product(o, b + 1, q); }
  }

  lemma Product(a: int, b: int, q: nat)
    requires a >= b
    ensures a * q >= b * q
  {
  }

  lemma WholeBelow(d: nat, e: nat, r: nat, s: nat, p: nat, q: nat)
    requires r + q <= p && s < p && d * p + r <= e * p + s < d * p + r + q
    ensures d == e
  {
    if e < d { Product(d, e + 1, p); }
    if d < e { Product(e, d + 1, p); }
  }

  lemma PositiveMultiple(n: nat, c: int, q: nat)
    requires 0 < n && n == c * q
    ensures 1 <= c && q <= n
  {
    if c <= 0 { Product(0, c, q); } else { Product(c, 1, q); }
  }

  /** A cut other than 0 starts with the same digit, and the rest is cut at the same place. */
  lemma CutSplit(n: nat, m: nat, w: nat, k: nat, c: int, d: nat, r: nat, e: nat, s: nat) returns (b: int)
    requires 0 < n && m < Pow10(w) && 0 < w && k <= w && Cuts(n, m, k, c)
    requires n == d * Pow10(w - 1) + r && m == e * Pow10(w - 1) + s && r < Pow10(w - 1) && s < Pow10(w - 1)
    ensures k < w && d == e && Cuts(r, s, k, b)
  {
    PositiveMultiple(n, c, Pow10(k));
    Pow10Add(w - 1 - k, k);
    b := SameLead(d, r, e, s, c, Pow10(w - 1 - k), Pow10(k));
  }

  lemma {:induction false} CutMeansPrefix(f: string, n: nat, g: string, m: nat, w: nat, k: nat, c: int)
    requires Spells(f, n, w) && Spells(g, m, w) && m < Pow10(w) && k <= w && Cuts(n, m, k, c)
    ensures f <= g
  {
    if f == "" {
    } else {
      SpelledIsPositive(f, n, w);
      var d, r := FirstDigit(f, n, w);
      var e, s := FirstDigit(g, m, w);
      var b := CutSplit(n, m, w, k, c, d, r, e, s);
      CutMeansPrefix(f[1..], r, g[1..], s, w - 1, k, b);
      PrefixOfRest(d, e, f[1..], g[1..]);
    }
  }

  lemma CutsIsModulo(n: nat, m: nat, k: nat)
    ensures n == m - m % Pow10(k) <==> exists c: nat :: Cuts(n, m, k, c)
  {
    var q := Pow10(k);
    assert m == m / q * q + m % q;
    if n == m - m % q { assert Cuts(n, m, k, m / q); }
    if c: nat :| Cuts(n, m, k, c) { Modulo(m, q, c, m - n); }
  }

  lemma PrefixIsCutShort(f: string, n: nat, g: string, m: nat)
    requires Spells(f, n, 9) && Spells(g, m, 9) && f <= g
    ensures CutShort(n, m)
  {
    PrefixMeansCut(f, n, g, m, 9);
    ValueFits(f);
    CutsIsModulo(n, m, 9 - |f|);
    PlacesArePowers(9 - |f|);
  }

  lemma CutShortIsPrefix(f: string, n: nat, g: string, m: nat)
    requires Spells(f, n, 9) && Spells(g, m, 9) && m < Pow10(9) && CutShort(n, m)
    ensures f <= g
  {
    var k :| 0 <= k < |PLACES| && n == m - m % PLACES[k];
    PlacesArePowers(k);
    CutsIsModulo(n, m, k);
    var c: nat :| Cuts(n, m, k, c);
    CutMeansPrefix(f, n, g, m, 9, k, c);
  }

  lemma PrefixIsCut(a: Instant, b: Instant)
    ensures SubsecondDigits(a) <= SubsecondDigits(b) <==> CutShort(a % NANOS, b % NANOS)
  {
    NinePlaces();
    var n, m, f, g := a % NANOS, b % NANOS, SubsecondDigits(a), SubsecondDigits(b);
    FractionDigits(n, 9);
    FractionDigits(m, 9);
    if f <= g { PrefixIsCutShort(f, n, g, m); }
    if CutShort(n, m) { CutShortIsPrefix(f, n, g, m); }
  }

  /** The exact reach of the text comparison: of two instants, the earlier one comes first as text unless
      both lie in the same second and its nanoseconds are the other's cut off at some decimal place. */
  lemma TextOrderExact(a: Instant, b: Instant)
    requires a < b
    ensures var cut := Second(a) == Second(b) && CutShort(a % 1_000_000_000, b % 1_000_000_000);
            (TextBefore(Format(a), Format(b)) <==> !cut) && (TextBefore(Format(b), Format(a)) <==> cut)
  {
    TextOrderByDigits(a, b);
    PrefixIsCut(a, b);
    if Second(a) != Second(b) { assert Second(a) < Second(b); }
  }

  // ---- The date ----

  /** Days from March 1 to the first of a month, counted from March 0; 153 days in every five months. */
  function MarchDays(m: nat): int { (153 * (if m <= 2 then m + 9 else m - 3) + 2) / 5 }

  lemma MultipleMore(y: nat, k: nat, c: nat)
    requires 0 < k
    ensures (y + c * k) / k == y / k + c
  {
    var q, r := y / k, y % k;
    assert y == k * q + r && k * (q + c) == k * q + c * k;
    Quotient(y + c * k, k, q + c);
  }

  lemma DaysBeforeMarch(y: nat)
    ensures DaysBefore(y) + YearLength(y) == 365 * y + y / 4 - y / 100 + y / 400 + 366
  {
    DaysBeforeNext(y);
    MultipleMore(y, 4, 1);
    MultipleMore(y, 100, 1);
    MultipleMore(y, 400, 1);
  }

  lemma DaysLeftFromMarch(y: nat, m: nat)
    requires 3 <= m <= 12
    ensures DaysLeft(y, m) == 306 - MarchDays(m)
  {
    assert DaysLeft(y, 12) == 31;
    assert DaysLeft(y, 10) == 92;
    assert DaysLeft(y, 8) == 153;
    assert DaysLeft(y, 6) == 214;
    assert DaysLeft(y, 4) == 275;
    assert DaysLeft(y, 3) == 306;
  }

  /** The day a date stands for, by the rule that starts the year in March. */
  function GregorianDay(y: nat, m: nat, d: nat): int
  {
    var z := if m <= 2 then y + 399 else y + 400;
    365 * z + z / 4 - z / 100 + z / 400 + MarchDays(m) + d + 59 - 146_097
  }

  lemma DayNumberIsGregorian(y: nat, m: nat, d: nat)
    requires 1 <= m <= 12
    ensures DayNumber(y, m, d) == GregorianDay(y, m, d + 1)
  {
    if m <= 2 {
      DaysLeftYear(y);
      assert DaysLeft(y, 1) == 31 + DaysLeft(y, 2);
      MultipleMore(y + 3, 4, 99);
      MultipleMore(y + 99, 100, 3);
    } else {
      DaysLeftFromMarch(y, m);
      DaysBeforeMarch(y);
      MultipleMore(y, 4, 100);
      MultipleMore(y, 100, 4);
      MultipleMore(y, 400, 1);
    }
  }

  lemma {:induction false} DayInMonth(y: nat, m: nat, d: nat)
    requires 1 <= m <= 12 && d < DaysLeft(y, m)
    ensures var (n, e) := MonthAndDay(y, m, d); e < MonthLength(y, n)
    decreases 12 - m
  {
    if m < 12 && d >= MonthLength(y, m) { DayInMonth(y, m + 1, d - MonthLength(y, m)); }
  }

  /** The day of the month is in range, by the calendar. */
  predicate InMonth(y: nat, m: nat, d: nat)
  {
    1 <= d <= if m == 2 then if y % 4 == 0 && (y % 100 != 0 || y % 400 == 0) then 29 else 28
              else if m in {4, 6, 9, 11} then 30 else 31
  }

  /** The date a stamp shows is the Gregorian date of its day. */
  lemma DateIsGregorian(day: nat) returns (y: nat, m: nat, d: nat)
    requires day < DAYS
    ensures y < 10_000 && 1 <= m <= 12 && InMonth(y, m, d) && day == GregorianDay(y, m, d)
    ensures DateFields(day) == [y / 100, y % 100, m, d]
  {
    var doy, dom;
    y, doy := YearAndDay(0, day).0, YearAndDay(0, day).1;
    m, dom := MonthAndDay(y, 1, doy).0, MonthAndDay(y, 1, doy).1;
    d := dom + 1;
    FourDigitYear(0, day);
    DateCounts(day, y, doy, m, dom);
    DayNumberIsGregorian(y, m, dom);
    assert dom < MonthLength(y, m) by {
      DayFits(0, day);
      DaysLeftYear(y);
      DayInMonth(y, 1, doy);
    }
  }

  lemma OneField(ns: seq<nat>, seps: seq<string>, i: nat)
    requires |ns| == |seps| && i < |ns| && forall i :: 0 <= i < |ns| ==> ns[i] < 100
    ensures Fields(ns[i..], seps[i..]) == Pad2(ns[i]) + (seps[i] + Fields(ns[i + 1..], seps[i + 1..]))
  {
    assert ns[i..][1..] == ns[i + 1..] && seps[i..][1..] == seps[i + 1..];
  }

  /** The year in four digits, the month, the day, and the time of day, each in two. */
  function Written(y: nat, m: nat, d: nat, h: nat, min: nat, sec: nat): string
    requires y < 10_000 && m < 100 && d < 100 && h < 100 && min < 100 && sec < 100
  {
    var time := Pad2(h) + (":" + (Pad2(min) + (":" + Pad2(sec))));
    Pad2(y / 100) + (Pad2(y % 100) + ("-" + (Pad2(m) + ("-" + (Pad2(d) + ("T" + time))))))
  }

  lemma {:induction false} TimeWritten(ns: seq<nat>)
    requires |ns| == 7 && forall i :: 0 <= i < |ns| ==> ns[i] < 100
    ensures Fields(ns[4..], SEPARATORS[4..]) == Pad2(ns[4]) + (":" + (Pad2(ns[5]) + (":" + Pad2(ns[6]))))
  {
    OneField(ns, SEPARATORS, 4);
    OneField(ns, SEPARATORS, 5);
    OneField(ns, SEPARATORS, 6);
    NothingMore(Pad2(ns[6]));
  }

  lemma {:induction false} DateWritten(ns: seq<nat>)
    requires |ns| == 7 && forall i :: 0 <= i < |ns| ==> ns[i] < 100
    ensures Fields(ns[1..], SEPARATORS[1..]) ==
            Pad2(ns[1]) + ("-" + (Pad2(ns[2]) + ("-" + (Pad2(ns[3]) + ("T" + Fields(ns[4..], SEPARATORS[4..]))))))
  {
    OneField(ns, SEPARATORS, 1);
    OneField(ns, SEPARATORS, 2);
    OneField(ns, SEPARATORS, 3);
  }

  lemma {:induction false} SevenFields(y: nat, ns: seq<nat>)
    requires |ns| == 7 && forall i :: 0 <= i < |ns| ==> ns[i] < 100
    requires y < 10_000 && ns[0] == y / 100 && ns[1] == y % 100
    ensures Fields(ns, SEPARATORS) == Written(y, ns[2], ns[3], ns[4], ns[5], ns[6])
  {
    assert ns[0..] == ns && SEPARATORS[0..] == SEPARATORS;
    OneField(ns, SEPARATORS, 0);
    NothingFirst(Fields(ns[1..], SEPARATORS[1..]));
    DateWritten(ns);
    TimeWritten(ns);
  }

  lemma NothingMore(s: string)
    ensures s + ("" + "") == s
  {
  }

  lemma NothingFirst(s: string)
    ensures "" + s == s
  {
  }

  /** A stamp written out: the Gregorian date, the time of day, and the fraction digits, if any. */
  lemma {:induction false} StampWrittenOut(t: Instant) returns (y: nat, m: nat, d: nat)
    ensures y < 10_000 && 1 <= m <= 12 && InMonth(y, m, d) && t / 1_000_000_000 / 86_400 == GregorianDay(y, m, d)
    ensures var sec, f := t / 1_000_000_000 % 86_400, SubsecondDigits(t);
            Format(t) ==
            Written(y, m, d, sec / 3600, sec / 60 % 60, sec % 60) + ((if f == "" then "" else "." + f) + "Z")
  {
    var s := Second(t);
    y, m, d := DateIsGregorian(s / DAY_SECONDS);
    SecondWritten(s, y, m, d);
    FormatHasTail(t);
  }

  lemma {:induction false} SecondWritten(s: nat, y: nat, m: nat, d: nat)
    requires s < DAYS * DAY_SECONDS && y < 10_000 && m < 100 && d < 100
    requires DateFields(s / DAY_SECONDS) == [y / 100, y % 100, m, d]
    ensures var sec := s % DAY_SECONDS; SecondText(s) == Written(y, m, d, sec / 3600, sec / 60 % 60, sec % 60)
  {
    var ns := SecondFields(s);
    assert ns == [y / 100, y % 100, m, d] + TimeFields(s % DAY_SECONDS);
    SevenFields(y, ns);
  }
}
