/** Timestamps are stored as the text of `datetime.isoformat()` in UTC and compared as text, by the
    claim query, the claiming update and the cleanup. The text leaves the fraction out when it is zero,
    so the texts differ in length. This module proves that the order of the texts is nevertheless the
    order of the instants, which is what lets JobTable count time in microseconds. */
module IsoTime {

  datatype Instant = Instant(year: nat, month: nat, day: nat, hour: nat, minute: nat, second: nat, micro: nat)

  predicate LeapYear(y: nat) {
    y % 4 == 0 && (y % 100 != 0 || y % 400 == 0)
  }

  function DaysInMonth(y: nat, m: nat): (d: nat)
    ensures 28 <= d <= 31
  {
    if m == 2 then (if LeapYear(y) then 29 else 28) else if m in {4, 6, 9, 11} then 30 else 31
  }

  predicate Valid(i: Instant) {
    && 1 <= i.year <= 9999 && 1 <= i.month <= 12 && 1 <= i.day <= DaysInMonth(i.year, i.month)
    && i.hour < 24 && i.minute < 60 && i.second < 60 && i.micro < 1_000_000
  }

  // ------------------------------------------------------------- instants

  function DaysBeforeYear(y: nat): nat {
    if y <= 1 then 0 else DaysBeforeYear(y - 1) + DaysInYear(y - 1)
  }

  function DaysInYear(y: nat): nat {
    if LeapYear(y) then 366 else 365
  }

  function DaysBeforeMonth(y: nat, m: nat): nat {
    if m <= 1 then 0 else DaysBeforeMonth(y, m - 1) + DaysInMonth(y, m - 1)
  }

  function Day(i: Instant): nat {
    DaysBeforeYear(i.year) + DaysBeforeMonth(i.year, i.month) + i.day
  }

  /** Microseconds on the calendar's own scale. */
  function Micros(i: Instant): nat {
    (((Day(i) * 24 + i.hour) * 60 + i.minute) * 60 + i.second) * 1_000_000 + i.micro
  }

  lemma {:induction false} MonthsAdvance(y: nat, m: nat, n: nat)
    requires 1 <= m < n
    ensures DaysBeforeMonth(y, m) + DaysInMonth(y, m) <= DaysBeforeMonth(y, n)
  {
    if m + 1 < n {
      MonthsAdvance(y, m, n - 1);
    }
  }

  lemma {:induction false} YearsAdvance(y: nat, z: nat)
    requires 1 <= y < z
    ensures DaysBeforeYear(y) + DaysInYear(y) <= DaysBeforeYear(z)
  {
    if y + 1 < z {
      YearsAdvance(y, z - 1);
    }
  }

  lemma YearIsItsMonths(y: nat)
    ensures DaysBeforeMonth(y, 13) == DaysInYear(y)
  {
    var leap := if LeapYear(y) then 1 else 0;
    assert DaysBeforeMonth(y, 2) == 31;
    assert DaysBeforeMonth(y, 3) == 59 + leap;
    assert DaysBeforeMonth(y, 5) == 120 + leap;
    assert DaysBeforeMonth(y, 7) == 181 + leap;
    assert DaysBeforeMonth(y, 9) == 243 + leap;
    assert DaysBeforeMonth(y, 11) == 304 + leap;
  }

  lemma DaysAdvance(a: Instant, b: Instant)
    requires Valid(a) && Valid(b)
    ensures Day(a) < Day(b) <==>
            a.year < b.year || (a.year == b.year && (a.month < b.month || (a.month == b.month && a.day < b.day)))
    ensures Day(a) == Day(b) ==> (a.year, a.month, a.day) == (b.year, b.month, b.day)
  {
    YearIsItsMonths(a.year);
    YearIsItsMonths(b.year);
    if a.year < b.year { YearsAdvance(a.year, b.year); MonthsAdvance(a.year, a.month, 13); }
    if b.year < a.year { YearsAdvance(b.year, a.year); MonthsAdvance(b.year, b.month, 13); }
    if a.month < b.month { MonthsAdvance(a.year, a.month, b.month); }
    if b.month < a.month { MonthsAdvance(a.year, b.month, a.month); }
  }

  // ----------------------------------------------------------------- text

  /** The order of Python's and SQL's text comparison. */
  predicate TextLess(s: string, t: string) {
    t != [] && (s == [] || s[0] < t[0] || (s[0] == t[0] && TextLess(s[1..], t[1..])))
  }

  function Power10(w: nat): nat {
    if w == 0 then 1 else 10 * Power10(w - 1)
  }

  /** Zero-padded decimal of a fixed width. */
  function Digits(n: nat, w: nat): (s: string)
    ensures |s| == w
  {
    if w == 0 then "" else Digits(n / 10, w - 1) + [('0' as int + n % 10) as char]
  }

  function Iso(i: Instant): string {
    Digits(i.year, 4) + "-" + (Digits(i.month, 2) + "-" + (Digits(i.day, 2) + "T" +
    (Digits(i.hour, 2) + ":" + (Digits(i.minute, 2) + ":" + (Digits(i.second, 2) + Tail(i))))))
  }

  function Tail(i: Instant): string {
    if i.micro == 0 then "+00:00" else "." + Digits(i.micro, 6) + "+00:00"
  }

  lemma {:induction false} CompareParts(a: string, b: string, c: string, d: string)
    requires |a| == |c|
    ensures TextLess(a + b, c + d) <==> TextLess(a, c) || (a == c && TextLess(b, d))
    ensures a + b == c + d <==> a == c && b == d
  {
    if a == [] {
      assert a + b == b && c + d == d;
    } else {
      CompareParts(a[1..], b, c[1..], d);
      assert (a + b)[1..] == a[1..] + b && (c + d)[1..] == c[1..] + d;
      assert a == [a[0]] + a[1..] && c == [c[0]] + c[1..];
      assert (a + b)[0] == a[0] && (c + d)[0] == c[0];
      assert a + b == c + d ==> a[0] == c[0] && a[1..] + b == c[1..] + d;
    }
  }

  lemma {:induction false} CompareDigits(m: nat, n: nat, w: nat)
    requires m < Power10(w) && n < Power10(w)
    ensures TextLess(Digits(m, w), Digits(n, w)) <==> m < n
    ensures Digits(m, w) == Digits(n, w) <==> m == n
  {
    if w > 0 {
      CompareDigits(m / 10, n / 10, w - 1);
      var p, q := [('0' as int + m % 10) as char], [('0' as int + n % 10) as char];
      CompareParts(Digits(m / 10, w - 1), p, Digits(n / 10, w - 1), q);
      assert TextLess(p, q) <==> m % 10 < n % 10;
      assert p == q <==> m % 10 == n % 10;
    }
  }

  /** One field of the text, followed by the same separator on both sides. */
  lemma CompareField(m: nat, n: nat, w: nat, sep: string, b: string, d: string)
    requires m < Power10(w) && n < Power10(w)
    ensures TextLess(Digits(m, w) + sep + b, Digits(n, w) + sep + d) <==> m < n || (m == n && TextLess(b, d))
    ensures Digits(m, w) + sep + b == Digits(n, w) + sep + d <==> m == n && b == d
  {
    CompareDigits(m, n, w);
    CompareParts(Digits(m, w) + sep, b, Digits(n, w) + sep, d);
    CompareParts(Digits(m, w), sep, Digits(n, w), sep);
    NotLessThanItself(sep);
  }

  lemma {:induction false} NotLessThanItself(s: string)
    ensures !TextLess(s, s)
  {
    if s != [] {
      NotLessThanItself(s[1..]);
    }
  }

  /** The point on which it all rests: '+' sorts before '.', as no fraction is before any fraction. */
  lemma CompareTails(a: Instant, b: Instant)
    requires Valid(a) && Valid(b)
    ensures TextLess(Tail(a), Tail(b)) <==> a.micro < b.micro
    ensures Tail(a) == Tail(b) <==> a.micro == b.micro
  {
    assert Power10(6) == 1_000_000;
    NotLessThanItself("+00:00");
    if a.micro != 0 && b.micro != 0 {
      CompareField(a.micro, b.micro, 6, "+00:00", "", "");
      CompareParts(".", Digits(a.micro, 6) + "+00:00", ".", Digits(b.micro, 6) + "+00:00");
      assert Tail(a) == "." + (Digits(a.micro, 6) + "+00:00") && Tail(b) == "." + (Digits(b.micro, 6) + "+00:00");
      assert Digits(a.micro, 6) + "+00:00" + "" == Digits(a.micro, 6) + "+00:00";
      assert Digits(b.micro, 6) + "+00:00" + "" == Digits(b.micro, 6) + "+00:00";
      NotLessThanItself(".");
    }
  }

  function Width(k: nat): nat {
    if k == 0 then 4 else 2
  }

  /** What follows the k-th field. */
  function Separator(k: nat): string {
    match k
    case 0 => "-"
    case 1 => "-"
    case 2 => "T"
    case 3 => ":"
    case 4 => ":"
    case _ => ""
  }

  function FieldAt(i: Instant, k: nat): nat {
    match k
    case 0 => i.year
    case 1 => i.month
    case 2 => i.day
    case 3 => i.hour
    case 4 => i.minute
    case 5 => i.second
    case _ => i.micro
  }

  function IsoFrom(i: Instant, k: nat): string
    requires k <= 6
    decreases 6 - k
  {
    if k == 6 then Tail(i) else Digits(FieldAt(i, k), Width(k)) + Separator(k) + IsoFrom(i, k + 1)
  }

  /** Calendar order from the k-th field on: the first field that differs decides. */
  predicate Earlier(a: Instant, b: Instant, k: nat)
    requires k <= 6
    decreases 6 - k
  {
    FieldAt(a, k) < FieldAt(b, k) || (FieldAt(a, k) == FieldAt(b, k) && k < 6 && Earlier(a, b, k + 1))
  }

  function MicrosOfDay(i: Instant): nat {
    ((i.hour * 60 + i.minute) * 60 + i.second) * 1_000_000 + i.micro
  }

  lemma OrderInTheDay(a: Instant, b: Instant)
    requires Valid(a) && Valid(b)
    ensures Earlier(a, b, 3) <==> MicrosOfDay(a) < MicrosOfDay(b)
  {
    assert Earlier(a, b, 6) <==> a.micro < b.micro;
    assert Earlier(a, b, 5) <==> a.second * 1_000_000 + a.micro < b.second * 1_000_000 + b.micro;
    var u := (a.minute * 60 + a.second) * 1_000_000 + a.micro;
    var v := (b.minute * 60 + b.second) * 1_000_000 + b.micro;
    assert Earlier(a, b, 4) <==> u < v;
  }

  lemma OrderOfDays(a: Instant, b: Instant)
    requires Valid(a) && Valid(b)
    ensures Earlier(a, b, 0) <==> Day(a) < Day(b) || (Day(a) == Day(b) && Earlier(a, b, 3))
  {
    DaysAdvance(a, b);
    assert Earlier(a, b, 2) <==> a.day < b.day || (a.day == b.day && Earlier(a, b, 3));
    assert Earlier(a, b, 1) <==> a.month < b.month || (a.month == b.month && Earlier(a, b, 2));
  }

  lemma CalendarOrder(a: Instant, b: Instant)
    requires Valid(a) && Valid(b)
    ensures Earlier(a, b, 0) <==> Micros(a) < Micros(b)
  {
    OrderInTheDay(a, b);
    OrderOfDays(a, b);
    assert Micros(a) == Day(a) * 86_400_000_000 + MicrosOfDay(a) && MicrosOfDay(a) < 86_400_000_000;
    assert Micros(b) == Day(b) * 86_400_000_000 + MicrosOfDay(b) && MicrosOfDay(b) < 86_400_000_000;
  }

  lemma SecondsOn(i: Instant)
    ensures IsoFrom(i, 5) == Digits(i.second, 2) + Tail(i)
  {
    var seconds := Digits(i.second, 2);
    assert seconds + "" == seconds;
    assert IsoFrom(i, 6) == Tail(i);
  }

  lemma HoursOn(i: Instant)
    ensures IsoFrom(i, 3) == Digits(i.hour, 2) + ":" + (Digits(i.minute, 2) + ":" + (Digits(i.second, 2) + Tail(i)))
  {
    SecondsOn(i);
    assert IsoFrom(i, 4) == Digits(i.minute, 2) + ":" + IsoFrom(i, 5);
  }

  lemma IsoIsFieldByField(i: Instant)
    ensures Iso(i) == IsoFrom(i, 0)
  {
    HoursOn(i);
    assert IsoFrom(i, 2) == Digits(i.day, 2) + "T" + IsoFrom(i, 3);
    assert IsoFrom(i, 1) == Digits(i.month, 2) + "-" + IsoFrom(i, 2);
  }

  lemma FieldFits(i: Instant, k: nat)
    requires Valid(i) && k < 6
    ensures FieldAt(i, k) < Power10(Width(k))
  {
    assert Power10(2) == 100 && Power10(4) == 10000;
  }

  lemma {:induction false} CompareFrom(a: Instant, b: Instant, k: nat)
    requires Valid(a) && Valid(b) && k <= 6
    ensures TextLess(IsoFrom(a, k), IsoFrom(b, k)) <==> Earlier(a, b, k)
    decreases 6 - k
  {
    if k == 6 {
      CompareTails(a, b);
    } else {
      FieldFits(a, k);
      FieldFits(b, k);
      CompareFrom(a, b, k + 1);
      CompareField(FieldAt(a, k), FieldAt(b, k), Width(k), Separator(k), IsoFrom(a, k + 1), IsoFrom(b, k + 1));
    }
  }

  lemma TimeDetermines(a: Instant, b: Instant)
    requires Valid(a) && Valid(b) && Micros(a) == Micros(b)
    ensures a == b
  {
    DaysAdvance(a, b);
  }

  /** Texts compare as instants do, although their lengths differ, and equal texts are one instant. */
  lemma TextOrderIsTimeOrder(a: Instant, b: Instant)
    requires Valid(a) && Valid(b)
    ensures TextLess(Iso(a), Iso(b)) <==> Micros(a) < Micros(b)
    ensures Iso(a) == Iso(b) <==> Micros(a) == Micros(b)
  {
    IsoIsFieldByField(a);
    IsoIsFieldByField(b);
    CompareFrom(a, b, 0);
    CompareFrom(b, a, 0);
    CalendarOrder(a, b);
    CalendarOrder(b, a);
    NotLessThanItself(Iso(a));
    if Micros(a) == Micros(b) {
      TimeDetermines(a, b);
    }
  }
}
