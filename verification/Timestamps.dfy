/**
 The text order of RFC 3339 stamps, which is the order `DELETE FROM clips WHERE expires_at < ?` uses,
 against the order of the instants they denote (sections 5.1 and 5.6 of RFC 3339).
 */
module Timestamps {
  import opened Cursors

  const NANOS: int := 1_000_000_000

  // ---- instants ----

  /** A local civil time with a four-digit year. */
  datatype Stamp = Stamp(year: nat, month: nat, day: nat, hour: nat, minute: nat, second: nat, nanos: nat)

  predicate IsLeap(year: nat) {
    year % 4 == 0 && (year % 100 != 0 || year % 400 == 0)
  }

  function DaysIn(year: nat, month: nat): nat {
    if month == 2 then (if IsLeap(year) then 29 else 28)
    else if month == 4 || month == 6 || month == 9 || month == 11 then 30
    else 31
  }

  predicate Valid(s: Stamp) {
    && s.year < 10_000 && 1 <= s.month <= 12 && 1 <= s.day <= DaysIn(s.year, s.month)
    && s.hour < 24 && s.minute < 60 && s.second < 60 && s.nanos < NANOS
  }

  /** Days before the k-th month, counting months from January of year 0. */
  function DaysBeforeMonth(k: nat): nat {
    if k == 0 then 0 else DaysBeforeMonth(k - 1) + DaysIn((k - 1) / 12, (k - 1) % 12 + 1)
  }

  function MonthIndex(s: Stamp): nat
    requires Valid(s)
  {
    s.year * 12 + (s.month - 1)
  }

  function DayNumber(s: Stamp): nat
    requires Valid(s)
  {
    DaysBeforeMonth(MonthIndex(s)) + s.day - 1
  }

  function LocalSeconds(s: Stamp): nat
    requires Valid(s)
  {
    ((DayNumber(s) * 24 + s.hour) * 60 + s.minute) * 60 + s.second
  }

  /** The instant, in nanoseconds, of local time `s` at `offset` minutes east of UTC. */
  function Instant(s: Stamp, offset: int): int
    requires Valid(s)
  {
    (LocalSeconds(s) - offset * 60) * NANOS + s.nanos
  }

  // ---- text ----

  /** `n` in `width` digits. */
  function Pad(n: nat, width: nat): string {
    if width == 0 then "" else Pad(n / 10, width - 1) + [DigitChar(n % 10)]
  }

  predicate AllZero(s: string) {
    forall i | 0 <= i < |s| :: s[i] == '0'
  }

  /** `s` without its trailing zeros. */
  function TrimZeros(s: string): string {
    if AllZero(s) then "" else [s[0]] + TrimZeros(s[1..])
  }

  function Fraction(nanos: nat): string {
    if nanos == 0 then "" else "." + TrimZeros(Pad(nanos, 9))
  }

  function Zone(offset: int): string {
    if offset == 0 then "Z"
    else if offset > 0 then "+" + Pad(offset / 60, 2) + ":" + Pad(offset % 60, 2)
    else "-" + Pad(-offset / 60, 2) + ":" + Pad(-offset % 60, 2)
  }

  function Date(s: Stamp): string {
    ((Pad(s.year, 4) + "-") + (Pad(s.month, 2) + "-")) + (Pad(s.day, 2) + "T")
  }

  function Clock(s: Stamp): string {
    ((Pad(s.hour, 2) + ":") + (Pad(s.minute, 2) + ":")) + Pad(s.second, 2)
  }

  /** `Format(time.RFC3339Nano)`. */
  function Text(s: Stamp, offset: int): string {
    (Date(s) + Clock(s)) + (Fraction(s.nanos) + Zone(offset))
  }

  /** The comparison SQLite makes on two TEXT values: byte by byte. */
  predicate TextLess(a: string, b: string) {
    if a == "" || b == "" then a == "" && b != ""
    else a[0] < b[0] || (a[0] == b[0] && TextLess(a[1..], b[1..]))
  }

  // ---- fixed-width text follows its number ----

  /** Equally long texts that compare as the numbers they stand for. */
  ghost predicate Tracks(a: string, b: string, m: int, n: int) {
    |a| == |b| && (TextLess(a, b) <==> m < n) && (a == b <==> m == n)
  }

  lemma {:induction false} LessAppend(a: string, b: string, x: string, y: string)
    requires |a| == |b|
    ensures TextLess(a + x, b + y) <==> TextLess(a, b) || (a == b && TextLess(x, y))
  {
    if a == "" {
      assert a + x == x && b + y == y;
    } else {
      assert (a + x)[1..] == a[1..] + x && (b + y)[1..] == b[1..] + y;
      LessAppend(a[1..], b[1..], x, y);
      assert a == [a[0]] + a[1..] && b == [b[0]] + b[1..];
    }
  }

  lemma {:induction false} LessIrreflexive(a: string)
    ensures !TextLess(a, a)
  {
    if a != "" { LessIrreflexive(a[1..]); }
  }

  lemma Lexicographic(m: int, n: int, p: int, q: int, radix: int)
    requires 0 <= p < radix && 0 <= q < radix
    ensures m * radix + p < n * radix + q <==> m < n || (m == n && p < q)
    ensures m * radix + p == n * radix + q <==> m == n && p == q
  {
    if m < n { assert (m + 1) * radix <= n * radix; }
    if n < m { assert (n + 1) * radix <= m * radix; }
  }

  lemma JoinInjective(a: string, b: string, x: string, y: string)
    requires |a| == |b|
    ensures a + x == b + y <==> a == b && x == y
  {
    assert (a + x)[..|a|] == a && (a + x)[|a|..] == x && (b + y)[..|b|] == b && (b + y)[|b|..] == y;
  }

  /** Two fields side by side: the left one counts for more. */
  lemma TracksPair(a: string, b: string, m: int, n: int, x: string, y: string, p: int, q: int, radix: int)
    requires Tracks(a, b, m, n) && Tracks(x, y, p, q) && 0 <= p < radix && 0 <= q < radix
    ensures Tracks(a + x, b + y, m * radix + p, n * radix + q)
  {
    LessAppend(a, b, x, y);
    JoinInjective(a, b, x, y);
    Lexicographic(m, n, p, q, radix);
  }

  /** A separator after the field changes nothing. */
  lemma TracksMark(a: string, b: string, m: int, n: int, mark: string)
    requires Tracks(a, b, m, n)
    ensures Tracks(a + mark, b + mark, m, n)
  {
    LessAppend(a, b, mark, mark);
    LessIrreflexive(mark);
    JoinInjective(a, b, mark, mark);
  }

  function Power10(k: nat): nat {
    if k == 0 then 1 else 10 * Power10(k - 1)
  }

  lemma {:induction false} PadTracks(m: nat, n: nat, width: nat)
    requires m < Power10(width) && n < Power10(width)
    ensures Tracks(Pad(m, width), Pad(n, width), m, n) && |Pad(m, width)| == width
    ensures forall i | 0 <= i < width :: '0' <= Pad(m, width)[i] <= '9'
  {
    if width > 0 {
      PadTracks(m / 10, n / 10, width - 1);
      var x, y := [DigitChar(m % 10)], [DigitChar(n % 10)];
      assert Tracks(x, y, m % 10, n % 10) by { assert x[1..] == "" && y[1..] == ""; }
      TracksPair(Pad(m / 10, width - 1), Pad(n / 10, width - 1), m / 10, n / 10, x, y, m % 10, n % 10, 10);
    }
  }

  lemma FieldTracks(m: nat, n: nat, width: nat, mark: string)
    requires m < Power10(width) && n < Power10(width)
    ensures Tracks(Pad(m, width) + mark, Pad(n, width) + mark, m, n)
  {
    PadTracks(m, n, width);
    TracksMark(Pad(m, width), Pad(n, width), m, n, mark);
  }

  lemma Powers()
    ensures Power10(2) == 100 && Power10(4) == 10_000 && Power10(9) == NANOS
  {
    assert Power10(3) == 1000;
    assert Power10(5) == 100_000;
    assert Power10(6) == 1_000_000;
    assert Power10(7) == 10_000_000;
    assert Power10(8) == 100_000_000;
  }

  // ---- the calendar ----

  lemma {:induction false} MonthsAdvance(j: nat, k: nat)
    requires j < k
    ensures DaysBeforeMonth(j) + DaysIn(j / 12, j % 12 + 1) <= DaysBeforeMonth(k)
  {
    if j < k - 1 { MonthsAdvance(j, k - 1); }
  }

  /** Year, month, day in lexicographic order is the order of the days. */
  lemma CalendarOrder(a: Stamp, b: Stamp)
    requires Valid(a) && Valid(b)
    ensures var i, j := MonthIndex(a), MonthIndex(b);
            && (i * 31 + (a.day - 1) < j * 31 + (b.day - 1) <==> DayNumber(a) < DayNumber(b))
            && (i * 31 + (a.day - 1) == j * 31 + (b.day - 1) <==> DayNumber(a) == DayNumber(b))
  {
    var i, j := MonthIndex(a), MonthIndex(b);
    assert i / 12 == a.year && i % 12 + 1 == a.month;
    assert j / 12 == b.year && j % 12 + 1 == b.month;
    if i < j { MonthsAdvance(i, j); }
    if j < i { MonthsAdvance(j, i); }
  }

  lemma DateTracks(a: Stamp, b: Stamp)
    requires Valid(a) && Valid(b)
    ensures Tracks(Date(a), Date(b), DayNumber(a), DayNumber(b))
  {
    Powers();
    FieldTracks(a.year, b.year, 4, "-");
    FieldTracks(a.month, b.month, 2, "-");
    FieldTracks(a.day, b.day, 2, "T");
    assert Tracks(Pad(a.month, 2) + "-", Pad(b.month, 2) + "-", a.month - 1, b.month - 1);
    assert Tracks(Pad(a.day, 2) + "T", Pad(b.day, 2) + "T", a.day - 1, b.day - 1);
    var ya, yb := Pad(a.year, 4) + "-", Pad(b.year, 4) + "-";
    var ma, mb := Pad(a.month, 2) + "-", Pad(b.month, 2) + "-";
    TracksPair(ya, yb, a.year, b.year, ma, mb, a.month - 1, b.month - 1, 12);
    TracksPair(ya + ma, yb + mb, MonthIndex(a), MonthIndex(b),
               Pad(a.day, 2) + "T", Pad(b.day, 2) + "T", a.day - 1, b.day - 1, 31);
    CalendarOrder(a, b);
  }

  lemma ClockTracks(a: Stamp, b: Stamp)
    requires Valid(a) && Valid(b)
    ensures Tracks(Clock(a), Clock(b),
                   (a.hour * 60 + a.minute) * 60 + a.second, (b.hour * 60 + b.minute) * 60 + b.second)
  {
    Powers();
    FieldTracks(a.hour, b.hour, 2, ":");
    FieldTracks(a.minute, b.minute, 2, ":");
    PadTracks(a.second, b.second, 2);
    var ha, hb := Pad(a.hour, 2) + ":", Pad(b.hour, 2) + ":";
    var ma, mb := Pad(a.minute, 2) + ":", Pad(b.minute, 2) + ":";
    TracksPair(ha, hb, a.hour, b.hour, ma, mb, a.minute, b.minute, 60);
    TracksPair(ha + ma, hb + mb, a.hour * 60 + a.minute, b.hour * 60 + b.minute,
               Pad(a.second, 2), Pad(b.second, 2), a.second, b.second, 60);
  }

  lemma SecondsTrack(a: Stamp, b: Stamp)
    requires Valid(a) && Valid(b)
    ensures Tracks(Date(a) + Clock(a), Date(b) + Clock(b), LocalSeconds(a), LocalSeconds(b))
  {
    DateTracks(a, b);
    ClockTracks(a, b);
    TracksPair(Date(a), Date(b), DayNumber(a), DayNumber(b), Clock(a), Clock(b),
               (a.hour * 60 + a.minute) * 60 + a.second, (b.hour * 60 + b.minute) * 60 + b.second, 86_400);
  }

  // ---- the fraction ----

  lemma {:induction false} ZeroIsLeast(d: string, e: string)
    requires |d| == |e| && AllDigits(e) && AllZero(d)
    ensures TextLess(d, e) <==> !AllZero(e)
    ensures !TextLess(e, d)
    ensures AllZero(e) ==> d == e
  {
    if d != "" {
      assert d == [d[0]] + d[1..] && e == [e[0]] + e[1..];
      ZeroIsLeast(d[1..], e[1..]);
      assert AllZero(e) <==> e[0] == '0' && AllZero(e[1..]);
    }
  }

  /** Trimmed digit strings followed by something that sorts below the digits compare as the full ones. */
  lemma {:induction false} TrimmedOrder(d: string, e: string, z: string)
    requires |d| == |e| && AllDigits(d) && AllDigits(e) && (z != "" ==> z[0] < '0')
    ensures TextLess(TrimZeros(d) + z, TrimZeros(e) + z) <==> TextLess(d, e)
  {
    LessIrreflexive(z);
    var td, te := TrimZeros(d), TrimZeros(e);
    if AllZero(d) {
      ZeroIsLeast(d, e);
      assert td + z == z;
      if AllZero(e) {
        assert te + z == z;
      } else {
        assert (te + z)[0] == e[0];
      }
    } else if AllZero(e) {
      ZeroIsLeast(e, d);
      assert te + z == z && (td + z)[0] == d[0];
    } else {
      assert (td + z)[1..] == TrimZeros(d[1..]) + z;
      assert (te + z)[1..] == TrimZeros(e[1..]) + z;
      TrimmedOrder(d[1..], e[1..], z);
    }
  }

  lemma PointedText(d: string, e: string, z: string)
    requires |d| == |e| && AllDigits(d) && AllDigits(e) && (z != "" ==> z[0] < '.')
    ensures TextLess(("." + TrimZeros(d)) + z, ("." + TrimZeros(e)) + z) <==> TextLess(d, e)
  {
    TrimmedOrder(d, e, z);
    var td, te := TrimZeros(d), TrimZeros(e);
    assert ("." + td) + z == "." + (td + z) && ("." + te) + z == "." + (te + z);
    LessAppend(".", ".", td + z, te + z);
    LessIrreflexive(".");
  }

  lemma PadDigits(n: nat, width: nat)
    requires n < Power10(width)
    ensures |Pad(n, width)| == width && AllDigits(Pad(n, width))
  {
    PadTracks(n, n, width);
  }

  lemma PointedOrder(m: nat, n: nat, z: string)
    requires 0 < m < NANOS && 0 < n < NANOS && (z != "" ==> z[0] < '.')
    ensures TextLess(Fraction(m) + z, Fraction(n) + z) <==> m < n
  {
    Powers();
    PadTracks(m, n, 9);
    PadDigits(m, 9);
    PadDigits(n, 9);
    PointedText(Pad(m, 9), Pad(n, 9), z);
  }

  lemma FractionOrder(m: nat, n: nat, z: string)
    requires m < NANOS && n < NANOS && (z != "" ==> z[0] < '.')
    ensures TextLess(Fraction(m) + z, Fraction(n) + z) <==> m < n
  {
    LessIrreflexive(z);
    if m > 0 && n > 0 {
      PointedOrder(m, n, z);
    } else if n > 0 {
      assert Fraction(m) + z == z && (Fraction(n) + z)[0] == '.';
    } else if m > 0 {
      assert Fraction(n) + z == z && (Fraction(m) + z)[0] == '.';
    } else {
      assert Fraction(m) + z == z;
    }
  }

  // ---- the calendar and the format, spelled out ----

  lemma YearLength(y: nat)
    ensures DaysBeforeMonth(12 * y + 12) - DaysBeforeMonth(12 * y)
            == if y % 4 == 0 && (y % 100 != 0 || y % 400 == 0) then 366 else 365
  {
    hide DaysBeforeMonth;
    var feb := if y % 4 == 0 && (y % 100 != 0 || y % 400 == 0) then 29 else 28;
    MonthLength(y, 1, 31);
    MonthLength(y, 2, feb);
    MonthLength(y, 3, 31);
    MonthLength(y, 4, 30);
    MonthLength(y, 5, 31);
    MonthLength(y, 6, 30);
    MonthLength(y, 7, 31);
    MonthLength(y, 8, 31);
    MonthLength(y, 9, 30);
    MonthLength(y, 10, 31);
    MonthLength(y, 11, 30);
    MonthLength(y, 12, 31);
  }

  lemma MonthLength(y: nat, month: nat, days: nat)
    requires 1 <= month <= 12 && days == DaysIn(y, month)
    ensures DaysBeforeMonth(12 * y + month) == DaysBeforeMonth(12 * y + month - 1) + days
  {
    assert (12 * y + month - 1) / 12 == y && (12 * y + month - 1) % 12 + 1 == month;
  }

  lemma Fourth(y: nat)
    ensures (y + 4) / 4 == (y + 3) / 4 + if y % 4 == 0 then 1 else 0
  {
  }

  lemma Hundredth(y: nat)
    ensures (y + 100) / 100 == (y + 99) / 100 + if y % 100 == 0 then 1 else 0
  {
  }

  lemma FourHundredth(y: nat)
    ensures (y + 400) / 400 == (y + 399) / 400 + if y % 400 == 0 then 1 else 0
  {
  }

  lemma Multiple(q: nat)
    ensures (100 * q) % 4 == 0 && (400 * q) % 100 == 0
  {
    assert 100 * q == 4 * (25 * q) && 400 * q == 100 * (4 * q);
  }

  function LeapsBefore(y: nat): int {
    (y + 3) / 4 - (y + 99) / 100 + (y + 399) / 400
  }

  lemma LeapsStep(y: nat)
    ensures LeapsBefore(y + 1) == LeapsBefore(y) + if y % 4 == 0 && (y % 100 != 0 || y % 400 == 0) then 1 else 0
  {
    Fourth(y);
    Hundredth(y);
    FourHundredth(y);
    Multiple(y / 100);
    Multiple(y / 400);
    assert y % 100 == 0 ==> y == 100 * (y / 100);
    assert y % 400 == 0 ==> y == 400 * (y / 400);
  }

  lemma {:induction false} YearDays(y: nat)
    ensures DaysBeforeMonth(12 * y) == 365 * y + LeapsBefore(y)
    decreases y, 0
  {
    if y == 0 {
      assert DaysBeforeMonth(0) == 0 && LeapsBefore(0) == 0;
    } else {
      NextYear(y - 1);
    }
  }

  lemma {:induction false} NextYear(y: nat)
    ensures DaysBeforeMonth(12 * (y + 1)) == 365 * (y + 1) + LeapsBefore(y + 1)
    decreases y, 1
  {
    hide *;
    YearDays(y);
    YearLength(y);
    LeapsStep(y);
    assert 12 * (y + 1) == 12 * y + 12;
  }

  /** The Gregorian calendar: so many days lie before the first day of a year, counted from the year 0. */
  lemma DaysBeforeYear(y: nat)
    ensures DaysBeforeMonth(12 * y) == 365 * y + (y + 3) / 4 - (y + 99) / 100 + (y + 399) / 400
  {
    hide DaysBeforeMonth;
    YearDays(y);
  }

  lemma DaysSamples()
    ensures DaysBeforeMonth(23_640) == 719_528 && DaysBeforeMonth(24_001) == 719_528 + 10_988
  {
    hide DaysBeforeMonth;
    DaysBeforeYear(1970);
    DaysBeforeYear(2000);
    MonthLength(2000, 1, 31);
  }

  /** The Unix epoch, and a leap day. */
  lemma InstantSamples()
    ensures Valid(Stamp(1970, 1, 1, 0, 0, 0, 0)) && Valid(Stamp(2000, 2, 29, 12, 30, 15, 7))
    ensures !Valid(Stamp(1900, 2, 29, 0, 0, 0, 0)) && !Valid(Stamp(2001, 2, 29, 0, 0, 0, 0))
    ensures Instant(Stamp(1970, 1, 1, 0, 0, 0, 0), 0) == 719_528 * 86_400 * 1_000_000_000
    ensures Instant(Stamp(2000, 2, 29, 12, 30, 15, 7), 90)
            == (719_528 + 11_016) * 86_400 * 1_000_000_000 + ((12 * 60 + 30 - 90) * 60 + 15) * 1_000_000_000 + 7
  {
    hide DaysBeforeMonth;
    DaysSamples();
    assert MonthIndex(Stamp(1970, 1, 1, 0, 0, 0, 0)) == 23_640;
    assert MonthIndex(Stamp(2000, 2, 29, 12, 30, 15, 7)) == 24_001;
  }

  lemma PadTwo(n: nat)
    requires n < 100
    ensures Pad(n, 2) == [DigitChar(n / 10), DigitChar(n % 10)]
  {
    assert Pad(n / 10, 1) == Pad(n / 10 / 10, 0) + [DigitChar(n / 10 % 10)];
    assert n / 10 % 10 == n / 10;
  }

  lemma PadYear()
    ensures Pad(2024, 4) == "2024"
  {
    PadTwo(20);
    assert Pad(202, 3) == Pad(20, 2) + "2";
    assert Pad(2024, 4) == Pad(202, 3) + "4";
  }

  lemma DateSample()
    ensures Date(Stamp(2024, 1, 2, 3, 4, 5, 0)) == "2024-01-02T" && Clock(Stamp(2024, 1, 2, 3, 4, 5, 0)) == "03:04:05"
    ensures Zone(90) == "+01:30" && Zone(-300) == "-05:00" && Zone(0) == "Z"
  {
    hide Pad;
    PadYear();
    PadTwo(1);
    PadTwo(2);
    PadTwo(3);
    PadTwo(4);
    PadTwo(5);
    PadTwo(30);
    PadTwo(0);
  }

  lemma PadTimesTen(n: nat, width: nat)
    ensures Pad(10 * n, width + 1) == Pad(n, width) + "0"
  {
    assert 10 * n / 10 == n && 10 * n % 10 == 0;
  }

  lemma PadSix()
    ensures Pad(60_000_000, 9) == "060000000"
  {
    hide Pad;
    PadTwo(6);
    PadTimesTen(6, 2);
    PadTimesTen(60, 3);
    PadTimesTen(600, 4);
    PadTimesTen(6000, 5);
    PadTimesTen(60_000, 6);
    PadTimesTen(600_000, 7);
    PadTimesTen(6_000_000, 8);
  }

  lemma FractionSample()
    ensures Fraction(60_000_000) == ".06" && Fraction(0) == ""
  {
    hide Pad;
    PadSix();
    assert "060000000"[1..] == "60000000" && "60000000"[1..] == "0000000";
    assert TrimZeros("0000000") == "";
    assert TrimZeros("60000000") == "6";
  }

  /** What is printed, with a numeric offset east and west, and with Z. */
  lemma TextSamples()
    ensures Text(Stamp(2024, 1, 2, 3, 4, 5, 60_000_000), 90) == "2024-01-02T03:04:05.06+01:30"
    ensures Text(Stamp(2024, 1, 2, 3, 4, 5, 0), -300) == "2024-01-02T03:04:05-05:00"
    ensures Text(Stamp(2024, 1, 2, 3, 4, 5, 60_000_000), 0) == "2024-01-02T03:04:05.06Z"
  {
    hide Date, Clock, Zone, Fraction;
    DateSample();
    FractionSample();
    DateOnly(60_000_000);
  }

  lemma DateOnly(nanos: nat)
    ensures Date(Stamp(2024, 1, 2, 3, 4, 5, nanos)) == Date(Stamp(2024, 1, 2, 3, 4, 5, 0))
    ensures Clock(Stamp(2024, 1, 2, 3, 4, 5, nanos)) == Clock(Stamp(2024, 1, 2, 3, 4, 5, 0))
  {
    hide Pad;
  }

  // ---- the theorems ----

  lemma InstantOrder(a: Stamp, b: Stamp, offset: int)
    requires Valid(a) && Valid(b)
    ensures Instant(a, offset) < Instant(b, offset)
            <==> LocalSeconds(a) < LocalSeconds(b) || (LocalSeconds(a) == LocalSeconds(b) && a.nanos < b.nanos)
  {
  }

  /** Stamps printed with the same numeric offset: text order is instant order. */
  lemma NumericOffsetExact(a: Stamp, b: Stamp, offset: int)
    requires Valid(a) && Valid(b) && offset != 0
    ensures TextLess(Text(a, offset), Text(b, offset)) <==> Instant(a, offset) < Instant(b, offset)
  {
    SecondsTrack(a, b);
    InstantOrder(a, b, offset);
    FractionOrder(a.nanos, b.nanos, Zone(offset));
    LessAppend(Date(a) + Clock(a), Date(b) + Clock(b),
               Fraction(a.nanos) + Zone(offset), Fraction(b.nanos) + Zone(offset));
  }

  /** Comparing after a character above all others: a proper prefix sorts behind what it is a prefix of. */
  lemma {:induction false} HighEnd(a: string, b: string, c: char)
    requires (forall i | 0 <= i < |a| :: a[i] < c) && (forall i | 0 <= i < |b| :: b[i] < c)
    ensures TextLess(a + [c], b + [c])
            <==> if a < b then false else if b < a then true else TextLess(a, b)
  {
    if a == "" {
      assert a + [c] == [c] && (b != "" ==> (b + [c])[0] == b[0]);
      if b == "" { LessIrreflexive([c]); assert b + [c] == [c]; }
    } else if b == "" {
      assert b + [c] == [c] && (a + [c])[0] == a[0];
    } else {
      assert (a + [c])[1..] == a[1..] + [c] && (b + [c])[1..] == b[1..] + [c];
      HighEnd(a[1..], b[1..], c);
      assert a == [a[0]] + a[1..] && b == [b[0]] + b[1..];
      assert a[0] == b[0] ==> (a < b <==> a[1..] < b[1..]) && (b < a <==> b[1..] < a[1..]);
    }
  }

  lemma {:induction false} TrimmedDigits(s: string)
    requires AllDigits(s)
    ensures AllDigits(TrimZeros(s))
  {
    if !AllZero(s) { TrimmedDigits(s[1..]); }
  }

  lemma FractionChars(n: nat)
    requires n < NANOS
    ensures forall i | 0 <= i < |Fraction(n)| :: Fraction(n)[i] < 'Z'
  {
    Powers();
    PadTracks(n, n, 9);
    TrimmedDigits(Pad(n, 9));
  }

  /** The same printed second, one printed fraction a proper prefix of the other ("" counts). */
  predicate Ambiguous(a: Stamp, b: Stamp)
    requires Valid(a) && Valid(b)
  {
    && LocalSeconds(a) == LocalSeconds(b)
    && (Fraction(a.nanos) < Fraction(b.nanos) || Fraction(b.nanos) < Fraction(a.nanos))
  }

  /** A proper prefix is a smaller fraction. */
  lemma PrefixIsSmaller(m: nat, n: nat)
    requires m < NANOS && n < NANOS && Fraction(m) < Fraction(n)
    ensures m < n
  {
    FractionOrder(m, n, "");
    PrefixIsLess(Fraction(m), Fraction(n));
    assert Fraction(m) + "" == Fraction(m) && Fraction(n) + "" == Fraction(n);
  }

  lemma PrefixIsLess(x: string, y: string)
    requires x < y
    ensures TextLess(x, y)
  {
    assert x + "" == x && y == x + y[|x|..];
    LessAppend(x, x, "", y[|x|..]);
  }

  lemma ZFractionOrder(m: nat, n: nat)
    requires m < NANOS && n < NANOS
    ensures var x, y := Fraction(m), Fraction(n);
            (TextLess(x + "Z", y + "Z") <==> m < n) <==> !(x < y || y < x)
  {
    var x, y := Fraction(m), Fraction(n);
    FractionChars(m);
    FractionChars(n);
    HighEnd(x, y, 'Z');
    FractionOrder(m, n, "");
    assert x + "" == x && y + "" == y;
    if x < y { PrefixIsSmaller(m, n); }
    if y < x { PrefixIsSmaller(n, m); }
  }

  /** Stamps printed in UTC, with "Z": text order is instant order exactly when the stamps are not Ambiguous. */
  lemma UtcExactUnlessAmbiguous(a: Stamp, b: Stamp)
    requires Valid(a) && Valid(b)
    ensures (TextLess(Text(a, 0), Text(b, 0)) <==> Instant(a, 0) < Instant(b, 0)) <==> !Ambiguous(a, b)
  {
    SecondsTrack(a, b);
    InstantOrder(a, b, 0);
    ZFractionOrder(a.nanos, b.nanos);
    LessAppend(Date(a) + Clock(a), Date(b) + Clock(b), Fraction(a.nanos) + "Z", Fraction(b.nanos) + "Z");
  }

  /** So when text order errs, the two instants are less than a second apart. */
  lemma ErrorBelowOneSecond(a: Stamp, b: Stamp, offset: int)
    requires Valid(a) && Valid(b)
    requires TextLess(Text(a, offset), Text(b, offset)) != (Instant(a, offset) < Instant(b, offset))
    ensures -NANOS < Instant(a, offset) - Instant(b, offset) < NANOS
    ensures offset == 0
  {
    if offset != 0 {
      NumericOffsetExact(a, b, offset);
    } else {
      UtcExactUnlessAmbiguous(a, b);
      SameSecondClose(a, b, offset);
    }
  }

  lemma SameSecondClose(a: Stamp, b: Stamp, offset: int)
    requires Valid(a) && Valid(b) && LocalSeconds(a) == LocalSeconds(b)
    ensures -NANOS < Instant(a, offset) - Instant(b, offset) < NANOS
  {
  }

  /** The error happens: a row that expires at 0.5 s is taken as expired before the whole second. */
  lemma UtcDeletesEarly()
    ensures var expires, before := Stamp(2024, 1, 1, 0, 0, 0, 500_000_000), Stamp(2024, 1, 1, 0, 0, 0, 0);
            && Valid(expires) && Valid(before)
            && TextLess(Text(expires, 0), Text(before, 0)) && !(Instant(expires, 0) < Instant(before, 0))
  {
    var expires, before := Stamp(2024, 1, 1, 0, 0, 0, 500_000_000), Stamp(2024, 1, 1, 0, 0, 0, 0);
    InstantOrder(expires, before, 0);
    FractionOrder(0, 500_000_000, "");
    assert Fraction(0) < Fraction(500_000_000);
    UtcExactUnlessAmbiguous(expires, before);
  }

  // ---- what the DELETE statement takes ----

  ghost predicate AllValid(rows: map<nat, Stamp>) {
    forall k | k in rows :: Valid(rows[k])
  }

  /** The rows `DELETE ... WHERE expires_at < ?` takes, all stamps printed with one offset. */
  ghost function TakenByText(rows: map<nat, Stamp>, before: Stamp, offset: int): set<nat> {
    set k | k in rows && TextLess(Text(rows[k], offset), Text(before, offset))
  }

  /** The rows that have expired before that instant. */
  ghost function TakenByInstant(rows: map<nat, Stamp>, before: Stamp, offset: int): set<nat>
    requires AllValid(rows) && Valid(before)
  {
    set k | k in rows && Instant(rows[k], offset) < Instant(before, offset)
  }

  /** With a numeric offset the statement takes exactly the expired rows; in UTC it errs only within a second. */
  lemma DeleteTakesExpired(rows: map<nat, Stamp>, before: Stamp, offset: int)
    requires AllValid(rows) && Valid(before)
    ensures offset != 0 ==> TakenByText(rows, before, offset) == TakenByInstant(rows, before, offset)
    ensures forall k | k in rows
                       && (k in TakenByText(rows, before, offset)) != (k in TakenByInstant(rows, before, offset)) ::
              -NANOS < Instant(rows[k], offset) - Instant(before, offset) < NANOS
  {
    forall k | k in rows && (k in TakenByText(rows, before, offset)) != (k in TakenByInstant(rows, before, offset))
      ensures offset == 0 && -NANOS < Instant(rows[k], offset) - Instant(before, offset) < NANOS
    {
      ErrorBelowOneSecond(rows[k], before, offset);
    }
  }
}
