/** Timestamps: a UTC instant, the text `_isoformat` stores for it, and `_parse_iso`.
    The store compares the text in SQL and the instants in Python; the theorems at the end
    say that both comparisons agree and that parsing inverts printing. */
module IsoTime {
  import opened Wrappers
  import opened Text

  const MICROS_PER_SECOND := 1_000_000
  const MICROS_PER_DAY := 86_400_000_000
  const MAX_YEAR := 9999
  const END_OF_TIME := 3_652_059 * MICROS_PER_DAY

  /** Microseconds since 0001-01-01T00:00:00 UTC, within the range of `datetime`. */
  type Instant = t: int | 0 <= t < END_OF_TIME

  /* The proleptic Gregorian calendar */

  predicate IsLeap(y: int) {
    y % 4 == 0 && (y % 100 != 0 || y % 400 == 0)
  }

  function DaysInYear(y: int): int {
    if IsLeap(y) then 366 else 365
  }

  function DaysInMonth(y: int, m: int): int {
    if m == 2 then if IsLeap(y) then 29 else 28
    else if m in {4, 6, 9, 11} then 30 else 31
  }

  /** Days before 1 January of year y. */
  function YearStart(y: int): (r: int)
    requires 1 <= y
  {
    (y - 1) * 365 + (y - 1) / 4 - (y - 1) / 100 + (y - 1) / 400
  }

  /** Days before day 1 of month m, within year y. */
  function MonthStart(y: int, m: int): (r: int)
    requires 1 <= m <= 12
    decreases m
  {
    if m == 1 then 0 else MonthStart(y, m - 1) + DaysInMonth(y, m - 1)
  }

  /** The fields of a `datetime` whose offset is zero. */
  datatype Fields = Fields(year: int, month: int, day: int,
                           hour: int, minute: int, second: int, micro: int) {
    predicate Valid() {
      && 1 <= year <= MAX_YEAR && 1 <= month <= 12 && 1 <= day <= DaysInMonth(year, month)
      && 0 <= hour < 24 && 0 <= minute < 60 && 0 <= second < 60
      && 0 <= micro < MICROS_PER_SECOND
    }

    function Ordinal(): int
      requires Valid()
    {
      YearStart(year) + MonthStart(year, month) + day - 1
    }

    function Seconds(): int {
      hour * 3600 + minute * 60 + second
    }

    function Micros(): int
      requires Valid()
    {
      Ordinal() * MICROS_PER_DAY + Seconds() * MICROS_PER_SECOND + micro
    }

    /** Field-by-field order. */
    predicate Before(g: Fields) {
      || year < g.year
      || (year == g.year && (month < g.month
      || (month == g.month && (day < g.day
      || (day == g.day && (hour < g.hour
      || (hour == g.hour && (minute < g.minute
      || (minute == g.minute && (second < g.second
      || (second == g.second && micro < g.micro)))))))))))
    }
  }

  lemma {:induction false} YearStartStep(y: int)
    requires 1 <= y
    ensures YearStart(y + 1) == YearStart(y) + DaysInYear(y)
  {
    var k, r := y / 400, y % 400;
    assert y == 400 * k + r;
    assert (y - 1) / 4 == if y % 4 == 0 then y / 4 - 1 else y / 4;
    assert (y - 1) / 100 == if y % 100 == 0 then y / 100 - 1 else y / 100;
    assert (y - 1) / 400 == if r == 0 then k - 1 else k;
  }

  lemma {:induction false} YearStartMonotone(y: int, z: int)
    requires 1 <= y < z
    ensures YearStart(y) + DaysInYear(y) <= YearStart(z)
    decreases z
  {
    YearStartStep(z - 1);
    if y < z - 1 { YearStartMonotone(y, z - 1); }
  }

  lemma {:induction false} MonthStartMonotone(y: int, m: int, n: int)
    requires 1 <= m < n <= 12
    ensures MonthStart(y, m) + DaysInMonth(y, m) <= MonthStart(y, n)
    decreases n
  {
    if m < n - 1 { MonthStartMonotone(y, m, n - 1); }
  }

  lemma MonthsFillYear(y: int)
    ensures MonthStart(y, 12) + 31 == DaysInYear(y)
  {
    assert MonthStart(y, 3) == 31 + DaysInMonth(y, 2);
    assert MonthStart(y, 6) == MonthStart(y, 3) + 92;
    assert MonthStart(y, 9) == MonthStart(y, 6) + 92;
  }

  lemma MonthWithinYear(y: int, m: int)
    requires 1 <= m <= 12
    ensures MonthStart(y, m) + DaysInMonth(y, m) <= DaysInYear(y)
    ensures 0 <= MonthStart(y, m)
  {
    MonthsFillYear(y);
    if m < 12 { MonthStartMonotone(y, m, 12); }
    if 1 < m { MonthStartMonotone(y, 1, m); }
  }

  /** The order of the fields is the order of the instants they name. */
  lemma BeforeIsEarlier(f: Fields, g: Fields)
    requires f.Valid() && g.Valid() && f.Before(g)
    ensures f.Micros() < g.Micros()
  {
    MonthWithinYear(f.year, f.month);
    MonthWithinYear(g.year, g.month);
    if f.year < g.year {
      YearStartMonotone(f.year, g.year);
    } else if f.month < g.month {
      MonthStartMonotone(f.year, f.month, g.month);
    }
    assert f.Ordinal() <= g.Ordinal();
    assert f.Ordinal() == g.Ordinal() ==> f.Seconds() <= g.Seconds();
  }

  /* From an instant to its fields */

  function YearOf(days: int, y: int): (r: int)
    requires 1 <= y && YearStart(y) <= days
    ensures y <= r && YearStart(r) <= days < YearStart(r) + DaysInYear(r)
    decreases days - YearStart(y)
  {
    if days < YearStart(y) + DaysInYear(y) then y
    else
      YearStartStep(y);
      YearOf(days, y + 1)
  }

  function MonthOf(day: int, y: int, m: int): (r: int)
    requires 1 <= m <= 12 && MonthStart(y, m) <= day < DaysInYear(y)
    ensures m <= r <= 12 && MonthStart(y, r) <= day < MonthStart(y, r) + DaysInMonth(y, r)
    decreases 12 - m
  {
    MonthsFillYear(y);
    if m == 12 || day < MonthStart(y, m + 1) then m else MonthOf(day, y, m + 1)
  }

  /** The UTC fields of an instant. */
  function FieldsOf(t: Instant): (f: Fields)
    ensures f.Valid() && f.Micros() == t
  {
    var days, rest := t / MICROS_PER_DAY, t % MICROS_PER_DAY;
    var s, micro := rest / MICROS_PER_SECOND, rest % MICROS_PER_SECOND;
    var y := YearOf(days, 1);
    assert y <= MAX_YEAR by {
      if MAX_YEAR < y { YearStartMonotone(MAX_YEAR, y); }
    }
    var m := MonthOf(days - YearStart(y), y, 1);
    Fields(y, m, days - YearStart(y) - MonthStart(y, m) + 1, s / 3600, s / 60 % 60, s % 60, micro)
  }

  /* Text */

  function Digit(n: int): char
    requires 0 <= n < 10
  {
    '0' + n as char
  }

  function DigitValue(c: char): Option<nat> {
    if '0' <= c <= '9' then Some((c - '0') as nat) else None
  }

  function Pow10(w: nat): (r: nat)
    ensures 1 <= r
  {
    if w == 0 then 1 else 10 * Pow10(w - 1)
  }

  /** n with leading zeros, w digits wide. */
  function Pad(n: nat, w: nat): (r: string)
    ensures |r| == w
  {
    if w == 0 then "" else Pad(n / 10, w - 1) + [Digit(n % 10)]
  }

  function Number(s: string): Option<nat> {
    if s == "" then Some(0)
    else
      match (Number(s[..|s| - 1]), DigitValue(s[|s| - 1]))
      case (Some(n), Some(d)) => Some(10 * n + d)
      case _ => None
  }

  lemma {:induction false} PadOrder(a: nat, b: nat, w: nat)
    requires a < Pow10(w) && b < Pow10(w)
    ensures Less(Pad(a, w), Pad(b, w)) <==> a < b
    ensures Pad(a, w) == Pad(b, w) <==> a == b
  {
    if w > 0 {
      PadOrder(a / 10, b / 10, w - 1);
      LessAppend(Pad(a / 10, w - 1), Pad(b / 10, w - 1), [Digit(a % 10)], [Digit(b % 10)]);
      assert Pad(a, w)[..w - 1] == Pad(a / 10, w - 1) && Pad(b, w)[..w - 1] == Pad(b / 10, w - 1);
      assert Pad(a, w)[w - 1] == Digit(a % 10) && Pad(b, w)[w - 1] == Digit(b % 10);
    }
  }

  lemma {:induction false} NumberPad(n: nat, w: nat)
    requires n < Pow10(w)
    ensures Number(Pad(n, w)) == Some(n)
  {
    if w > 0 {
      NumberPad(n / 10, w - 1);
      assert Pad(n, w)[..w - 1] == Pad(n / 10, w - 1);
    }
  }

  /** The fraction is omitted when it is zero. */
  function Fraction(micro: nat): string {
    (if micro == 0 then "" else "." + Pad(micro, 6)) + "+00:00"
  }

  /* The text from each field on. */

  function FromSecond(f: Fields): string
    requires f.Valid()
  {
    ":" + Pad(f.second, 2) + Fraction(f.micro)
  }

  function FromMinute(f: Fields): string
    requires f.Valid()
  {
    ":" + Pad(f.minute, 2) + FromSecond(f)
  }

  function FromHour(f: Fields): string
    requires f.Valid()
  {
    "T" + Pad(f.hour, 2) + FromMinute(f)
  }

  function FromDay(f: Fields): string
    requires f.Valid()
  {
    "-" + Pad(f.day, 2) + FromHour(f)
  }

  function FromMonth(f: Fields): string
    requires f.Valid()
  {
    "-" + Pad(f.month, 2) + FromDay(f)
  }

  function Format(f: Fields): string
    requires f.Valid()
  {
    Pad(f.year, 4) + FromMonth(f)
  }

  /** `_isoformat`. */
  function Iso(t: Instant): string {
    Format(FieldsOf(t))
  }

  function Slice(s: string, from: nat, to: nat): string
    requires from <= to <= |s|
  {
    s[from..to]
  }

  function ReadDate(s: string): Option<(nat, nat, nat)>
    requires 10 <= |s|
  {
    var y :- Number(Slice(s, 0, 4));
    var m :- Number(Slice(s, 5, 7));
    var d :- Number(Slice(s, 8, 10));
    Some((y, m, d))
  }

  function ReadTime(s: string): Option<(nat, nat, nat)>
    requires 19 <= |s|
  {
    var h :- Number(Slice(s, 11, 13));
    var m :- Number(Slice(s, 14, 16));
    var sec :- Number(Slice(s, 17, 19));
    Some((h, m, sec))
  }

  /** The fraction and the offset, when they have one of the two shapes `_isoformat` gives them. */
  function ReadFraction(s: string): Option<nat> {
    if s == "+00:00" then Some(0)
    else if |s| == 13 && s[0] == '.' && s[7..] == "+00:00" then Number(s[1..7])
    else None
  }

  /** `_parse_iso`, on the shapes `_isoformat` produces. */
  function Parse(s: string): Option<Instant> {
    if |s| < 19 then None
    else if !(s[4] == '-' && s[7] == '-' && s[10] == 'T' && s[13] == ':' && s[16] == ':') then None
    else
      var date :- ReadDate(s);
      var time :- ReadTime(s);
      var micro :- ReadFraction(s[19..]);
      var f := Fields(date.0, date.1, date.2, time.0, time.1, time.2, micro);
      if f.Valid() && 0 <= f.Micros() < END_OF_TIME then Some(f.Micros()) else None
  }

  lemma FractionOrder(a: nat, b: nat)
    requires a < MICROS_PER_SECOND && b < MICROS_PER_SECOND
    ensures Less(Fraction(a), Fraction(b)) <==> a < b
  {
    assert Pow10(6) == 1_000_000;
    var za, zb := "." + Pad(a, 6), "." + Pad(b, 6);
    PadOrder(a, b, 6);
    LessAppend(".", ".", Pad(a, 6), Pad(b, 6));
    assert "."[0] == '.';
    LessAppend(za, zb, "+00:00", "+00:00");
    LessIrreflexive("+00:00");
    LessIrreflexive(".");
    assert "" + "+00:00" == "+00:00";
    assert za == zb <==> a == b by { assert za[1..] == Pad(a, 6) && zb[1..] == Pad(b, 6); }
  }

  /** A separator, a two-digit field, and the rest. */
  lemma SegmentOrder(sep: string, a: nat, b: nat, w: nat, u: string, v: string)
    requires a < Pow10(w) && b < Pow10(w)
    ensures Less(sep + Pad(a, w) + u, sep + Pad(b, w) + v) <==> a < b || (a == b && Less(u, v))
  {
    PadOrder(a, b, w);
    LessAppend(sep, sep, Pad(a, w), Pad(b, w));
    LessIrreflexive(sep);
    LessAppend(sep + Pad(a, w), sep + Pad(b, w), u, v);
    assert (sep + Pad(a, w))[|sep|..] == Pad(a, w) && (sep + Pad(b, w))[|sep|..] == Pad(b, w);
  }

  lemma FormatOrder(f: Fields, g: Fields)
    requires f.Valid() && g.Valid()
    ensures Less(Format(f), Format(g)) <==> f.Before(g)
  {
    assert Pow10(2) == 100 && Pow10(4) == 10_000;
    FractionOrder(f.micro, g.micro);
    SegmentOrder(":", f.second, g.second, 2, Fraction(f.micro), Fraction(g.micro));
    SegmentOrder(":", f.minute, g.minute, 2, FromSecond(f), FromSecond(g));
    SegmentOrder("T", f.hour, g.hour, 2, FromMinute(f), FromMinute(g));
    SegmentOrder("-", f.day, g.day, 2, FromHour(f), FromHour(g));
    SegmentOrder("-", f.month, g.month, 2, FromDay(f), FromDay(g));
    PadOrder(f.year, g.year, 4);
    LessAppend(Pad(f.year, 4), Pad(g.year, 4), FromMonth(f), FromMonth(g));
  }

  /** Code-point order of the stored text is time order, for every pair of instants,
      including those whose zero fraction is not printed. */
  lemma TextOrderIsTimeOrder(a: Instant, b: Instant)
    ensures Less(Iso(a), Iso(b)) <==> a < b
  {
    var f, g := FieldsOf(a), FieldsOf(b);
    FormatOrder(f, g);
    if f.Before(g) {
      BeforeIsEarlier(f, g);
    } else if g.Before(f) {
      BeforeIsEarlier(g, f);
    } else {
      assert f == g;
    }
  }

  /** What follows position i, when it starts with a separator and a field. */
  lemma SegmentTail(s: string, i: nat, sep: string, n: nat, w: nat, u: string)
    requires i <= |s| && s[i..] == sep + Pad(n, w) + u
    ensures i + |sep| + w <= |s| && s[i + |sep| + w..] == u
    ensures forall k :: 0 <= k < |sep| ==> s[i + k] == sep[k]
    ensures Slice(s, i + |sep|, i + |sep| + w) == Pad(n, w)
  {
    var t := sep + Pad(n, w) + u;
    assert forall k :: 0 <= k < |sep| ==> s[i + k] == s[i..][k];
    assert Slice(s, i + |sep|, i + |sep| + w) == t[|sep|..|sep| + w];
    assert s[i + |sep| + w..] == t[|sep| + w..];
  }

  lemma FormatSegments(f: Fields)
    requires f.Valid()
    ensures var s := Format(f);
      && |s| == 19 + |Fraction(f.micro)| && s[19..] == Fraction(f.micro)
      && s[4] == '-' && s[7] == '-' && s[10] == 'T' && s[13] == ':' && s[16] == ':'
      && Slice(s, 0, 4) == Pad(f.year, 4) && Slice(s, 5, 7) == Pad(f.month, 2)
      && Slice(s, 8, 10) == Pad(f.day, 2) && Slice(s, 11, 13) == Pad(f.hour, 2)
      && Slice(s, 14, 16) == Pad(f.minute, 2) && Slice(s, 17, 19) == Pad(f.second, 2)
  {
    hide Pad, Fraction, Slice;
    var s := Format(f);
    assert s[0..] == "" + Pad(f.year, 4) + FromMonth(f);
    SegmentTail(s, 0, "", f.year, 4, FromMonth(f));
    SegmentTail(s, 4, "-", f.month, 2, FromDay(f));
    SegmentTail(s, 7, "-", f.day, 2, FromHour(f));
    SegmentTail(s, 10, "T", f.hour, 2, FromMinute(f));
    SegmentTail(s, 13, ":", f.minute, 2, FromSecond(f));
    SegmentTail(s, 16, ":", f.second, 2, Fraction(f.micro));
    assert s[4] == '-' && s[7] == '-' && s[10] == 'T' && s[13] == ':' && s[16] == ':';
  }

  lemma FractionReads(micro: nat)
    requires micro < MICROS_PER_SECOND
    ensures ReadFraction(Fraction(micro)) == Some(micro)
  {
    assert Pow10(6) == 1_000_000;
    if micro != 0 {
      NumberPad(micro, 6);
      assert Fraction(micro)[1..7] == Pad(micro, 6);
    }
  }

  lemma DateReads(f: Fields)
    requires f.Valid()
    ensures |Format(f)| >= 10 && ReadDate(Format(f)) == Some((f.year, f.month, f.day))
  {
    hide Format, Pad, Number, Slice;
    FormatSegments(f);
    assert Pow10(2) == 100 && Pow10(4) == 10_000;
    NumberPad(f.year, 4);
    NumberPad(f.month, 2);
    NumberPad(f.day, 2);
  }

  lemma TimeReads(f: Fields)
    requires f.Valid()
    ensures |Format(f)| >= 19 && ReadTime(Format(f)) == Some((f.hour, f.minute, f.second))
  {
    hide Format, Pad, Number, Slice;
    FormatSegments(f);
    assert Pow10(2) == 100;
    NumberPad(f.hour, 2);
    NumberPad(f.minute, 2);
    NumberPad(f.second, 2);
  }

  /** `_parse_iso` inverts `_isoformat`. */
  lemma ParseInvertsIso(t: Instant)
    ensures Parse(Iso(t)) == Some(t)
  {
    var f := FieldsOf(t);
    FormatSegments(f);
    FractionReads(f.micro);
    DateReads(f);
    TimeReads(f);
  }
}
