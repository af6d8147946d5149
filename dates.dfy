/** JavaScript `Date` values as calendar records in the proleptic Gregorian
    calendar; the local time zone is taken to be UTC. */
module Dates {
  import opened JsStrings

  datatype DateTime = DateTime(year: int, month: int, day: int,
                               hour: int, minute: int, second: int, ms: int)

  const MsPerDay: int := 86400000

  /** `Math.ceil(n / d)` for d > 0. */
  function CeilDiv(n: int, d: int): (r: int)
    requires d > 0
    ensures d * (r - 1) < n <= d * r
  {
    -((-n) / d)
  }

  lemma MulSign(d: int, y: int)
    requires d > 0
    ensures d * y > 0 ==> y > 0
    ensures d * y <= 0 ==> y <= 0
  {
  }

  /** A whole number of d-sized steps divides exactly. */
  lemma CeilDivExact(k: int, d: int)
    requires d > 0
    ensures CeilDiv(k * d, d) == k
  {
    var r := CeilDiv(k * d, d);
    assert d * (r - 1) < k * d <= d * r;
    assert d * (k - r) <= 0 && d * (r - 1 - k) < 0;
    MulSign(d, k - r);
    MulSign(d, r - 1 - k);
  }

  predicate IsLeap(y: int) {
    (y % 4 == 0 && y % 100 != 0) || y % 400 == 0
  }

  function DaysInMonth(y: int, m: int): (n: int)
    requires 1 <= m <= 12
    ensures 28 <= n <= 31
  {
    if m == 2 then (if IsLeap(y) then 29 else 28)
    else if m == 4 || m == 6 || m == 9 || m == 11 then 30
    else 31
  }

  function YearLength(y: int): int {
    if IsLeap(y) then 366 else 365
  }

  predicate Valid(d: DateTime) {
    && 1 <= d.month <= 12
    && 1 <= d.day <= DaysInMonth(d.year, d.month)
    && 0 <= d.hour < 24 && 0 <= d.minute < 60 && 0 <= d.second < 60 && 0 <= d.ms < 1000
  }

  /** Days in the months of year y before month m. */
  function DaysBeforeMonth(y: int, m: int): (n: int)
    requires 1 <= m <= 12
    ensures 0 <= n && n + DaysInMonth(y, m) <= YearLength(y)
  {
    var leap := if IsLeap(y) then 1 else 0;
    if m == 1 then 0 else if m == 2 then 31
    else [59, 90, 120, 151, 181, 212, 243, 273, 304, 334][m - 3] + leap
  }

  /** Leap years in the years before y (counted from year 1; differences are exact everywhere). */
  function LeapsBefore(y: int): int {
    (y - 1) / 4 - (y - 1) / 100 + (y - 1) / 400
  }

  /** Days from 1970-01-01 to the first of January of year y. */
  function YearStart(y: int): int {
    365 * (y - 1970) + LeapsBefore(y) - LeapsBefore(1970)
  }

  lemma YearStartStep(y: int)
    ensures YearStart(y + 1) == YearStart(y) + YearLength(y)
  {
    DivStep4(y);
    DivStep100(y);
    DivStep400(y);
    Multiple100(y);
    Multiple400(y);
  }

  /** Going from y - 1 to y, each quotient grows by one exactly at a multiple. */
  lemma DivStep4(y: int)
    ensures y / 4 - (y - 1) / 4 == if y % 4 == 0 then 1 else 0
  {
    var q := y / 4;
    assert 4 * q <= y < 4 * q + 4;
    if y % 4 == 0 {
      assert y == 4 * q;
      assert (y - 1) / 4 == q - 1;
    } else {
      assert (y - 1) / 4 == q;
    }
  }

  /** A multiple of 100 is a multiple of 4. */
  lemma Multiple100(y: int)
    ensures y % 100 == 0 ==> y % 4 == 0
  {
    if y % 100 == 0 {
      var q := y / 100;
      assert y == 100 * q;
      assert y == 4 * (25 * q);
    }
  }

  lemma DivStep100(y: int)
    ensures y / 100 - (y - 1) / 100 == if y % 100 == 0 then 1 else 0
  {
    var q := y / 100;
    assert 100 * q <= y < 100 * q + 100;
    if y % 100 == 0 {
      assert y == 100 * q;
      assert (y - 1) / 100 == q - 1;
    } else {
      assert (y - 1) / 100 == q;
    }
  }

  /** A multiple of 400 is a multiple of 100. */
  lemma Multiple400(y: int)
    ensures y % 400 == 0 ==> y % 100 == 0
  {
    if y % 400 == 0 {
      var q := y / 400;
      assert y == 400 * q;
      assert y == 100 * (4 * q);
    }
  }

  lemma DivStep400(y: int)
    ensures y / 400 - (y - 1) / 400 == if y % 400 == 0 then 1 else 0
  {
    var q := y / 400;
    assert 400 * q <= y < 400 * q + 400;
    if y % 400 == 0 {
      assert y == 400 * q;
      assert (y - 1) / 400 == q - 1;
    } else {
      assert (y - 1) / 400 == q;
    }
  }

  lemma {:induction false} YearStartMonotone(y: int, z: int)
    requires y < z
    ensures YearStart(y) + YearLength(y) <= YearStart(z)
    decreases z - y
  {
    YearStartStep(y);
    if y + 1 < z {
      YearStartMonotone(y + 1, z);
      assert YearStart(y + 1) + YearLength(y + 1) <= YearStart(z);
    }
  }

  function DaysFromCivil(y: int, m: int, d: int): int
    requires 1 <= m <= 12
  {
    YearStart(y) + DaysBeforeMonth(y, m) + d - 1
  }

  /** `date.getTime()`: milliseconds since 1970-01-01T00:00:00Z. */
  function ToMs(d: DateTime): int
    requires 1 <= d.month <= 12
  {
    DaysFromCivil(d.year, d.month, d.day) * MsPerDay
      + d.hour * 3600000 + d.minute * 60000 + d.second * 1000 + d.ms
  }

  /** `a < b` on two Date objects. */
  predicate Before(a: DateTime, b: DateTime)
    requires Valid(a) && Valid(b)
  {
    ToMs(a) < ToMs(b)
  }

  /** `copy.setFullYear(copy.getFullYear() + years)` on a copy of d: the year moves,
      month, day and time stay, except that 29 February becomes 1 March when the
      target year is not a leap year. */
  function AddYears(d: DateTime, years: int): (r: DateTime)
    requires Valid(d)
    ensures Valid(r)
    ensures r.year == d.year + years
    ensures r.hour == d.hour && r.minute == d.minute && r.second == d.second && r.ms == d.ms
    ensures (r.month, r.day) == (d.month, d.day)
            || (d.month == 2 && d.day == 29 && !IsLeap(d.year + years) && r.month == 3 && r.day == 1)
  {
    var y := d.year + years;
    if d.month == 2 && d.day == 29 && !IsLeap(y) then d.(year := y, month := 3, day := 1)
    else d.(year := y)
  }

  /** Adding at least one year gives a strictly later instant. */
  lemma AddYearsIsLater(d: DateTime, years: int)
    requires Valid(d) && years >= 1
    ensures Before(d, AddYears(d, years))
  {
    var r := AddYears(d, years);
    YearStartMonotone(d.year, r.year);
    var oldDays := DaysFromCivil(d.year, d.month, d.day);
    var newDays := DaysFromCivil(r.year, r.month, r.day);
    assert oldDays < YearStart(d.year) + YearLength(d.year);
    assert newDays >= YearStart(r.year);
    assert oldDays + 1 <= newDays;
    var t := d.hour * 3600000 + d.minute * 60000 + d.second * 1000 + d.ms;
    assert ToMs(d) == oldDays * MsPerDay + t;
    assert ToMs(r) == newDays * MsPerDay + t;
  }

  /** Two digits, zero padded, for 0 <= n < 100. */
  function Pad2(n: int): string
    requires 0 <= n < 100
  {
    PadStart(NatToString(n), 2, '0')
  }

  /** `date.toISOString()`: `YYYY-MM-DDTHH:mm:ss.sssZ`, with a signed six-digit year
      outside 0..9999. */
  function ToIso(d: DateTime): string
    requires Valid(d)
  {
    YearPart(d.year) + "-" + Pad2(d.month) + "-" + Pad2(d.day) + "T" + Pad2(d.hour) + ":" + Pad2(d.minute)
      + ":" + Pad2(d.second) + "." + PadStart(NatToString(d.ms), 3, '0') + "Z"
  }

  /** The year of `toISOString()`: four digits, or a sign and six digits. */
  function YearPart(y: int): string {
    if 0 <= y <= 9999 then PadStart(NatToString(y), 4, '0')
    else if y < 0 then "-" + PadStart(NatToString(-y), 6, '0')
    else "+" + PadStart(NatToString(y), 6, '0')
  }

  /** A zero-padded decimal numeral has the padded number as its value. */
  lemma PadValue(n: nat, k: int)
    ensures |PadStart(NatToString(n), k, '0')| >= 1
    ensures AllDigits(PadStart(NatToString(n), k, '0')) && DigitsValue(PadStart(NatToString(n), k, '0')) == n
  {
    var s := NatToString(n);
    NatToStringRoundTrip(n);
    if |s| < k {
      DigitsValueLeadingZeros(k - |s|, s);
    }
  }

  lemma PadInjective(m: nat, n: nat, k: int)
    requires PadStart(NatToString(m), k, '0') == PadStart(NatToString(n), k, '0')
    ensures m == n
  {
    PadValue(m, k);
    PadValue(n, k);
  }

  /** The year part starts with a digit, with "-" or with "+", followed by the padded
      absolute value. */
  lemma YearPartShape(y: int)
    ensures |YearPart(y)| >= 1
    ensures 0 <= y <= 9999 ==> IsDigit(YearPart(y)[0])
    ensures y < 0 ==> YearPart(y)[0] == '-' && YearPart(y)[1..] == PadStart(NatToString(-y), 6, '0')
    ensures y > 9999 ==> YearPart(y)[0] == '+' && YearPart(y)[1..] == PadStart(NatToString(y), 6, '0')
  {
    if 0 <= y <= 9999 {
      PadValue(y, 4);
    }
  }

  /** The sign or first digit tells the three forms apart. */
  lemma YearPartInjective(y: int, z: int)
    requires YearPart(y) == YearPart(z)
    ensures y == z
  {
    YearPartShape(y);
    YearPartShape(z);
    if 0 <= y <= 9999 && 0 <= z <= 9999 {
      PadInjective(y, z, 4);
    } else if y < 0 && z < 0 {
      PadInjective(-y, -z, 6);
    } else if y > 9999 && z > 9999 {
      PadInjective(y, z, 6);
    }
  }

  /** Equal concatenations with equally long last parts have equal parts. */
  lemma SplitEnd(x1: string, y1: string, x2: string, y2: string)
    requires x1 + y1 == x2 + y2 && |y1| == |y2|
    ensures x1 == x2 && y1 == y2
  {
    assert x1 == (x1 + y1)[..|x1|];
    assert x2 == (x2 + y2)[..|x2|];
    assert y1 == (x1 + y1)[|x1|..];
    assert y2 == (x2 + y2)[|x2|..];
  }

  lemma PadLength(n: int, k: nat)
    requires 0 <= n && Pow10(k) > n && k >= 1
    ensures |PadStart(NatToString(n), k, '0')| == k
  {
    NatToStringShort(n, k);
  }

  /** `toISOString()` is injective on valid dates: every field sits at a fixed place
      from the end, and the year part fixes the year. */
  lemma IsoInjective(a: DateTime, b: DateTime)
    requires Valid(a) && Valid(b) && ToIso(a) == ToIso(b)
    ensures a == b
  {
    PadLength(a.month, 2); PadLength(a.day, 2); PadLength(a.hour, 2); PadLength(a.minute, 2); PadLength(a.second, 2); PadLength(a.ms, 3);
    PadLength(b.month, 2); PadLength(b.day, 2); PadLength(b.hour, 2); PadLength(b.minute, 2); PadLength(b.second, 2); PadLength(b.ms, 3);
    SplitEnd(YearPart(a.year) + "-" + Pad2(a.month) + "-" + Pad2(a.day) + "T" + Pad2(a.hour) + ":" + Pad2(a.minute) + ":" + Pad2(a.second) + "." + PadStart(NatToString(a.ms), 3, '0'),
             "Z",
             YearPart(b.year) + "-" + Pad2(b.month) + "-" + Pad2(b.day) + "T" + Pad2(b.hour) + ":" + Pad2(b.minute) + ":" + Pad2(b.second) + "." + PadStart(NatToString(b.ms), 3, '0'),
             "Z");
    SplitEnd(YearPart(a.year) + "-" + Pad2(a.month) + "-" + Pad2(a.day) + "T" + Pad2(a.hour) + ":" + Pad2(a.minute) + ":" + Pad2(a.second) + ".",
             PadStart(NatToString(a.ms), 3, '0'),
             YearPart(b.year) + "-" + Pad2(b.month) + "-" + Pad2(b.day) + "T" + Pad2(b.hour) + ":" + Pad2(b.minute) + ":" + Pad2(b.second) + ".",
             PadStart(NatToString(b.ms), 3, '0'));
    SplitEnd(YearPart(a.year) + "-" + Pad2(a.month) + "-" + Pad2(a.day) + "T" + Pad2(a.hour) + ":" + Pad2(a.minute) + ":" + Pad2(a.second),
             ".",
             YearPart(b.year) + "-" + Pad2(b.month) + "-" + Pad2(b.day) + "T" + Pad2(b.hour) + ":" + Pad2(b.minute) + ":" + Pad2(b.second),
             ".");
    SplitEnd(YearPart(a.year) + "-" + Pad2(a.month) + "-" + Pad2(a.day) + "T" + Pad2(a.hour) + ":" + Pad2(a.minute) + ":",
             Pad2(a.second),
             YearPart(b.year) + "-" + Pad2(b.month) + "-" + Pad2(b.day) + "T" + Pad2(b.hour) + ":" + Pad2(b.minute) + ":",
             Pad2(b.second));
    SplitEnd(YearPart(a.year) + "-" + Pad2(a.month) + "-" + Pad2(a.day) + "T" + Pad2(a.hour) + ":" + Pad2(a.minute),
             ":",
             YearPart(b.year) + "-" + Pad2(b.month) + "-" + Pad2(b.day) + "T" + Pad2(b.hour) + ":" + Pad2(b.minute),
             ":");
    SplitEnd(YearPart(a.year) + "-" + Pad2(a.month) + "-" + Pad2(a.day) + "T" + Pad2(a.hour) + ":",
             Pad2(a.minute),
             YearPart(b.year) + "-" + Pad2(b.month) + "-" + Pad2(b.day) + "T" + Pad2(b.hour) + ":",
             Pad2(b.minute));
    SplitEnd(YearPart(a.year) + "-" + Pad2(a.month) + "-" + Pad2(a.day) + "T" + Pad2(a.hour),
             ":",
             YearPart(b.year) + "-" + Pad2(b.month) + "-" + Pad2(b.day) + "T" + Pad2(b.hour),
             ":");
    SplitEnd(YearPart(a.year) + "-" + Pad2(a.month) + "-" + Pad2(a.day) + "T",
             Pad2(a.hour),
             YearPart(b.year) + "-" + Pad2(b.month) + "-" + Pad2(b.day) + "T",
             Pad2(b.hour));
    SplitEnd(YearPart(a.year) + "-" + Pad2(a.month) + "-" + Pad2(a.day),
             "T",
             YearPart(b.year) + "-" + Pad2(b.month) + "-" + Pad2(b.day),
             "T");
    SplitEnd(YearPart(a.year) + "-" + Pad2(a.month) + "-",
             Pad2(a.day),
             YearPart(b.year) + "-" + Pad2(b.month) + "-",
             Pad2(b.day));
    SplitEnd(YearPart(a.year) + "-" + Pad2(a.month),
             "-",
             YearPart(b.year) + "-" + Pad2(b.month),
             "-");
    SplitEnd(YearPart(a.year) + "-",
             Pad2(a.month),
             YearPart(b.year) + "-",
             Pad2(b.month));
    SplitEnd(YearPart(a.year),
             "-",
             YearPart(b.year),
             "-");
    YearPartInjective(a.year, b.year);
    PadInjective(a.month, b.month, 2);
    PadInjective(a.day, b.day, 2);
    PadInjective(a.hour, b.hour, 2);
    PadInjective(a.minute, b.minute, 2);
    PadInjective(a.second, b.second, 2);
    PadInjective(a.ms, b.ms, 3);
  }

  /** The characters an ISO timestamp is written with. */
  predicate IsoChars(s: string) {
    forall c :: c in s ==> IsDigit(c) || c in "-+T:.Z"
  }

  lemma IsoCharsConcat(a: string, b: string)
    requires IsoChars(a) && IsoChars(b)
    ensures IsoChars(a + b)
  {
  }

  lemma PadChars(n: nat, k: int)
    ensures IsoChars(PadStart(NatToString(n), k, '0'))
  {
    PadValue(n, k);
  }

  lemma YearPartChars(y: int)
    ensures IsoChars(YearPart(y))
  {
    var pos := if y < 0 then -y else y;
    PadChars(pos, 4);
    PadChars(pos, 6);
    if !(0 <= y <= 9999) {
      IsoCharsConcat(if y < 0 then "-" else "+", PadStart(NatToString(pos), 6, '0'));
    }
  }

  /** The ISO text consists of digits and the characters "-+T:.Z" of its format. */
  lemma IsoAlphabet(d: DateTime)
    requires Valid(d)
    ensures forall c :: c in ToIso(d) ==> IsDigit(c) || c in "-+T:.Z"
  {
    YearPartChars(d.year);
    PadChars(d.month, 2); PadChars(d.day, 2); PadChars(d.hour, 2);
    PadChars(d.minute, 2); PadChars(d.second, 2); PadChars(d.ms, 3);
    var s := YearPart(d.year);
    IsoCharsConcat(s, "-"); s := s + "-";
    IsoCharsConcat(s, Pad2(d.month)); s := s + Pad2(d.month);
    IsoCharsConcat(s, "-"); s := s + "-";
    IsoCharsConcat(s, Pad2(d.day)); s := s + Pad2(d.day);
    IsoCharsConcat(s, "T"); s := s + "T";
    IsoCharsConcat(s, Pad2(d.hour)); s := s + Pad2(d.hour);
    IsoCharsConcat(s, ":"); s := s + ":";
    IsoCharsConcat(s, Pad2(d.minute)); s := s + Pad2(d.minute);
    IsoCharsConcat(s, ":"); s := s + ":";
    IsoCharsConcat(s, Pad2(d.second)); s := s + Pad2(d.second);
    IsoCharsConcat(s, "."); s := s + ".";
    IsoCharsConcat(s, PadStart(NatToString(d.ms), 3, '0')); s := s + PadStart(NatToString(d.ms), 3, '0');
    IsoCharsConcat(s, "Z"); s := s + "Z";
    assert s == ToIso(d);
  }

  /** A four-digit-year timestamp always has the 24 characters of the ISO format. */
  lemma IsoLength(d: DateTime)
    requires Valid(d) && 0 <= d.year <= 9999
    ensures |ToIso(d)| == 24
  {
    PadLength(d.year, 4);
    PadLength(d.month, 2);
    PadLength(d.day, 2);
    PadLength(d.hour, 2);
    PadLength(d.minute, 2);
    PadLength(d.second, 2);
    PadLength(d.ms, 3);
  }
}
