/** The admin application's utility functions: labels, seat arithmetic, day-granular
    date tests, certificate numbers and QR links, phone and e-mail handling, slugs,
    grouping, sorting and relative times. */
module Utils {
  import opened JsStrings
  import opened Options
  import opened Dates
  import opened Seqs
  import Base64
  import UriEncoding

  /** `1 Tag`, otherwise `<days> Tage`. */
  function FormatDuration(days: int): string {
    if days == 1 then "1 Tag" else IntToString(days) + " Tage"
  }

  /** Singular only for exactly one day; the number is always printed in decimal. */
  lemma FormatDurationCases(days: int)
    ensures FormatDuration(days) == "1 Tag" <==> days == 1
    ensures days != 1 ==> FormatDuration(days) == IntToString(days) + " Tage"
  {
    if days != 1 {
      var r := IntToString(days) + " Tage";
      assert |r| > |"1 Tag"| by {
        if days < 0 {
          assert |IntToString(days)| >= 1;
        } else {
          assert |NatToString(days)| >= 1;
        }
      }
    }
  }

  const SchulungsTypLabels: map<string, string> :=
    map["grundlagen" := "Grundlagenschulung", "fortgeschritten" := "Fortgeschrittene Schulung",
        "wartung" := "Wartungsschulung", "individualschulung" := "Individualschulung"]

  const HerstellerLabels: map<string, string> :=
    map["kuka" := "KUKA", "abb" := "ABB", "fanuc" := "FANUC", "siemens" := "Siemens", "yaskawa" := "Yaskawa",
        "universal-robots" := "Universal Robots", "staeubli" := "Stäubli", "kawasaki" := "Kawasaki",
        "denso" := "DENSO"]

  const Gray: string := "bg-gray-100 text-gray-800"

  const StatusColors: map<string, string> :=
    map["geplant" := "bg-blue-100 text-blue-800", "aktiv" := "bg-green-100 text-green-800",
        "abgeschlossen" := Gray, "abgesagt" := "bg-red-100 text-red-800"]

  const BezahlstatusColors: map<string, string> :=
    map["offen" := "bg-yellow-100 text-yellow-800", "bezahlt" := "bg-green-100 text-green-800",
        "erstattet" := Gray]

  function GetSchulungsTypLabel(typ: string): string {
    LookupOr(SchulungsTypLabels, typ)
  }

  function GetHerstellerLabel(hersteller: string): string {
    LookupOr(HerstellerLabels, hersteller)
  }

  /** `colors[status] || gray`. */
  function ColorOr(colors: map<string, string>, status: string): string {
    if status in colors && colors[status] != "" then colors[status] else Gray
  }

  function GetStatusColor(status: string): string {
    ColorOr(StatusColors, status)
  }

  function GetBezahlstatusColor(status: string): string {
    ColorOr(BezahlstatusColors, status)
  }

  /** Labels fall back to the key itself, colours to gray. */
  lemma LookupsFallBack(key: string)
    ensures key !in SchulungsTypLabels ==> GetSchulungsTypLabel(key) == key
    ensures key in SchulungsTypLabels ==> GetSchulungsTypLabel(key) == SchulungsTypLabels[key]
    ensures key !in HerstellerLabels ==> GetHerstellerLabel(key) == key
    ensures key in HerstellerLabels ==> GetHerstellerLabel(key) == HerstellerLabels[key]
    ensures key !in StatusColors ==> GetStatusColor(key) == Gray
    ensures key in StatusColors ==> GetStatusColor(key) == StatusColors[key]
    ensures key !in BezahlstatusColors ==> GetBezahlstatusColor(key) == Gray
    ensures key in BezahlstatusColors ==> GetBezahlstatusColor(key) == BezahlstatusColors[key]
  {
  }

  /** `Math.round(x)` for a rational x = n / d with d > 0: the nearest integer, halves upward. */
  function RoundDiv(n: int, d: int): (r: int)
    requires d > 0
    ensures 2 * d * r - d <= 2 * n < 2 * d * r + d
  {
    var q := (2 * n + d) / (2 * d);
    assert 2 * n + d == (2 * d) * q + (2 * n + d) % (2 * d);
    q
  }

  /** `Math.round(anmeldungen / maxTeilnehmer * 100)`, 0 for no seats; computed exactly. */
  function CalculateAuslastung(anmeldungen: int, maxTeilnehmer: int): int {
    if maxTeilnehmer == 0 then 0
    else if maxTeilnehmer > 0 then RoundDiv(100 * anmeldungen, maxTeilnehmer)
    else RoundDiv(-100 * anmeldungen, -maxTeilnehmer)
  }

  /** The occupancy is the percentage rounded half up, and lies in 0..100 while no more
      than the seats are booked. */
  lemma AuslastungBounds(anmeldungen: int, maxTeilnehmer: int)
    requires maxTeilnehmer > 0
    ensures var r := CalculateAuslastung(anmeldungen, maxTeilnehmer);
      2 * maxTeilnehmer * r - maxTeilnehmer <= 200 * anmeldungen < 2 * maxTeilnehmer * r + maxTeilnehmer
    ensures 0 <= anmeldungen <= maxTeilnehmer ==> 0 <= CalculateAuslastung(anmeldungen, maxTeilnehmer) <= 100
    ensures anmeldungen == maxTeilnehmer ==> CalculateAuslastung(anmeldungen, maxTeilnehmer) == 100
  {
    var m, a, r := maxTeilnehmer, anmeldungen, CalculateAuslastung(anmeldungen, maxTeilnehmer);
    assert 2 * m * r - m <= 200 * a < 2 * m * r + m;
    assert m * (2 * r + 1) == 2 * m * r + m;
    assert m * (2 * r - 201) == 2 * m * r - m - 200 * m;
    assert m * (2 * r - 199) == 2 * m * r + m - 200 * m;
    MulSign(m, 2 * r + 1);
    MulSign(m, 2 * r - 201);
    MulSign(m, 2 * r - 199);
  }

  /** `Math.max(0, maxTeilnehmer - anmeldungen)`. */
  function GetFreiePlaetze(anmeldungen: int, maxTeilnehmer: int): (r: int)
    ensures r >= 0
    ensures anmeldungen <= maxTeilnehmer ==> r == maxTeilnehmer - anmeldungen
    ensures r == 0 <==> anmeldungen >= maxTeilnehmer
  {
    if maxTeilnehmer - anmeldungen > 0 then maxTeilnehmer - anmeldungen else 0
  }

  /** `Math.floor(Math.random() * 100000)`. */
  function Random5(u: real): (n: int)
    requires 0.0 <= u < 1.0
    ensures 0 <= n <= 99999
  {
    (u * 100000.0).Floor
  }

  /** `ROBT-<year>-<n padded to 5>`. */
  function GenerateZertifikatsnummer(year: int, u: real): string
    requires 0.0 <= u < 1.0
  {
    "ROBT-" + IntToString(year) + "-" + PadStart(NatToString(Random5(u)), 5, '0')
  }

  /** The random part is always five digits, and its value is the draw. */
  lemma ZertifikatsnummerDigits(year: int, u: real)
    requires 0.0 <= u < 1.0
    ensures var part := PadStart(NatToString(Random5(u)), 5, '0');
      && GenerateZertifikatsnummer(year, u) == "ROBT-" + IntToString(year) + "-" + part
      && |part| == 5 && AllDigits(part) && DigitsValue(part) == Random5(u)
  {
    var n := Random5(u);
    var s := NatToString(n);
    assert Pow10(5) == 100000 by {
      assert Pow10(2) == 100;
      assert Pow10(3) == 1000;
      assert Pow10(4) == 10000;
    }
    NatToStringShort(n, 5);
    NatToStringRoundTrip(n);
    DigitsValueLeadingZeros(5 - |s|, s);
  }

  /** `setHours(0, 0, 0, 0)` (the local zone being UTC). */
  function Midnight(d: DateTime): (r: DateTime)
    requires Valid(d)
    ensures Valid(r)
  {
    d.(hour := 0, minute := 0, second := 0, ms := 0)
  }

  /** The day of an instant, counted from 1970-01-01. */
  function DayNumber(d: DateTime): int
    requires Valid(d)
  {
    DaysFromCivil(d.year, d.month, d.day)
  }

  /** Comparing midnights is comparing days: the time of day never matters. */
  lemma MidnightOrder(a: DateTime, b: DateTime)
    requires Valid(a) && Valid(b)
    ensures ToMs(Midnight(a)) == DayNumber(a) * MsPerDay
    ensures Before(Midnight(a), Midnight(b)) <==> DayNumber(a) < DayNumber(b)
  {
    assert ToMs(Midnight(a)) == DayNumber(a) * MsPerDay;
    assert ToMs(Midnight(b)) == DayNumber(b) * MsPerDay;
  }

  /** `calculateTagesBis`: the rounded-up difference of the two midnights, which is
      exactly the number of days from today to the date. */
  function CalculateTagesBis(date: DateTime, today: DateTime): (r: int)
    requires Valid(date) && Valid(today)
    ensures r == DayNumber(date) - DayNumber(today)
  {
    MidnightOrder(date, today);
    MidnightOrder(today, date);
    CeilDivExact(DayNumber(date) - DayNumber(today), MsPerDay);
    CeilDiv(ToMs(Midnight(date)) - ToMs(Midnight(today)), MsPerDay)
  }

  /** `isSchulungVorbei`: the course ended on a day before today. */
  predicate IsSchulungVorbei(endDatum: DateTime, now: DateTime)
    requires Valid(endDatum) && Valid(now)
  {
    Before(Midnight(endDatum), Midnight(now))
  }

  /** `isSchulungAktiv`: today lies between the start day and the end day, both included. */
  predicate IsSchulungAktiv(startDatum: DateTime, endDatum: DateTime, now: DateTime)
    requires Valid(startDatum) && Valid(endDatum) && Valid(now)
  {
    !Before(Midnight(now), Midnight(startDatum)) && !Before(Midnight(endDatum), Midnight(now))
  }

  /** On day numbers: over means end day < today; running means start day <= today <=
      end day. A course is never both over and running. */
  lemma VorbeiAktivByDay(startDatum: DateTime, endDatum: DateTime, now: DateTime)
    requires Valid(startDatum) && Valid(endDatum) && Valid(now)
    ensures IsSchulungVorbei(endDatum, now) <==> DayNumber(endDatum) < DayNumber(now)
    ensures IsSchulungAktiv(startDatum, endDatum, now)
            <==> DayNumber(startDatum) <= DayNumber(now) <= DayNumber(endDatum)
    ensures !(IsSchulungVorbei(endDatum, now) && IsSchulungAktiv(startDatum, endDatum, now))
  {
    MidnightOrder(endDatum, now);
    MidnightOrder(now, startDatum);
    MidnightOrder(now, endDatum);
  }

  /** `isDateInRange`: start <= date <= end, to the millisecond. */
  predicate IsDateInRange(date: DateTime, startDate: DateTime, endDate: DateTime)
    requires Valid(date) && Valid(startDate) && Valid(endDate)
  {
    !Before(date, startDate) && !Before(endDate, date)
  }

  /** Both ends belong to the range, and a range that holds a date is not reversed. */
  lemma DateInRangeEnds(date: DateTime, startDate: DateTime, endDate: DateTime)
    requires Valid(date) && Valid(startDate) && Valid(endDate)
    ensures IsDateInRange(date, startDate, endDate) ==> ToMs(startDate) <= ToMs(endDate)
    ensures ToMs(startDate) <= ToMs(endDate) ==>
              IsDateInRange(startDate, startDate, endDate) && IsDateInRange(endDate, startDate, endDate)
  {
  }

  /** The text that `generateQRCodeHash` encodes. */
  function QRCodeData(zertifikatsnummer: string, teilnehmerId: string, salt: string): string {
    zertifikatsnummer + "-" + teilnehmerId + "-" + salt
  }

  /** `btoa(data)`; None where `btoa` throws (a character above U+00FF). */
  function GenerateQRCodeHash(zertifikatsnummer: string, teilnehmerId: string, salt: string): Option<string> {
    Base64.Btoa(QRCodeData(zertifikatsnummer, teilnehmerId, salt))
  }

  /** The "hash" is an encoding, not a digest: it has length 4 * ceil(n / 3) and decodes
      back to the characters of the data. */
  lemma QRCodeHashDecodes(zertifikatsnummer: string, teilnehmerId: string, salt: string)
    requires var data := QRCodeData(zertifikatsnummer, teilnehmerId, salt);
      forall i :: 0 <= i < |data| ==> data[i] as int < 256
    ensures var data := QRCodeData(zertifikatsnummer, teilnehmerId, salt);
      var r := GenerateQRCodeHash(zertifikatsnummer, teilnehmerId, salt);
      && r.Some? && |r.value| == 4 * ((|data| + 2) / 3)
      && Base64.Decode(r.value) == Base64.Latin1(data)
  {
    var data := QRCodeData(zertifikatsnummer, teilnehmerId, salt);
    Base64.RoundTrip(Base64.Latin1(data).value);
  }

  const DefaultVerifyBase: string := "https://verify.roboterschulung.de"

  /** `createValidierungsUrl`: the default base applies only when none is passed. */
  function CreateValidierungsUrl(qrCodeHash: string, baseUrl: Option<string>): string {
    (if baseUrl.None? then DefaultVerifyBase else baseUrl.value) + "?cert=" + UriEncoding.EncodeURIComponent(qrCodeHash)
  }

  /** The link carries the hash percent-encoded: what follows `?cert=` decodes back to
      the hash, and for a Base64 hash only `+`, `/` and `=` are escaped. */
  lemma ValidierungsUrlDecodes(qrCodeHash: string, baseUrl: Option<string>)
    requires forall i :: 0 <= i < |qrCodeHash| ==> qrCodeHash[i] as int < 128
    ensures var base := if baseUrl.None? then DefaultVerifyBase else baseUrl.value;
      var url := CreateValidierungsUrl(qrCodeHash, baseUrl);
      var p := |base + "?cert="|;
      && url[..p] == base + "?cert="
      && UriEncoding.PercentDecode(url[p..]).Some?
      && UriEncoding.PercentDecode(url[p..]).value == seq(|qrCodeHash|, i requires 0 <= i < |qrCodeHash| => qrCodeHash[i] as int)
  {
    var base := if baseUrl.None? then DefaultVerifyBase else baseUrl.value;
    var enc := UriEncoding.EncodeURIComponent(qrCodeHash);
    assert CreateValidierungsUrl(qrCodeHash, baseUrl) == (base + "?cert=") + enc;
    UriEncoding.RoundTrip(qrCodeHash);
    UriEncoding.Utf8EncodeAscii(qrCodeHash);
  }

  // ---- phone numbers

  predicate IsPhoneChar(c: char) {
    IsDigit(c) || c == '+'
  }

  /** The number after `replace(/^(\+49|0049)/, '0')`, for a cleaned German number. */
  function NationalNumber(cleaned: string): Option<string> {
    if StartsWith(cleaned, "+49") then Some("0" + cleaned[3..])
    else if StartsWith(cleaned, "0049") then Some("0" + cleaned[4..])
    else None
  }

  /** `formatPhoneNumber`: a German number of 10 or 11 digits after the national 0 is
      grouped as `0123 456789` or, splitting 4/6/1, `0123 456789-0`; anything else is
      returned unchanged. */
  function FormatPhoneNumber(phone: string): string {
    var cleaned := Filter(phone, IsPhoneChar);
    match NationalNumber(cleaned)
    case None => phone
    case Some(number) =>
      if |number| == 11 then Substr(number, 0, 4) + " " + Substr(number, 4, 6) + "-" + number[10..]
      else if |number| == 10 then Substr(number, 0, 4) + " " + number[4..]
      else phone
  }

  /** The national number keeps only digits and `+` of the input, behind a leading 0. */
  lemma NationalNumberChars(phone: string)
    ensures var n := NationalNumber(Filter(phone, IsPhoneChar));
      n.Some? ==> n.value[0] == '0' && forall i :: 1 <= i < |n.value| ==> n.value[i] in phone && IsPhoneChar(n.value[i])
  {
    var cleaned := Filter(phone, IsPhoneChar);
    var n := NationalNumber(cleaned);
    if n.Some? {
      var k := if StartsWith(cleaned, "+49") then 3 else 4;
      assert n.value == "0" + cleaned[k..];
      forall i | 1 <= i < |n.value|
        ensures n.value[i] in phone && IsPhoneChar(n.value[i])
      {
        assert n.value[i] == cleaned[k + i - 1];
        FilterMembership(phone, IsPhoneChar, cleaned[k + i - 1]);
      }
    }
  }

  /** Formatting only inserts a blank (and for 11 digits a dash) into the national
      number; every other input comes back unchanged. */
  lemma FormatPhoneNumberShape(phone: string)
    ensures var n := NationalNumber(Filter(phone, IsPhoneChar));
      var r := FormatPhoneNumber(phone);
      && (n.Some? && |n.value| == 11 ==> |r| == 13 && r[4] == ' ' && r[11] == '-' && r[..4] + r[5..11] + r[12..] == n.value)
      && (n.Some? && |n.value| == 10 ==> |r| == 11 && r[4] == ' ' && r[..4] + r[5..] == n.value)
      && (n.None? || (|n.value| != 10 && |n.value| != 11) ==> r == phone)
  {
    var n := NationalNumber(Filter(phone, IsPhoneChar));
    var r := FormatPhoneNumber(phone);
    if n.Some? && |n.value| == 11 {
      var v := n.value;
      assert r == v[..4] + " " + v[4..10] + "-" + v[10..];
      assert r[..4] == v[..4] && r[5..11] == v[4..10] && r[12..] == v[10..];
      assert v == v[..4] + v[4..10] + v[10..];
    } else if n.Some? && |n.value| == 10 {
      var v := n.value;
      assert r == v[..4] + " " + v[4..];
      assert r[..4] == v[..4] && r[5..] == v[4..];
      assert v == v[..4] + v[4..];
    }
  }

  /** The eleven-digit grouping its comment gives, `0123 45678-90`: four, five and two
      digits. */
  function FormatPhoneNumberAsCommented(phone: string): string {
    var cleaned := Filter(phone, IsPhoneChar);
    match NationalNumber(cleaned)
    case None => phone
    case Some(number) =>
      if |number| == 11 then Substr(number, 0, 4) + " " + Substr(number, 4, 5) + "-" + number[9..]
      else if |number| == 10 then Substr(number, 0, 4) + " " + number[4..]
      else phone
  }

  /** The grouping as commented puts the dash before the last two digits; the number's
      digits survive as with the code's grouping. */
  lemma FormatPhoneNumberAsCommentedShape(phone: string)
    ensures var n := NationalNumber(Filter(phone, IsPhoneChar));
      var r := FormatPhoneNumberAsCommented(phone);
      && (n.Some? && |n.value| == 11 ==> |r| == 13 && r[4] == ' ' && r[10] == '-' && r[..4] + r[5..10] + r[11..] == n.value)
      && (n.None? || |n.value| != 11 ==> r == FormatPhoneNumber(phone))
  {
    var n := NationalNumber(Filter(phone, IsPhoneChar));
    var r := FormatPhoneNumberAsCommented(phone);
    if n.Some? && |n.value| == 11 {
      var v := n.value;
      assert r == v[..4] + " " + v[4..9] + "-" + v[9..];
      assert r[..4] == v[..4] && r[5..10] == v[4..9] && r[11..] == v[9..];
      assert v == v[..4] + v[4..9] + v[9..];
    }
  }

  /** A number `+49` followed by ten digits is written with a 4/6/1 split by the code
      and with a 4/5/2 split by the grouping its comment gives. */
  lemma Plus49Grouping(d: string)
    requires |d| == 10 && forall i :: 0 <= i < |d| ==> IsDigit(d[i])
    ensures FormatPhoneNumber("+49" + d) == "0" + d[..3] + " " + d[3..9] + "-" + d[9..]
    ensures FormatPhoneNumberAsCommented("+49" + d) == "0" + d[..3] + " " + d[3..8] + "-" + d[8..]
  {
    var p := "+49" + d;
    assert forall i :: 0 <= i < |p| ==> IsPhoneChar(p[i]) by {
      forall i | 0 <= i < |p| ensures IsPhoneChar(p[i]) {
        if i >= 3 { assert p[i] == d[i - 3]; }
      }
    }
    FilterAll(p, IsPhoneChar);
    assert p[..3] == "+49" && p[3..] == d;
    var v := "0" + d;
    assert NationalNumber(Filter(p, IsPhoneChar)) == Some(v);
    assert Substr(v, 0, 4) == "0" + d[..3];
    assert Substr(v, 4, 6) == d[3..9] && v[10..] == d[9..];
    assert Substr(v, 4, 5) == d[3..8] && v[9..] == d[8..];
  }

  /** The number +49 1234567890 is written `0123 456789-0` by the code and
      `0123 45678-90` by the grouping its comment gives. */
  lemma PhoneGroupingDiffers(d: string)
    requires d == "1234567890"
    ensures FormatPhoneNumber("+49" + d) == "0123 456789-0"
    ensures FormatPhoneNumberAsCommented("+49" + d) == "0123 45678-90"
  {
    Plus49Grouping(d);
    SampleCodeGrouping(d);
    SampleCommentGrouping(d);
  }

  lemma SampleCodeGrouping(d: string)
    requires d == "1234567890"
    ensures "0" + d[..3] + " " + d[3..9] + "-" + d[9..] == "0123 456789-0"
  {
    assert d[..3] == "123" && d[3..9] == "456789" && d[9..] == "0";
  }

  lemma SampleCommentGrouping(d: string)
    requires d == "1234567890"
    ensures "0" + d[..3] + " " + d[3..8] + "-" + d[8..] == "0123 45678-90"
  {
    assert d[..3] == "123" && d[3..8] == "45678" && d[8..] == "90";
  }

  // ---- e-mail addresses

  /** `[^\s@]`. */
  predicate IsMailChar(c: char) {
    !IsWhitespace(c) && c != '@'
  }

  /** `/^[^\s@]+@[^\s@]+\.[^\s@]+$/.test(email)`: some split into a non-empty local part,
      `@`, a non-empty label, `.` and a non-empty rest, all without blanks and `@`. */
  predicate IsValidEmail(email: string) {
    exists i, j :: 0 < i && i + 1 < j && j + 1 < |email| && email[i] == '@' && email[j] == '.'
      && forall k :: 0 <= k < |email| && k != i ==> IsMailChar(email[k])
  }

  /** The same condition described by its parts: no whitespace, exactly one `@` with
      something before it, and a dot in the domain that is neither its first nor its
      last character. */
  predicate EmailShape(email: string) {
    && (forall k :: 0 <= k < |email| ==> !IsWhitespace(email[k]))
    && IndexOf(email, '@').Some?
    && var at := IndexOf(email, '@').value;
       && at > 0
       && '@' !in email[at + 1..]
       && exists j :: at + 1 < j < |email| - 1 && email[j] == '.'
  }

  lemma EmailRegexIsShape(email: string)
    ensures IsValidEmail(email) <==> EmailShape(email)
  {
    if IsValidEmail(email) {
      var i, j :| 0 < i && i + 1 < j && j + 1 < |email| && email[i] == '@' && email[j] == '.'
        && forall k :: 0 <= k < |email| && k != i ==> IsMailChar(email[k]);
      var at := IndexOf(email, '@');
      assert email[i] == '@';
      assert at.Some?;
      assert at.value == i;
      assert forall k :: i + 1 <= k < |email| ==> email[k] != '@';
      assert '@' !in email[i + 1..] by {
        var tail := email[i + 1..];
        forall m | 0 <= m < |tail| ensures tail[m] != '@' {
          assert tail[m] == email[i + 1 + m];
        }
      }
      assert email[j] == '.';
    }
    if EmailShape(email) {
      var i := IndexOf(email, '@').value;
      var j :| i + 1 < j < |email| - 1 && email[j] == '.';
      forall k | 0 <= k < |email| && k != i
        ensures IsMailChar(email[k])
      {
        if k < i {
          assert email[..i][k] == email[k];
        } else {
          assert email[i + 1..][k - i - 1] == email[k];
        }
      }
      assert email[i] == '@' && email[j] == '.';
    }
  }

  // ---- truncation

  /** `truncate`: texts up to maxLength stay; longer ones are cut and end in `...`. */
  function Truncate(text: string, maxLength: int): string {
    if |text| <= maxLength then text else Substr(text, 0, maxLength - 3) + "..."
  }

  /** A cut text has exactly maxLength characters when maxLength is at least 3, and is
      a prefix of the text followed by the ellipsis; below 3 only the ellipsis is left. */
  lemma TruncateShape(text: string, maxLength: int)
    ensures |text| <= maxLength ==> Truncate(text, maxLength) == text
    ensures |text| > maxLength >= 3 ==>
      |Truncate(text, maxLength)| == maxLength && Truncate(text, maxLength) == text[..maxLength - 3] + "..."
    ensures |text| > maxLength && maxLength < 3 ==> Truncate(text, maxLength) == "..."
  {
  }

  // ---- slugs

  /** Skips a run of characters outside `[a-z0-9]`. */
  function DropRun(s: string): (r: string)
    ensures |r| <= |s| && r == s[|s| - |r|..]
    ensures r == [] || IsLowerAlnum(r[0])
  {
    if s == [] || IsLowerAlnum(s[0]) then s else DropRun(s[1..])
  }

  /** `replace(/[^a-z0-9]+/g, '-')`: each maximal run of other characters becomes one dash. */
  function Collapse(s: string): string
    decreases |s|
  {
    if s == [] then []
    else if IsLowerAlnum(s[0]) then [s[0]] + Collapse(s[1..])
    else "-" + Collapse(DropRun(s[1..]))
  }

  /** `replace(/^-|-$/g, '')`: one leading and one trailing dash go. */
  function TrimDashes(s: string): string {
    var a := if |s| > 0 && s[0] == '-' then s[1..] else s;
    if |a| > 0 && a[|a| - 1] == '-' then a[..|a| - 1] else a
  }

  /** The four global replacements of German special letters. */
  function Transliterate(s: string): string {
    ReplaceAllChar(ReplaceAllChar(ReplaceAllChar(ReplaceAllChar(s, '\U{E4}', "ae"), '\U{F6}', "oe"), '\U{FC}', "ue"), '\U{DF}', "ss")
  }

  /** `createSlug`. */
  function CreateSlug(text: string): string {
    TrimDashes(Collapse(Transliterate(Lower(text))))
  }

  predicate IsSlugChar(c: char) {
    IsLowerAlnum(c) || c == '-'
  }

  /** No two dashes side by side. */
  predicate NoDoubleDash(s: string) {
    forall k :: 0 <= k < |s| - 1 ==> !(s[k] == '-' && s[k + 1] == '-')
  }

  /** A slug: lower-case letters, digits and single dashes between them. */
  predicate IsSlug(s: string) {
    && (forall k :: 0 <= k < |s| ==> IsSlugChar(s[k]))
    && NoDoubleDash(s)
    && (|s| > 0 ==> s[0] != '-' && s[|s| - 1] != '-')
  }

  /** Collapsing leaves only slug characters and single dashes, and it starts with a dash
      exactly when the input starts with a character outside `[a-z0-9]`. */
  lemma {:induction false} CollapseShape(s: string)
    ensures var c := Collapse(s);
      && (forall k :: 0 <= k < |c| ==> IsSlugChar(c[k]))
      && NoDoubleDash(c)
      && (|c| > 0 <==> |s| > 0)
      && (|s| > 0 ==> (c[0] == '-' <==> !IsLowerAlnum(s[0])))
    decreases |s|
  {
    if s != [] {
      var c := Collapse(s);
      if IsLowerAlnum(s[0]) {
        CollapseShape(s[1..]);
        assert c == [s[0]] + Collapse(s[1..]);
      } else {
        var rest := DropRun(s[1..]);
        CollapseShape(rest);
        var t := Collapse(rest);
        assert c == "-" + t;
        assert |c| == |t| + 1 && c[1..] == t;
        DashBeforeNoDouble(t);
      }
    }
  }

  /** A dash put before a dash-free start keeps the string free of double dashes. */
  lemma DashBeforeNoDouble(t: string)
    requires NoDoubleDash(t)
    requires |t| > 0 ==> t[0] != '-'
    ensures NoDoubleDash("-" + t)
  {
    var c := "-" + t;
    forall k | 0 <= k < |c| - 1
      ensures !(c[k] == '-' && c[k + 1] == '-')
    {
      if k > 0 {
        assert c[k] == t[k - 1] && c[k + 1] == t[k];
      }
    }
  }

  /** A string of slug characters without double dashes and without a leading dash
      followed by another is its own collapse. */
  lemma {:induction false} CollapseKeepsSlug(s: string)
    requires forall k :: 0 <= k < |s| ==> IsSlugChar(s[k])
    requires NoDoubleDash(s)
    ensures Collapse(s) == s
    decreases |s|
  {
    if s != [] {
      var tail := s[1..];
      SlugTail(s);
      CollapseKeepsSlug(tail);
      if !IsLowerAlnum(s[0]) {
        assert DropRun(tail) == tail;
        assert Collapse(s) == "-" + tail;
      } else {
        assert Collapse(s) == [s[0]] + tail;
      }
      assert s == [s[0]] + tail;
    }
  }

  /** The tail of such a string is again one; after a leading dash comes no dash. */
  lemma SlugTail(s: string)
    requires s != []
    requires forall k :: 0 <= k < |s| ==> IsSlugChar(s[k])
    requires NoDoubleDash(s)
    ensures forall k :: 0 <= k < |s[1..]| ==> IsSlugChar(s[1..][k])
    ensures NoDoubleDash(s[1..])
    ensures !IsLowerAlnum(s[0]) ==> s[0] == '-' && (s[1..] == [] || s[1..][0] != '-')
  {
    var tail := s[1..];
    assert forall k :: 0 <= k < |tail| ==> tail[k] == s[k + 1];
  }

  lemma CreateSlugIsSlug(text: string)
    ensures IsSlug(CreateSlug(text))
  {
    var c := Collapse(Transliterate(Lower(text)));
    CollapseShape(Transliterate(Lower(text)));
    TrimDashesIsSlug(c);
  }

  /** Trimming the dashes at both ends of a collapsed string gives a slug. */
  lemma TrimDashesIsSlug(c: string)
    requires forall k :: 0 <= k < |c| ==> IsSlugChar(c[k])
    requires NoDoubleDash(c)
    ensures IsSlug(TrimDashes(c))
  {
    var a := if |c| > 0 && c[0] == '-' then c[1..] else c;
    DropLeadingDash(c);
    assert TrimDashes(c) == if |a| > 0 && a[|a| - 1] == '-' then a[..|a| - 1] else a;
    DropTrailingDash(a);
  }

  lemma DropLeadingDash(c: string)
    requires forall k :: 0 <= k < |c| ==> IsSlugChar(c[k])
    requires NoDoubleDash(c)
    ensures var a := if |c| > 0 && c[0] == '-' then c[1..] else c;
      && (forall k :: 0 <= k < |a| ==> IsSlugChar(a[k]))
      && NoDoubleDash(a)
      && (|a| > 0 ==> a[0] != '-')
  {
    if |c| > 0 && c[0] == '-' {
      var a := c[1..];
      assert forall k :: 0 <= k < |a| ==> a[k] == c[k + 1];
    }
  }

  lemma DropTrailingDash(a: string)
    requires forall k :: 0 <= k < |a| ==> IsSlugChar(a[k])
    requires NoDoubleDash(a)
    requires |a| > 0 ==> a[0] != '-'
    ensures IsSlug(if |a| > 0 && a[|a| - 1] == '-' then a[..|a| - 1] else a)
  {
    if |a| > 0 && a[|a| - 1] == '-' {
      var r := a[..|a| - 1];
      assert forall k :: 0 <= k < |r| ==> r[k] == a[k];
      if |r| > 0 {
        assert r[|r| - 1] == a[|a| - 2];
      }
    }
  }

  /** Lower-casing and transliteration leave a slug as it is. */
  lemma SlugIsFixedBeforeCollapse(s: string)
    requires IsSlug(s)
    ensures Transliterate(Lower(s)) == s
  {
    var l := Lower(s);
    assert forall k :: 0 <= k < |s| ==> LowerChar(s[k]) == s[k];
    assert l == s;
    assert '\U{E4}' !in s && '\U{F6}' !in s && '\U{FC}' !in s && '\U{DF}' !in s;
    ReplaceAllCharAbsent(s, '\U{E4}', "ae");
    ReplaceAllCharAbsent(s, '\U{F6}', "oe");
    ReplaceAllCharAbsent(s, '\U{FC}', "ue");
    ReplaceAllCharAbsent(s, '\U{DF}', "ss");
  }

  /** A slug is its own slug. */
  lemma CreateSlugIdempotent(text: string)
    ensures CreateSlug(CreateSlug(text)) == CreateSlug(text)
  {
    var s := CreateSlug(text);
    CreateSlugIsSlug(text);
    SlugIsFixedBeforeCollapse(s);
    CollapseKeepsSlug(s);
    assert Collapse(s) == s;
  }

  // ---- grouping

  /** The items whose key is k, in their order: one group of `groupBy`. */
  function Group<T>(items: seq<T>, key: T -> string, k: string): seq<T> {
    if items == [] then [] else (if key(items[0]) == k then [items[0]] else []) + Group(items[1..], key, k)
  }

  /** The keys in the order they first occur: the record's insertion order. */
  function FirstKeys<T>(items: seq<T>, key: T -> string): seq<string>
    decreases |items|
  {
    if items == [] then []
    else
      var p, k := FirstKeys(items[..|items| - 1], key), key(items[|items| - 1]);
      if k in p then p else p + [k]
  }

  /** Key k1 occurs in items before any occurrence of k2. */
  ghost predicate FirstBefore<T>(items: seq<T>, key: T -> string, k1: string, k2: string) {
    exists i :: 0 <= i < |items| && key(items[i]) == k1 && forall j :: 0 <= j <= i ==> key(items[j]) != k2
  }

  /** FirstKeys lists exactly the occurring keys, and each key before every key that
      first occurs later. */
  lemma {:induction false} FirstKeysMembers<T>(items: seq<T>, key: T -> string)
    ensures forall k :: k in FirstKeys(items, key) <==> exists i :: 0 <= i < |items| && key(items[i]) == k
    decreases |items|
  {
    if items != [] {
      var n := |items|;
      var init, x := items[..n - 1], items[n - 1];
      FirstKeysMembers(init, key);
      var p, k := FirstKeys(init, key), key(x);
      var f := FirstKeys(items, key);
      assert f == if k in p then p else p + [k];
      forall k' ensures k' in f <==> exists i :: 0 <= i < n && key(items[i]) == k' {
        if k' in p {
          var i :| 0 <= i < |init| && key(init[i]) == k';
          assert items[i] == init[i];
        }
        if exists i :: 0 <= i < n && key(items[i]) == k' {
          var i :| 0 <= i < n && key(items[i]) == k';
          if i < n - 1 { assert init[i] == items[i]; }
        }
      }
    }
  }

  /** An item appended after both first occurrences keeps their order. */
  lemma FirstBeforeExtend<T>(init: seq<T>, x: T, key: T -> string, k1: string, k2: string)
    requires FirstBefore(init, key, k1, k2)
    ensures FirstBefore(init + [x], key, k1, k2)
  {
    var items := init + [x];
    var i :| 0 <= i < |init| && key(init[i]) == k1 && forall j :: 0 <= j <= i ==> key(init[j]) != k2;
    assert forall j :: 0 <= j <= i ==> items[j] == init[j];
    assert key(items[i]) == k1;
  }

  /** A key first seen at the appended item comes after every earlier key. */
  lemma FirstBeforeNew<T>(init: seq<T>, x: T, key: T -> string, k1: string)
    requires exists i :: 0 <= i < |init| && key(init[i]) == k1
    requires forall i :: 0 <= i < |init| ==> key(init[i]) != key(x)
    ensures FirstBefore(init + [x], key, k1, key(x))
  {
    var items := init + [x];
    var i :| 0 <= i < |init| && key(init[i]) == k1;
    forall j | 0 <= j <= i ensures key(items[j]) != key(x) {
      assert items[j] == init[j];
    }
    assert key(items[i]) == k1;
  }

  lemma {:induction false} FirstKeysOrder<T>(items: seq<T>, key: T -> string)
    ensures forall a, b :: 0 <= a < b < |FirstKeys(items, key)| ==>
      FirstBefore(items, key, FirstKeys(items, key)[a], FirstKeys(items, key)[b])
    decreases |items|
  {
    if items != [] {
      var n := |items|;
      var init, x := items[..n - 1], items[n - 1];
      assert items == init + [x];
      FirstKeysOrder(init, key);
      FirstKeysMembers(init, key);
      var p, k := FirstKeys(init, key), key(x);
      var f := FirstKeys(items, key);
      assert f == if k in p then p else p + [k];
      forall a, b | 0 <= a < b < |f| ensures FirstBefore(items, key, f[a], f[b]) {
        if b < |p| {
          FirstBeforeExtend(init, x, key, p[a], p[b]);
        } else {
          assert p[a] in p;
          FirstBeforeNew(init, x, key, p[a]);
        }
      }
    }
  }

  /** One more item adds its key at the end when it is new. */
  lemma FirstKeysStep<T>(seen: seq<T>, x: T, key: T -> string)
    ensures FirstKeys(seen + [x], key)
      == if key(x) in FirstKeys(seen, key) then FirstKeys(seen, key) else FirstKeys(seen, key) + [key(x)]
  {
    assert (seen + [x])[..|seen|] == seen;
  }

  lemma {:induction false} GroupAppend<T>(items: seq<T>, x: T, key: T -> string, k: string)
    ensures Group(items + [x], key, k) == Group(items, key, k) + (if key(x) == k then [x] else [])
    decreases |items|
  {
    if items == [] {
      assert items + [x] == [x];
    } else {
      var ys, tail := items + [x], items[1..];
      var h := if key(items[0]) == k then [items[0]] else [];
      var e := if key(x) == k then [x] else [];
      assert ys[0] == items[0] && ys[1..] == tail + [x];
      GroupAppend(tail, x, key, k);
      assert Group(ys, key, k) == h + (Group(tail, key, k) + e);
      assert Group(items, key, k) == h + Group(tail, key, k);
    }
  }

  /** A group is the filter by its key. */
  lemma {:induction false} GroupIsFilter<T>(items: seq<T>, key: T -> string, k: string, p: T -> bool)
    requires forall x :: p(x) == (key(x) == k)
    ensures Group(items, key, k) == Filter(items, p)
    decreases |items|
  {
    if items != [] {
      GroupIsFilter(items[1..], key, k, p);
    }
  }

  /** The total size of the groups listed in order. */
  function TotalSize<T>(order: seq<string>, groups: map<string, seq<T>>): int {
    if order == [] then 0
    else (if order[0] in groups then |groups[order[0]]| else 0) + TotalSize(order[1..], groups)
  }

  lemma {:induction false} TotalSizeAppend<T>(order: seq<string>, k: string, groups: map<string, seq<T>>)
    ensures TotalSize(order + [k], groups) == TotalSize(order, groups) + (if k in groups then |groups[k]| else 0)
    decreases |order|
  {
    if order == [] {
      assert order + [k] == [k];
    } else {
      assert (order + [k])[1..] == order[1..] + [k];
      TotalSizeAppend(order[1..], k, groups);
    }
  }

  /** Changing a group that is not listed does not change the total. */
  lemma {:induction false} TotalSizeOther<T>(order: seq<string>, k: string, v: seq<T>, groups: map<string, seq<T>>)
    requires k !in order
    ensures TotalSize(order, groups[k := v]) == TotalSize(order, groups)
    decreases |order|
  {
    if order != [] {
      TotalSizeOther(order[1..], k, v, groups);
    }
  }

  /** Growing a group listed once by one item grows the total by one. */
  lemma {:induction false} TotalSizeGrow<T>(order: seq<string>, k: string, x: T, groups: map<string, seq<T>>)
    requires k in groups
    requires forall a, b :: 0 <= a < b < |order| ==> order[a] != order[b]
    requires k in order
    ensures TotalSize(order, groups[k := groups[k] + [x]]) == TotalSize(order, groups) + 1
    decreases |order|
  {
    var g := groups[k := groups[k] + [x]];
    if order[0] == k {
      assert k !in order[1..];
      TotalSizeOther(order[1..], k, groups[k] + [x], groups);
    } else {
      TotalSizeGrow(order[1..], k, x, groups);
    }
  }

  /** groups and order are the grouping of the items seen so far: every key that occurred
      listed once, its group holding exactly its items, all items counted once. */
  ghost predicate Grouped<T>(seen: seq<T>, key: T -> string, groups: map<string, seq<T>>, order: seq<string>) {
    && (forall k :: k in groups <==> k in order)
    && (forall a, b :: 0 <= a < b < |order| ==> order[a] != order[b])
    && (forall k :: k in order <==> exists j :: 0 <= j < |seen| && key(seen[j]) == k)
    && (forall k :: k in groups ==> groups[k] == Group(seen, key, k))
    && TotalSize(order, groups) == |seen|
  }

  /** A key occurs in seen + [x] exactly when it occurs in seen or is x's key. */
  lemma OccursStep<T>(seen: seq<T>, x: T, key: T -> string, order: seq<string>, o: seq<string>)
    requires forall k :: k in order <==> exists j :: 0 <= j < |seen| && key(seen[j]) == k
    requires forall k :: k in o <==> k in order || k == key(x)
    ensures forall k :: k in o <==> exists j :: 0 <= j < |seen + [x]| && key((seen + [x])[j]) == k
  {
    forall k' ensures k' in o <==> exists j :: 0 <= j < |seen + [x]| && key((seen + [x])[j]) == k' {
      if k' in order {
        var j :| 0 <= j < |seen| && key(seen[j]) == k';
        assert (seen + [x])[j] == seen[j];
      } else if k' == key(x) {
        assert (seen + [x])[|seen|] == x;
      }
      if exists j :: 0 <= j < |seen + [x]| && key((seen + [x])[j]) == k' {
        var j :| 0 <= j < |seen + [x]| && key((seen + [x])[j]) == k';
        if j < |seen| { assert (seen + [x])[j] == seen[j]; }
      }
    }
  }

  /** An item whose key already has a group is pushed onto that group. */
  lemma StepExisting<T>(seen: seq<T>, x: T, key: T -> string, groups: map<string, seq<T>>, order: seq<string>)
    requires Grouped(seen, key, groups, order) && key(x) in groups
    ensures Grouped(seen + [x], key, groups[key(x) := groups[key(x)] + [x]], order)
  {
    var k := key(x);
    var g := groups[k := groups[k] + [x]];
    forall k' | k' in g ensures g[k'] == Group(seen + [x], key, k') {
      GroupAppend(seen, x, key, k');
    }
    OccursStep(seen, x, key, order, order);
    TotalSizeGrow(order, k, x, groups);
  }

  /** An item with a key not seen before opens a group at the end of the order. */
  lemma StepNew<T>(seen: seq<T>, x: T, key: T -> string, groups: map<string, seq<T>>, order: seq<string>)
    requires Grouped(seen, key, groups, order) && key(x) !in groups
    ensures var g := groups[key(x) := []];
      Grouped(seen + [x], key, g[key(x) := g[key(x)] + [x]], order + [key(x)])
  {
    var k := key(x);
    var g1 := groups[k := []];
    var g := g1[k := g1[k] + [x]];
    var o := order + [k];
    assert k !in order;
    DistinctAppend(order, k);
    OccursStep(seen, x, key, order, o);
    forall k' | k' in g ensures g[k'] == Group(seen + [x], key, k') {
      GroupAppend(seen, x, key, k');
      if k' == k {
        GroupNone(seen, key, k);
      }
    }
    TotalSizeOther(order, k, [], groups);
    TotalSizeOther(order, k, g1[k] + [x], g1);
    TotalSizeAppend(order, k, g);
  }

  /** Appending a new key keeps a key list free of repetitions. */
  lemma DistinctAppend(order: seq<string>, k: string)
    requires forall a, b :: 0 <= a < b < |order| ==> order[a] != order[b]
    requires k !in order
    ensures forall a, b :: 0 <= a < b < |order + [k]| ==> (order + [k])[a] != (order + [k])[b]
  {
    forall a, b | 0 <= a < b < |order + [k]| ensures (order + [k])[a] != (order + [k])[b] {
      assert (order + [k])[a] == order[a];
    }
  }

  /** `groupBy(array, key)`: one group per key that occurs, holding exactly the items with
      that key in input order; `order` lists the keys as they first occur, which is the
      insertion order `Object.keys` and `Object.entries` report. The groups together hold
      every item once. */
  method GroupBy<T>(items: seq<T>, key: T -> string) returns (groups: map<string, seq<T>>, order: seq<string>)
    ensures forall k :: k in groups <==> k in order
    ensures forall a, b :: 0 <= a < b < |order| ==> order[a] != order[b]
    ensures forall k :: k in order <==> exists i :: 0 <= i < |items| && key(items[i]) == k
    ensures forall k :: k in groups ==> groups[k] == Group(items, key, k)
    ensures TotalSize(order, groups) == |items|
    ensures order == FirstKeys(items, key)
    ensures forall a, b :: 0 <= a < b < |order| ==> FirstBefore(items, key, order[a], order[b])
  {
    groups, order := map[], [];
    var i := 0;
    while i < |items|
      invariant 0 <= i <= |items|
      invariant Grouped(items[..i], key, groups, order)
      invariant order == FirstKeys(items[..i], key)
    {
      var x, k := items[i], key(items[i]);
      assert items[..i + 1] == items[..i] + [x];
      FirstKeysStep(items[..i], x, key);
      if k in groups {
        StepExisting(items[..i], x, key, groups, order);
        groups := groups[k := groups[k] + [x]];
      } else {
        StepNew(items[..i], x, key, groups, order);
        groups := groups[k := []];
        groups, order := groups[k := groups[k] + [x]], order + [k];
      }
      i := i + 1;
    }
    assert items[..i] == items;
    FirstKeysMembers(items, key);
    FirstKeysOrder(items, key);
  }

  /** A key that occurs nowhere has an empty group. */
  lemma {:induction false} GroupNone<T>(items: seq<T>, key: T -> string, k: string)
    requires forall j :: 0 <= j < |items| ==> key(items[j]) != k
    ensures Group(items, key, k) == []
    decreases |items|
  {
    if items != [] {
      GroupNone(items[1..], key, k);
    }
  }

  // ---- sorting by date

  /** a[lo..hi] is in ascending order of key. */
  ghost predicate SortedBy<T>(a: seq<T>, key: T -> int) {
    forall p, q :: 0 <= p < q < |a| ==> key(a[p]) <= key(a[q])
  }

  /** Exchanges a[j - 1] and a[j]. */
  method SwapDown<T>(a: array<T>, j: int)
    requires 0 < j < a.Length
    modifies a
    ensures a[j - 1] == old(a[j]) && a[j] == old(a[j - 1])
    ensures forall k :: 0 <= k < a.Length && k != j - 1 && k != j ==> a[k] == old(a[k])
    ensures multiset(a[..]) == multiset(old(a[..]))
  {
    a[j - 1], a[j] := a[j], a[j - 1];
  }

  /** Moves a[i] down into the sorted prefix a[..i], leaving a[..i + 1] sorted. */
  method InsertDown<T>(a: array<T>, i: int, key: T -> int)
    requires 0 <= i < a.Length
    requires forall p, q :: 0 <= p < q < i ==> key(a[p]) <= key(a[q])
    modifies a
    ensures forall p, q :: 0 <= p < q <= i ==> key(a[p]) <= key(a[q])
    ensures multiset(a[..]) == multiset(old(a[..]))
  {
    var j := i;
    while j > 0 && key(a[j - 1]) > key(a[j])
      invariant 0 <= j <= i
      invariant forall p, q :: 0 <= p < q <= i && p != j && q != j ==> key(a[p]) <= key(a[q])
      invariant forall q :: j < q <= i ==> key(a[j]) < key(a[q])
      invariant multiset(a[..]) == multiset(old(a[..]))
    {
      SwapDown(a, j);
      j := j - 1;
    }
  }

  /** Insertion sort of a in place by ascending key. */
  method SortInPlace<T>(a: array<T>, key: T -> int)
    modifies a
    ensures SortedBy(a[..], key)
    ensures multiset(a[..]) == multiset(old(a[..]))
  {
    var i := 0;
    while i < a.Length
      invariant 0 <= i <= a.Length
      invariant forall p, q :: 0 <= p < q < i ==> key(a[p]) <= key(a[q])
      invariant multiset(a[..]) == multiset(old(a[..]))
    {
      InsertDown(a, i, key);
      i := i + 1;
    }
  }

  /** The key `sortByDate` compares: the time, negated for descending order. */
  function SortKey<T>(time: T -> int, asc: bool): T -> int {
    x => if asc then time(x) else -time(x)
  }

  /** `sortByDate(array, dateKey, order)` with the timestamps given by time: a sorted copy,
      a permutation of the input, ascending or descending. */
  method SortByDate<T>(items: seq<T>, time: T -> int, asc: bool) returns (r: seq<T>)
    ensures multiset(r) == multiset(items)
    ensures asc ==> forall p, q :: 0 <= p < q < |r| ==> time(r[p]) <= time(r[q])
    ensures !asc ==> forall p, q :: 0 <= p < q < |r| ==> time(r[p]) >= time(r[q])
  {
    var a := new T[|items|](i requires 0 <= i < |items| => items[i]);
    assert a[..] == items;
    var key := SortKey(time, asc);
    SortInPlace(a, key);
    r := a[..];
    assert forall p, q :: 0 <= p < q < |r| ==> key(r[p]) <= key(r[q]);
  }

  // ---- relative times

  /** `formatTimeAgo` on the difference now - date in milliseconds; `Math.floor` of a
      quotient by a positive constant is Dafny's division. */
  function FormatTimeAgo(diffMs: int): string {
    var diffMins, diffHours, diffDays := diffMs / 60000, diffMs / 3600000, diffMs / 86400000;
    if diffMins < 1 then "gerade eben"
    else if diffMins == 1 then "vor 1 Minute"
    else if diffMins < 60 then "vor " + IntToString(diffMins) + " Minuten"
    else if diffHours == 1 then "vor 1 Stunde"
    else if diffHours < 24 then "vor " + IntToString(diffHours) + " Stunden"
    else if diffDays == 1 then "gestern"
    else if diffDays < 7 then "vor " + IntToString(diffDays) + " Tagen"
    else if diffDays < 30 then "vor " + IntToString(diffDays / 7) + " Wochen"
    else if diffDays < 365 then "vor " + IntToString(diffDays / 30) + " Monaten"
    else "vor " + IntToString(diffDays / 365) + " Jahren"
  }

  /** The relative time of date as seen at now. */
  function TimeAgo(date: DateTime, now: DateTime): string
    requires Valid(date) && Valid(now)
  {
    FormatTimeAgo(ToMs(now) - ToMs(date))
  }

  const MsPerMinute: int := 60000
  const MsPerHour: int := 3600000

  /** The phrases by elapsed milliseconds: the minute, hour and day tests split the time
      line into consecutive intervals, and each number shown is the count of whole units
      elapsed (weeks 1 to 4, months 1 to 12, years from 1). Future dates read "gerade eben". */
  lemma TimeAgoIntervals(diffMs: int)
    ensures diffMs < MsPerMinute ==> FormatTimeAgo(diffMs) == "gerade eben"
    ensures MsPerMinute <= diffMs < 2 * MsPerMinute ==> FormatTimeAgo(diffMs) == "vor 1 Minute"
    ensures 2 * MsPerMinute <= diffMs < MsPerHour ==>
      FormatTimeAgo(diffMs) == "vor " + IntToString(diffMs / MsPerMinute) + " Minuten" && 2 <= diffMs / MsPerMinute < 60
    ensures MsPerHour <= diffMs < 2 * MsPerHour ==> FormatTimeAgo(diffMs) == "vor 1 Stunde"
    ensures 2 * MsPerHour <= diffMs < MsPerDay ==>
      FormatTimeAgo(diffMs) == "vor " + IntToString(diffMs / MsPerHour) + " Stunden" && 2 <= diffMs / MsPerHour < 24
    ensures MsPerDay <= diffMs < 2 * MsPerDay ==> FormatTimeAgo(diffMs) == "gestern"
    ensures 2 * MsPerDay <= diffMs < 7 * MsPerDay ==>
      FormatTimeAgo(diffMs) == "vor " + IntToString(diffMs / MsPerDay) + " Tagen" && 2 <= diffMs / MsPerDay < 7
    ensures 7 * MsPerDay <= diffMs < 30 * MsPerDay ==>
      FormatTimeAgo(diffMs) == "vor " + IntToString(diffMs / (7 * MsPerDay)) + " Wochen" && 1 <= diffMs / (7 * MsPerDay) <= 4
    ensures 30 * MsPerDay <= diffMs < 365 * MsPerDay ==>
      FormatTimeAgo(diffMs) == "vor " + IntToString(diffMs / (30 * MsPerDay)) + " Monaten" && 1 <= diffMs / (30 * MsPerDay) <= 12
    ensures 365 * MsPerDay <= diffMs ==>
      FormatTimeAgo(diffMs) == "vor " + IntToString(diffMs / (365 * MsPerDay)) + " Jahren" && 1 <= diffMs / (365 * MsPerDay)
  {
    var days := diffMs / MsPerDay;
    assert days / 7 == diffMs / (7 * MsPerDay);
    assert days / 30 == diffMs / (30 * MsPerDay);
    assert days / 365 == diffMs / (365 * MsPerDay);
  }
}

