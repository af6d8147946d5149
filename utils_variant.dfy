/** The second copy of the utility functions, kept beside the course details page: an
    upper-casing manufacturer fallback, plain colour names, an occupancy without a zero
    guard, a base-36 certificate number and instant-precise date tests. */
module UtilsVariant {
  import opened JsStrings
  import opened Dates
  import Utils

  const HerstellerLabels: map<string, string> :=
    map["kuka" := "KUKA", "abb" := "ABB", "fanuc" := "FANUC", "siemens" := "Siemens",
        "yaskawa" := "Yaskawa Motoman", "universal_robots" := "Universal Robots", "staubli" := "Stäubli",
        "kawasaki" := "Kawasaki", "denso" := "DENSO"]

  /** `labels[hersteller] || hersteller.toUpperCase()`. */
  function GetHerstellerLabel(hersteller: string): string {
    if hersteller in HerstellerLabels && HerstellerLabels[hersteller] != "" then HerstellerLabels[hersteller]
    else Upper(hersteller)
  }

  /** The nine keys have their labels; any other key comes back upper-cased, which for an
      ASCII key keeps its length and changes only its lower-case letters. */
  lemma HerstellerLabelCases(hersteller: string)
    ensures hersteller in HerstellerLabels ==> GetHerstellerLabel(hersteller) == HerstellerLabels[hersteller]
    ensures hersteller !in HerstellerLabels ==> GetHerstellerLabel(hersteller) == Upper(hersteller)
    ensures hersteller !in HerstellerLabels && (forall i :: 0 <= i < |hersteller| ==> hersteller[i] as int < 128) ==>
      && |GetHerstellerLabel(hersteller)| == |hersteller|
      && forall i :: 0 <= i < |hersteller| ==> !('a' <= GetHerstellerLabel(hersteller)[i] <= 'z')
  {
    if hersteller in HerstellerLabels {
      KnownLabel(hersteller);
    } else {
      FallbackLabel(hersteller);
      if forall i :: 0 <= i < |hersteller| ==> hersteller[i] as int < 128 {
        UpperAscii(hersteller);
      }
    }
  }

  lemma KnownLabel(k: string)
    requires k in HerstellerLabels
    ensures GetHerstellerLabel(k) == HerstellerLabels[k]
  {
    assert HerstellerLabels[k] != "";
  }

  lemma FallbackLabel(k: string)
    requires k !in HerstellerLabels
    ensures GetHerstellerLabel(k) == Upper(k)
  {
  }

  const StatusColors: map<string, string> :=
    map["geplant" := "yellow", "aktiv" := "green", "abgeschlossen" := "gray", "abgesagt" := "red"]

  const BezahlstatusColors: map<string, string> :=
    map["offen" := "yellow", "bezahlt" := "green", "teilweise" := "orange", "erstattet" := "gray"]

  /** `colors[status] || 'gray'`. */
  function ColorOr(colors: map<string, string>, status: string): (r: string)
    ensures status in colors && colors[status] != "" ==> r == colors[status]
    ensures status !in colors ==> r == "gray"
  {
    if status in colors && colors[status] != "" then colors[status] else "gray"
  }

  function GetStatusColor(status: string): string {
    ColorOr(StatusColors, status)
  }

  function GetBezahlstatusColor(status: string): string {
    ColorOr(BezahlstatusColors, status)
  }

  /** Every colour is one of five names; unknown statuses are gray, a partial payment
      is orange. */
  lemma ColorCases(status: string)
    ensures GetStatusColor(status) in {"yellow", "green", "gray", "red"}
    ensures GetBezahlstatusColor(status) in {"yellow", "green", "orange", "gray"}
    ensures status !in StatusColors ==> GetStatusColor(status) == "gray"
    ensures status !in BezahlstatusColors ==> GetBezahlstatusColor(status) == "gray"
    ensures GetBezahlstatusColor("teilweise") == "orange"
  {
    if status in StatusColors {
      assert status == "geplant" || status == "aktiv" || status == "abgeschlossen" || status == "abgesagt";
    }
    if status in BezahlstatusColors {
      assert status == "offen" || status == "bezahlt" || status == "teilweise" || status == "erstattet";
    }
  }

  /** `Math.round((anmeldungen / maxTeilnehmer) * 100)`; a zero maximum divides by zero
      in the source, so the model demands a positive one. */
  function CalculateAuslastung(anmeldungen: int, maxTeilnehmer: int): int
    requires maxTeilnehmer > 0
  {
    Utils.RoundDiv(100 * anmeldungen, maxTeilnehmer)
  }

  /** Where both copies are defined they agree, so the rounding and the 0..100 bound
      carry over. */
  lemma AuslastungAgrees(anmeldungen: int, maxTeilnehmer: int)
    requires maxTeilnehmer > 0
    ensures CalculateAuslastung(anmeldungen, maxTeilnehmer) == Utils.CalculateAuslastung(anmeldungen, maxTeilnehmer)
    ensures 0 <= anmeldungen <= maxTeilnehmer ==> 0 <= CalculateAuslastung(anmeldungen, maxTeilnehmer) <= 100
  {
    Utils.AuslastungBounds(anmeldungen, maxTeilnehmer);
  }

  /** A digit of `Number.prototype.toString(36)`. */
  function Base36Char(d: int): (c: char)
    requires 0 <= d < 36
    ensures IsLowerAlnum(c)
  {
    if d < 10 then (48 + d) as char else (87 + d) as char
  }

  predicate IsBase36Digits(ds: seq<int>) {
    forall i :: 0 <= i < |ds| ==> 0 <= ds[i] < 36
  }

  /** `u.toString(36)` for a draw u in [0, 1) whose base-36 expansion has the fractional
      digits ds: "0" for zero, otherwise "0." and the digits. */
  function DrawToString36(ds: seq<int>): string
    requires IsBase36Digits(ds)
  {
    if ds == [] then "0" else "0." + seq(|ds|, i requires 0 <= i < |ds| => Base36Char(ds[i]))
  }

  /** `ROBTEC-<year><month>-<random>`, the random part being
      `Math.random().toString(36).substring(2, 8).toUpperCase()`. */
  function GenerateZertifikatsnummer(now: DateTime, ds: seq<int>): string
    requires Valid(now) && IsBase36Digits(ds)
  {
    "ROBTEC-" + IntToString(now.year) + PadStart(IntToString(now.month), 2, '0') + "-"
      + Upper(Substring(DrawToString36(ds), 2, 8))
  }

  /** The random part is the first six base-36 digits of the draw (fewer when the
      expansion is shorter), upper-cased: digits and capital letters only. */
  lemma ZertifikatsnummerRandomPart(now: DateTime, ds: seq<int>)
    requires Valid(now) && IsBase36Digits(ds)
    ensures var k := if |ds| < 6 then |ds| else 6;
      var part := Upper(Substring(DrawToString36(ds), 2, 8));
      && |part| == k
      && (forall i :: 0 <= i < k ==> ('0' <= part[i] <= '9' || 'A' <= part[i] <= 'Z'))
      && (forall i :: 0 <= i < k ==> part[i] == (if ds[i] < 10 then (48 + ds[i]) as char else (55 + ds[i]) as char))
  {
    var s := DrawToString36(ds);
    var k := if |ds| < 6 then |ds| else 6;
    var sub := Substring(s, 2, 8);
    if ds == [] {
      assert sub == [];
    } else {
      assert |s| == |ds| + 2;
      assert sub == s[2..2 + k];
      assert forall i :: 0 <= i < k ==> sub[i] == Base36Char(ds[i]);
    }
    assert |sub| == k;
    UpperAscii(sub);
  }

  /** `calculateTagesBis`: the days to the target, rounded up, from the current instant
      (no midnight alignment in this copy). */
  function CalculateTagesBis(ziel: DateTime, heute: DateTime): (r: int)
    requires Valid(ziel) && Valid(heute)
    ensures MsPerDay * (r - 1) < ToMs(ziel) - ToMs(heute) <= MsPerDay * r
  {
    CeilDiv(ToMs(ziel) - ToMs(heute), MsPerDay)
  }

  /** The two copies differ by at most one: this copy counts one day more exactly when
      the target's time of day is later than the current one. */
  lemma TagesBisCopies(ziel: DateTime, heute: DateTime)
    requires Valid(ziel) && Valid(heute)
    ensures var days := Utils.CalculateTagesBis(ziel, heute);
      && days <= CalculateTagesBis(ziel, heute) <= days + 1
      && (CalculateTagesBis(ziel, heute) == days + 1
          <==> ToMs(ziel) - Utils.DayNumber(ziel) * MsPerDay > ToMs(heute) - Utils.DayNumber(heute) * MsPerDay)
  {
    TimeOfDay(ziel);
    TimeOfDay(heute);
  }

  /** `isSchulungVorbei`: the end instant lies before now. */
  predicate IsSchulungVorbei(endDatum: DateTime, now: DateTime)
    requires Valid(endDatum) && Valid(now)
  {
    Before(endDatum, now)
  }

  /** `isSchulungAktiv`: start <= now <= end, to the millisecond. */
  predicate IsSchulungAktiv(startDatum: DateTime, endDatum: DateTime, now: DateTime)
    requires Valid(startDatum) && Valid(endDatum) && Valid(now)
  {
    !Before(now, startDatum) && !Before(endDatum, now)
  }

  /** An instant is its day times the day length plus a time of day. */
  lemma TimeOfDay(d: DateTime)
    requires Valid(d)
    ensures Utils.DayNumber(d) * MsPerDay <= ToMs(d) < Utils.DayNumber(d) * MsPerDay + MsPerDay
  {
  }

  /** The instant tests refine the day tests of the main copy: a course over by day is
      over by instant, one running by instant is running by day, and no course is both
      over and running. */
  lemma InstantsRefineDays(startDatum: DateTime, endDatum: DateTime, now: DateTime)
    requires Valid(startDatum) && Valid(endDatum) && Valid(now)
    ensures Utils.IsSchulungVorbei(endDatum, now) ==> IsSchulungVorbei(endDatum, now)
    ensures IsSchulungAktiv(startDatum, endDatum, now) ==> Utils.IsSchulungAktiv(startDatum, endDatum, now)
    ensures !(IsSchulungVorbei(endDatum, now) && IsSchulungAktiv(startDatum, endDatum, now))
  {
    Utils.VorbeiAktivByDay(startDatum, endDatum, now);
    TimeOfDay(startDatum);
    TimeOfDay(endDatum);
    TimeOfDay(now);
    var e, n, s := Utils.DayNumber(endDatum), Utils.DayNumber(now), Utils.DayNumber(startDatum);
    if e < n {
      assert e * MsPerDay + MsPerDay <= n * MsPerDay;
    }
    if n < s {
      assert n * MsPerDay + MsPerDay <= s * MsPerDay;
    }
  }

  /** The converse fails: a course that ended this morning is over by instant but not
      yet by day. */
  lemma SameDayDiffers()
    ensures var endDatum := DateTime(2024, 5, 1, 10, 0, 0, 0);
      var now := DateTime(2024, 5, 1, 12, 0, 0, 0);
      IsSchulungVorbei(endDatum, now) && !Utils.IsSchulungVorbei(endDatum, now)
  {
    var endDatum := DateTime(2024, 5, 1, 10, 0, 0, 0);
    var now := DateTime(2024, 5, 1, 12, 0, 0, 0);
    Utils.VorbeiAktivByDay(endDatum, endDatum, now);
  }
}
