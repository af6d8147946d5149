/** The certificate helpers of the training administration: the HMAC input that
    identifies a certificate, numbering, template choice, expiry and the record
    handed to the PDF renderer. */
module CertificateUtils {
  import opened JsStrings
  import opened Options
  import opened Dates

  /** HMAC-SHA256 as a hex digest: (key, message) to digest. No property of it is assumed. */
  type Hmac = (string, string) -> string

  const DefaultSecret: string := "robtec-default-secret-change-in-production"
  const DefaultAppUrl: string := "https://robtec-admin.vercel.app"

  /** The key: `CERTIFICATE_SECRET`, or the built-in default when it is unset or empty. */
  function Secret(env: Option<string>): string {
    Or(env, DefaultSecret)
  }

  /** The message that is authenticated: the two ids and the ISO issue date, joined by "-". */
  function HashMessage(schulungId: string, teilnehmerId: string, ausstellungsdatum: DateTime): string
    requires Valid(ausstellungsdatum)
  {
    schulungId + "-" + teilnehmerId + "-" + ToIso(ausstellungsdatum)
  }

  function GenerateCertificateHash(hmac: Hmac, env: Option<string>, schulungId: string,
                                   teilnehmerId: string, ausstellungsdatum: DateTime): string
    requires Valid(ausstellungsdatum)
  {
    hmac(Secret(env), HashMessage(schulungId, teilnehmerId, ausstellungsdatum))
  }

  predicate ValidateCertificateHash(hmac: Hmac, env: Option<string>, hash: string, schulungId: string,
                                    teilnehmerId: string, ausstellungsdatum: DateTime)
    requires Valid(ausstellungsdatum)
  {
    hash == GenerateCertificateHash(hmac, env, schulungId, teilnehmerId, ausstellungsdatum)
  }

  /** A hash validates exactly when it is the keyed digest of the recomputed message;
      in particular a freshly generated hash always validates. */
  lemma ValidateIsRecomputation(hmac: Hmac, env: Option<string>, hash: string, schulungId: string,
                                teilnehmerId: string, d: DateTime)
    requires Valid(d)
    ensures ValidateCertificateHash(hmac, env, hash, schulungId, teilnehmerId, d)
            <==> hash == hmac(Or(env, DefaultSecret), schulungId + "-" + teilnehmerId + "-" + ToIso(d))
    ensures ValidateCertificateHash(hmac, env, GenerateCertificateHash(hmac, env, schulungId, teilnehmerId, d),
                                    schulungId, teilnehmerId, d)
  {
  }

  /** With ids free of "-", the message determines both ids. */
  lemma HashMessageInjective(s1: string, t1: string, s2: string, t2: string, d: DateTime)
    requires Valid(d) && '-' !in s1 && '-' !in s2
    requires HashMessage(s1, t1, d) == HashMessage(s2, t2, d)
    ensures s1 == s2 && t1 == t2
  {
    JoinedIdsInjective(s1, t1, s2, t2, ToIso(d));
  }

  lemma JoinedIdsInjective(s1: string, t1: string, s2: string, t2: string, iso: string)
    requires '-' !in s1 && '-' !in s2
    requires s1 + "-" + t1 + "-" + iso == s2 + "-" + t2 + "-" + iso
    ensures s1 == s2 && t1 == t2
  {
    var tail := "-" + iso;
    assert s1 + "-" + t1 + "-" + iso == s1 + ['-'] + (t1 + tail);
    assert s2 + "-" + t2 + "-" + iso == s2 + ['-'] + (t2 + tail);
    SplitAtSeparator(s1, t1 + tail, s2, t2 + tail, '-');
    CancelSuffix(t1, t2, tail);
  }

  lemma CancelSuffix(a: string, b: string, tail: string)
    requires a + tail == b + tail
    ensures a == b
  {
    assert |a| == |b|;
    assert a == (a + tail)[..|a|];
    assert b == (b + tail)[..|b|];
  }

  /** The "-" join is ambiguous: moving a "-" between the two ids leaves the message,
      and so the hash, unchanged, and each hash validates for the other pair. */
  lemma SeparatorCollision(hmac: Hmac, env: Option<string>, d: DateTime)
    requires Valid(d)
    ensures HashMessage("a-b", "c", d) == HashMessage("a", "b-c", d)
    ensures ValidateCertificateHash(hmac, env, GenerateCertificateHash(hmac, env, "a-b", "c", d), "a", "b-c", d)
  {
    var iso := ToIso(d);
    assert "a-b" + "-" + "c" == "a" + "-" + "b-c";
    assert HashMessage("a-b", "c", d) == ("a-b" + "-" + "c") + "-" + iso;
    assert HashMessage("a", "b-c", d) == ("a" + "-" + "b-c") + "-" + iso;
  }

  /** The link printed in the QR code. */
  function GenerateQRCodeURL(appUrl: Option<string>, zertifikatId: string, hash: string): string {
    Or(appUrl, DefaultAppUrl) + "/verify/" + zertifikatId + "?hash=" + hash
  }

  /** The month, two digits. */
  function MonthPart(d: DateTime): string
    requires Valid(d)
  {
    PadStart(NatToString(d.month), 2, '0')
  }

  /** The running number, padded to at least four characters. */
  function NumberPart(count: int): string {
    PadStart(IntToString(count), 4, '0')
  }

  /** `YYYY-MM-NNNN`. */
  function GenerateCertificateNumber(count: int, d: DateTime): string
    requires Valid(d)
  {
    IntToString(d.year) + "-" + MonthPart(d) + "-" + NumberPart(count)
  }

  lemma MonthPartDigits(d: DateTime)
    requires Valid(d)
    ensures |MonthPart(d)| == 2 && AllDigits(MonthPart(d)) && DigitsValue(MonthPart(d)) == d.month
  {
    var m := NatToString(d.month);
    NatToStringRoundTrip(d.month);
    NatToStringShort(d.month, 2);
    DigitsValueLeadingZeros(2 - |m|, m);
  }

  /** The count itself (no increment), zero padded to four digits and never truncated. */
  lemma NumberPartDigits(count: nat)
    ensures AllDigits(NumberPart(count)) && DigitsValue(NumberPart(count)) == count
    ensures |NumberPart(count)| >= 4
    ensures count < 10000 ==> |NumberPart(count)| == 4
    ensures |NatToString(count)| >= 4 ==> NumberPart(count) == NatToString(count)
  {
    var n := NatToString(count);
    NatToStringRoundTrip(count);
    if count < 10000 {
      NatToStringShort(count, 4);
    }
    if |n| < 4 {
      DigitsValueLeadingZeros(4 - |n|, n);
    }
  }

  lemma DigitsHaveNoDash(s: string)
    requires AllDigits(s)
    ensures '-' !in s
  {
  }

  /** The year rendering of a non-negative year is a digit string. */
  lemma YearDigits(d: DateTime)
    requires d.year >= 0
    ensures '-' !in IntToString(d.year)
  {
    NatToStringRoundTrip(d.year);
    DigitsHaveNoDash(IntToString(d.year));
  }

  /** Three fields joined by "-" split back when the first two contain no "-". */
  lemma ThreeFieldsSplit(y1: string, m1: string, n1: string, y2: string, m2: string, n2: string)
    requires '-' !in y1 && '-' !in y2 && '-' !in m1 && '-' !in m2
    requires y1 + "-" + m1 + "-" + n1 == y2 + "-" + m2 + "-" + n2
    ensures y1 == y2 && m1 == m2 && n1 == n2
  {
    assert y1 + "-" + m1 + "-" + n1 == y1 + "-" + (m1 + "-" + n1);
    assert y2 + "-" + m2 + "-" + n2 == y2 + "-" + (m2 + "-" + n2);
    SplitAtSeparator(y1, m1 + "-" + n1, y2, m2 + "-" + n2, '-');
    SplitAtSeparator(m1, n1, m2, n2, '-');
  }

  /** For years written without sign, a number determines year, month and count. */
  lemma CertificateNumberInjective(c1: nat, d1: DateTime, c2: nat, d2: DateTime)
    requires Valid(d1) && Valid(d2) && d1.year >= 0 && d2.year >= 0
    requires GenerateCertificateNumber(c1, d1) == GenerateCertificateNumber(c2, d2)
    ensures c1 == c2 && d1.year == d2.year && d1.month == d2.month
  {
    YearDigits(d1);
    YearDigits(d2);
    MonthPartDigits(d1);
    MonthPartDigits(d2);
    DigitsHaveNoDash(MonthPart(d1));
    DigitsHaveNoDash(MonthPart(d2));
    ThreeFieldsSplit(IntToString(d1.year), MonthPart(d1), NumberPart(c1),
                     IntToString(d2.year), MonthPart(d2), NumberPart(c2));
    IntToStringInjective(d1.year, d2.year);
    NumberPartDigits(c1);
    NumberPartDigits(c2);
  }

  /** The template family of a manufacturer; None for one without own templates. */
  function TemplatePrefix(hersteller: string): Option<string> {
    match hersteller
    case "kuka" => Some("kuka")
    case "abb" => Some("abb")
    case "mitsubishi" => Some("mitsubishi")
    case "universal_robots" => Some("ur")
    case _ => None
  }

  function DetermineTemplate(hersteller: string, typ: string): string {
    if hersteller == "kuka" then
      if typ == "grundlagen" then "kuka-grundlagen" else if typ == "praxis" then "kuka-praxis" else "kuka-sonstige"
    else if hersteller == "abb" then
      if typ == "grundlagen" then "abb-grundlagen" else if typ == "praxis" then "abb-praxis" else "abb-sonstige"
    else if hersteller == "mitsubishi" then
      if typ == "grundlagen" then "mitsubishi-grundlagen"
      else if typ == "praxis" then "mitsubishi-praxis" else "mitsubishi-sonstige"
    else if hersteller == "universal_robots" then
      if typ == "grundlagen" then "ur-grundlagen" else if typ == "praxis" then "ur-praxis" else "ur-sonstige"
    else "robtec-standard"
  }

  /** The type part of a template name. */
  function TemplateKind(typ: string): string {
    if typ == "grundlagen" || typ == "praxis" then typ else "sonstige"
  }

  lemma KukaTemplates(typ: string)
    ensures DetermineTemplate("kuka", typ) == "kuka" + "-" + TemplateKind(typ)
  {
    if typ == "grundlagen" {
      assert "kuka" + "-" + "grundlagen" == "kuka-grundlagen";
    } else if typ == "praxis" {
      assert "kuka" + "-" + "praxis" == "kuka-praxis";
    } else {
      assert "kuka" + "-" + "sonstige" == "kuka-sonstige";
    }
  }

  lemma AbbTemplates(typ: string)
    ensures DetermineTemplate("abb", typ) == "abb" + "-" + TemplateKind(typ)
  {
    if typ == "grundlagen" {
      assert "abb" + "-" + "grundlagen" == "abb-grundlagen";
    } else if typ == "praxis" {
      assert "abb" + "-" + "praxis" == "abb-praxis";
    } else {
      assert "abb" + "-" + "sonstige" == "abb-sonstige";
    }
  }

  lemma MitsubishiTemplates(typ: string)
    ensures DetermineTemplate("mitsubishi", typ) == "mitsubishi" + "-" + TemplateKind(typ)
  {
    if typ == "grundlagen" {
      assert "mitsubishi" + "-" + "grundlagen" == "mitsubishi-grundlagen";
    } else if typ == "praxis" {
      assert "mitsubishi" + "-" + "praxis" == "mitsubishi-praxis";
    } else {
      assert "mitsubishi" + "-" + "sonstige" == "mitsubishi-sonstige";
    }
  }

  lemma UniversalRobotsTemplates(typ: string)
    ensures DetermineTemplate("universal_robots", typ) == "ur" + "-" + TemplateKind(typ)
  {
    if typ == "grundlagen" {
      assert "ur" + "-" + "grundlagen" == "ur-grundlagen";
    } else if typ == "praxis" {
      assert "ur" + "-" + "praxis" == "ur-praxis";
    } else {
      assert "ur" + "-" + "sonstige" == "ur-sonstige";
    }
  }

  /** Every known manufacturer gets `<family>-grundlagen`, `<family>-praxis` or
      `<family>-sonstige`; any other manufacturer the standard template, whatever the type. */
  lemma DetermineTemplateByFamily(hersteller: string, typ: string)
    ensures DetermineTemplate(hersteller, typ)
            == match TemplatePrefix(hersteller)
               case None => "robtec-standard"
               case Some(p) => p + "-" + TemplateKind(typ)
  {
    if hersteller == "kuka" {
      KukaTemplates(typ);
    } else if hersteller == "abb" {
      AbbTemplates(typ);
    } else if hersteller == "mitsubishi" {
      MitsubishiTemplates(typ);
    } else if hersteller == "universal_robots" {
      UniversalRobotsTemplates(typ);
    }
  }

  /** `calculateExpiryDate(issueDate, years)`: a copy with the year moved. */
  function CalculateExpiryDate(issueDate: DateTime, years: int): DateTime
    requires Valid(issueDate)
  {
    AddYears(issueDate, years)
  }

  /** `new Date() < expiryDate`, with the clock reading passed in. */
  predicate IsCertificateValid(now: DateTime, expiryDate: DateTime)
    requires Valid(now) && Valid(expiryDate)
  {
    Before(now, expiryDate)
  }

  /** Validity is strict, and a certificate issued now with the default term is valid now. */
  lemma ValidityIsStrict(now: DateTime, issue: DateTime)
    requires Valid(now) && Valid(issue)
    ensures !IsCertificateValid(now, now)
    ensures IsCertificateValid(issue, CalculateExpiryDate(issue, 3))
  {
    AddYearsIsLater(issue, 3);
  }

  const TypLabels: map<string, string> :=
    map["grundlagen" := "Grundlagen", "praxis" := "Praxis", "online" := "Online", "sonstige" := "Sonstige"]

  const HerstellerLabels: map<string, string> :=
    map["kuka" := "KUKA", "abb" := "ABB", "mitsubishi" := "Mitsubishi",
        "universal_robots" := "Universal Robots", "sonstige" := "Sonstige"]

  function GetTypLabel(typ: string): string {
    LookupOr(TypLabels, typ)
  }

  function GetHerstellerLabel(hersteller: string): string {
    LookupOr(HerstellerLabels, hersteller)
  }

  /** Known keys have their label; unknown keys pass through unchanged. */
  lemma LabelsFallBack(key: string)
    ensures key in TypLabels ==> GetTypLabel(key) == TypLabels[key]
    ensures key !in TypLabels ==> GetTypLabel(key) == key
    ensures key in HerstellerLabels ==> GetHerstellerLabel(key) == HerstellerLabels[key]
    ensures key !in HerstellerLabels ==> GetHerstellerLabel(key) == key
    ensures GetHerstellerLabel("universal_robots") == "Universal Robots"
  {
  }

  datatype Zertifikat = Zertifikat(id: string, zertifikatNummer: string, validierungsHash: string,
                                   ausstellungsdatum: DateTime, gueltigBis: DateTime)
  datatype Schulung = Schulung(titel: string, typ: string, hersteller: string, startDatum: DateTime,
                               endDatum: DateTime, dauer: int, trainer: Option<string>, ort: Option<string>)
  datatype Teilnehmer = Teilnehmer(vorname: string, nachname: string, firma: Option<string>)

  datatype CertificateData = CertificateData(
    zertifikatNummer: string, teilnehmerName: string, firma: Option<string>,
    schulungTitel: string, schulungTyp: string, hersteller: string,
    startDatum: string, endDatum: string, dauer: int, ausstellungsdatum: string, gueltigBis: string,
    trainer: Option<string>, ort: Option<string>, qrCodeURL: string, hash: string)

  /** `value || undefined`. */
  function OrUndefined(o: Option<string>): Option<string> {
    if Falsy(o) then None else o
  }

  /** The record for the PDF. Dates are rendered by `formatDate`, the German locale
      formatting, which is a parameter here. */
  function PrepareCertificateData(appUrl: Option<string>, formatDate: DateTime -> string,
                                  z: Zertifikat, s: Schulung, t: Teilnehmer): CertificateData {
    CertificateData(
      z.zertifikatNummer, t.vorname + " " + t.nachname, OrUndefined(t.firma),
      s.titel, GetTypLabel(s.typ), GetHerstellerLabel(s.hersteller),
      formatDate(s.startDatum), formatDate(s.endDatum), s.dauer,
      formatDate(z.ausstellungsdatum), formatDate(z.gueltigBis),
      OrUndefined(s.trainer), OrUndefined(s.ort),
      GenerateQRCodeURL(appUrl, z.id, z.validierungsHash), z.validierungsHash)
  }

  /** The record names the participant as "vorname nachname", never carries an empty
      optional field, keeps present optional fields as they are, and points its QR link
      at the certificate's own id and stored hash. */
  lemma PreparedDataFacts(appUrl: Option<string>, formatDate: DateTime -> string,
                          z: Zertifikat, s: Schulung, t: Teilnehmer)
    ensures var r := PrepareCertificateData(appUrl, formatDate, z, s, t);
      && r.teilnehmerName == t.vorname + " " + t.nachname
      && (r.firma.Some? <==> !Falsy(t.firma)) && (r.firma.Some? ==> r.firma == t.firma)
      && (r.trainer.Some? <==> !Falsy(s.trainer)) && (r.trainer.Some? ==> r.trainer == s.trainer)
      && (r.ort.Some? <==> !Falsy(s.ort)) && (r.ort.Some? ==> r.ort == s.ort)
      && r.hash == z.validierungsHash
      && r.qrCodeURL == Or(appUrl, DefaultAppUrl) + "/verify/" + z.id + "?hash=" + r.hash
      && (s.typ !in TypLabels ==> r.schulungTyp == s.typ)
      && (s.hersteller !in HerstellerLabels ==> r.hersteller == s.hersteller)
  {
  }
}
