/** The certificate helpers of the admin application: a SHA-256 input joined by "|",
    random certificate numbers and the validation link. */
module AdminCertificate {
  import opened JsStrings
  import opened Options
  import opened Dates

  /** SHA-256 as a hex digest. No property of it is assumed. */
  type Sha256 = string -> string

  const FallbackSecret: string := "fallback-secret"
  const DefaultVerifyUrl: string := "https://robtec-verify.vercel.app"

  datatype HashData = HashData(zertifikatNummer: string, teilnehmerId: string,
                               schulungId: string, ausstellungsdatum: DateTime)

  /** The hashed string: number, participant, course, ISO date and the secret
      (`NEXTAUTH_SECRET` or the fallback), joined by "|". */
  function HashInput(data: HashData, env: Option<string>): string
    requires Valid(data.ausstellungsdatum)
  {
    Join([data.zertifikatNummer, data.teilnehmerId, data.schulungId,
          ToIso(data.ausstellungsdatum), Or(env, FallbackSecret)], "|")
  }

  function GenerateCertificateHash(sha: Sha256, data: HashData, env: Option<string>): string
    requires Valid(data.ausstellungsdatum)
  {
    sha(HashInput(data, env))
  }

  predicate ValidateCertificateHash(sha: Sha256, hash: string, data: HashData, env: Option<string>)
    requires Valid(data.ausstellungsdatum)
  {
    hash == GenerateCertificateHash(sha, data, env)
  }

  lemma JoinFive(a: string, b: string, c: string, d: string, e: string, sep: string)
    ensures Join([a, b, c, d, e], sep) == a + sep + (b + sep + (c + sep + (d + sep + e)))
  {
    assert [a, b, c, d, e][1..] == [b, c, d, e];
    assert [b, c, d, e][1..] == [c, d, e];
    assert [c, d, e][1..] == [d, e];
    assert [d, e][1..] == [e];
    assert Join([d, e], sep) == d + sep + e;
    assert Join([c, d, e], sep) == c + sep + (d + sep + e);
    assert Join([b, c, d, e], sep) == b + sep + (c + sep + (d + sep + e));
  }

  /** A hash validates exactly when it is the digest of the recomputed input; a freshly
      generated hash always validates. */
  lemma ValidateIsRecomputation(sha: Sha256, hash: string, data: HashData, env: Option<string>)
    requires Valid(data.ausstellungsdatum)
    ensures ValidateCertificateHash(sha, hash, data, env)
            <==> hash == sha(data.zertifikatNummer + "|" + (data.teilnehmerId + "|" + (data.schulungId + "|"
                             + (ToIso(data.ausstellungsdatum) + "|" + Or(env, FallbackSecret)))))
    ensures ValidateCertificateHash(sha, GenerateCertificateHash(sha, data, env), data, env)
  {
    JoinFive(data.zertifikatNummer, data.teilnehmerId, data.schulungId,
             ToIso(data.ausstellungsdatum), Or(env, FallbackSecret), "|");
  }

  /** With number and ids free of "|", the input determines the record, date included. */
  lemma HashInputInjective(a: HashData, b: HashData, env: Option<string>)
    requires Valid(a.ausstellungsdatum) && Valid(b.ausstellungsdatum)
    requires '|' !in a.zertifikatNummer && '|' !in a.teilnehmerId && '|' !in a.schulungId
    requires '|' !in b.zertifikatNummer && '|' !in b.teilnehmerId && '|' !in b.schulungId
    requires HashInput(a, env) == HashInput(b, env)
    ensures a == b
  {
    var isoA, isoB, secret := ToIso(a.ausstellungsdatum), ToIso(b.ausstellungsdatum), Or(env, FallbackSecret);
    IsoAlphabet(a.ausstellungsdatum);
    IsoAlphabet(b.ausstellungsdatum);
    assert '|' !in isoA && '|' !in isoB;
    JoinedFieldsInjective(a.zertifikatNummer, a.teilnehmerId, a.schulungId, isoA,
                          b.zertifikatNummer, b.teilnehmerId, b.schulungId, isoB, secret);
    IsoInjective(a.ausstellungsdatum, b.ausstellungsdatum);
  }

  lemma JoinedFieldsInjective(n1: string, t1: string, s1: string, i1: string,
                              n2: string, t2: string, s2: string, i2: string, secret: string)
    requires '|' !in n1 && '|' !in t1 && '|' !in s1 && '|' !in i1
    requires '|' !in n2 && '|' !in t2 && '|' !in s2 && '|' !in i2
    requires Join([n1, t1, s1, i1, secret], "|") == Join([n2, t2, s2, i2, secret], "|")
    ensures n1 == n2 && t1 == t2 && s1 == s2 && i1 == i2
  {
    var tail1, tail2 := i1 + "|" + secret, i2 + "|" + secret;
    JoinFive(n1, t1, s1, i1, secret, "|");
    JoinFive(n2, t2, s2, i2, secret, "|");
    SplitAtSeparator(n1, t1 + "|" + (s1 + "|" + tail1), n2, t2 + "|" + (s2 + "|" + tail2), '|');
    SplitAtSeparator(t1, s1 + "|" + tail1, t2, s2 + "|" + tail2, '|');
    SplitAtSeparator(s1, tail1, s2, tail2, '|');
    SplitAtSeparator(i1, secret, i2, secret, '|');
  }

  /** The "|" join is ambiguous: a "|" moved between number and participant id gives
      the same input, so the same hash, which validates for both records. */
  lemma SeparatorCollision(sha: Sha256, d: DateTime, schulungId: string, env: Option<string>)
    requires Valid(d)
    ensures var a, b := HashData("a|b", "c", schulungId, d), HashData("a", "b|c", schulungId, d);
      && a != b && HashInput(a, env) == HashInput(b, env)
      && ValidateCertificateHash(sha, GenerateCertificateHash(sha, a, env), b, env)
  {
    SeparatorMoves(schulungId, ToIso(d), Or(env, FallbackSecret));
  }

  lemma SeparatorMoves(schulungId: string, iso: string, secret: string)
    ensures Join(["a|b", "c", schulungId, iso, secret], "|") == Join(["a", "b|c", schulungId, iso, secret], "|")
  {
    var rest := schulungId + "|" + (iso + "|" + secret);
    JoinFive("a|b", "c", schulungId, iso, secret, "|");
    JoinFive("a", "b|c", schulungId, iso, secret, "|");
    assert "a|b" + "|" + ("c" + "|" + rest) == "a" + "|" + ("b|c" + "|" + rest);
  }

  /** `Math.floor(100000 + Math.random() * 900000)` for a draw 0 <= u < 1. */
  function RandomNumber(u: real): (n: int)
    requires 0.0 <= u < 1.0
    ensures 100000 <= n <= 999999
  {
    (100000.0 + u * 900000.0).Floor
  }

  /** `year || currentYear`: an absent year or 0 selects the current year. */
  function YearOr(year: Option<int>, currentYear: int): (y: int)
    ensures year.None? || year.value == 0 ==> y == currentYear
    ensures year.Some? && year.value != 0 ==> y == year.value
  {
    if year.None? || year.value == 0 then currentYear else year.value
  }

  /** `ROBTEC-<year>-<n>`. */
  function GenerateCertificateNumber(year: Option<int>, currentYear: int, u: real): string
    requires 0.0 <= u < 1.0
  {
    "ROBTEC-" + IntToString(YearOr(year, currentYear)) + "-" + NatToString(RandomNumber(u))
  }

  lemma Pow10Six()
    ensures Pow10(5) == 100000 && Pow10(6) == 1000000
  {
    assert Pow10(1) == 10;
    assert Pow10(2) == 100;
    assert Pow10(3) == 1000;
    assert Pow10(4) == 10000;
  }

  /** The number ends in six digits whose value lies in [100000, 999999]. */
  lemma CertificateNumberDigits(year: Option<int>, currentYear: int, u: real)
    requires 0.0 <= u < 1.0
    ensures var r, digits := GenerateCertificateNumber(year, currentYear, u), NatToString(RandomNumber(u));
      && r == "ROBTEC-" + IntToString(YearOr(year, currentYear)) + "-" + digits
      && |digits| == 6 && AllDigits(digits) && 100000 <= DigitsValue(digits) <= 999999
  {
    Pow10Six();
    NatToStringLength(RandomNumber(u), 6);
    NatToStringRoundTrip(RandomNumber(u));
  }

  /** The host of the validation link: `NEXTAUTH_URL` with its first "admin" replaced
      by "verify", or the default host when the variable is unset or empty. */
  function VerifyBase(nextAuthUrl: Option<string>): string {
    match nextAuthUrl
    case None => DefaultVerifyUrl
    case Some(url) => var r := ReplaceFirst(url, "admin", "verify"); if r == "" then DefaultVerifyUrl else r
  }

  function ValidationUrl(nextAuthUrl: Option<string>, hash: string): string {
    VerifyBase(nextAuthUrl) + "/validate?hash=" + hash
  }

  /** A URL without "admin" is used as it is; unset or empty, the default host. */
  lemma VerifyBaseUnchanged(url: string)
    requires url != "" && !Contains(url, "admin")
    ensures VerifyBase(Some(url)) == url
    ensures VerifyBase(None) == DefaultVerifyUrl && VerifyBase(Some("")) == DefaultVerifyUrl
  {
    ReplaceFirstAbsent(url, "admin", "verify");
    assert !StartsWith("", "admin");
  }

  /** Only the first "admin" is replaced. */
  lemma VerifyBaseReplacesFirst(url: string, i: nat)
    requires i + 5 <= |url| && url[i..i + 5] == "admin"
    requires forall j :: 0 <= j < i ==> !StartsWith(url[j..], "admin")
    ensures VerifyBase(Some(url)) == url[..i] + "verify" + url[i + 5..]
  {
    ReplaceFirstAt(url, "admin", "verify", i);
  }
}
