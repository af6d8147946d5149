/** The certificate issuing endpoint (`POST /api/zertifikate/generate`): a fixed
    sequence of checks over the course, participant and certificate tables, then
    one insert into the certificate table and the rendering of the PDF. */
module IssueRoute {
  import opened JsStrings
  import opened Options
  import opened Dates
  import Base64

  /** SHA-256 as a hex digest. No property of it is assumed. */
  type Sha256 = string -> string

  datatype Schulung = Schulung(titel: string, hersteller: string, typ: string,
                               startDatum: DateTime, endDatum: DateTime, dauer: int)
  datatype Teilnehmer = Teilnehmer(vorname: string, nachname: string, firma: Option<string>)
  datatype Zertifikat = Zertifikat(id: string, schulungId: string, teilnehmerId: string,
                                   zertifikatNummer: string, validierungsHash: string,
                                   ausstellungsdatum: DateTime, gueltigBis: DateTime,
                                   template: string, status: string)

  /** The request body; an unreadable body is `None`. */
  datatype Body = Body(schulungId: Option<string>, teilnehmerId: Option<string>)

  /** What the PDF renderer is given. */
  datatype PdfInput = PdfInput(zertifikatNummer: string, vorname: string, nachname: string, firma: string,
                               titel: string, hersteller: string, typ: string, startDatum: DateTime,
                               endDatum: DateTime, dauer: int, ausstellungsdatum: DateTime, gueltigBis: DateTime)

  /** The PDF renderer: the document bytes, or None where it throws. */
  type Renderer = PdfInput -> Option<seq<Byte>>

  datatype Response =
    | Failure(status: int, error: string)
    | Issued(id: string, nummer: string, ausstellungsdatum: DateTime, gueltigBis: DateTime,
             pdf: string, filename: string)

  /** The readings of the environment one request makes: the clock (`new Date()` and
      `Date.now()`), the `Math.random` draw, whether the insert answers (false when
      `prisma.zertifikat.create` throws, as on a database error) and the id it assigns. */
  datatype Env = Env(now: DateTime, nowMs: int, u: real, insertOk: bool, newId: string)

  predicate EnvOk(e: Env) {
    Valid(e.now) && 0.0 <= e.u < 1.0
  }

  const ErrMissing := "schulungId und teilnehmerId sind erforderlich"
  const ErrSchulung := "Schulung nicht gefunden"
  const ErrTeilnehmer := "Teilnehmer nicht gefunden"
  const ErrExists := "Zertifikat existiert bereits für diesen Teilnehmer"
  const ErrInternal := "Interner Serverfehler bei der Zertifikat-Generierung"

  predicate SamePair(z: Zertifikat, schulungId: string, teilnehmerId: string) {
    z.schulungId == schulungId && z.teilnehmerId == teilnehmerId
  }

  /** The unique-key lookup on (schulungId, teilnehmerId). */
  function FindPair(table: seq<Zertifikat>, schulungId: string, teilnehmerId: string): (r: Option<Zertifikat>)
    ensures r.Some? ==> r.value in table && SamePair(r.value, schulungId, teilnehmerId)
    ensures r.None? ==> forall i :: 0 <= i < |table| ==> !SamePair(table[i], schulungId, teilnehmerId)
  {
    if table == [] then None
    else if SamePair(table[0], schulungId, teilnehmerId) then Some(table[0])
    else FindPair(table[1..], schulungId, teilnehmerId)
  }

  /** The table's key: no two certificates for one pair, and distinct ids. */
  predicate UniqueKeys(table: seq<Zertifikat>) {
    forall i, j :: 0 <= i < j < |table| ==>
      !SamePair(table[j], table[i].schulungId, table[i].teilnehmerId) && table[i].id != table[j].id
  }

  /** `Math.floor(10000 + Math.random() * 90000)`. */
  function RandomNumber(u: real): (n: int)
    requires 0.0 <= u < 1.0
    ensures 10000 <= n <= 99999
  {
    (10000.0 + u * 90000.0).Floor
  }

  /** `ROBT-<year>-<n>`. */
  function Nummer(now: DateTime, u: real): string
    requires 0.0 <= u < 1.0
  {
    "ROBT-" + IntToString(now.year) + "-" + NatToString(RandomNumber(u))
  }

  /** The string hashed by `generateValidationHash`. */
  function ValidationHashInput(nummer: string, teilnehmerId: string, schulungId: string, nowMs: int): string {
    nummer + "-" + teilnehmerId + "-" + schulungId + "-" + IntToString(nowMs)
  }

  function Template(s: Schulung): string {
    Lower(s.hersteller) + "-" + Lower(s.typ)
  }

  function Filename(t: Teilnehmer, nummer: string): string {
    "Zertifikat_" + t.nachname + "_" + t.vorname + "_" + nummer + ".pdf"
  }

  /** The record inserted for a new certificate. */
  function NewCertificate(schulungId: string, teilnehmerId: string, s: Schulung, e: Env, sha: Sha256): Zertifikat
    requires EnvOk(e)
  {
    var nummer := Nummer(e.now, e.u);
    Zertifikat(e.newId, schulungId, teilnehmerId, nummer,
               sha(ValidationHashInput(nummer, teilnehmerId, schulungId, e.nowMs)),
               e.now, AddYears(e.now, 3), Template(s), "aktiv")
  }

  function PdfFor(z: Zertifikat, s: Schulung, t: Teilnehmer, e: Env): PdfInput {
    PdfInput(z.zertifikatNummer, t.vorname, t.nachname, Or(t.firma, ""), s.titel, s.hersteller, s.typ,
             s.startDatum, s.endDatum, s.dauer, e.now, z.gueltigBis)
  }

  /** The outcome of the checks that precede the insert. */
  datatype Admission = Rejected(status: int, error: string) | Admitted(schulungId: string, teilnehmerId: string)

  /** The checks in their order: a readable body, both ids, the course, the participant,
      no certificate for the pair yet. */
  function Admit(table: seq<Zertifikat>, schulungen: map<string, Schulung>, teilnehmer: map<string, Teilnehmer>,
                 body: Option<Body>): (c: Admission)
    ensures c.Admitted? <==>
      body.Some? && !Falsy(body.value.schulungId) && !Falsy(body.value.teilnehmerId)
      && body.value.schulungId.value in schulungen && body.value.teilnehmerId.value in teilnehmer
      && FindPair(table, body.value.schulungId.value, body.value.teilnehmerId.value).None?
    ensures c.Admitted? ==> c.schulungId == body.value.schulungId.value && c.teilnehmerId == body.value.teilnehmerId.value
  {
    if body.None? then Rejected(500, ErrInternal)
    else if Falsy(body.value.schulungId) || Falsy(body.value.teilnehmerId) then Rejected(400, ErrMissing)
    else
      var sid, tid := body.value.schulungId.value, body.value.teilnehmerId.value;
      if sid !in schulungen then Rejected(404, ErrSchulung)
      else if tid !in teilnehmer then Rejected(404, ErrTeilnehmer)
      else if FindPair(table, sid, tid).Some? then Rejected(409, ErrExists)
      else Admitted(sid, tid)
  }

  /** The response and the new certificate table for one request. */
  function Outcome(table: seq<Zertifikat>, schulungen: map<string, Schulung>, teilnehmer: map<string, Teilnehmer>,
                   body: Option<Body>, e: Env, sha: Sha256, render: Renderer): (Response, seq<Zertifikat>)
    requires EnvOk(e)
  {
    match Admit(table, schulungen, teilnehmer, body)
    case Rejected(status, error) => (Failure(status, error), table)
    case Admitted(sid, tid) =>
      var z := NewCertificate(sid, tid, schulungen[sid], e, sha);
      if !e.insertOk then (Failure(500, ErrInternal), table)
      else
      match render(PdfFor(z, schulungen[sid], teilnehmer[tid], e))
      case None => (Failure(500, ErrInternal), table + [z])
      case Some(bytes) =>
        (Issued(z.id, z.zertifikatNummer, z.ausstellungsdatum, z.gueltigBis,
                Base64.Encode(bytes), Filename(teilnehmer[tid], z.zertifikatNummer)), table + [z])
  }

  /** The certificate table, with the course and participant tables it reads. */
  class CertificateStore {
    var zertifikate: seq<Zertifikat>
    const schulungen: map<string, Schulung>
    const teilnehmer: map<string, Teilnehmer>

    predicate Valid()
      reads this
    {
      UniqueKeys(zertifikate)
    }

    constructor(schulungen: map<string, Schulung>, teilnehmer: map<string, Teilnehmer>)
      ensures Valid() && zertifikate == []
      ensures this.schulungen == schulungen && this.teilnehmer == teilnehmer
    {
      zertifikate := [];
      this.schulungen := schulungen;
      this.teilnehmer := teilnehmer;
    }

    /** The handler: validation, the two lookups, the duplicate check, the insert,
        then the PDF. The id the database assigns is new. */
    method Issue(body: Option<Body>, e: Env, sha: Sha256, render: Renderer) returns (resp: Response)
      requires Valid() && EnvOk(e)
      requires forall i :: 0 <= i < |zertifikate| ==> zertifikate[i].id != e.newId
      modifies this
      ensures Valid()
      ensures (resp, zertifikate) == Outcome(old(zertifikate), schulungen, teilnehmer, body, e, sha, render)
    {
      if body.None? {
        return Failure(500, ErrInternal);
      }
      var b := body.value;
      if Falsy(b.schulungId) || Falsy(b.teilnehmerId) {
        return Failure(400, ErrMissing);
      }
      var schulungId, teilnehmerId := b.schulungId.value, b.teilnehmerId.value;
      if schulungId !in schulungen {
        return Failure(404, ErrSchulung);
      }
      var schulung := schulungen[schulungId];
      if teilnehmerId !in teilnehmer {
        return Failure(404, ErrTeilnehmer);
      }
      var person := teilnehmer[teilnehmerId];
      var existing := FindPair(zertifikate, schulungId, teilnehmerId);
      if existing.Some? {
        return Failure(409, ErrExists);
      }
      var zertifikatNummer := Nummer(e.now, e.u);
      var validierungsHash := sha(ValidationHashInput(zertifikatNummer, teilnehmerId, schulungId, e.nowMs));
      var gueltigBis := AddYears(e.now, 3);
      var template := Template(schulung);
      var z := Zertifikat(e.newId, schulungId, teilnehmerId, zertifikatNummer, validierungsHash,
                          e.now, gueltigBis, template, "aktiv");
      if !e.insertOk {
        return Failure(500, ErrInternal);
      }
      zertifikate := zertifikate + [z];
      var pdfData := render(PdfFor(z, schulung, person, e));
      if pdfData.None? {
        return Failure(500, ErrInternal);
      }
      var filename := Filename(person, zertifikatNummer);
      resp := Issued(z.id, zertifikatNummer, z.ausstellungsdatum, gueltigBis, Base64.Encode(pdfData.value), filename);
    }
  }

  /** The checks run in a fixed order and the first failing one decides the status:
      unreadable body 500, a missing id 400, unknown course 404, unknown participant
      404, an existing certificate for the pair 409. */
  lemma CheckOrder(table: seq<Zertifikat>, schulungen: map<string, Schulung>, teilnehmer: map<string, Teilnehmer>,
                   body: Option<Body>, e: Env, sha: Sha256, render: Renderer)
    requires EnvOk(e)
    ensures var (resp, _) := Outcome(table, schulungen, teilnehmer, body, e, sha, render);
      && (resp == Failure(400, ErrMissing)
          <==> body.Some? && (Falsy(body.value.schulungId) || Falsy(body.value.teilnehmerId)))
      && (resp == Failure(404, ErrSchulung)
          <==> body.Some? && !Falsy(body.value.schulungId) && !Falsy(body.value.teilnehmerId)
               && body.value.schulungId.value !in schulungen)
      && (resp == Failure(404, ErrTeilnehmer)
          <==> body.Some? && !Falsy(body.value.schulungId) && !Falsy(body.value.teilnehmerId)
               && body.value.schulungId.value in schulungen && body.value.teilnehmerId.value !in teilnehmer)
      && (resp == Failure(409, ErrExists)
          <==> body.Some? && !Falsy(body.value.schulungId) && !Falsy(body.value.teilnehmerId)
               && body.value.schulungId.value in schulungen && body.value.teilnehmerId.value in teilnehmer
               && exists i :: 0 <= i < |table|
                    && SamePair(table[i], body.value.schulungId.value, body.value.teilnehmerId.value))
  {
    if body.Some? && !Falsy(body.value.schulungId) && !Falsy(body.value.teilnehmerId) {
      var sid, tid := body.value.schulungId.value, body.value.teilnehmerId.value;
      var found := FindPair(table, sid, tid);
      if found.Some? {
        var i :| 0 <= i < |table| && table[i] == found.value;
      }
    }
  }

  /** A request changes the table only by appending the one new certificate, and only
      when every check has passed and the insert answers; a failed check or a throwing
      insert leaves it as it was, the latter with status 500. */
  lemma TableChange(table: seq<Zertifikat>, schulungen: map<string, Schulung>, teilnehmer: map<string, Teilnehmer>,
                    body: Option<Body>, e: Env, sha: Sha256, render: Renderer)
    requires EnvOk(e)
    ensures var (resp, table') := Outcome(table, schulungen, teilnehmer, body, e, sha, render);
      && (resp.Issued? ==> |table'| == |table| + 1)
      && (table' != table <==>
            body.Some? && !Falsy(body.value.schulungId) && !Falsy(body.value.teilnehmerId)
            && body.value.schulungId.value in schulungen && body.value.teilnehmerId.value in teilnehmer
            && FindPair(table, body.value.schulungId.value, body.value.teilnehmerId.value).None?
            && e.insertOk)
      && (Admit(table, schulungen, teilnehmer, body).Admitted? && !e.insertOk ==> resp == Failure(500, ErrInternal))
      && (table' != table ==>
            table' == table + [NewCertificate(body.value.schulungId.value, body.value.teilnehmerId.value,
                                              schulungen[body.value.schulungId.value], e, sha)])
  {
    var out := Outcome(table, schulungen, teilnehmer, body, e, sha, render);
    match Admit(table, schulungen, teilnehmer, body)
    case Rejected(_, _) =>
    case Admitted(sid, tid) =>
      var z := NewCertificate(sid, tid, schulungen[sid], e, sha);
      if e.insertOk {
        assert out.1 == table + [z];
        assert |table + [z]| == |table| + 1;
      }
  }

  /** The table's key survives every request: the endpoint never issues a second
      certificate for a pair, given that the database assigns a new id. */
  lemma OutcomeKeepsKeys(table: seq<Zertifikat>, schulungen: map<string, Schulung>, teilnehmer: map<string, Teilnehmer>,
                         body: Option<Body>, e: Env, sha: Sha256, render: Renderer)
    requires EnvOk(e) && UniqueKeys(table)
    requires forall i :: 0 <= i < |table| ==> table[i].id != e.newId
    ensures UniqueKeys(Outcome(table, schulungen, teilnehmer, body, e, sha, render).1)
  {
    var table' := Outcome(table, schulungen, teilnehmer, body, e, sha, render).1;
    if table' != table {
      TableChange(table, schulungen, teilnehmer, body, e, sha, render);
      var z := table'[|table|];
      assert table' == table + [z];
      assert forall i :: 0 <= i < |table| ==> !SamePair(table[i], z.schulungId, z.teilnehmerId);
    }
  }

  /** The new record: status "aktiv", the lower-cased template, validity of three years
      from the issue time, and a number `ROBT-<year>-` followed by five digits. */
  lemma NewCertificateFields(schulungId: string, teilnehmerId: string, s: Schulung, e: Env, sha: Sha256)
    requires EnvOk(e)
    ensures var z := NewCertificate(schulungId, teilnehmerId, s, e, sha);
      && z.status == "aktiv" && z.schulungId == schulungId && z.teilnehmerId == teilnehmerId
      && z.template == Lower(s.hersteller) + "-" + Lower(s.typ)
      && z.gueltigBis == AddYears(e.now, 3) && z.gueltigBis.year == e.now.year + 3
      && Before(z.ausstellungsdatum, z.gueltigBis)
      && z.zertifikatNummer == "ROBT-" + IntToString(e.now.year) + "-" + NatToString(RandomNumber(e.u))
      && |NatToString(RandomNumber(e.u))| == 5 && AllDigits(NatToString(RandomNumber(e.u)))
  {
    AddYearsIsLater(e.now, 3);
    assert Pow10(4) == 10000 && Pow10(5) == 100000 by {
      assert Pow10(2) == 100;
      assert Pow10(3) == 1000;
    }
    NatToStringLength(RandomNumber(e.u), 5);
    NatToStringRoundTrip(RandomNumber(e.u));
  }

  /** The hashed string contains the request time, which no field of the record keeps:
      two requests that differ only in the time insert records that differ at most in
      the hash, and hash different strings. */
  lemma HashNeedsTheClock(schulungId: string, teilnehmerId: string, s: Schulung, e1: Env, e2: Env, sha: Sha256)
    requires EnvOk(e1) && e2 == e1.(nowMs := e2.nowMs) && e1.nowMs != e2.nowMs
    ensures var z1, z2 := NewCertificate(schulungId, teilnehmerId, s, e1, sha), NewCertificate(schulungId, teilnehmerId, s, e2, sha);
      && z1.(validierungsHash := "") == z2.(validierungsHash := "")
      && ValidationHashInput(z1.zertifikatNummer, teilnehmerId, schulungId, e1.nowMs)
         != ValidationHashInput(z2.zertifikatNummer, teilnehmerId, schulungId, e2.nowMs)
  {
    var nummer := Nummer(e1.now, e1.u);
    var prefix := nummer + "-" + teilnehmerId + "-" + schulungId + "-";
    if ValidationHashInput(nummer, teilnehmerId, schulungId, e1.nowMs)
       == ValidationHashInput(nummer, teilnehmerId, schulungId, e2.nowMs) {
      assert (prefix + IntToString(e1.nowMs))[|prefix|..] == IntToString(e1.nowMs);
      assert (prefix + IntToString(e2.nowMs))[|prefix|..] == IntToString(e2.nowMs);
      IntToStringInjective(e1.nowMs, e2.nowMs);
    }
  }

  /** The number is drawn without looking at the table: a certificate of another pair
      that already carries the drawn number does not stop the request, and the table
      then holds two certificates with one number. */
  lemma NumberNotUnique(table: seq<Zertifikat>, c: Zertifikat, schulungen: map<string, Schulung>,
                        teilnehmer: map<string, Teilnehmer>, sid: string, tid: string,
                        e: Env, sha: Sha256, render: Renderer)
    requires EnvOk(e)
    requires Outcome(table, schulungen, teilnehmer, Some(Body(Some(sid), Some(tid))), e, sha, render).0.Issued?
    requires c.zertifikatNummer == Nummer(e.now, e.u) && !SamePair(c, sid, tid)
    ensures var (resp, table') := Outcome(table + [c], schulungen, teilnehmer, Some(Body(Some(sid), Some(tid))), e, sha, render);
      && resp.Issued? && resp.nummer == c.zertifikatNummer
      && |table'| == |table| + 2 && table'[|table|] == c
      && table'[|table| + 1].zertifikatNummer == table'[|table|].zertifikatNummer
  {
    var body := Some(Body(Some(sid), Some(tid)));
    assert Admit(table, schulungen, teilnehmer, body).Admitted?;
    assert FindPair(table, sid, tid).None?;
    assert Admit(table + [c], schulungen, teilnehmer, body) == Admitted(sid, tid);
  }

  /** When the PDF fails after the insert the answer is 500 but the record stays, so
      the same request is answered 409 from then on. */
  lemma RetryAfterPdfFailure(table: seq<Zertifikat>, schulungen: map<string, Schulung>, teilnehmer: map<string, Teilnehmer>,
                             body: Option<Body>, e: Env, e2: Env, sha: Sha256, render: Renderer, render2: Renderer)
    requires EnvOk(e) && EnvOk(e2)
    requires var (resp, table') := Outcome(table, schulungen, teilnehmer, body, e, sha, render);
      resp.Failure? && resp.status == 500 && table' != table
    ensures var table' := Outcome(table, schulungen, teilnehmer, body, e, sha, render).1;
      Outcome(table', schulungen, teilnehmer, body, e2, sha, render2).0 == Failure(409, ErrExists)
  {
    var table' := Outcome(table, schulungen, teilnehmer, body, e, sha, render).1;
    TableChange(table, schulungen, teilnehmer, body, e, sha, render);
    var sid, tid := body.value.schulungId.value, body.value.teilnehmerId.value;
    assert SamePair(table'[|table|], sid, tid);
    CheckOrder(table', schulungen, teilnehmer, body, e2, sha, render2);
  }

  /** A success carries the drawn number, which is the inserted record's; the Base64 text
      of the document rendered for that record, four characters per started group of three
      bytes; and the filename `Zertifikat_<nachname>_<vorname>_<nummer>.pdf`. */
  lemma IssuedResponse(table: seq<Zertifikat>, schulungen: map<string, Schulung>, teilnehmer: map<string, Teilnehmer>,
                       body: Option<Body>, e: Env, sha: Sha256, render: Renderer)
    requires EnvOk(e)
    requires Outcome(table, schulungen, teilnehmer, body, e, sha, render).0.Issued?
    ensures body.Some? && body.value.schulungId.Some? && body.value.teilnehmerId.Some?
    ensures body.value.schulungId.value in schulungen && body.value.teilnehmerId.value in teilnehmer
    ensures var (resp, table') := Outcome(table, schulungen, teilnehmer, body, e, sha, render);
      var sid, tid := body.value.schulungId.value, body.value.teilnehmerId.value;
      var t := teilnehmer[tid];
      var z := NewCertificate(sid, tid, schulungen[sid], e, sha);
      var rendered := render(PdfFor(z, schulungen[sid], teilnehmer[tid], e));
      && resp.nummer == Nummer(e.now, e.u) && |table'| == |table| + 1 && resp.nummer == table'[|table|].zertifikatNummer
      && resp.filename == "Zertifikat_" + t.nachname + "_" + t.vorname + "_" + resp.nummer + ".pdf"
      && resp.id == e.newId && resp.ausstellungsdatum == e.now && resp.gueltigBis == AddYears(e.now, 3)
      && rendered.Some? && resp.pdf == Base64.Encode(rendered.value)
      && |resp.pdf| == 4 * ((|rendered.value| + 2) / 3)
  {
    var sid, tid := body.value.schulungId.value, body.value.teilnehmerId.value;
    var z := NewCertificate(sid, tid, schulungen[sid], e, sha);
    var bytes := render(PdfFor(z, schulungen[sid], teilnehmer[tid], e)).value;
    Base64.EncodeLength(bytes);
  }
}
