/** `POST /api/schulungen`: the required-field check and the `||` defaults of the record
    handed to the database. */
module SchulungenRoute {
  import opened Options
  import opened JsStrings
  import opened Dates

  /** The fields of the JSON body the handler reads; absent ones are None. */
  datatype Body = Body(
    titel: Option<string>, beschreibung: Option<string>, typ: Option<string>, hersteller: Option<string>,
    startDatum: Option<string>, endDatum: Option<string>, dauer: Option<int>, maxTeilnehmer: Option<int>,
    preis: Option<int>, status: Option<string>, ort: Option<string>, raum: Option<string>,
    trainer: Option<string>, calendarEventId: Option<string>)

  /** The data of `prisma.schulung.create`. */
  datatype NewSchulung = NewSchulung(
    titel: string, beschreibung: Option<string>, typ: string, hersteller: string,
    startDatum: DateTime, endDatum: DateTime, dauer: int, maxTeilnehmer: int, preis: int,
    status: string, ort: Option<string>, raum: Option<string>, trainer: Option<string>,
    calendarEventId: Option<string>)

  datatype Response =
    | Created(schulung: NewSchulung, id: string)
    | Failure(status: int, error: string, details: Option<string>)

  const ErrMissing: string := "Fehlende Pflichtfelder"
  const ErrCreate: string := "Fehler beim Erstellen der Schulung"
  /** A placeholder for the driver's validation message when it refuses an invalid `Date`;
      the model does not reproduce that message's text. */
  const ErrInvalidDate: string := "Invalid Date"

  /** A number is falsy when absent or 0. */
  predicate FalsyInt(o: Option<int>) {
    o.None? || o.value == 0
  }

  /** `n || fallback` for a number. */
  function OrInt(o: Option<int>, fallback: int): (r: int)
    ensures FalsyInt(o) ==> r == fallback
    ensures !FalsyInt(o) ==> r == o.value
  {
    if FalsyInt(o) then fallback else o.value
  }

  predicate MissingRequired(b: Body) {
    Falsy(b.titel) || Falsy(b.typ) || Falsy(b.hersteller) || Falsy(b.startDatum)
  }

  /** The record built from a body that passed the check; `new Date(s)` is parse, None
      standing for an invalid date. */
  function Record(b: Body, start: DateTime, end: DateTime): NewSchulung
    requires !MissingRequired(b)
  {
    NewSchulung(b.titel.value, b.beschreibung, b.typ.value, b.hersteller.value, start, end,
                OrInt(b.dauer, 1), OrInt(b.maxTeilnehmer, 12), OrInt(b.preis, 0), Or(b.status, "geplant"),
                b.ort, b.raum, b.trainer, b.calendarEventId)
  }

  /** The handler: body is the outcome of `request.json()`; create answers the new id or
      the database error. */
  function Post(body: Result<Body>, parse: string -> Option<DateTime>, create: NewSchulung -> Result<string>): Response {
    if body.Err? then Failure(500, ErrCreate, Some(body.message))
    else
      var b := body.value;
      if MissingRequired(b) then Failure(400, ErrMissing, None)
      else
        var start := parse(b.startDatum.value);
        var end := parse(Or(b.endDatum, b.startDatum.value));
        if start.None? || end.None? then Failure(500, ErrCreate, Some(ErrInvalidDate))
        else match create(Record(b, start.value, end.value))
          case Err(m) => Failure(500, ErrCreate, Some(m))
          case Ok(id) => Created(Record(b, start.value, end.value), id)
  }

  /** A body missing a required field is refused with 400 before the database is asked:
      the answer does not depend on create at all, so nothing is created. */
  lemma MissingFieldsRejected(b: Body, parse: string -> Option<DateTime>, create: NewSchulung -> Result<string>, create2: NewSchulung -> Result<string>)
    ensures MissingRequired(b) <==> Post(Ok(b), parse, create) == Failure(400, ErrMissing, None)
    ensures MissingRequired(b) ==> Post(Ok(b), parse, create) == Post(Ok(b), parse, create2)
  {
  }

  /** The defaults: the end date falls back to the start date, dauer to 1, maxTeilnehmer to
      12, preis to 0 and status to "geplant" whenever they are falsy, an explicit 0
      included. */
  lemma CreatedDefaults(b: Body, parse: string -> Option<DateTime>, create: NewSchulung -> Result<string>)
    ensures var r := Post(Ok(b), parse, create);
      r.Created? ==>
        && !MissingRequired(b)
        && Some(r.schulung.startDatum) == parse(b.startDatum.value)
        && Some(r.schulung.endDatum) == parse(if Falsy(b.endDatum) then b.startDatum.value else b.endDatum.value)
        && r.schulung.dauer == (if FalsyInt(b.dauer) then 1 else b.dauer.value)
        && r.schulung.maxTeilnehmer == (if FalsyInt(b.maxTeilnehmer) then 12 else b.maxTeilnehmer.value)
        && r.schulung.preis == (if FalsyInt(b.preis) then 0 else b.preis.value)
        && r.schulung.status == (if Falsy(b.status) then "geplant" else b.status.value)
        && r.schulung.titel == b.titel.value && r.schulung.ort == b.ort
    ensures b.dauer == Some(0) && Post(Ok(b), parse, create).Created? ==> Post(Ok(b), parse, create).schulung.dauer == 1
  {
  }

  /** The three outcomes: 201 exactly when the fields are there, the dates parse and the
      database accepts the record; every other failure is a 500 with details. */
  lemma PostOutcomes(body: Result<Body>, parse: string -> Option<DateTime>, create: NewSchulung -> Result<string>)
    ensures var r := Post(body, parse, create);
      && (r.Created? <==>
            body.Ok? && !MissingRequired(body.value)
            && parse(body.value.startDatum.value).Some?
            && parse(Or(body.value.endDatum, body.value.startDatum.value)).Some?
            && create(Record(body.value, parse(body.value.startDatum.value).value,
                             parse(Or(body.value.endDatum, body.value.startDatum.value)).value)).Ok?)
      && (r.Failure? ==> (r.status == 400 && r.error == ErrMissing) || (r.status == 500 && r.error == ErrCreate && r.details.Some?))
  {
  }
}
