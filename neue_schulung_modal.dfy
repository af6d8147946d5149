/** The dialog for a new course: the form, its field updates with the automatic duration,
    and the checks before the form is posted. */
module NeueSchulungModal {
  import opened Options
  import opened JsStrings
  import opened Dates

  /** The form. A number field read with `parseInt` is None when the input is not a number
      (NaN, sent as null). */
  datatype Form = Form(
    titel: string, beschreibung: string, typ: string, hersteller: string,
    startDatum: string, endDatum: string, dauer: Option<int>, maxTeilnehmer: Option<int>, preis: int,
    status: string, ort: string, raum: string, trainer: string)

  const Initial: Form := Form("", "", "grundlagen", "kuka", "", "", Some(1), Some(6), 0, "geplant", "", "", "")

  datatype TextField = Titel | Beschreibung | Typ | Hersteller | StartDatum | EndDatum | Status | Ort | Raum | Trainer

  /** One `handleChange(field, value)`. */
  datatype Change =
    | SetText(field: TextField, text: string)
    | SetDauer(dauer: Option<int>)
    | SetMaxTeilnehmer(maxTeilnehmer: Option<int>)
    | SetPreis(preis: int)

  function GetText(f: Form, t: TextField): string {
    match t
    case Titel => f.titel
    case Beschreibung => f.beschreibung
    case Typ => f.typ
    case Hersteller => f.hersteller
    case StartDatum => f.startDatum
    case EndDatum => f.endDatum
    case Status => f.status
    case Ort => f.ort
    case Raum => f.raum
    case Trainer => f.trainer
  }

  /** `{ ...prev, [field]: value }`. */
  function Set(f: Form, c: Change): Form {
    match c
    case SetDauer(v) => f.(dauer := v)
    case SetMaxTeilnehmer(v) => f.(maxTeilnehmer := v)
    case SetPreis(v) => f.(preis := v)
    case SetText(t, v) =>
      match t
      case Titel => f.(titel := v)
      case Beschreibung => f.(beschreibung := v)
      case Typ => f.(typ := v)
      case Hersteller => f.(hersteller := v)
      case StartDatum => f.(startDatum := v)
      case EndDatum => f.(endDatum := v)
      case Status => f.(status := v)
      case Ort => f.(ort := v)
      case Raum => f.(raum := v)
      case Trainer => f.(trainer := v)
  }

  /** A text change sets that field and no other; a number change sets that number. */
  lemma SetOnlyThatField(f: Form, c: Change, t: TextField)
    ensures c.SetText? ==> GetText(Set(f, c), t) == (if t == c.field then c.text else GetText(f, t))
    ensures c.SetText? ==> Set(f, c).dauer == f.dauer && Set(f, c).maxTeilnehmer == f.maxTeilnehmer && Set(f, c).preis == f.preis
    ensures !c.SetText? ==> GetText(Set(f, c), t) == GetText(f, t)
    ensures c.SetDauer? ==> Set(f, c) == f.(dauer := c.dauer)
    ensures c.SetMaxTeilnehmer? ==> Set(f, c) == f.(maxTeilnehmer := c.maxTeilnehmer)
    ensures c.SetPreis? ==> Set(f, c) == f.(preis := c.preis)
  {
  }

  /** One more than the started days between the two instants. */
  function Dauer(startMs: int, endMs: int): (r: int)
    ensures r >= 1
  {
    var diff := if endMs >= startMs then endMs - startMs else startMs - endMs;
    CeilDiv(diff, MsPerDay) + 1
  }

  /** For two dates at midnight, the duration counts both days: 1 for the same day, the
      day difference plus one otherwise, in either order. */
  lemma DauerOfDates(s: DateTime, e: DateTime)
    requires Valid(s) && Valid(e)
    requires s.hour == 0 && s.minute == 0 && s.second == 0 && s.ms == 0
    requires e.hour == 0 && e.minute == 0 && e.second == 0 && e.ms == 0
    ensures var ds := DaysFromCivil(s.year, s.month, s.day);
      var de := DaysFromCivil(e.year, e.month, e.day);
      Dauer(ToMs(s), ToMs(e)) == (if de >= ds then de - ds else ds - de) + 1
    ensures s == e ==> Dauer(ToMs(s), ToMs(e)) == 1
  {
    var ds := DaysFromCivil(s.year, s.month, s.day);
    var de := DaysFromCivil(e.year, e.month, e.day);
    var k := if de >= ds then de - ds else ds - de;
    assert ToMs(e) - ToMs(s) == (de - ds) * MsPerDay;
    assert (if ToMs(e) >= ToMs(s) then ToMs(e) - ToMs(s) else ToMs(s) - ToMs(e)) == k * MsPerDay;
    CeilDivExact(k, MsPerDay);
  }

  /** `handleChange`: the field is set; when a date changed and both dates are filled in,
      the duration follows them (None when one of them is not a date). parse is `new Date`
      giving milliseconds. */
  function Changed(f: Form, c: Change, parse: string -> Option<int>): Form {
    var g := Set(f, c);
    if c.SetText? && (c.field == StartDatum || c.field == EndDatum) && g.startDatum != "" && g.endDatum != "" then
      g.(dauer := if parse(g.startDatum).Some? && parse(g.endDatum).Some?
                  then Some(Dauer(parse(g.startDatum).value, parse(g.endDatum).value)) else None)
    else g
  }

  /** A change only touches its field, except that a date change may also set dauer, and
      then to a value of at least one. */
  lemma ChangedTouchesOnlyField(f: Form, c: Change, parse: string -> Option<int>, t: TextField)
    ensures c.SetText? ==> GetText(Changed(f, c, parse), t) == (if t == c.field then c.text else GetText(f, t))
    ensures !c.SetText? ==> Changed(f, c, parse) == Set(f, c)
    ensures c.SetText? && c.field != StartDatum && c.field != EndDatum ==> Changed(f, c, parse).dauer == f.dauer
    ensures Changed(f, c, parse).dauer != Set(f, c).dauer ==>
      && c.SetText? && (c.field == StartDatum || c.field == EndDatum)
      && (Changed(f, c, parse).dauer.Some? ==> Changed(f, c, parse).dauer.value >= 1)
    ensures Changed(f, c, parse).maxTeilnehmer == Set(f, c).maxTeilnehmer && Changed(f, c, parse).preis == Set(f, c).preis
  {
  }

  const ErrTitel: string := "Bitte Titel eingeben"
  const ErrStart: string := "Bitte Startdatum eingeben"
  const ErrEnd: string := "Bitte Enddatum eingeben"
  const ErrOrder: string := "Enddatum muss nach Startdatum liegen"
  const ErrMax: string := "Mindestens 1 Teilnehmer erforderlich"
  const ErrPreis: string := "Preis kann nicht negativ sein"
  const ErrCreate: string := "Fehler beim Erstellen"

  /** `new Date(a) > new Date(b)`; an invalid date compares false. */
  predicate Later(a: string, b: string, parse: string -> Option<int>) {
    parse(a).Some? && parse(b).Some? && parse(a).value > parse(b).value
  }

  /** The first failing check of `handleSubmit`, None when the form may be posted. */
  function Validate(f: Form, parse: string -> Option<int>): Option<string> {
    if IsBlank(f.titel) then Some(ErrTitel)
    else if f.startDatum == "" then Some(ErrStart)
    else if f.endDatum == "" then Some(ErrEnd)
    else if Later(f.startDatum, f.endDatum, parse) then Some(ErrOrder)
    else if f.maxTeilnehmer.Some? && f.maxTeilnehmer.value < 1 then Some(ErrMax)
    else if f.preis < 0 then Some(ErrPreis)
    else None
  }

  /** A form passes exactly when every check passes; each message is reported only when
      all checks before it passed; start and end on the same instant pass, and so (as
      NaN < 1 is false) does an unreadable number of seats. */
  lemma ValidateCascade(f: Form, parse: string -> Option<int>)
    ensures Validate(f, parse) == None <==>
      && !IsBlank(f.titel) && f.startDatum != "" && f.endDatum != ""
      && !Later(f.startDatum, f.endDatum, parse)
      && !(f.maxTeilnehmer.Some? && f.maxTeilnehmer.value < 1) && f.preis >= 0
    ensures Validate(f, parse) == Some(ErrStart) ==> !IsBlank(f.titel)
    ensures Validate(f, parse) == Some(ErrEnd) ==> !IsBlank(f.titel) && f.startDatum != ""
    ensures Validate(f, parse) == Some(ErrOrder) ==> !IsBlank(f.titel) && f.startDatum != "" && f.endDatum != ""
    ensures Validate(f, parse) == Some(ErrMax) ==> !IsBlank(f.titel) && f.startDatum != "" && f.endDatum != "" && !Later(f.startDatum, f.endDatum, parse)
    ensures Validate(f, parse) == Some(ErrPreis) ==> !IsBlank(f.titel) && f.startDatum != "" && f.endDatum != "" && !Later(f.startDatum, f.endDatum, parse) && !(f.maxTeilnehmer.Some? && f.maxTeilnehmer.value < 1)
    ensures !IsBlank(f.titel) && f.startDatum != "" && f.startDatum == f.endDatum ==> Validate(f, parse) != Some(ErrOrder)
    ensures Validate(f.(maxTeilnehmer := None), parse) != Some(ErrMax)
  {
  }

  /** The initial form fails on the missing title first. */
  lemma InitialNeedsTitle(parse: string -> Option<int>)
    ensures Validate(Initial, parse) == Some(ErrTitel)
  {
  }

  /** What the server answered to the POST. */
  datatype PostOutcome = Created(id: string) | Rejected(error: Option<string>)

  class Dialog {
    var form: Form
    var error: Option<string>

    constructor()
      ensures form == Initial && error == None
    {
      form := Initial;
      error := None;
    }

    /** `handleChange`: the change applied and the error cleared. */
    method HandleChange(c: Change, parse: string -> Option<int>)
      modifies this
      ensures form == Changed(old(form), c, parse) && error == None
    {
      form := Set(form, c);
      error := None;
      if c.SetText? && (c.field == StartDatum || c.field == EndDatum) {
        if form.startDatum != "" && form.endDatum != "" {
          var start := parse(form.startDatum);
          var end := parse(form.endDatum);
          form := form.(dauer := if start.Some? && end.Some? then Some(Dauer(start.value, end.value)) else None);
        }
      }
    }

    /** `handleSubmit`: a failing check is reported and nothing is posted; otherwise the
        form is posted and a refusal shows the server's error or the fallback text. The
        form stays as it is. */
    method HandleSubmit(parse: string -> Option<int>, outcome: PostOutcome) returns (posted: Option<Form>)
      modifies this`error
      ensures Validate(form, parse).Some? ==> posted == None && error == Validate(form, parse)
      ensures Validate(form, parse).None? ==>
        && posted == Some(form)
        && error == (if outcome.Created? then None else Some(Or(outcome.error, ErrCreate)))
    {
      var failure := Validate(form, parse);
      if failure.Some? {
        error := failure;
        return None;
      }
      error := None;
      posted := Some(form);
      if outcome.Rejected? {
        error := Some(Or(outcome.error, ErrCreate));
      }
    }
  }
}
