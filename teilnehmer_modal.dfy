/** The dialog that adds a participant to a course: field updates, the checks in order,
    and the reset after a successful save. */
module TeilnehmerModal {
  import opened Options
  import opened JsStrings
  import Utils

  datatype Field = Vorname | Nachname | Email | Telefon | Firma | Position | Strasse | Plz | Ort
                 | Land | Status | Bezahlstatus | Bemerkungen

  /** The form: a text for every field. */
  type Form = map<Field, string>

  predicate Complete(f: Form) {
    forall x: Field :: x in f
  }

  /** The initial form, to which a successful save also returns. */
  const Defaults: Form := map[Vorname := "", Nachname := "", Email := "", Telefon := "", Firma := "",
                              Position := "", Strasse := "", Plz := "", Ort := "", Land := "DE",
                              Status := "angemeldet", Bezahlstatus := "offen", Bemerkungen := ""]

  lemma DefaultsComplete()
    ensures Complete(Defaults)
    ensures Defaults[Land] == "DE" && Defaults[Status] == "angemeldet" && Defaults[Bezahlstatus] == "offen"
    ensures forall x: Field :: x !in {Land, Status, Bezahlstatus} ==> Defaults[x] == ""
  {
    forall x: Field
      ensures x in Defaults
    {
      match x
      case Vorname => case Nachname => case Email => case Telefon => case Firma => case Position =>
      case Strasse => case Plz => case Ort => case Land => case Status => case Bezahlstatus =>
      case Bemerkungen =>
    }
  }

  const ErrVorname: string := "Bitte Vorname eingeben"
  const ErrNachname: string := "Bitte Nachname eingeben"
  const ErrEmail: string := "Bitte E-Mail eingeben"
  const ErrEmailFormat: string := "Bitte gültige E-Mail eingeben"
  const ErrSave: string := "Fehler beim Speichern"

  /** The first failing check of `handleSubmit`; the address check is the same pattern as
      `isValidEmail`. */
  function Validate(f: Form): Option<string>
    requires Complete(f)
  {
    if IsBlank(f[Vorname]) then Some(ErrVorname)
    else if IsBlank(f[Nachname]) then Some(ErrNachname)
    else if IsBlank(f[Email]) then Some(ErrEmail)
    else if !Utils.IsValidEmail(f[Email]) then Some(ErrEmailFormat)
    else None
  }

  /** A form passes exactly when both names are filled in and the address is valid; each
      message is reported only when the checks before it passed; and a passing address has
      one `@` with text on both sides and a dot after it. */
  lemma ValidateCascade(f: Form)
    requires Complete(f)
    ensures Validate(f) == None <==> !IsBlank(f[Vorname]) && !IsBlank(f[Nachname]) && Utils.IsValidEmail(f[Email])
    ensures Validate(f) == Some(ErrNachname) ==> !IsBlank(f[Vorname])
    ensures Validate(f) == Some(ErrEmail) ==> !IsBlank(f[Vorname]) && !IsBlank(f[Nachname])
    ensures Validate(f) == Some(ErrEmailFormat) ==> !IsBlank(f[Vorname]) && !IsBlank(f[Nachname]) && !IsBlank(f[Email])
    ensures Validate(f) == None ==> Utils.EmailShape(f[Email])
  {
    Utils.EmailRegexIsShape(f[Email]);
    if Utils.IsValidEmail(f[Email]) {
      var i, j :| 0 < i && i + 1 < j && j + 1 < |f[Email]| && f[Email][i] == '@' && f[Email][j] == '.'
        && forall k :: 0 <= k < |f[Email]| && k != i ==> Utils.IsMailChar(f[Email][k]);
      assert !IsWhitespace(f[Email][0]);
    }
  }

  class Dialog {
    var form: Form
    var error: Option<string>

    ghost predicate Valid()
      reads this
    {
      Complete(form)
    }

    constructor()
      ensures Valid() && form == Defaults && error == None
    {
      DefaultsComplete();
      form := Defaults;
      error := None;
    }

    /** `handleChange`: only the named field changes, and the error is cleared. */
    method HandleChange(field: Field, value: string)
      requires Valid()
      modifies this
      ensures Valid()
      ensures form == old(form)[field := value] && error == None
      ensures forall x :: x != field ==> form[x] == old(form)[x]
    {
      form := form[field := value];
      error := None;
    }

    /** `handleSubmit`: saved is Some(message) when `onSave` throws with that message (None
        when it throws something else than an Error), and the outcome is ignored when a
        check fails. Returns whether onSave was called. */
    method HandleSubmit(saveFailure: Option<Option<string>>) returns (saveCalled: bool, closed: bool)
      requires Valid()
      modifies this
      ensures Valid()
      ensures saveCalled <==> Validate(old(form)) == None
      ensures !saveCalled ==> form == old(form) && error == Validate(old(form)) && !closed
      ensures saveCalled && saveFailure.None? ==> form == Defaults && error == None && closed
      ensures saveCalled && saveFailure.Some? ==>
        form == old(form) && !closed && error == Some(if saveFailure.value.Some? then saveFailure.value.value else ErrSave)
    {
      var failure := Validate(form);
      if failure.Some? {
        error := failure;
        return false, false;
      }
      error := None;
      if saveFailure.Some? {
        error := Some(if saveFailure.value.Some? then saveFailure.value.value else ErrSave);
        return true, false;
      }
      DefaultsComplete();
      form := Defaults;
      return true, true;
    }
  }
}
