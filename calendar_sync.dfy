/** Reconciliation between the course table and a Google calendar: the event built for a
    course, the guards of the single-course operations, the per-event import rule, the
    export counters and the combined sync. The calendar is a set of parameter functions
    giving the response (or the error) of each API call. */
module CalendarSync {
  import opened Options
  import opened JsStrings
  import opened Dates
  import opened Seqs

  /** A row of the course table; `lastSyncedAt` in milliseconds since the epoch. */
  datatype Schulung = Schulung(
    id: string, titel: string, beschreibung: Option<string>, typ: string, hersteller: string,
    startDatum: DateTime, endDatum: DateTime, dauer: int, maxTeilnehmer: int, preis: int,
    status: string, ort: Option<string>, calendarEventId: Option<string>, lastSyncedAt: Option<int>)

  predicate RowOk(s: Schulung) {
    Valid(s.startDatum) && Valid(s.endDatum)
  }

  datatype EventTime = EventTime(dateTime: string, timeZone: string)

  /** The request body sent to the calendar, its private extended properties flattened. */
  datatype CalendarEvent = CalendarEvent(
    summary: string, description: string, location: string, start: EventTime, end: EventTime,
    colorId: string, schulungId: string, typ: string, hersteller: string, status: string)

  /** An event as listed by the calendar, its times already parsed. */
  datatype FetchedEvent = FetchedEvent(
    id: Option<string>, summary: Option<string>, description: Option<string>, location: Option<string>,
    start: Option<DateTime>, end: Option<DateTime>, privateSchulungId: Option<string>)

  predicate EventOk(e: FetchedEvent) {
    (e.start.Some? ==> Valid(e.start.value)) && (e.end.Some? ==> Valid(e.end.value))
  }

  /** The calendar's answers: the configured calendar id, the id of an inserted event, the
      outcome of an update or a deletion, and the listing of upcoming events. */
  datatype Calendar = Calendar(
    calendarId: Option<string>,
    insert: CalendarEvent -> Result<string>,
    update: (string, CalendarEvent) -> Result<()>,
    remove: string -> Result<()>,
    list: Result<seq<FetchedEvent>>)

  const ErrNoCalendarId: string := "GOOGLE_CALENDAR_ID environment variable is not set"
  /** The error of an update whose row does not exist. */
  const ErrNotFound: string := "Record to update not found."

  const ColorIds: map<string, string> :=
    map["Grundlagen" := "1", "Fortgeschritten" := "5", "Wartung" := "10", "Individualschulung" := "11"]

  /** `getColorForType`: `colors[typ] || '1'`. */
  function GetColorForType(typ: string): string {
    if typ in ColorIds && ColorIds[typ] != "" then ColorIds[typ] else "1"
  }

  /** Exactly the four types have their own colour; every other type is blue ("1"). */
  lemma ColorForTypeCases(typ: string)
    ensures typ == "Grundlagen" ==> GetColorForType(typ) == "1"
    ensures typ == "Fortgeschritten" ==> GetColorForType(typ) == "5"
    ensures typ == "Wartung" ==> GetColorForType(typ) == "10"
    ensures typ == "Individualschulung" ==> GetColorForType(typ) == "11"
    ensures typ !in ColorIds ==> GetColorForType(typ) == "1"
    ensures GetColorForType(typ) in {"1", "5", "10", "11"}
  {
    if typ in ColorIds {
      assert typ == "Grundlagen" || typ == "Fortgeschritten" || typ == "Wartung" || typ == "Individualschulung";
    }
  }

  /** `schulungToCalendarEvent`. */
  function ToEvent(s: Schulung): CalendarEvent
    requires RowOk(s)
  {
    CalendarEvent(
      s.titel,
      Or(s.beschreibung, "") + "\n\nTyp: " + s.typ + "\nHersteller: " + s.hersteller
        + "\nMax. Teilnehmer: " + IntToString(s.maxTeilnehmer) + "\nPreis: " + IntToString(s.preis) + "€",
      Or(s.ort, ""),
      EventTime(ToIso(s.startDatum), "Europe/Berlin"),
      EventTime(ToIso(s.endDatum), "Europe/Berlin"),
      GetColorForType(s.typ),
      s.id, s.typ, s.hersteller, s.status)
  }

  /** The event carries the title, the location or "" without one, the description led by
      the course's own (or nothing), both times in the Berlin zone as ISO timestamps, and the
      course id among its private properties. */
  lemma EventFields(s: Schulung)
    requires RowOk(s)
    ensures var ev := ToEvent(s);
      && ev.summary == s.titel
      && (ev.location == if Falsy(s.ort) then "" else s.ort.value)
      && ev.description[..|Or(s.beschreibung, "")|] == Or(s.beschreibung, "")
      && ev.start.timeZone == "Europe/Berlin" && ev.end.timeZone == "Europe/Berlin"
      && (0 <= s.startDatum.year <= 9999 ==> |ev.start.dateTime| == 24)
      && (0 <= s.endDatum.year <= 9999 ==> |ev.end.dateTime| == 24)
      && ev.schulungId == s.id && ev.colorId == GetColorForType(s.typ)
  {
    DescriptionLeads(Or(s.beschreibung, ""), s.typ, s.hersteller, IntToString(s.maxTeilnehmer), IntToString(s.preis));
    if 0 <= s.startDatum.year <= 9999 {
      IsoLength(s.startDatum);
    }
    if 0 <= s.endDatum.year <= 9999 {
      IsoLength(s.endDatum);
    }
  }

  /** The description text begins with the course's own description. */
  lemma DescriptionLeads(b: string, typ: string, hersteller: string, max: string, preis: string)
    ensures var d := b + "\n\nTyp: " + typ + "\nHersteller: " + hersteller + "\nMax. Teilnehmer: " + max
                     + "\nPreis: " + preis + "€";
      d[..|b|] == b
  {
    var rest := "\n\nTyp: " + typ + "\nHersteller: " + hersteller + "\nMax. Teilnehmer: " + max
                + "\nPreis: " + preis + "€";
    assert b + "\n\nTyp: " + typ + "\nHersteller: " + hersteller + "\nMax. Teilnehmer: " + max
           + "\nPreis: " + preis + "€" == b + rest;
    assert (b + rest)[..|b|] == b;
  }

  /** The event as the calendar lists it back: the fields sent (start and end parsed from
      the ISO strings into the course's own instants). */
  function Listed(eventId: string, s: Schulung): FetchedEvent
    requires RowOk(s)
  {
    var ev := ToEvent(s);
    FetchedEvent(Some(eventId), Some(ev.summary), Some(ev.description), Some(ev.location),
                 Some(s.startDatum), Some(s.endDatum), Some(ev.schulungId))
  }

  predicate HasId(rows: seq<Schulung>, id: string) {
    exists k :: 0 <= k < |rows| && rows[k].id == id
  }

  /** `prisma.schulung.update({where: {id}, data})` with the change f, applied to the row
      with that id; the table key makes it at most one. */
  function UpdateRows(rows: seq<Schulung>, id: string, f: Schulung -> Schulung): (r: seq<Schulung>)
    ensures |r| == |rows|
    ensures forall k :: 0 <= k < |rows| ==> r[k] == if rows[k].id == id then f(rows[k]) else rows[k]
  {
    seq(|rows|, k requires 0 <= k < |rows| => if rows[k].id == id then f(rows[k]) else rows[k])
  }

  /** The calendar link recorded by an insert. */
  function Linked(eventId: string, nowMs: int): Schulung -> Schulung {
    (r: Schulung) => r.(calendarEventId := Some(eventId), lastSyncedAt := Some(nowMs))
  }

  function Touched(nowMs: int): Schulung -> Schulung {
    (r: Schulung) => r.(lastSyncedAt := Some(nowMs))
  }

  function Unlinked(nowMs: int): Schulung -> Schulung {
    (r: Schulung) => r.(calendarEventId := None, lastSyncedAt := Some(nowMs))
  }

  /** `addToCalendar(s)`: the new event's id and the table afterwards, or the error. */
  function AddOutcome(rows: seq<Schulung>, s: Schulung, g: Calendar, nowMs: int): (Result<string>, seq<Schulung>)
    requires RowOk(s)
  {
    if Falsy(g.calendarId) then (Err(ErrNoCalendarId), rows)
    else match g.insert(ToEvent(s))
      case Err(m) => (Err(m), rows)
      case Ok(eventId) =>
        if HasId(rows, s.id) then (Ok(eventId), UpdateRows(rows, s.id, Linked(eventId, nowMs)))
        else (Err(ErrNotFound), rows)
  }

  /** `updateInCalendar(s)`: without a calendar link it is `addToCalendar`. */
  function UpdateOutcome(rows: seq<Schulung>, s: Schulung, g: Calendar, nowMs: int): (Result<string>, seq<Schulung>)
    requires RowOk(s)
  {
    if Falsy(s.calendarEventId) then AddOutcome(rows, s, g, nowMs)
    else if Falsy(g.calendarId) then (Err(ErrNoCalendarId), rows)
    else match g.update(s.calendarEventId.value, ToEvent(s))
      case Err(m) => (Err(m), rows)
      case Ok(_) =>
        if HasId(rows, s.id) then (Ok(s.calendarEventId.value), UpdateRows(rows, s.id, Touched(nowMs)))
        else (Err(ErrNotFound), rows)
  }

  /** `deleteFromCalendar(s)`: without a calendar link nothing happens. */
  function DeleteOutcome(rows: seq<Schulung>, s: Schulung, g: Calendar, nowMs: int): (Result<()>, seq<Schulung>) {
    if Falsy(s.calendarEventId) then (Ok(()), rows)
    else if Falsy(g.calendarId) then (Err(ErrNoCalendarId), rows)
    else match g.remove(s.calendarEventId.value)
      case Err(m) => (Err(m), rows)
      case Ok(_) =>
        if HasId(rows, s.id) then (Ok(()), UpdateRows(rows, s.id, Unlinked(nowMs)))
        else (Err(ErrNotFound), rows)
  }

  /** The early exits: an unlinked course is added instead of updated, and deleting it
      changes nothing and calls nothing; a failed call leaves the table as it was. */
  lemma UnlinkedGuards(rows: seq<Schulung>, s: Schulung, g: Calendar, nowMs: int)
    requires RowOk(s)
    ensures Falsy(s.calendarEventId) ==> UpdateOutcome(rows, s, g, nowMs) == AddOutcome(rows, s, g, nowMs)
    ensures Falsy(s.calendarEventId) ==> DeleteOutcome(rows, s, g, nowMs) == (Ok(()), rows)
    ensures AddOutcome(rows, s, g, nowMs).0.Err? ==> AddOutcome(rows, s, g, nowMs).1 == rows
    ensures UpdateOutcome(rows, s, g, nowMs).0.Err? ==> UpdateOutcome(rows, s, g, nowMs).1 == rows
    ensures DeleteOutcome(rows, s, g, nowMs).0.Err? ==> DeleteOutcome(rows, s, g, nowMs).1 == rows
    ensures Falsy(g.calendarId) && !Falsy(s.calendarEventId) ==>
      UpdateOutcome(rows, s, g, nowMs).0 == Err(ErrNoCalendarId) && DeleteOutcome(rows, s, g, nowMs).0 == Err(ErrNoCalendarId)
  {
  }

  /** A successful insert links exactly the course's row to the new event and stamps it;
      every other row and field stays. */
  lemma AddLinksRow(rows: seq<Schulung>, s: Schulung, g: Calendar, nowMs: int)
    requires RowOk(s)
    ensures var (res, after) := AddOutcome(rows, s, g, nowMs);
      res.Ok? ==>
        && res == g.insert(ToEvent(s)) && |after| == |rows|
        && (exists k :: 0 <= k < |rows| && rows[k].id == s.id)
        && forall k :: 0 <= k < |rows| ==>
             after[k] == if rows[k].id == s.id
                         then rows[k].(calendarEventId := Some(res.value), lastSyncedAt := Some(nowMs))
                         else rows[k]
  {
  }

  /** The first row linked to a given event, as `findFirst` returns it. */
  function FindByEventId(rows: seq<Schulung>, eventId: string): (r: Option<nat>)
    ensures r.Some? ==> r.value < |rows| && rows[r.value].calendarEventId == Some(eventId)
    ensures r.Some? ==> forall k :: 0 <= k < r.value ==> rows[k].calendarEventId != Some(eventId)
    ensures r.None? ==> forall k :: 0 <= k < |rows| ==> rows[k].calendarEventId != Some(eventId)
  {
    if rows == [] then None
    else if rows[0].calendarEventId == Some(eventId) then Some(0)
    else match FindByEventId(rows[1..], eventId)
      case None => None
      case Some(k) => Some(k + 1)
  }

  /** The update of a linked course from its event: an empty summary keeps the title; an
      absent description or location is `undefined` to Prisma and leaves the field. */
  function FromEvent(existing: Schulung, e: FetchedEvent, nowMs: int): Schulung
    requires e.start.Some? && e.end.Some?
  {
    existing.(titel := Or(e.summary, existing.titel),
              beschreibung := if e.description.Some? then e.description else existing.beschreibung,
              startDatum := e.start.value, endDatum := e.end.value,
              ort := if e.location.Some? then e.location else existing.ort,
              lastSyncedAt := Some(nowMs))
  }

  /** A course created from a foreign event, with the fixed defaults. */
  function Imported(e: FetchedEvent, newId: string, nowMs: int): Schulung
    requires e.id.Some? && e.start.Some? && e.end.Some? && EventOk(e)
  {
    var dauer := CeilDiv(ToMs(e.end.value) - ToMs(e.start.value), MsPerDay);
    Schulung(newId, Or(e.summary, "Unbekannte Schulung"), e.description, "Grundlagen", "Diverse",
             e.start.value, e.end.value, dauer, 12, 0, "bestaetigt", e.location, e.id, Some(nowMs))
  }

  /** The body of the import loop for one event. newId is the id the database gives a
      created row. */
  function ApplyEvent(rows: seq<Schulung>, e: FetchedEvent, newId: string, nowMs: int): seq<Schulung>
    requires EventOk(e)
  {
    if Falsy(e.id) || e.start.None? || e.end.None? then rows
    else match FindByEventId(rows, e.id.value)
      case Some(k) => rows[k := FromEvent(rows[k], e, nowMs)]
      case None => if !Falsy(e.privateSchulungId) then rows else rows + [Imported(e, newId, nowMs)]
  }

  /** The four cases of the import rule: incomplete events and unmatched own events are
      skipped; a matched event updates the first linked row only, where an absent
      description or location keeps the stored one and every other column stays; any other
      event becomes a new course with the event's fields, the defaults and the duration in
      started days. */
  lemma ApplyEventCases(rows: seq<Schulung>, e: FetchedEvent, newId: string, nowMs: int)
    requires EventOk(e)
    ensures Falsy(e.id) || e.start.None? || e.end.None? ==> ApplyEvent(rows, e, newId, nowMs) == rows
    ensures !Falsy(e.id) && e.start.Some? && e.end.Some? ==>
      var r := ApplyEvent(rows, e, newId, nowMs);
      match FindByEventId(rows, e.id.value)
      case Some(k) =>
        && |r| == |rows|
        && (forall j :: 0 <= j < |rows| && j != k ==> r[j] == rows[j])
        && r[k].titel == (if Falsy(e.summary) then rows[k].titel else e.summary.value)
        && r[k].startDatum == e.start.value && r[k].endDatum == e.end.value
        && r[k].lastSyncedAt == Some(nowMs)
        && r[k].beschreibung == (if e.description.Some? then e.description else rows[k].beschreibung)
        && r[k].ort == (if e.location.Some? then e.location else rows[k].ort)
        && r[k].(titel := rows[k].titel, beschreibung := rows[k].beschreibung, startDatum := rows[k].startDatum,
                 endDatum := rows[k].endDatum, ort := rows[k].ort, lastSyncedAt := rows[k].lastSyncedAt) == rows[k]
      case None =>
        if !Falsy(e.privateSchulungId) then r == rows
        else
          && |r| == |rows| + 1 && r[..|rows|] == rows
          && var c := r[|rows|];
             && c.typ == "Grundlagen" && c.hersteller == "Diverse" && c.maxTeilnehmer == 12 && c.preis == 0
             && c.status == "bestaetigt" && c.calendarEventId == e.id && c.id == newId
             && c.titel == (if Falsy(e.summary) then "Unbekannte Schulung" else e.summary.value)
             && c.beschreibung == e.description && c.ort == e.location
             && c.startDatum == e.start.value && c.endDatum == e.end.value && c.lastSyncedAt == Some(nowMs)
             && MsPerDay * (c.dauer - 1) < ToMs(e.end.value) - ToMs(e.start.value) <= MsPerDay * c.dauer
  {
  }

  /** Importing an event a second time never creates a second course for it: the first
      import linked a row to it (or skipped it for good). */
  lemma ReimportCreatesNothing(rows: seq<Schulung>, e: FetchedEvent, newId: string, newId2: string, nowMs: int, nowMs2: int)
    requires EventOk(e)
    ensures var once := ApplyEvent(rows, e, newId, nowMs);
      |ApplyEvent(once, e, newId2, nowMs2)| == |once|
  {
    var once := ApplyEvent(rows, e, newId, nowMs);
    if !(Falsy(e.id) || e.start.None? || e.end.None?) {
      match FindByEventId(rows, e.id.value)
      case Some(k) =>
        assert once[k].calendarEventId == Some(e.id.value);
      case None =>
        if Falsy(e.privateSchulungId) {
          assert once[|rows|].calendarEventId == Some(e.id.value);
        }
    }
  }

  /** An event this module exported is never imported as a new course: listed back, it
      either updates the linked row or is skipped as one of its own. */
  lemma OwnEventsNotDuplicated(rows: seq<Schulung>, s: Schulung, eventId: string, newId: string, nowMs: int)
    requires RowOk(s) && s.id != "" && eventId != ""
    ensures |ApplyEvent(rows, Listed(eventId, s), newId, nowMs)| == |rows|
  {
    var e := Listed(eventId, s);
    assert e.id == Some(eventId) && e.privateSchulungId == Some(s.id);
    MarkedEventKeepsLength(rows, e, newId, nowMs);
  }

  /** A complete event that carries a course id in its private properties never adds a row. */
  lemma MarkedEventKeepsLength(rows: seq<Schulung>, e: FetchedEvent, newId: string, nowMs: int)
    requires EventOk(e) && !Falsy(e.id) && e.start.Some? && e.end.Some? && !Falsy(e.privateSchulungId)
    ensures |ApplyEvent(rows, e, newId, nowMs)| == |rows|
  {
    match FindByEventId(rows, e.id.value)
    case Some(k) =>
      assert ApplyEvent(rows, e, newId, nowMs) == rows[k := FromEvent(rows[k], e, nowMs)];
    case None =>
      assert ApplyEvent(rows, e, newId, nowMs) == rows;
  }

  /** The import loop over the listed events, from first to last. */
  function ImportAll(rows: seq<Schulung>, events: seq<FetchedEvent>, newIds: FetchedEvent -> string, nowMs: int): seq<Schulung>
    requires forall i :: 0 <= i < |events| ==> EventOk(events[i])
    decreases |events|
  {
    if events == [] then rows
    else ImportAll(ApplyEvent(rows, events[0], newIds(events[0]), nowMs), events[1..], newIds, nowMs)
  }

  /** Each event adds at most one course, and none is removed. */
  lemma {:induction false} ImportAllGrowth(rows: seq<Schulung>, events: seq<FetchedEvent>, newIds: FetchedEvent -> string, nowMs: int)
    requires forall i :: 0 <= i < |events| ==> EventOk(events[i])
    ensures |rows| <= |ImportAll(rows, events, newIds, nowMs)| <= |rows| + |events|
    decreases |events|
  {
    if events != [] {
      ApplyEventCases(rows, events[0], newIds(events[0]), nowMs);
      ImportAllGrowth(ApplyEvent(rows, events[0], newIds(events[0]), nowMs), events[1..], newIds, nowMs);
    }
  }

  predicate AllRowsOk(rows: seq<Schulung>) {
    forall k :: 0 <= k < |rows| ==> RowOk(rows[k])
  }

  /** The import rule keeps every row's dates valid. */
  lemma ApplyEventKeepsRowsOk(rows: seq<Schulung>, e: FetchedEvent, newId: string, nowMs: int)
    requires AllRowsOk(rows) && EventOk(e)
    ensures AllRowsOk(ApplyEvent(rows, e, newId, nowMs))
  {
  }

  /** The other updates change no dates. */
  lemma UpdateRowsKeepsRowsOk(rows: seq<Schulung>, id: string, eventId: string, nowMs: int)
    requires AllRowsOk(rows)
    ensures AllRowsOk(UpdateRows(rows, id, Linked(eventId, nowMs)))
    ensures AllRowsOk(UpdateRows(rows, id, Touched(nowMs)))
    ensures AllRowsOk(UpdateRows(rows, id, Unlinked(nowMs)))
  {
  }

  datatype ImportResult = ImportResult(success: bool, synced: int, message: Option<string>, error: Option<string>)

  datatype ExportResult = ExportResult(success: bool, exported: int, total: int, errors: Option<seq<string>>,
                                       message: Option<string>, error: Option<string>)

  /** The report of `fullSync`, or its catch-all answer when the read of the stale
      courses throws. */
  datatype FullResult =
    | FullResult(success: bool, importResult: ImportResult, exportResult: ExportResult,
                 updated: int, message: string)
    | FullFailed(error: string)

  /** The two `findMany` reads the sync makes before a loop: the unlinked courses for the
      export and the stale linked courses for the update. Ok when the read answers (the
      rows it returns are filtered from the table), Err with the message when it throws. */
  datatype Queries = Queries(unlinked: Result<()>, stale: Result<()>)

  /** What `syncFromCalendar` reports: every listed event counts as synced, skipped ones
      included; a missing calendar id or a failed listing reports failure and 0. */
  function ImportSummary(g: Calendar): ImportResult {
    if Falsy(g.calendarId) then ImportResult(false, 0, None, Some(ErrNoCalendarId))
    else match g.list
      case Err(m) => ImportResult(false, 0, None, Some(m))
      case Ok(events) =>
        ImportResult(true, |events|, Some(IntToString(|events|) + " Events erfolgreich synchronisiert"), None)
  }

  /** The table after `syncFromCalendar`. */
  function ImportRows(rows: seq<Schulung>, g: Calendar, newIds: FetchedEvent -> string, nowMs: int): seq<Schulung>
    requires g.list.Ok? ==> forall i :: 0 <= i < |g.list.value| ==> EventOk(g.list.value[i])
  {
    if Falsy(g.calendarId) || g.list.Err? then rows else ImportAll(rows, g.list.value, newIds, nowMs)
  }

  /** The courses `syncToCalendar` exports: not linked and not cancelled. */
  predicate NeedsExport(s: Schulung) {
    s.calendarEventId.None? && s.status != "abgesagt"
  }

  /** The export loop from some counter values on: the table, the count of exported
      courses and the error lines `<titel>: <message>`. */
  function ExportFrom(rows: seq<Schulung>, exported: int, errors: seq<string>, pending: seq<Schulung>, g: Calendar, nowMs: int)
    : (seq<Schulung>, int, seq<string>)
    requires AllRowsOk(pending)
    decreases |pending|
  {
    if pending == [] then (rows, exported, errors)
    else
      var (res, after) := AddOutcome(rows, pending[0], g, nowMs);
      if res.Ok? then ExportFrom(after, exported + 1, errors, pending[1..], g, nowMs)
      else ExportFrom(after, exported, errors + [pending[0].titel + ": " + res.message], pending[1..], g, nowMs)
  }

  /** Every attempt is either counted or leaves one error line, never both: exported +
      errors = total, so exported <= total. */
  lemma {:induction false} ExportCounts(rows: seq<Schulung>, exported: int, errors: seq<string>, pending: seq<Schulung>, g: Calendar, nowMs: int)
    requires AllRowsOk(pending)
    ensures var (_, n, errs) := ExportFrom(rows, exported, errors, pending, g, nowMs);
      && n + |errs| == exported + |errors| + |pending|
      && exported <= n <= exported + |pending|
      && errs[..|errors|] == errors
    decreases |pending|
  {
    if pending != [] {
      var (res, after) := AddOutcome(rows, pending[0], g, nowMs);
      if res.Ok? {
        ExportCounts(after, exported + 1, errors, pending[1..], g, nowMs);
      } else {
        var errors' := errors + [pending[0].titel + ": " + res.message];
        ExportCounts(after, exported, errors', pending[1..], g, nowMs);
        var errs := ExportFrom(after, exported, errors', pending[1..], g, nowMs).2;
        PrefixOfPrefix(errs, errors, errors');
      }
    }
  }

  lemma PrefixOfPrefix(errs: seq<string>, errors: seq<string>, errors': seq<string>)
    requires |errors| <= |errors'| <= |errs| && errs[..|errors'|] == errors' && errors'[..|errors|] == errors
    ensures errs[..|errors|] == errors
  {
    assert errs[..|errors|] == errs[..|errors'|][..|errors|];
  }

  /** Without a calendar id nothing is exported and every course gets the same error line. */
  lemma {:induction false} ExportWithoutCalendar(rows: seq<Schulung>, errors: seq<string>, pending: seq<Schulung>, g: Calendar, nowMs: int)
    requires AllRowsOk(pending) && Falsy(g.calendarId)
    ensures ExportFrom(rows, 0, errors, pending, g, nowMs)
      == (rows, 0, errors + seq(|pending|, i requires 0 <= i < |pending| => pending[i].titel + ": " + ErrNoCalendarId))
    decreases |pending|
  {
    if pending != [] {
      var line := pending[0].titel + ": " + ErrNoCalendarId;
      ExportWithoutCalendar(rows, errors + [line], pending[1..], g, nowMs);
      var tail := pending[1..];
      assert errors + [line] + seq(|tail|, i requires 0 <= i < |tail| => tail[i].titel + ": " + ErrNoCalendarId)
        == errors + seq(|pending|, i requires 0 <= i < |pending| => pending[i].titel + ": " + ErrNoCalendarId);
    } else {
      assert seq(|pending|, i requires 0 <= i < |pending| => pending[i].titel + ": " + ErrNoCalendarId) == [];
      assert errors + [] == errors;
    }
  }

  /** The courses of the table that need exporting are valid rows of it. */
  lemma PendingRowsOk(rows: seq<Schulung>, p: Schulung -> bool)
    requires AllRowsOk(rows)
    ensures AllRowsOk(Filter(rows, p))
  {
    var f := Filter(rows, p);
    forall k | 0 <= k < |f| ensures RowOk(f[k]) {
      FilterMembership(rows, p, f[k]);
    }
  }

  /** What `syncToCalendar` reports and leaves in the table. */
  function ExportOutcome(rows: seq<Schulung>, g: Calendar, q: Queries, nowMs: int): (ExportResult, seq<Schulung>)
    requires AllRowsOk(rows)
  {
    if q.unlinked.Err? then (ExportResult(false, 0, 0, None, None, Some(q.unlinked.message)), rows)
    else
    var pending := Filter(rows, NeedsExport);
    PendingRowsOk(rows, NeedsExport);
    var (after, n, errs) := ExportFrom(rows, 0, [], pending, g, nowMs);
    (ExportResult(true, n, |pending|, if |errs| > 0 then Some(errs) else None,
                  Some(IntToString(n) + " von " + IntToString(|pending|) + " Schulungen exportiert"), None),
     after)
  }

  /** The export fails, leaving the table, exactly when its read of the unlinked courses
      throws; otherwise it attempts every unlinked, not cancelled course and each attempt
      is counted or leaves one error line. */
  lemma ExportOutcomeCases(rows: seq<Schulung>, g: Calendar, q: Queries, nowMs: int)
    requires AllRowsOk(rows)
    ensures var (r, after) := ExportOutcome(rows, g, q, nowMs);
      && (r.success <==> q.unlinked.Ok?)
      && (q.unlinked.Err? ==> r == ExportResult(false, 0, 0, None, None, Some(q.unlinked.message)) && after == rows)
      && (q.unlinked.Ok? ==>
            && r.total == |Filter(rows, NeedsExport)| && r.error.None?
            && r.exported + (if r.errors.Some? then |r.errors.value| else 0) == r.total)
  {
    if q.unlinked.Ok? {
      PendingRowsOk(rows, NeedsExport);
      ExportCounts(rows, 0, [], Filter(rows, NeedsExport), g, nowMs);
    }
  }

  /** Courses `fullSync` pushes again: linked (a non-null id) and never synced or synced
      more than a day ago. */
  function Stale(nowMs: int): Schulung -> bool {
    (s: Schulung) => s.calendarEventId.Some? && (s.lastSyncedAt.None? || s.lastSyncedAt.value < nowMs - MsPerDay)
  }

  /** The update loop of `fullSync`: the table and the number of successful updates. */
  function UpdateFrom(rows: seq<Schulung>, updated: int, pending: seq<Schulung>, g: Calendar, nowMs: int): (seq<Schulung>, int)
    requires AllRowsOk(pending)
    decreases |pending|
  {
    if pending == [] then (rows, updated)
    else
      var (res, after) := UpdateOutcome(rows, pending[0], g, nowMs);
      UpdateFrom(after, if res.Ok? then updated + 1 else updated, pending[1..], g, nowMs)
  }

  lemma {:induction false} UpdateCounts(rows: seq<Schulung>, updated: int, pending: seq<Schulung>, g: Calendar, nowMs: int)
    requires AllRowsOk(pending)
    ensures updated <= UpdateFrom(rows, updated, pending, g, nowMs).1 <= updated + |pending|
    decreases |pending|
  {
    if pending != [] {
      var (res, after) := UpdateOutcome(rows, pending[0], g, nowMs);
      UpdateCounts(after, if res.Ok? then updated + 1 else updated, pending[1..], g, nowMs);
    }
  }

  /** `fullSync`: import, export, then the stale linked courses; success is the conjunction
      of the import's and the export's. */
  function FullOutcome(rows: seq<Schulung>, g: Calendar, q: Queries, newIds: FetchedEvent -> string, nowMs: int): (FullResult, seq<Schulung>)
    requires AllRowsOk(rows)
    requires g.list.Ok? ==> forall i :: 0 <= i < |g.list.value| ==> EventOk(g.list.value[i])
  {
    var imported := ImportRows(rows, g, newIds, nowMs);
    ImportRowsOk(rows, g, newIds, nowMs);
    var importResult := ImportSummary(g);
    var (exportResult, exported) := ExportOutcome(imported, g, q, nowMs);
    ExportKeepsRowsOk(imported, g, q, nowMs);
    if q.stale.Err? then (FullFailed(q.stale.message), exported)
    else
    var stale := Filter(exported, Stale(nowMs));
    PendingRowsOk(exported, Stale(nowMs));
    var (after, updated) := UpdateFrom(exported, 0, stale, g, nowMs);
    (FullResult(importResult.success && exportResult.success, importResult, exportResult, updated,
                "Sync abgeschlossen: " + IntToString(importResult.synced) + " importiert, "
                  + IntToString(exportResult.exported) + " exportiert, " + IntToString(updated) + " aktualisiert"),
     after)
  }

  lemma {:induction false} ImportAllKeepsRowsOk(rows: seq<Schulung>, events: seq<FetchedEvent>, newIds: FetchedEvent -> string, nowMs: int)
    requires AllRowsOk(rows)
    requires forall i :: 0 <= i < |events| ==> EventOk(events[i])
    ensures AllRowsOk(ImportAll(rows, events, newIds, nowMs))
    decreases |events|
  {
    if events != [] {
      ApplyEventKeepsRowsOk(rows, events[0], newIds(events[0]), nowMs);
      ImportAllKeepsRowsOk(ApplyEvent(rows, events[0], newIds(events[0]), nowMs), events[1..], newIds, nowMs);
    }
  }

  lemma ImportRowsOk(rows: seq<Schulung>, g: Calendar, newIds: FetchedEvent -> string, nowMs: int)
    requires AllRowsOk(rows)
    requires g.list.Ok? ==> forall i :: 0 <= i < |g.list.value| ==> EventOk(g.list.value[i])
    ensures AllRowsOk(ImportRows(rows, g, newIds, nowMs))
  {
    if !(Falsy(g.calendarId) || g.list.Err?) {
      ImportAllKeepsRowsOk(rows, g.list.value, newIds, nowMs);
    }
  }

  lemma {:induction false} ExportFromKeepsRowsOk(rows: seq<Schulung>, exported: int, errors: seq<string>, pending: seq<Schulung>, g: Calendar, nowMs: int)
    requires AllRowsOk(rows) && AllRowsOk(pending)
    ensures AllRowsOk(ExportFrom(rows, exported, errors, pending, g, nowMs).0)
    decreases |pending|
  {
    if pending != [] {
      var (res, after) := AddOutcome(rows, pending[0], g, nowMs);
      AddKeepsRowsOk(rows, pending[0], g, nowMs);
      assert AllRowsOk(pending[1..]);
      if res.Ok? {
        ExportFromKeepsRowsOk(after, exported + 1, errors, pending[1..], g, nowMs);
      } else {
        ExportFromKeepsRowsOk(after, exported, errors + [pending[0].titel + ": " + res.message], pending[1..], g, nowMs);
      }
    }
  }

  lemma AddKeepsRowsOk(rows: seq<Schulung>, s: Schulung, g: Calendar, nowMs: int)
    requires AllRowsOk(rows) && RowOk(s)
    ensures AllRowsOk(AddOutcome(rows, s, g, nowMs).1)
  {
    var (res, after) := AddOutcome(rows, s, g, nowMs);
    if res.Ok? {
      UpdateRowsKeepsRowsOk(rows, s.id, res.value, nowMs);
    }
  }

  lemma ExportKeepsRowsOk(rows: seq<Schulung>, g: Calendar, q: Queries, nowMs: int)
    requires AllRowsOk(rows)
    ensures AllRowsOk(ExportOutcome(rows, g, q, nowMs).1)
  {
    PendingRowsOk(rows, NeedsExport);
    ExportFromKeepsRowsOk(rows, 0, [], Filter(rows, NeedsExport), g, nowMs);
  }

  /** The reports of a full sync: a throwing read of the stale courses gives the
      catch-all failure; otherwise success is the conjunction, the import counts every
      listed event, the export fails exactly when its read throws, its counters add up,
      and at most the stale courses are updated. */
  lemma FullSyncReport(rows: seq<Schulung>, g: Calendar, q: Queries, newIds: FetchedEvent -> string, nowMs: int)
    requires AllRowsOk(rows)
    requires g.list.Ok? ==> forall i :: 0 <= i < |g.list.value| ==> EventOk(g.list.value[i])
    ensures var r := FullOutcome(rows, g, q, newIds, nowMs).0;
      && (r.FullFailed? <==> q.stale.Err?)
      && (r.FullFailed? ==> r.error == q.stale.message)
      && (r.FullResult? ==>
            && r.success == (r.importResult.success && r.exportResult.success)
            && r.importResult == ImportSummary(g)
            && (r.exportResult.success <==> q.unlinked.Ok?)
            && (!r.exportResult.success ==> r.exportResult == ExportResult(false, 0, 0, None, None, Some(q.unlinked.message)))
            && r.exportResult.exported + (if r.exportResult.errors.Some? then |r.exportResult.errors.value| else 0) == r.exportResult.total
            && 0 <= r.exportResult.exported <= r.exportResult.total
            && 0 <= r.updated
            && r.success == (!Falsy(g.calendarId) && g.list.Ok? && q.unlinked.Ok?))
  {
    var imported := ImportRows(rows, g, newIds, nowMs);
    ImportRowsOk(rows, g, newIds, nowMs);
    PendingRowsOk(imported, NeedsExport);
    ExportCounts(imported, 0, [], Filter(imported, NeedsExport), g, nowMs);
    ExportKeepsRowsOk(imported, g, q, nowMs);
    var exported := ExportOutcome(imported, g, q, nowMs).1;
    PendingRowsOk(exported, Stale(nowMs));
    UpdateCounts(exported, 0, Filter(exported, Stale(nowMs)), g, nowMs);
  }

  /** The course table as the sync functions change it. */
  class CourseTable {
    var schulungen: seq<Schulung>

    ghost predicate Valid()
      reads this
    {
      AllRowsOk(schulungen)
    }

    constructor(rows: seq<Schulung>)
      requires AllRowsOk(rows)
      ensures Valid() && schulungen == rows
    {
      schulungen := rows;
    }

    /** `addToCalendar`. */
    method AddToCalendar(s: Schulung, g: Calendar, nowMs: int) returns (r: Result<string>)
      requires Valid() && RowOk(s)
      modifies this
      ensures Valid()
      ensures (r, schulungen) == AddOutcome(old(schulungen), s, g, nowMs)
    {
      if Falsy(g.calendarId) {
        return Err(ErrNoCalendarId);
      }
      var response := g.insert(ToEvent(s));
      if response.Err? {
        return Err(response.message);
      }
      if !HasId(schulungen, s.id) {
        return Err(ErrNotFound);
      }
      UpdateRowsKeepsRowsOk(schulungen, s.id, response.value, nowMs);
      schulungen := UpdateRows(schulungen, s.id, Linked(response.value, nowMs));
      return Ok(response.value);
    }

    /** `updateInCalendar`. */
    method UpdateInCalendar(s: Schulung, g: Calendar, nowMs: int) returns (r: Result<string>)
      requires Valid() && RowOk(s)
      modifies this
      ensures Valid()
      ensures (r, schulungen) == UpdateOutcome(old(schulungen), s, g, nowMs)
    {
      if Falsy(s.calendarEventId) {
        r := AddToCalendar(s, g, nowMs);
        return;
      }
      if Falsy(g.calendarId) {
        return Err(ErrNoCalendarId);
      }
      var response := g.update(s.calendarEventId.value, ToEvent(s));
      if response.Err? {
        return Err(response.message);
      }
      if !HasId(schulungen, s.id) {
        return Err(ErrNotFound);
      }
      UpdateRowsKeepsRowsOk(schulungen, s.id, "", nowMs);
      schulungen := UpdateRows(schulungen, s.id, Touched(nowMs));
      return Ok(s.calendarEventId.value);
    }

    /** `deleteFromCalendar`. */
    method DeleteFromCalendar(s: Schulung, g: Calendar, nowMs: int) returns (r: Result<()>)
      requires Valid()
      modifies this
      ensures Valid()
      ensures (r, schulungen) == DeleteOutcome(old(schulungen), s, g, nowMs)
    {
      if Falsy(s.calendarEventId) {
        return Ok(());
      }
      if Falsy(g.calendarId) {
        return Err(ErrNoCalendarId);
      }
      var response := g.remove(s.calendarEventId.value);
      if response.Err? {
        return Err(response.message);
      }
      if !HasId(schulungen, s.id) {
        return Err(ErrNotFound);
      }
      UpdateRowsKeepsRowsOk(schulungen, s.id, "", nowMs);
      schulungen := UpdateRows(schulungen, s.id, Unlinked(nowMs));
      return Ok(());
    }

    /** `syncFromCalendar`: the import rule for every listed event, in order. */
    method SyncFromCalendar(g: Calendar, newIds: FetchedEvent -> string, nowMs: int) returns (r: ImportResult)
      requires Valid()
      requires g.list.Ok? ==> forall i :: 0 <= i < |g.list.value| ==> EventOk(g.list.value[i])
      modifies this
      ensures Valid()
      ensures r == ImportSummary(g)
      ensures schulungen == ImportRows(old(schulungen), g, newIds, nowMs)
    {
      if Falsy(g.calendarId) {
        return ImportResult(false, 0, None, Some(ErrNoCalendarId));
      }
      if g.list.Err? {
        return ImportResult(false, 0, None, Some(g.list.message));
      }
      var events := g.list.value;
      var i := 0;
      while i < |events|
        invariant 0 <= i <= |events|
        invariant AllRowsOk(schulungen)
        invariant ImportAll(schulungen, events[i..], newIds, nowMs) == ImportAll(old(schulungen), events, newIds, nowMs)
      {
        var e := events[i];
        assert events[i..][1..] == events[i + 1..];
        ApplyEventKeepsRowsOk(schulungen, e, newIds(e), nowMs);
        if !(Falsy(e.id) || e.start.None? || e.end.None?) {
          var existing := FindByEventId(schulungen, e.id.value);
          if existing.Some? {
            var k := existing.value;
            schulungen := schulungen[k := FromEvent(schulungen[k], e, nowMs)];
          } else if Falsy(e.privateSchulungId) {
            schulungen := schulungen + [Imported(e, newIds(e), nowMs)];
          }
        }
        i := i + 1;
      }
      return ImportResult(true, |events|, Some(IntToString(|events|) + " Events erfolgreich synchronisiert"), None);
    }

    /** `syncToCalendar`: every unlinked, not cancelled course is added to the calendar;
        failures are collected, not raised. */
    method SyncToCalendar(g: Calendar, q: Queries, nowMs: int) returns (r: ExportResult)
      requires Valid()
      modifies this
      ensures Valid()
      ensures (r, schulungen) == ExportOutcome(old(schulungen), g, q, nowMs)
    {
      if q.unlinked.Err? {
        return ExportResult(false, 0, 0, None, None, Some(q.unlinked.message));
      }
      var pending := Filter(schulungen, NeedsExport);
      PendingRowsOk(schulungen, NeedsExport);
      var exported, errors := 0, [];
      var i := 0;
      while i < |pending|
        invariant 0 <= i <= |pending|
        invariant AllRowsOk(schulungen)
        invariant ExportFrom(schulungen, exported, errors, pending[i..], g, nowMs)
                  == ExportFrom(old(schulungen), 0, [], pending, g, nowMs)
      {
        assert pending[i..][1..] == pending[i + 1..];
        var res := AddToCalendar(pending[i], g, nowMs);
        if res.Ok? {
          exported := exported + 1;
        } else {
          errors := errors + [pending[i].titel + ": " + res.message];
        }
        i := i + 1;
      }
      var total := |pending|;
      return ExportResult(true, exported, total, if |errors| > 0 then Some(errors) else None,
                          Some(IntToString(exported) + " von " + IntToString(total) + " Schulungen exportiert"), None);
    }

    /** `fullSync`. */
    method FullSync(g: Calendar, q: Queries, newIds: FetchedEvent -> string, nowMs: int) returns (r: FullResult)
      requires Valid()
      requires g.list.Ok? ==> forall i :: 0 <= i < |g.list.value| ==> EventOk(g.list.value[i])
      modifies this
      ensures Valid()
      ensures (r, schulungen) == FullOutcome(old(schulungen), g, q, newIds, nowMs)
    {
      var importResult := SyncFromCalendar(g, newIds, nowMs);
      var exportResult := SyncToCalendar(g, q, nowMs);
      if q.stale.Err? {
        return FullFailed(q.stale.message);
      }
      var stale := Filter(schulungen, Stale(nowMs));
      PendingRowsOk(schulungen, Stale(nowMs));
      ghost var start := schulungen;
      var updated := 0;
      var i := 0;
      while i < |stale|
        invariant 0 <= i <= |stale|
        invariant AllRowsOk(schulungen)
        invariant UpdateFrom(schulungen, updated, stale[i..], g, nowMs) == UpdateFrom(start, 0, stale, g, nowMs)
      {
        assert stale[i..][1..] == stale[i + 1..];
        var res := UpdateInCalendar(stale[i], g, nowMs);
        if res.Ok? {
          updated := updated + 1;
        }
        i := i + 1;
      }
      r := FullResult(importResult.success && exportResult.success, importResult, exportResult, updated,
                      "Sync abgeschlossen: " + IntToString(importResult.synced) + " importiert, "
                        + IntToString(exportResult.exported) + " exportiert, " + IntToString(updated) + " aktualisiert");
    }
  }
}

