/** `POST /api/sync`: picks import, export or both from the request's `action` and
    answers with the sync functions' reports. */
module SyncRoute {
  import opened Options
  import opened JsStrings
  import opened CalendarSync

  /** The JSON answer; every alternative but the last two is sent with status 200. */
  datatype Reply =
    | ImportReply(importResult: ImportResult)
    | ExportReply(exportResult: ExportResult)
    | FullReply(success: bool, importPart: ImportResult, exportPart: ExportResult)
    | UnknownAction(error: string)
    | Crashed(message: string)

  const ErrUnknownAction: string := "Unbekannte Aktion. Nutze: import, export, oder full"

  function Status(r: Reply): int {
    match r
    case UnknownAction(_) => 400
    case Crashed(_) => 500
    case _ => 200
  }

  /** What the calendar hands the import: events with the fields the import rule reads. */
  predicate ListingOk(g: Calendar) {
    g.list.Ok? ==> forall i :: 0 <= i < |g.list.value| ==> EventOk(g.list.value[i])
  }

  /** The route as written. action is the outcome of reading `body.action`: Err when the
      body is not JSON or is null, None when action is missing or not a string. */
  function Route(rows: seq<Schulung>, action: Result<Option<string>>, g: Calendar, q: Queries,
                 newIds: FetchedEvent -> string, nowMs: int): (Reply, seq<Schulung>)
    requires AllRowsOk(rows) && ListingOk(g)
  {
    if action.Err? then (Crashed(action.message), rows)
    else if action.value == Some("import") then (ImportReply(ImportSummary(g)), ImportRows(rows, g, newIds, nowMs))
    else if action.value == Some("export") then
      var (e, after) := ExportOutcome(rows, g, q, nowMs);
      (ExportReply(e), after)
    else if action.value == Some("full") then
      var imported := ImportRows(rows, g, newIds, nowMs);
      var imp := ImportSummary(g);
      if !imp.success then (ImportReply(imp), imported)
      else
        ImportRowsOk(rows, g, newIds, nowMs);
        var (e, after) := ExportOutcome(imported, g, q, nowMs);
        (FullReply(imp.success && e.success, imp, e), after)
    else (UnknownAction(ErrUnknownAction), rows)
  }

  /** 400 exactly for an action other than the three names, 500 exactly for an unreadable
      body; both leave the table as it was. */
  lemma RouteStatus(rows: seq<Schulung>, action: Result<Option<string>>, g: Calendar, q: Queries,
                    newIds: FetchedEvent -> string, nowMs: int)
    requires AllRowsOk(rows) && ListingOk(g)
    ensures var (reply, after) := Route(rows, action, g, q, newIds, nowMs);
      && (Status(reply) == 400 <==> action.Ok? && action.value !in {Some("import"), Some("export"), Some("full")})
      && (Status(reply) == 500 <==> action.Err?)
      && (Status(reply) != 200 ==> after == rows)
  {
  }

  /** `full` is `import` followed by `export` when the import succeeds, and succeeds
      when the export's read answers; when the import fails nothing is exported, the
      table is unchanged and the import's report is the answer. */
  lemma FullIsImportThenExport(rows: seq<Schulung>, g: Calendar, q: Queries, newIds: FetchedEvent -> string, nowMs: int)
    requires AllRowsOk(rows) && ListingOk(g)
    ensures var (imp, imported) := Route(rows, Ok(Some("import")), g, q, newIds, nowMs);
      var (full, after) := Route(rows, Ok(Some("full")), g, q, newIds, nowMs);
      && AllRowsOk(imported)
      && (imp.importResult.success ==>
            && after == Route(imported, Ok(Some("export")), g, q, newIds, nowMs).1
            && var exp := Route(imported, Ok(Some("export")), g, q, newIds, nowMs).0.exportResult;
               full == FullReply(exp.success, imp.importResult, exp) && (exp.success <==> q.unlinked.Ok?))
      && (!imp.importResult.success ==> full == imp && after == rows)
  {
    ImportRowsOk(rows, g, newIds, nowMs);
  }

  /** Every answer of the route keeps the rows well formed. */
  lemma RouteKeepsRowsOk(rows: seq<Schulung>, action: Result<Option<string>>, g: Calendar, q: Queries,
                         newIds: FetchedEvent -> string, nowMs: int)
    requires AllRowsOk(rows) && ListingOk(g)
    ensures AllRowsOk(Route(rows, action, g, q, newIds, nowMs).1)
  {
    ImportRowsOk(rows, g, newIds, nowMs);
    if action.Ok? && action.value == Some("export") {
      ExportKeepsRowsOk(rows, g, q, nowMs);
      assert Route(rows, action, g, q, newIds, nowMs).1 == ExportOutcome(rows, g, q, nowMs).1;
    } else if action.Ok? && action.value == Some("full") && ImportSummary(g).success {
      var imported := ImportRows(rows, g, newIds, nowMs);
      ExportKeepsRowsOk(imported, g, q, nowMs);
      assert Route(rows, action, g, q, newIds, nowMs).1 == ExportOutcome(imported, g, q, nowMs).1;
    }
  }

  /** The sync page's buttons post `from`, `to` and `full`; the route as written answers
      the first two with 400 and does nothing. */
  lemma PageActionsRejected(rows: seq<Schulung>, g: Calendar, q: Queries, newIds: FetchedEvent -> string, nowMs: int)
    requires AllRowsOk(rows) && ListingOk(g)
    ensures Route(rows, Ok(Some("from")), g, q, newIds, nowMs) == (UnknownAction(ErrUnknownAction), rows)
    ensures Route(rows, Ok(Some("to")), g, q, newIds, nowMs) == (UnknownAction(ErrUnknownAction), rows)
  {
  }

  /** The page's names for the two directions: `from` the calendar is the import, `to`
      the calendar the export. */
  function PageAction(action: Result<Option<string>>): (r: Result<Option<string>>)
    ensures action == Ok(Some("from")) ==> r == Ok(Some("import"))
    ensures action == Ok(Some("to")) ==> r == Ok(Some("export"))
    ensures action != Ok(Some("from")) && action != Ok(Some("to")) ==> r == action
  {
    if action == Ok(Some("from")) then Ok(Some("import"))
    else if action == Ok(Some("to")) then Ok(Some("export"))
    else action
  }

  /** The route as intended: it also understands the page's names. */
  function FixedRoute(rows: seq<Schulung>, action: Result<Option<string>>, g: Calendar, q: Queries,
                      newIds: FetchedEvent -> string, nowMs: int): (Reply, seq<Schulung>)
    requires AllRowsOk(rows) && ListingOk(g)
  {
    Route(rows, PageAction(action), g, q, newIds, nowMs)
  }

  /** Every button of the page is served: `from` imports, `to` exports, `full` does both;
      the API's own names keep their meaning. */
  lemma PageActionsAccepted(rows: seq<Schulung>, g: Calendar, q: Queries, newIds: FetchedEvent -> string, nowMs: int)
    requires AllRowsOk(rows) && ListingOk(g)
    ensures FixedRoute(rows, Ok(Some("from")), g, q, newIds, nowMs) == Route(rows, Ok(Some("import")), g, q, newIds, nowMs)
    ensures FixedRoute(rows, Ok(Some("to")), g, q, newIds, nowMs) == Route(rows, Ok(Some("export")), g, q, newIds, nowMs)
    ensures forall a :: a in {"from", "to", "full", "import", "export"} ==>
      Status(FixedRoute(rows, Ok(Some(a)), g, q, newIds, nowMs).0) == 200
    ensures forall a :: a in {"import", "export", "full"} ==>
      FixedRoute(rows, Ok(Some(a)), g, q, newIds, nowMs) == Route(rows, Ok(Some(a)), g, q, newIds, nowMs)
  {
    forall a | a in {"from", "to", "full", "import", "export"}
      ensures Status(FixedRoute(rows, Ok(Some(a)), g, q, newIds, nowMs).0) == 200
    {
      var named := if a == "from" then "import" else if a == "to" then "export" else a;
      assert PageAction(Ok(Some(a))) == Ok(Some(named));
      NamedActionServed(rows, named, g, q, newIds, nowMs);
    }
  }

  /** The three names the route knows are answered with status 200. */
  lemma NamedActionServed(rows: seq<Schulung>, a: string, g: Calendar, q: Queries, newIds: FetchedEvent -> string, nowMs: int)
    requires AllRowsOk(rows) && ListingOk(g) && (a == "import" || a == "export" || a == "full")
    ensures Status(Route(rows, Ok(Some(a)), g, q, newIds, nowMs).0) == 200
  {
    if a == "full" {
      assert Some(a) != Some("import") && Some(a) != Some("export");
    }
  }

  /** The route on the course table, through the table's sync methods. */
  method Post(t: CourseTable, action: Result<Option<string>>, g: Calendar, q: Queries,
              newIds: FetchedEvent -> string, nowMs: int) returns (reply: Reply)
    requires t.Valid() && ListingOk(g)
    modifies t
    ensures t.Valid()
    ensures (reply, t.schulungen) == FixedRoute(old(t.schulungen), action, g, q, newIds, nowMs)
  {
    var a := PageAction(action);
    if a.Err? {
      return Crashed(a.message);
    }
    if a.value == Some("import") {
      var imp := t.SyncFromCalendar(g, newIds, nowMs);
      return ImportReply(imp);
    }
    if a.value == Some("export") {
      var e := t.SyncToCalendar(g, q, nowMs);
      return ExportReply(e);
    }
    if a.value == Some("full") {
      var imp := t.SyncFromCalendar(g, newIds, nowMs);
      if !imp.success {
        return ImportReply(imp);
      }
      var e := t.SyncToCalendar(g, q, nowMs);
      return FullReply(imp.success && e.success, imp, e);
    }
    return UnknownAction(ErrUnknownAction);
  }
}
