# Robot training administration — a verified model of its core

This project models the core of the administration system of a robot training
provider. It covers courses (Schulungen), participants (Teilnehmer), course
templates and certificates (Zertifikate). The model is written in Dafny.

The certificate helpers:
- build the authenticated input of a certificate;
- number certificates;
- choose a PDF template;
- compute expiry and validity;
- prepare the record for the PDF renderer.

The certificate issuing endpoint:
- runs a fixed order of checks over the course, participant and certificate tables;
- appends exactly one record when every check passes.

The utility library comes in two copies:
- labels and colours;
- seat arithmetic;
- day- and instant-based date tests;
- certificate numbers;
- the Base64 "QR hash" and its percent-encoded validation link;
- phone formatting and the e-mail pattern;
- truncation and slugs;
- grouping, sorting and relative times.

The calendar reconciliation covers:
- the event built for a course;
- the guards of the single-course operations;
- the per-event import rule;
- the export counters;
- the combined sync.

The two API routes for courses and templates check required fields and fill defaults. The sync route dispatches on the request's action.

The pages and dialogs covered are:
- the filters and stat cards of the course list;
- the template editor and its submit cleaning;
- the certificate generator dialog, with its request loop, progress and byte chunking;
- the new-course dialog, with its automatic duration and check cascade;
- the participant dialog, with its check cascade and reset;
- the dashboard figures;
- the template overview.

The model shapes:
- **Pure logic:** functions over datatypes, with lemmas about them.
- **In-place state:** state the program updates in place is a `class`. These are the course table of the calendar sync, the certificate table of the issuing route, the template editor and the two dialogs. The methods of the calendar table, the certificate table and the two dialogs are proved equal to specification functions. The template editor's methods state their new fields directly and leave the other fields unchanged.
- **Loops:** become methods with loop invariants. These are the filter chain, the request loop, the chunking loop, the grouping reduction and the sorting.
- **Outside inputs:** foreign services and readings of the environment are parameters: hash primitives, the database, the calendar API, the PDF renderer, the clock and `Math.random`.

Modules: `Options`, `JsStrings`, `Seqs`, `Dates`, `Base64` and `UriEncoding` hold the JavaScript primitives the core relies on. There is one module per core source file:

| module | source file |
|---|---|
| `CertificateUtils` | `certificate-utils.ts` |
| `AdminCertificate` | `apps/admin/src/lib/certificate.ts` |
| `IssueRoute` | `api/zertifikate/generate/route.ts` |
| `Utils` | `apps/admin/src/lib/utils.ts` |
| `UtilsVariant` | the `schulungsdetails-update` copy of `utils.ts` |
| `CalendarSync` | `calendar-sync.ts` |
| `SchulungenRoute` | `api/schulungen/route.ts` |
| `TemplatesRoute` | `api/templates/route.ts` |
| `SyncRoute` | `api/sync/route.ts` |
| `SchulungenPage` | `schulungen/page.tsx` |
| `TemplateEditor` | `templates/neu/page.tsx` |
| `CertificateModal` | `ZertifikatGeneratorModal.tsx` |
| `NeueSchulungModal` | `NeueSchulungModal.tsx` |
| `TeilnehmerModal` | `TeilnehmerModal.tsx` |
| `Dashboard` | `app/page.tsx` |
| `TemplatesPage` | `templates/page.tsx` |

## Model

| member | source | states |
|---|---|---|
| CertificateUtils.ValidateIsRecomputation | certificate-utils.ts:7-32 | a hash validates iff it equals the HMAC, under `CERTIFICATE_SECRET` or the default key, of `schulungId-teilnehmerId-ISOdate`; a freshly generated hash always validates |
| CertificateUtils.HashMessageInjective | certificate-utils.ts:12-18 | with ids free of "-", equal messages for one date mean equal id pairs |
| CertificateUtils.SeparatorCollision | certificate-utils.ts:12-18 | ("a-b","c") and ("a","b-c") give the same message, and the hash of one validates for the other |
| CertificateUtils.MonthPartDigits | certificate-utils.ts:46-52 | the month part is two digits whose value is the month |
| CertificateUtils.NumberPartDigits | certificate-utils.ts:46-52 | the running part is the count itself with no increment: digits of value count, at least 4 characters, exactly 4 below 10000, never truncated |
| CertificateUtils.CertificateNumberInjective | certificate-utils.ts:46-52 | for unsigned years, a certificate number determines year, month and count |
| CertificateUtils.DetermineTemplateByFamily | certificate-utils.ts:57-91 | kuka/abb/mitsubishi/universal_robots give `<family>-grundlagen`, `-praxis` or `-sonstige` by type (ur for universal_robots); any other manufacturer gives robtec-standard |
| CertificateUtils.KukaTemplates | certificate-utils.ts:62-66 | the KUKA branch gives kuka-<kind of the type> |
| CertificateUtils.UniversalRobotsTemplates | certificate-utils.ts:83-87 | the Universal Robots branch uses the family name ur |
| CertificateUtils.ValidityIsStrict | certificate-utils.ts:107-118 | validity is strict (not valid at the expiry instant); a certificate issued now with the default three years is valid now |
| Dates.AddYears | certificate-utils.ts:107-111 | the copy moves the year, keeps month, day and time, and rolls 29 February to 1 March in a non-leap target year |
| Dates.AddYearsIsLater | certificate-utils.ts:107-111 | adding one year or more gives a strictly later instant |
| CertificateUtils.LabelsFallBack | certificate-utils.ts:170-189 | known types and manufacturers get their labels, unknown keys pass through unchanged |
| CertificateUtils.PreparedDataFacts | certificate-utils.ts:37-168 | the QR link is `<app url or default>/verify/<id>?hash=<stored hash>`; the participant name is "vorname nachname"; optional fields are present iff non-empty and then unchanged; unknown type and manufacturer keys pass through |
| AdminCertificate.ValidateIsRecomputation | apps/admin/src/lib/certificate.ts:8-67 | a hash validates iff it is the SHA-256 of number, participant, course, ISO date and secret (or `fallback-secret`) joined by "\|", recomputed from the same data; a fresh hash validates |
| AdminCertificate.HashInputInjective | apps/admin/src/lib/certificate.ts:8-26 | with fields free of "\|", the hashed input determines the record, issue date included |
| Dates.IsoInjective | apps/admin/src/lib/certificate.ts:18 | two valid dates with the same `toISOString()` text are the same date |
| AdminCertificate.SeparatorCollision | apps/admin/src/lib/certificate.ts:8-26 | a "\|" moved between number and participant gives two different records with one input, whose hash validates for both |
| AdminCertificate.RandomNumber | apps/admin/src/lib/certificate.ts:33 | the random number lies in 100000..999999 for any draw in [0,1) |
| AdminCertificate.YearOr | apps/admin/src/lib/certificate.ts:32 | an absent year or 0 selects the current year, any other year is kept |
| AdminCertificate.CertificateNumberDigits | apps/admin/src/lib/certificate.ts:31-35 | the number is `ROBTEC-<year>-` followed by exactly six digits of value 100000..999999 |
| AdminCertificate.VerifyBaseUnchanged | apps/admin/src/lib/certificate.ts:41 | a `NEXTAUTH_URL` without "admin" is used as it is; unset or empty gives the default verify host |
| AdminCertificate.VerifyBaseReplacesFirst | apps/admin/src/lib/certificate.ts:41 | only the first "admin" of the URL is replaced by "verify" |
| IssueRoute.FindPair | apps/admin/src/app/api/zertifikate/generate/route.ts:45-52 | the lookup finds a certificate of the pair when one exists, and none only when none exists |
| IssueRoute.Admit | apps/admin/src/app/api/zertifikate/generate/route.ts:13-59 | the insert is reached iff the body is readable, both ids are given, course and participant exist and the pair has no certificate yet, and then with the body's two ids |
| IssueRoute.CheckOrder | apps/admin/src/app/api/zertifikate/generate/route.ts:13-59 | 400 iff an id is missing; 404 (course) iff both are given and the course is unknown; 404 (participant) iff the course exists and the participant does not; 409 iff both exist and the pair already has a certificate |
| IssueRoute.TableChange | apps/admin/src/app/api/zertifikate/generate/route.ts:74-91 | the table changes iff every check passed and the insert succeeded, and then by appending exactly the new certificate; a failing insert is answered 500 |
| IssueRoute.NumberNotUnique | apps/admin/src/app/api/zertifikate/generate/route.ts:61-91 | a random number already held by another pair's certificate is issued again, so two rows share one number |
| IssueRoute.OutcomeKeepsKeys | apps/admin/src/app/api/zertifikate/generate/route.ts:45-91 | no request ever creates a second certificate for a pair or a duplicate id |
| IssueRoute.RandomNumber | apps/admin/src/app/api/zertifikate/generate/route.ts:62-64 | the random part lies in 10000..99999 |
| IssueRoute.NewCertificateFields | apps/admin/src/app/api/zertifikate/generate/route.ts:62-91 | the new record has status aktiv and the lower-cased `hersteller-typ` template; it is valid for three years, strictly after issue; its number is `ROBT-<year>-` with five digits |
| IssueRoute.HashNeedsTheClock | apps/admin/src/app/api/zertifikate/generate/route.ts:138-146 | the hashed string includes the request time, which the stored record does not keep |
| IssueRoute.RetryAfterPdfFailure | apps/admin/src/app/api/zertifikate/generate/route.ts:94-134 | when the PDF fails after the insert the catch answers 500 without undoing the insert, so the same request then gets 409 |
| IssueRoute.IssuedResponse | apps/admin/src/app/api/zertifikate/generate/route.ts:114-126 | a success carries the new id, the drawn number (the one inserted), the issue and expiry dates, the Base64 of the bytes rendered for the new record (4 per started 3 bytes) and the file name `Zertifikat_<nachname>_<vorname>_<nummer>.pdf` |
| IssueRoute.CertificateStore.Issue | apps/admin/src/app/api/zertifikate/generate/route.ts:7-135 | the handler's answer and new table are the specified outcome, a failing insert answers 500 and adds no row, and the table keeps its unique keys |
| Utils.FormatDurationCases | apps/admin/src/lib/utils.ts:42-45 | "1 Tag" iff the duration is 1, otherwise `<n> Tage` (the copy under schulungsdetails-update formats the same way) |
| Utils.LookupsFallBack | apps/admin/src/lib/utils.ts:50-101 | known keys get their label or colour; unknown labels fall back to the key, unknown colours to gray |
| Utils.AuslastungBounds | apps/admin/src/lib/utils.ts:106-109 | the occupancy is 100·a/m rounded half up (0 for no seats), within 0..100 while a ≤ m, and 100 when full |
| Utils.GetFreiePlaetze | apps/admin/src/lib/utils.ts:114-116 | free seats are never negative, are m − a while a ≤ m, and are 0 iff a ≥ m (the copy under schulungsdetails-update computes the same) |
| Utils.ZertifikatsnummerDigits | apps/admin/src/lib/utils.ts:122-126 | the number is `ROBT-<year>-` followed by exactly five digits whose value is the random draw |
| Utils.CalculateTagesBis | apps/admin/src/lib/utils.ts:131-141 | the number of days to a date is the day difference of the two midnights |
| Utils.MidnightOrder | apps/admin/src/lib/utils.ts:146-168 | comparing dates set to midnight is comparing day numbers |
| Utils.VorbeiAktivByDay | apps/admin/src/lib/utils.ts:146-168 | over iff the end day is before today; running iff the start day ≤ today ≤ the end day; never both |
| Utils.DateInRangeEnds | apps/admin/src/lib/utils.ts:289-299 | both ends belong to the range, and a non-empty range is not reversed |
| Utils.QRCodeHashDecodes | apps/admin/src/lib/utils.ts:173-189 | for Latin-1 data the hash has length 4·⌈n/3⌉ and decodes back to the data's characters, so it is an encoding, not a digest |
| Base64.RoundTrip | apps/admin/src/lib/utils.ts:183-185 | decoding the RFC 4648 Base64 of any byte string gives that byte string back |
| Base64.Btoa | apps/admin/src/lib/utils.ts:183-185 | `btoa` succeeds iff every character is below U+0100, and then has length 4·⌈n/3⌉ |
| Utils.ValidierungsUrlDecodes | apps/admin/src/lib/utils.ts:194-196 | the link is the base (default host only when none is given) plus `?cert=` and a percent-encoding that decodes back to the hash |
| UriEncoding.RoundTrip | apps/admin/src/lib/utils.ts:194-196 | percent-decoding undoes `encodeURIComponent` |
| Utils.NationalNumberChars | apps/admin/src/lib/utils.ts:201-210 | the national number starts with 0 and otherwise consists of the input's digits and `+` |
| Utils.FormatPhoneNumberShape | apps/admin/src/lib/utils.ts:201-218 | 11 national digits are split 4/6/1 as `0123 456789-0`, 10 become `0123 456789`, anything else is returned unchanged |
| Utils.Plus49Grouping | apps/admin/src/lib/utils.ts:208-210 | `+49` and ten digits are written with a 4/6/1 split by the code, with 4/5/2 by the grouping of the comment |
| Utils.PhoneGroupingDiffers | apps/admin/src/lib/utils.ts:208-210 | +491234567890 is written `0123 456789-0`, not the commented `0123 45678-90` |
| Utils.FormatPhoneNumberAsCommentedShape | apps/admin/src/lib/utils.ts:208-210 | with the commented grouping, 11 national digits become four digits, a space, five digits, a dash and two digits; every other input is formatted as before |
| Utils.EmailRegexIsShape | apps/admin/src/lib/utils.ts:223-226 | the pattern holds iff there is no whitespace, exactly one `@` with text before it, and a dot in the domain that is neither its first nor its last character |
| Utils.TruncateShape | apps/admin/src/lib/utils.ts:231-234 | a short text is kept; a longer one becomes its first maxLength−3 characters plus "...", of length exactly maxLength when maxLength ≥ 3 |
| Utils.CreateSlugIsSlug | apps/admin/src/lib/utils.ts:246-255 | a slug has only [a-z0-9-], no double dash and no dash at either end |
| Utils.CreateSlugIdempotent | apps/admin/src/lib/utils.ts:246-255 | slugging a slug changes nothing |
| Utils.GroupBy | apps/admin/src/lib/utils.ts:260-269 | one group per occurring key; the key list is `FirstKeys`, the keys in order of first occurrence, so each key's first item comes before any item of a later key; each group is exactly its items in input order, and the group sizes add up to the input length |
| Utils.FirstKeysMembers | apps/admin/src/lib/utils.ts:260-269 | a key is in the first-occurrence list iff some item has it |
| Utils.FirstKeysOrder | apps/admin/src/lib/utils.ts:260-269 | of two keys in the first-occurrence list, the earlier one occurs in the input before any item of the later one |
| Utils.SortByDate | apps/admin/src/lib/utils.ts:274-284 | the result is a permutation of the input, ascending or descending by time as requested |
| Utils.SortInPlace | apps/admin/src/lib/utils.ts:279-283 | the in-place sort of the copy leaves it sorted and a permutation |
| Utils.TimeAgoIntervals | apps/admin/src/lib/utils.ts:304-322 | the phrases split elapsed time into consecutive ranges, each number counting whole elapsed units (weeks 1..4, months 1..12, years from 1), and future dates read "gerade eben" |
| UtilsVariant.HerstellerLabelCases | apps/admin/schulungsdetails-update/apps/admin/src/lib/utils.ts:43-56 | nine keys get their label; any other key comes back upper-cased, for ASCII of the same length and without lower-case letters |
| UtilsVariant.ColorCases | apps/admin/schulungsdetails-update/apps/admin/src/lib/utils.ts:58-76 | colours are among five names; an unknown status is gray, a partial payment orange |
| UtilsVariant.ColorOr | apps/admin/schulungsdetails-update/apps/admin/src/lib/utils.ts:58-76 | a known non-empty colour is returned, an unknown key gives gray |
| UtilsVariant.AuslastungAgrees | apps/admin/schulungsdetails-update/apps/admin/src/lib/utils.ts:78-80 | with seats > 0 the copy agrees with the main occupancy and lies in 0..100 while a ≤ m |
| UtilsVariant.ZertifikatsnummerRandomPart | apps/admin/schulungsdetails-update/apps/admin/src/lib/utils.ts:86-92 | the random part is the first six base-36 digits of the draw (fewer for a shorter expansion), upper-cased: only digits and capitals |
| UtilsVariant.InstantsRefineDays | apps/admin/schulungsdetails-update/apps/admin/src/lib/utils.ts:101-111 | over by day implies over by instant; running by instant implies running by day; never both |
| UtilsVariant.CalculateTagesBis | apps/admin/schulungsdetails-update/apps/admin/src/lib/utils.ts:94-99 | the result is the elapsed time rounded up to whole days |
| UtilsVariant.TagesBisCopies | apps/admin/schulungsdetails-update/apps/admin/src/lib/utils.ts:94-99 | the copy counts the main copy's day difference, or one more exactly when the target's time of day is later than now's |
| UtilsVariant.SameDayDiffers | apps/admin/schulungsdetails-update/apps/admin/src/lib/utils.ts:101-104 | a course that ended this morning is over by instant but not by day |
| CalendarSync.EventFields | apps/admin/src/lib/calendar-sync.ts:25-50 | the event carries the title, the place or "", the course's description first, both times as ISO timestamps in Europe/Berlin, the type's colour and the course id |
| CalendarSync.ColorForTypeCases | apps/admin/src/lib/calendar-sync.ts:53-61 | Grundlagen→1, Fortgeschritten→5, Wartung→10, Individualschulung→11, anything else→1 |
| CalendarSync.AddLinksRow | apps/admin/src/lib/calendar-sync.ts:64-92 | a successful insert links exactly the course's row to the new event id and stamps it; the rest stays |
| CalendarSync.UnlinkedGuards | apps/admin/src/lib/calendar-sync.ts:95-159 | update of an unlinked course is add; delete of one does nothing; a failed call leaves the table; a missing calendar id is an error |
| CalendarSync.UpdateRows | apps/admin/src/lib/calendar-sync.ts:79-85 | an update by id changes exactly the rows with that id |
| CalendarSync.FindByEventId | apps/admin/src/lib/calendar-sync.ts:191-193 | the first row linked to the event, or none when no row is |
| CalendarSync.ApplyEventCases | apps/admin/src/lib/calendar-sync.ts:185-236 | an incomplete event is skipped. A matched event updates only the first linked row: an empty summary keeps the title, an absent description or place keeps the old one, the dates are the event's. An unmatched own event is skipped. Any other event is appended with the defaults, its description, place and dates, stamped now, and dauer = ⌈(end−start)/day⌉ |
| CalendarSync.ReimportCreatesNothing | apps/admin/src/lib/calendar-sync.ts:191-236 | importing an event a second time creates no further course |
| CalendarSync.OwnEventsNotDuplicated | apps/admin/src/lib/calendar-sync.ts:208-212 | an event exported by the sync, listed back, never becomes a new course |
| CalendarSync.ImportAllGrowth | apps/admin/src/lib/calendar-sync.ts:185-238 | the import removes nothing and adds at most one course per event |
| CalendarSync.CourseTable.SyncFromCalendar | apps/admin/src/lib/calendar-sync.ts:162-253 | the table is the import rule folded over the listed events; the report counts every listed event as synced, and reports failure and 0 without a calendar id or listing |
| CalendarSync.ExportCounts | apps/admin/src/lib/calendar-sync.ts:256-296 | every attempt is either counted or leaves one error line: exported + errors = total |
| CalendarSync.ExportWithoutCalendar | apps/admin/src/lib/calendar-sync.ts:270-277 | without a calendar id nothing is exported and each course gets the same error line |
| CalendarSync.ExportOutcomeCases | apps/admin/src/lib/calendar-sync.ts:256-296 | the export succeeds iff the database read succeeds; a failed read reports 0 of 0 with its message and changes nothing; otherwise the total is the number of unlinked, not cancelled courses and exported + errors = total |
| CalendarSync.CourseTable.SyncToCalendar | apps/admin/src/lib/calendar-sync.ts:256-296 | a failed read reports failure and changes nothing; otherwise only unlinked, not cancelled courses are added, in order, with the counters of the specified outcome |
| CalendarSync.FullSyncReport | apps/admin/src/lib/calendar-sync.ts:299-350 | a failed read of the stale courses is the bare error report with its message; otherwise success is the conjunction of import and export success, which is "a calendar id, a listing and a readable table"; the counters add up and the update count is non-negative |
| CalendarSync.UpdateCounts | apps/admin/src/lib/calendar-sync.ts:316-333 | at most the stale linked courses are counted as updated |
| CalendarSync.CourseTable.FullSync | apps/admin/src/lib/calendar-sync.ts:299-350 | the table and report are import, then export, then the update of stale linked courses; a failed read of those courses reports the error after import and export |
| CalendarSync.CourseTable.AddToCalendar | apps/admin/src/lib/calendar-sync.ts:64-92 | the result and the table are the specified add outcome |
| CalendarSync.CourseTable.UpdateInCalendar | apps/admin/src/lib/calendar-sync.ts:95-127 | the result and the table are the specified update outcome |
| CalendarSync.CourseTable.DeleteFromCalendar | apps/admin/src/lib/calendar-sync.ts:130-159 | the result and the table are the specified delete outcome |
| SchulungenRoute.MissingFieldsRejected | apps/admin/src/app/api/schulungen/route.ts:45-50 | 400 iff titel, typ, hersteller or startDatum is falsy, and then the database is not consulted |
| SchulungenRoute.CreatedDefaults | apps/admin/src/app/api/schulungen/route.ts:53-69 | the end date falls back to the start date; dauer, maxTeilnehmer, preis and status fall back to 1, 12, 0 and "geplant" when falsy, an explicit 0 included |
| SchulungenRoute.OrInt | apps/admin/src/app/api/schulungen/route.ts:61-64 | `n \|\| fallback` gives the fallback exactly for absent or 0 |
| SchulungenRoute.PostOutcomes | apps/admin/src/app/api/schulungen/route.ts:38-94 | 201 iff the fields are there, both dates parse and the database accepts; every other failure is 400 (missing) or 500 with details |
| TemplatesRoute.Get | apps/admin/src/app/api/templates/route.ts:6-26 | a failed read is answered 500 "Failed to fetch templates" and only then; otherwise the listing is a permutation of the table ordered by (hersteller, typ, name) |
| TemplatesRoute.TemplateLeTotal | apps/admin/src/app/api/templates/route.ts:8-14 | the listing order is total |
| TemplatesRoute.TemplateLeTransitive | apps/admin/src/app/api/templates/route.ts:8-14 | the listing order is transitive |
| TemplatesRoute.TemplateLeTies | apps/admin/src/app/api/templates/route.ts:8-14 | templates ordered both ways agree on all three columns |
| TemplatesRoute.InsertDown | apps/admin/src/app/api/templates/route.ts:8-14 | one insertion step leaves the prefix ordered and the array a permutation |
| TemplatesRoute.PostOutcomes | apps/admin/src/app/api/templates/route.ts:28-63 | 400 iff name, typ or hersteller is falsy; the created template has "" / [] / null defaults; failures are 400 or 500 |
| SyncRoute.RouteStatus | apps/admin/src/app/api/sync/route.ts:6-56 | 400 iff the action is none of import/export/full, 500 iff the body is unreadable; both leave the table as it was |
| SyncRoute.FullIsImportThenExport | apps/admin/src/app/api/sync/route.ts:13-37 | full is import then export when the import succeeds, and succeeds iff the export's database read does; a failed import is answered alone, and nothing is exported |
| SyncRoute.RouteKeepsRowsOk | apps/admin/src/app/api/sync/route.ts:13-37 | every action keeps the table's dates valid |
| SyncRoute.PageActionsRejected | apps/admin/src/app/api/sync/route.ts:40-43 | the page's actions "from" and "to" are answered 400 and change nothing |
| SyncRoute.PageAction | apps/admin/src/app/sync/page.tsx:79 | "from" stands for import and "to" for export; other actions are unchanged |
| SyncRoute.PageActionsAccepted | apps/admin/src/app/sync/page.tsx:103 | the corrected route serves all five names with 200, "from" as import and "to" as export, the API's own names as before |
| SyncRoute.Post | apps/admin/src/app/api/sync/route.ts:6-56 | the handler on the course table answers and changes the table as the corrected route specifies |
| SchulungenPage.ApplyFilters | apps/admin/src/app/schulungen/page.tsx:62-89 | the result is the order-preserving subsequence of the courses passing search, type, manufacturer and status filters; x is shown iff listed and passing; no filters give the input |
| SchulungenPage.LabelsFallBack | apps/admin/src/app/schulungen/page.tsx:100-141 | unknown keys are shown as they are; an unknown status gets the colour of geplant |
| SchulungenPage.StatCards | apps/admin/src/app/schulungen/page.tsx:193-211 | the three exact-status cards add up to at most the total, counting exactly the courses with that status |
| TemplateEditor.Editor.AddLernziel | apps/admin/src/app/templates/neu/page.tsx:48-50 | one empty goal is appended; nothing else changes |
| TemplateEditor.Editor.UpdateLernziel | apps/admin/src/app/templates/neu/page.tsx:52-56 | only the goal at the index changes |
| TemplateEditor.Editor.RemoveLernziel | apps/admin/src/app/templates/neu/page.tsx:58-60 | exactly the goal at the index is removed |
| TemplateEditor.Editor.AddAgendaTag | apps/admin/src/app/templates/neu/page.tsx:62-64 | a day numbered length+1 with one empty topic is appended; the days stay numbered 1..n |
| TemplateEditor.Editor.UpdateAgendaTitel | apps/admin/src/app/templates/neu/page.tsx:66-70 | only that day's title changes |
| TemplateEditor.Editor.AddThema | apps/admin/src/app/templates/neu/page.tsx:72-76 | one empty topic is appended to that day and no other |
| TemplateEditor.Editor.UpdateThema | apps/admin/src/app/templates/neu/page.tsx:78-82 | only that topic of that day changes |
| TemplateEditor.Editor.RemoveThema | apps/admin/src/app/templates/neu/page.tsx:84-88 | exactly that topic of that day is removed |
| TemplateEditor.Editor.RemoveAgendaTag | apps/admin/src/app/templates/neu/page.tsx:90-95 | the day is removed and the rest renumbered 1..n |
| TemplateEditor.AgendaStaysNumbered | apps/admin/src/app/templates/neu/page.tsx:62-95 | adding a day keeps the numbering; removing a day and renumbering keeps the other days in order with their titles and topics |
| TemplateEditor.Editor.AddMaterial | apps/admin/src/app/templates/neu/page.tsx:97-99 | one empty material is appended |
| TemplateEditor.Editor.UpdateMaterial | apps/admin/src/app/templates/neu/page.tsx:101-105 | only the named field of that material changes |
| TemplateEditor.Editor.RemoveMaterial | apps/admin/src/app/templates/neu/page.tsx:107-109 | exactly that material is removed |
| TemplateEditor.Editor.Submit | apps/admin/src/app/templates/neu/page.tsx:111-162 | a blank name sets the error and sends nothing; otherwise the cleaned body is sent and the error reflects the answer |
| TemplateEditor.CleanAgendaShape | apps/admin/src/app/templates/neu/page.tsx:125-130 | a day is sent iff its non-blank title and non-blank topics remain, with its number and only non-blank topics |
| TemplateEditor.TagsNotRenumbered | apps/admin/src/app/templates/neu/page.tsx:125-130 | dropping a middle day sends the numbers 1 and 3 |
| TemplateEditor.CleanedEntries | apps/admin/src/app/templates/neu/page.tsx:124-131 | a learning goal is sent iff its text is not blank, a material iff its name is not blank |
| CertificateModal.ToggleFlips | ZertifikatGeneratorModal.tsx:31-37 | toggling flips the membership of the id and no other |
| CertificateModal.ToggleTwice | ZertifikatGeneratorModal.tsx:31-37 | toggling an absent id twice gives back the same list |
| CertificateModal.SelectAllCases | ZertifikatGeneratorModal.tsx:39-42 | exactly the ids of participants without a certificate are selected, in list order |
| CertificateModal.DeselectAll | ZertifikatGeneratorModal.tsx:44-46 | the selection becomes empty |
| CertificateModal.HandleGenerate | ZertifikatGeneratorModal.tsx:48-115 | an empty selection alerts and requests nothing; otherwise one request and one result per id in order, progress in 0..100 and 100 at the end |
| CertificateModal.ProgressBounds | ZertifikatGeneratorModal.tsx:104 | the progress lies in 0..100 and is 100 after the last request |
| CertificateModal.ResultFor | ZertifikatGeneratorModal.tsx:72-102 | a result names its participant and succeeds iff the route issued a PDF |
| CertificateModal.ToByteArrays | ZertifikatGeneratorModal.tsx:117-134 | ⌈n/512⌉ chunks, each of 1..512 bytes and 512 except the last; together they are the character codes mod 256 in order |
| CertificateModal.TeilnehmerName | ZertifikatGeneratorModal.tsx:136-139 | the "vorname nachname" of the first participant with the id, wherever it stands, and "" when there is none |
| NeueSchulungModal.SetOnlyThatField | apps/admin/src/components/NeueSchulungModal.tsx:48-54 | a change sets its field and no other |
| NeueSchulungModal.ChangedTouchesOnlyField | apps/admin/src/components/NeueSchulungModal.tsx:48-63 | a change touches only its field, except that a date change may also reset dauer, to at least 1 |
| NeueSchulungModal.Dauer | apps/admin/src/components/NeueSchulungModal.tsx:58-59 | the automatic duration is at least 1 |
| NeueSchulungModal.DauerOfDates | apps/admin/src/components/NeueSchulungModal.tsx:52-61 | for two midnight dates the duration is the day difference plus one in either order, 1 for the same day |
| NeueSchulungModal.ValidateCascade | apps/admin/src/components/NeueSchulungModal.tsx:69-92 | a form passes iff all six checks pass; each message comes only after the earlier checks passed; start = end passes; an unreadable seat count passes |
| NeueSchulungModal.InitialNeedsTitle | apps/admin/src/components/NeueSchulungModal.tsx:32-46 | the initial form fails first on the missing title |
| NeueSchulungModal.Dialog.HandleChange | apps/admin/src/components/NeueSchulungModal.tsx:48-63 | the form becomes the changed form and the error is cleared |
| NeueSchulungModal.Dialog.HandleSubmit | apps/admin/src/components/NeueSchulungModal.tsx:65-120 | a failing check is reported and nothing is posted; otherwise the form is posted and a refusal shows the server's error or the fallback |
| TeilnehmerModal.DefaultsComplete | apps/admin/src/components/TeilnehmerModal.tsx:32-46 | the defaults have every field, land DE, status angemeldet, bezahlstatus offen and "" elsewhere |
| TeilnehmerModal.ValidateCascade | apps/admin/src/components/TeilnehmerModal.tsx:57-72 | passes iff both names are non-blank and the address matches `isValidEmail`; messages come in order; a passing address has the e-mail shape |
| TeilnehmerModal.Dialog.HandleChange | apps/admin/src/components/TeilnehmerModal.tsx:48-51 | only the named field changes and the error is cleared |
| TeilnehmerModal.Dialog.HandleSubmit | apps/admin/src/components/TeilnehmerModal.tsx:53-102 | onSave is called iff the checks pass; a success resets the form to the defaults and closes; a failure keeps the form and shows the message |
| Dashboard.StatsBounds | apps/admin/src/app/page.tsx:60-65 | the three status cards count disjoint sets and together never exceed the total; case-insensitive counting counts at least the exact matches |
| Dashboard.CapitalisedStatusCounts | apps/admin/src/app/page.tsx:60-65 | respelling any course's status in other capitals changes none of the stat cards; "Bestaetigt" counts as confirmed |
| Dashboard.TotalsSplit | apps/admin/src/app/page.tsx:67-70 | participants and revenue add up over a split list; a cancelled course adds no revenue, any other adds price × bookings |
| Dashboard.TotalsNonNegative | apps/admin/src/app/page.tsx:67-70 | with no negative prices or bookings, both totals are non-negative |
| Dashboard.VollMeansNoSeats | apps/admin/src/app/page.tsx:215 | the "Voll" badge is shown iff no seat is free |
| Dashboard.StatusBadge | apps/admin/src/app/page.tsx:221-226 | bestaetigt→success, laufend→info, abgeschlossen→neutral, and every other status→error, ignoring case, each an iff |
| TemplatesPage.GroupByHersteller | apps/admin/src/app/templates/page.tsx:23-29 | every template is in its manufacturer's group in list order, the manufacturer list is `Utils.FirstKeys` of the templates (first-occurrence order, each first template before any of a later manufacturer), and there are as many groups as distinct manufacturers |
| TemplatesPage.DistinctCardinality | apps/admin/src/app/templates/page.tsx:65 | a repetition-free list has as many distinct elements as entries |
| TemplatesPage.TypCards | apps/admin/src/app/templates/page.tsx:71-77 | the Grundlagen and Fortgeschritten cards count case-insensitively and together at most the total |
| TemplatesPage.ListCount | apps/admin/src/app/templates/page.tsx:140-153 | a missing list counts 0, a present one its length |
| TemplatesPage.FragenLine | apps/admin/src/app/templates/page.tsx:149-154 | the question line is shown iff the test is not null, with its number of questions, and an empty test shows 0 |

## Left out

- Local time zone: every `Date` is read as if the local zone were UTC, so `setHours(0,0,0,0)` is midnight UTC.
- String encoding: strings are sequences of Unicode scalar values, not UTF-16 code units. Case mapping covers ASCII and Latin-1 only.
- Floating point: occupancy, progress and durations are computed exactly. `preis` is a whole number of euros, so rounding of non-representable decimals is not modelled.
- Locale formatting: `formatDate`, `formatDateTime` and `formatCurrency` use `Intl`, and the certificate dates passed to the renderer use the German locale. They are parameters or left out.
- Invalid dates: an invalid `Date` appears only where the code examines it, as an `Option` (the course route's dates, the dialog's duration, `parseInt`). Elsewhere dates are valid records.
- Base64 decoding in the browser: `atob` is not modelled. `base64ToBlob` starts from the decoded string, and the `Blob` and object-URL download are side effects outside the model.
- The PDF renderer, the QR image (`QRCode.toDataURL`), the Google API client and Prisma are function parameters. No property of HMAC or SHA-256 is assumed. These database calls may fail in the model: the insert of the issuing route, the two reads of the sync export and full sync, the template listing, and the course and template creation.
- Database failures inside the sync loops: a database call made for one event or one course inside the import, export and update loops is taken to succeed. Only the calendar calls there fail.
- calculateProvision: a one-line floating-point product, not in the modelled core.
- GET /api/schulungen and the page loaders: these are fetches from the database and render nothing the model could check.
- Listing order of the templates page: it comes from the database (`orderBy` on hersteller and typ). The model keeps the given order, and the collation is taken as code-point order.
- TemplatesRoute.Get: sorting in the model is by insertion sort. The database's sort stability for equal keys is not specified, so ties are only shown to agree on the three columns. The database's text collation is taken as code-point order.
- Utils.GroupBy: for a key that names an inherited property of `Object.prototype` ("constructor", "toString", "__proto__"), the source's plain `{}` already holds a truthy non-array value, so `.push` throws. The model groups such keys like any other.
- JsStrings.LookupOr, Utils.ColorOr, UtilsVariant.ColorOr, UtilsVariant.GetHerstellerLabel, SchulungenPage.GetStatusColor and CalendarSync.GetColorForType: the source looks labels and colours up with `table[key] || fallback` on plain object literals, so a key naming an inherited property of `Object.prototype` ("constructor", "__proto__") yields that inherited value instead of the fallback. The model's tables are maps, and such keys get the key or the fallback text.
- TemplatesPage.GroupByHersteller: a manufacturer such as "constructor" makes the source's `.push` on its plain `{}` throw in the same way. The model groups it like any other.
- Utils.IsSchulungVorbei and Utils.IsSchulungAktiv (and Utils.CalculateTagesBis): `setHours` sets a `Date` argument to midnight in place, changing the caller's object. The model takes dates as values and does not capture that aliasing.
- Utils.GenerateQRCodeHash: where `btoa` is undefined the source falls back to `Buffer.from(data)`, which encodes UTF-8 and never fails. The model always takes the `btoa` branch, which fails above U+00FF.
- `Object.keys` ordering: keys of the grouping record are listed in first-occurrence order. JavaScript lists integer-like keys first, which the model ignores.
- Out-of-range indices: the editor's update operations require a valid index. In JavaScript an out-of-range index would add a sparse entry or throw on `undefined`.
- React state: updates are modelled as immediate assignments. The shared-object mutation of the spread copies, re-renders, navigation, alerts and the loading flags are not modelled.
- Concurrency: the loops of the dialog and of the sync are sequential awaits and are modelled in order. Concurrent requests are not modelled.
- Clock readings: where one request reads the clock several times, the readings are collapsed into the one `now` and `nowMs` of the request.
- IssueRoute.HashNeedsTheClock: it does not model the hash value of the route's `generateValidationHash`, because SHA-256 is an unspecified parameter.

## Findings

| source | as written | input that shows it | evidently intended | confidence | as-written member | corrected member |
|---|---|---|---|---|---|---|
| apps/admin/src/app/api/sync/route.ts:13-43 with apps/admin/src/app/sync/page.tsx:79, 103 | the route accepts only the actions import, export and full, but the sync page's buttons post `from` and `to` | `{"action": "from"}` is answered 400 "Unbekannte Aktion" and nothing is imported | `from` runs the import and `to` the export, as the page's buttons say | not executed | SyncRoute.PageActionsRejected | SyncRoute.PageActionsAccepted |
| apps/admin/src/lib/utils.ts:208-210 | an 11-digit national number is cut with `substr(4, 6)` and `substr(10)`, a 4/6/1 split | +491234567890 gives `0123 456789-0` | `0123 45678-90`, the 4/5/2 grouping the comment above the code gives | not executed | Utils.PhoneGroupingDiffers | Utils.FormatPhoneNumberAsCommentedShape |
