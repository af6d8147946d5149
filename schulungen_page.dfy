/** The course list page: the four filters, the labels and colours and the stat cards. */
module SchulungenPage {
  import opened Options
  import opened JsStrings
  import opened Seqs

  /** The fields of a listed course the page filters and counts on. */
  datatype Schulung = Schulung(id: string, titel: string, typ: string, hersteller: string,
                               status: string, ort: Option<string>)

  /** The search text and the three selects; "alle" switches a select off. */
  datatype Filters = Filters(searchTerm: string, filterTyp: string, filterHersteller: string, filterStatus: string)

  const NoFilters: Filters := Filters("", "alle", "alle", "alle")

  /** The title or the place contains the term, ignoring case. */
  predicate MatchesSearch(s: Schulung, term: string) {
    Contains(Lower(s.titel), Lower(term)) || (s.ort.Some? && Contains(Lower(s.ort.value), Lower(term)))
  }

  predicate SearchOk(f: Filters, s: Schulung) { f.searchTerm == "" || MatchesSearch(s, f.searchTerm) }
  predicate TypOk(f: Filters, s: Schulung) { f.filterTyp == "alle" || s.typ == f.filterTyp }
  predicate HerstellerOk(f: Filters, s: Schulung) { f.filterHersteller == "alle" || s.hersteller == f.filterHersteller }
  predicate StatusOk(f: Filters, s: Schulung) { f.filterStatus == "alle" || s.status == f.filterStatus }

  /** A course is shown when it passes all four filters. */
  predicate Kept(f: Filters, s: Schulung) {
    SearchOk(f, s) && TypOk(f, s) && HerstellerOk(f, s) && StatusOk(f, s)
  }

  function Keep(f: Filters): Schulung -> bool {
    (s: Schulung) => Kept(f, s)
  }

  /** `applyFilters`: the four filters one after the other, each only when it is set. */
  method ApplyFilters(schulungen: seq<Schulung>, f: Filters) returns (filtered: seq<Schulung>)
    ensures filtered == Filter(schulungen, Keep(f))
    ensures IsSubsequence(filtered, schulungen)
    ensures forall x :: x in filtered <==> x in schulungen && Kept(f, x)
    ensures f == NoFilters ==> filtered == schulungen
  {
    ghost var k1 := (s: Schulung) => SearchOk(f, s);
    ghost var k2 := (s: Schulung) => SearchOk(f, s) && TypOk(f, s);
    ghost var k3 := (s: Schulung) => SearchOk(f, s) && TypOk(f, s) && HerstellerOk(f, s);
    filtered := schulungen;
    if f.searchTerm != "" {
      var step := (s: Schulung) => MatchesSearch(s, f.searchTerm);
      filtered := Filter(filtered, step);
      FilterExt(schulungen, step, k1);
    } else {
      FilterAll(schulungen, k1);
    }
    assert filtered == Filter(schulungen, k1);
    if f.filterTyp != "alle" {
      var step := (s: Schulung) => s.typ == f.filterTyp;
      FilterFilter(schulungen, k1, step, k2);
      filtered := Filter(filtered, step);
    } else {
      FilterExt(schulungen, k1, k2);
    }
    assert filtered == Filter(schulungen, k2);
    if f.filterHersteller != "alle" {
      var step := (s: Schulung) => s.hersteller == f.filterHersteller;
      FilterFilter(schulungen, k2, step, k3);
      filtered := Filter(filtered, step);
    } else {
      FilterExt(schulungen, k2, k3);
    }
    assert filtered == Filter(schulungen, k3);
    if f.filterStatus != "alle" {
      var step := (s: Schulung) => s.status == f.filterStatus;
      FilterFilter(schulungen, k3, step, Keep(f));
      filtered := Filter(filtered, step);
    } else {
      FilterExt(schulungen, k3, Keep(f));
    }
    FilterIsSubsequence(schulungen, Keep(f));
    forall x
      ensures x in filtered <==> x in schulungen && Kept(f, x)
    {
      FilterMembership(schulungen, Keep(f), x);
    }
    if f == NoFilters {
      FilterAll(schulungen, Keep(f));
    }
  }

  const StatusColors: map<string, string> :=
    map["geplant" := "bg-gray-100 text-gray-800", "bestaetigt" := "bg-blue-100 text-blue-800",
        "laufend" := "bg-green-100 text-green-800", "abgeschlossen" := "bg-purple-100 text-purple-800",
        "abgesagt" := "bg-red-100 text-red-800"]

  const StatusLabels: map<string, string> :=
    map["geplant" := "Geplant", "bestaetigt" := "Bestätigt", "laufend" := "Läuft",
        "abgeschlossen" := "Abgeschlossen", "abgesagt" := "Abgesagt"]

  const TypLabels: map<string, string> :=
    map["grundlagen" := "Grundlagen", "praxis" := "Praxis", "online" := "Online", "sonstige" := "Sonstige"]

  const HerstellerLabels: map<string, string> :=
    map["kuka" := "KUKA", "abb" := "ABB", "mitsubishi" := "Mitsubishi",
        "universal_robots" := "Universal Robots", "sonstige" := "Sonstige"]

  /** `colors[status] || colors.geplant`. */
  function GetStatusColor(status: string): string {
    if status in StatusColors && StatusColors[status] != "" then StatusColors[status] else StatusColors["geplant"]
  }

  function GetStatusLabel(status: string): string { LookupOr(StatusLabels, status) }
  function GetTypLabel(typ: string): string { LookupOr(TypLabels, typ) }
  function GetHerstellerLabel(hersteller: string): string { LookupOr(HerstellerLabels, hersteller) }

  /** Unknown keys are shown as they are; an unknown status gets the colour of geplant. */
  lemma LabelsFallBack(key: string)
    ensures key in StatusLabels ==> GetStatusLabel(key) == StatusLabels[key]
    ensures key !in StatusLabels ==> GetStatusLabel(key) == key
    ensures key in TypLabels ==> GetTypLabel(key) == TypLabels[key]
    ensures key !in TypLabels ==> GetTypLabel(key) == key
    ensures key in HerstellerLabels ==> GetHerstellerLabel(key) == HerstellerLabels[key]
    ensures key !in HerstellerLabels ==> GetHerstellerLabel(key) == key
    ensures key in StatusColors ==> GetStatusColor(key) == StatusColors[key]
    ensures key !in StatusColors ==> GetStatusColor(key) == "bg-gray-100 text-gray-800"
  {
  }

  /** A stat card: the courses whose status is exactly the given one. */
  function StatCount(schulungen: seq<Schulung>, status: string): nat {
    Count(schulungen, (s: Schulung) => s.status == status)
  }

  /** The cards Geplant, Bestätigt and Laufend together never exceed Gesamt, and a
      status spelled with another case is not counted. */
  lemma StatCards(schulungen: seq<Schulung>)
    ensures StatCount(schulungen, "geplant") + StatCount(schulungen, "bestaetigt") + StatCount(schulungen, "laufend") <= |schulungen|
    ensures forall x :: x in Filter(schulungen, (s: Schulung) => s.status == "geplant") <==> x in schulungen && x.status == "geplant"
  {
    CountDisjoint3(schulungen, (s: Schulung) => s.status == "geplant", (s: Schulung) => s.status == "bestaetigt",
                   (s: Schulung) => s.status == "laufend");
    forall x
      ensures x in Filter(schulungen, (s: Schulung) => s.status == "geplant") <==> x in schulungen && x.status == "geplant"
    {
      FilterMembership(schulungen, (s: Schulung) => s.status == "geplant", x);
    }
  }
}
