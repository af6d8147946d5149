/** The dashboard's figures: course counts by status, participants, revenue and the badges
    of the course table. */
module Dashboard {
  import opened JsStrings
  import opened Seqs
  import Utils

  /** A listed course; the price in whole euros. */
  datatype Schulung = Schulung(id: string, titel: string, status: string, preis: int,
                               maxTeilnehmer: int, anmeldungen: int)

  datatype Stats = Stats(gesamt: nat, bestaetigt: nat, laufend: nat, abgeschlossen: nat)

  function HasStatus(status: string): Schulung -> bool {
    (s: Schulung) => Lower(s.status) == status
  }

  /** The four stat cards; statuses compare ignoring case. */
  function GetStats(schulungen: seq<Schulung>): Stats {
    Stats(|schulungen|, Count(schulungen, HasStatus("bestaetigt")), Count(schulungen, HasStatus("laufend")),
          Count(schulungen, HasStatus("abgeschlossen")))
  }

  /** `gesamtTeilnehmer`. */
  function GesamtTeilnehmer(schulungen: seq<Schulung>): int {
    SumBy(schulungen, (s: Schulung) => s.anmeldungen)
  }

  function NotAbgesagt(s: Schulung): bool { Lower(s.status) != "abgesagt" }

  /** `gesamtUmsatz`: price times bookings over the courses that are not cancelled. */
  function GesamtUmsatz(schulungen: seq<Schulung>): int {
    SumBy(Filter(schulungen, NotAbgesagt), (s: Schulung) => s.preis * s.anmeldungen)
  }

  /** The three status cards count disjoint sets of courses, so together they never exceed
      the total; a status spelled in capitals is still counted. */
  lemma StatsBounds(schulungen: seq<Schulung>)
    ensures var st := GetStats(schulungen);
      st.bestaetigt + st.laufend + st.abgeschlossen <= st.gesamt
    ensures Count(schulungen, (s: Schulung) => s.status == "bestaetigt") <= GetStats(schulungen).bestaetigt
  {
    CountDisjoint3(schulungen, HasStatus("bestaetigt"), HasStatus("laufend"), HasStatus("abgeschlossen"));
    forall x: Schulung | x.status == "bestaetigt"
      ensures HasStatus("bestaetigt")(x)
    {
      assert Lower("bestaetigt") == "bestaetigt";
    }
    CountMonotone(schulungen, (s: Schulung) => s.status == "bestaetigt", HasStatus("bestaetigt"));
  }

  /** Counts by a lower-cased status depend on the statuses only up to case. */
  lemma {:induction false} CountSameLower(a: seq<Schulung>, b: seq<Schulung>, status: string)
    requires |a| == |b| && forall i :: 0 <= i < |a| ==> Lower(a[i].status) == Lower(b[i].status)
    ensures Count(a, HasStatus(status)) == Count(b, HasStatus(status))
    decreases |a|
  {
    if a != [] {
      assert Lower(a[0].status) == Lower(b[0].status);
      CountSameLower(a[1..], b[1..], status);
    }
  }

  /** Spelling a course's status in other capitals changes none of the cards: "Bestaetigt"
      counts as confirmed. */
  lemma CapitalisedStatusCounts(schulungen: seq<Schulung>, k: int, status: string)
    requires 0 <= k < |schulungen| && Lower(status) == Lower(schulungen[k].status)
    ensures GetStats(schulungen[k := schulungen[k].(status := status)]) == GetStats(schulungen)
    ensures GetStats([Schulung("1", "KUKA Basis", "Bestaetigt", 0, 6, 0)]).bestaetigt == 1
  {
    var changed := schulungen[k := schulungen[k].(status := status)];
    assert forall i :: 0 <= i < |changed| ==> Lower(changed[i].status) == Lower(schulungen[i].status);
    CountSameLower(changed, schulungen, "bestaetigt");
    CountSameLower(changed, schulungen, "laufend");
    CountSameLower(changed, schulungen, "abgeschlossen");
    BestaetigtCapitalised();
  }

  lemma BestaetigtCapitalised()
    ensures GetStats([Schulung("1", "KUKA Basis", "Bestaetigt", 0, 6, 0)]).bestaetigt == 1
  {
    assert Lower("Bestaetigt") == "bestaetigt";
  }

  /** The totals add up over a split list; a cancelled course adds nothing to the revenue,
      any other adds its price times its bookings. */
  lemma TotalsSplit(a: seq<Schulung>, b: seq<Schulung>, c: Schulung)
    ensures GesamtTeilnehmer(a + b) == GesamtTeilnehmer(a) + GesamtTeilnehmer(b)
    ensures GesamtUmsatz(a + b) == GesamtUmsatz(a) + GesamtUmsatz(b)
    ensures GesamtUmsatz(a + [c]) == GesamtUmsatz(a) + (if Lower(c.status) == "abgesagt" then 0 else c.preis * c.anmeldungen)
  {
    var f := (s: Schulung) => s.preis * s.anmeldungen;
    SumByConcat(a, b, (s: Schulung) => s.anmeldungen);
    FilterConcat(a, b, NotAbgesagt);
    SumByConcat(Filter(a, NotAbgesagt), Filter(b, NotAbgesagt), f);
    FilterConcat(a, [c], NotAbgesagt);
    SumByConcat(Filter(a, NotAbgesagt), Filter([c], NotAbgesagt), f);
  }

  /** With no negative prices or bookings, neither total is negative. */
  lemma TotalsNonNegative(schulungen: seq<Schulung>)
    requires forall i :: 0 <= i < |schulungen| ==> schulungen[i].preis >= 0 && schulungen[i].anmeldungen >= 0
    ensures GesamtTeilnehmer(schulungen) >= 0 && GesamtUmsatz(schulungen) >= 0
  {
    SumByNonNegative(schulungen, (s: Schulung) => s.anmeldungen);
    var kept := Filter(schulungen, NotAbgesagt);
    forall i | 0 <= i < |kept|
      ensures kept[i].preis * kept[i].anmeldungen >= 0
    {
      FilterMembership(schulungen, NotAbgesagt, kept[i]);
    }
    SumByNonNegative(kept, (s: Schulung) => s.preis * s.anmeldungen);
  }

  /** The "Voll" badge. */
  predicate IsVoll(s: Schulung) {
    s.anmeldungen >= s.maxTeilnehmer
  }

  /** A course is shown as full exactly when it has no free seat left in the sense of
      `getFreiePlaetze`. */
  lemma VollMeansNoSeats(s: Schulung)
    ensures IsVoll(s) <==> Utils.GetFreiePlaetze(s.anmeldungen, s.maxTeilnehmer) == 0
  {
  }

  /** The badge class of a status: every status other than the three named ones, planned
      and cancelled included, gets the error badge. */
  function StatusBadge(status: string): (r: string)
    ensures Lower(status) == "bestaetigt" <==> r == "badge-success"
    ensures Lower(status) == "laufend" <==> r == "badge-info"
    ensures Lower(status) == "abgeschlossen" <==> r == "badge-neutral"
    ensures Lower(status) !in {"bestaetigt", "laufend", "abgeschlossen"} <==> r == "badge-error"
  {
    var l := Lower(status);
    if l == "bestaetigt" then "badge-success"
    else if l == "laufend" then "badge-info"
    else if l == "abgeschlossen" then "badge-neutral"
    else "badge-error"
  }
}
