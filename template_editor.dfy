/** The editor for a new course template: lists of learning goals, agenda days with their
    topics and materials, edited entry by entry, cleaned of blank entries on submit. */
module TemplateEditor {
  import opened Options
  import opened JsStrings
  import opened Seqs

  datatype AgendaTag = AgendaTag(tag: int, titel: string, themen: seq<string>)
  datatype Material = Material(name: string, beschreibung: string)
  datatype MaterialField = Name | Beschreibung

  /** The request body sent to create the template. */
  datatype Payload = Payload(name: string, typ: string, hersteller: string, beschreibung: string,
                             lernziele: seq<string>, agenda: seq<AgendaTag>, materialien: seq<Material>)

  const ErrName: string := "Bitte geben Sie einen Namen ein"
  const ErrCreate: string := "Fehler beim Erstellen des Templates"

  /** Day k (from 0) carries the number k + 1. */
  predicate Numbered(agenda: seq<AgendaTag>) {
    forall k :: 0 <= k < |agenda| ==> agenda[k].tag == k + 1
  }

  /** The days numbered 1..n in order, titles and topics unchanged. */
  function Renumber(agenda: seq<AgendaTag>): (r: seq<AgendaTag>)
    ensures |r| == |agenda| && Numbered(r)
    ensures forall k :: 0 <= k < |r| ==> r[k].titel == agenda[k].titel && r[k].themen == agenda[k].themen
  {
    seq(|agenda|, k requires 0 <= k < |agenda| => agenda[k].(tag := k + 1))
  }

  /** A fresh day appended to a numbered agenda keeps it numbered; removing a day and
      renumbering keeps the other days in order. */
  lemma AgendaStaysNumbered(agenda: seq<AgendaTag>, i: int)
    requires Numbered(agenda)
    ensures Numbered(agenda + [AgendaTag(|agenda| + 1, "", [""])])
    ensures 0 <= i < |agenda| ==>
      var r := Renumber(RemoveAt(agenda, i));
      && |r| == |agenda| - 1
      && (forall k :: 0 <= k < i ==> r[k] == agenda[k])
      && (forall k :: i <= k < |r| ==> r[k].titel == agenda[k + 1].titel && r[k].themen == agenda[k + 1].themen)
  {
  }

  function NotBlank(s: string): bool { !IsBlank(s) }

  /** The agenda as submitted: blank topics dropped, then days without a title or without
      topics dropped; the numbers stay as they were. */
  function CleanAgenda(agenda: seq<AgendaTag>): seq<AgendaTag> {
    Filter(seq(|agenda|, k requires 0 <= k < |agenda| => agenda[k].(themen := Filter(agenda[k].themen, NotBlank))),
           (a: AgendaTag) => !IsBlank(a.titel) && |a.themen| > 0)
  }

  /** Every submitted day has a title and only non-blank topics, and comes from a day of
      the editor with the same number and title and its non-blank topics. */
  lemma CleanAgendaShape(agenda: seq<AgendaTag>, d: AgendaTag)
    ensures d in CleanAgenda(agenda) <==>
      exists k :: 0 <= k < |agenda| && d == agenda[k].(themen := Filter(agenda[k].themen, NotBlank))
                  && !IsBlank(d.titel) && |d.themen| > 0
    ensures d in CleanAgenda(agenda) ==> forall j :: 0 <= j < |d.themen| ==> !IsBlank(d.themen[j])
  {
    var mapped := seq(|agenda|, k requires 0 <= k < |agenda| => agenda[k].(themen := Filter(agenda[k].themen, NotBlank)));
    FilterMembership(mapped, (a: AgendaTag) => !IsBlank(a.titel) && |a.themen| > 0, d);
    if exists k :: 0 <= k < |agenda| && d == agenda[k].(themen := Filter(agenda[k].themen, NotBlank)) {
      var k :| 0 <= k < |agenda| && d == agenda[k].(themen := Filter(agenda[k].themen, NotBlank));
      assert mapped[k] == d;
    }
    if d in CleanAgenda(agenda) {
      var k :| 0 <= k < |mapped| && mapped[k] == d;
      assert d == agenda[k].(themen := Filter(agenda[k].themen, NotBlank));
      forall j | 0 <= j < |d.themen|
        ensures !IsBlank(d.themen[j])
      {
        FilterMembership(agenda[k].themen, NotBlank, d.themen[j]);
      }
    }
  }

  /** The numbers are not renumbered: dropping the blank middle day of three sends days
      1 and 3. */
  lemma TagsNotRenumbered()
    ensures CleanAgenda([AgendaTag(1, "A", ["x"]), AgendaTag(2, "", ["y"]), AgendaTag(3, "C", ["z"])])
            == [AgendaTag(1, "A", ["x"]), AgendaTag(3, "C", ["z"])]
  {
    var a := [AgendaTag(1, "A", ["x"]), AgendaTag(2, "", ["y"]), AgendaTag(3, "C", ["z"])];
    KeptTopic("x");
    KeptTopic("y");
    KeptTopic("z");
    var mapped := seq(|a|, k requires 0 <= k < |a| => a[k].(themen := Filter(a[k].themen, NotBlank)));
    assert mapped == a;
    assert !IsBlank("A") && !IsBlank("C") by {
      assert !IsWhitespace("A"[0]) && !IsWhitespace("C"[0]);
    }
    FilterSkipsMiddle(a[0], a[1], a[2], (d: AgendaTag) => !IsBlank(d.titel) && |d.themen| > 0);
  }

  /** A one-letter topic that is not white space is kept. */
  lemma KeptTopic(t: string)
    requires |t| == 1 && !IsWhitespace(t[0])
    ensures Filter([t], NotBlank) == [t]
  {
    assert [t][1..] == [];
  }

  lemma FilterSkipsMiddle<T>(x: T, y: T, z: T, p: T -> bool)
    requires p(x) && !p(y) && p(z)
    ensures Filter([x, y, z], p) == [x, z]
  {
    assert [x, y, z][1..] == [y, z] && [y, z][1..] == [z] && [z][1..] == [];
    assert Filter([z], p) == [z];
    assert Filter([y, z], p) == [z];
    assert Filter([x, y, z], p) == [x] + [z];
  }

  /** The request body for the editor's state: entries without text, materials without a
      name and incomplete days are left out. */
  function Cleaned(name: string, typ: string, hersteller: string, beschreibung: string,
                   lernziele: seq<string>, agenda: seq<AgendaTag>, materialien: seq<Material>): Payload
  {
    Payload(name, typ, hersteller, beschreibung, Filter(lernziele, NotBlank), CleanAgenda(agenda),
            Filter(materialien, (m: Material) => !IsBlank(m.name)))
  }

  /** A learning goal or a material is sent exactly when it has non-blank text or name. */
  lemma CleanedEntries(lernziele: seq<string>, materialien: seq<Material>, l: string, m: Material)
    ensures l in Filter(lernziele, NotBlank) <==> l in lernziele && !IsBlank(l)
    ensures m in Filter(materialien, (m: Material) => !IsBlank(m.name)) <==> m in materialien && !IsBlank(m.name)
  {
    FilterMembership(lernziele, NotBlank, l);
    FilterMembership(materialien, (m: Material) => !IsBlank(m.name), m);
  }

  class Editor {
    var name: string
    var typ: string
    var hersteller: string
    var beschreibung: string
    var lernziele: seq<string>
    var agenda: seq<AgendaTag>
    var materialien: seq<Material>
    var error: string

    ghost predicate Valid()
      reads this
    {
      Numbered(agenda)
    }

    /** The initial form: one empty entry in each list. */
    constructor()
      ensures Valid()
      ensures name == "" && typ == "Grundlagen" && hersteller == "KUKA" && beschreibung == "" && error == ""
      ensures lernziele == [""] && agenda == [AgendaTag(1, "", [""])] && materialien == [Material("", "")]
    {
      name, typ, hersteller, beschreibung, error := "", "Grundlagen", "KUKA", "", "";
      lernziele := [""];
      agenda := [AgendaTag(1, "", [""])];
      materialien := [Material("", "")];
    }

    method AddLernziel()
      modifies this`lernziele
      ensures lernziele == old(lernziele) + [""]
      ensures unchanged(this`agenda) && unchanged(this`materialien) && unchanged(this`name) && unchanged(this`error)
      ensures unchanged(this`typ) && unchanged(this`hersteller) && unchanged(this`beschreibung)
    {
      lernziele := lernziele + [""];
    }

    method UpdateLernziel(index: int, text: string)
      requires 0 <= index < |lernziele|
      modifies this`lernziele
      ensures lernziele == old(lernziele)[index := text]
      ensures unchanged(this`agenda) && unchanged(this`materialien) && unchanged(this`name) && unchanged(this`error)
      ensures unchanged(this`typ) && unchanged(this`hersteller) && unchanged(this`beschreibung)
    {
      lernziele := lernziele[index := text];
    }

    method RemoveLernziel(index: int)
      modifies this`lernziele
      ensures lernziele == RemoveAt(old(lernziele), index)
      ensures unchanged(this`agenda) && unchanged(this`materialien) && unchanged(this`name) && unchanged(this`error)
      ensures unchanged(this`typ) && unchanged(this`hersteller) && unchanged(this`beschreibung)
    {
      lernziele := RemoveAt(lernziele, index);
    }

    method AddAgendaTag()
      requires Valid()
      modifies this`agenda
      ensures Valid()
      ensures agenda == old(agenda) + [AgendaTag(|old(agenda)| + 1, "", [""])]
      ensures unchanged(this`lernziele) && unchanged(this`materialien) && unchanged(this`name) && unchanged(this`error)
      ensures unchanged(this`typ) && unchanged(this`hersteller) && unchanged(this`beschreibung)
    {
      AgendaStaysNumbered(agenda, 0);
      agenda := agenda + [AgendaTag(|agenda| + 1, "", [""])];
    }

    method UpdateAgendaTitel(index: int, titel: string)
      requires Valid() && 0 <= index < |agenda|
      modifies this`agenda
      ensures Valid()
      ensures agenda == old(agenda)[index := old(agenda)[index].(titel := titel)]
      ensures unchanged(this`lernziele) && unchanged(this`materialien) && unchanged(this`name) && unchanged(this`error)
      ensures unchanged(this`typ) && unchanged(this`hersteller) && unchanged(this`beschreibung)
    {
      agenda := agenda[index := agenda[index].(titel := titel)];
    }

    /** One more empty topic on day agendaIndex and on no other day. */
    method AddThema(agendaIndex: int)
      requires Valid() && 0 <= agendaIndex < |agenda|
      modifies this`agenda
      ensures Valid()
      ensures agenda == old(agenda)[agendaIndex := old(agenda)[agendaIndex].(themen := old(agenda)[agendaIndex].themen + [""])]
      ensures unchanged(this`lernziele) && unchanged(this`materialien) && unchanged(this`name) && unchanged(this`error)
      ensures unchanged(this`typ) && unchanged(this`hersteller) && unchanged(this`beschreibung)
    {
      agenda := agenda[agendaIndex := agenda[agendaIndex].(themen := agenda[agendaIndex].themen + [""])];
    }

    method UpdateThema(agendaIndex: int, themaIndex: int, text: string)
      requires Valid() && 0 <= agendaIndex < |agenda| && 0 <= themaIndex < |agenda[agendaIndex].themen|
      modifies this`agenda
      ensures Valid()
      ensures agenda == old(agenda)[agendaIndex := old(agenda)[agendaIndex].(themen := old(agenda)[agendaIndex].themen[themaIndex := text])]
      ensures unchanged(this`lernziele) && unchanged(this`materialien) && unchanged(this`name) && unchanged(this`error)
      ensures unchanged(this`typ) && unchanged(this`hersteller) && unchanged(this`beschreibung)
    {
      agenda := agenda[agendaIndex := agenda[agendaIndex].(themen := agenda[agendaIndex].themen[themaIndex := text])];
    }

    method RemoveThema(agendaIndex: int, themaIndex: int)
      requires Valid() && 0 <= agendaIndex < |agenda|
      modifies this`agenda
      ensures Valid()
      ensures agenda == old(agenda)[agendaIndex := old(agenda)[agendaIndex].(themen := RemoveAt(old(agenda)[agendaIndex].themen, themaIndex))]
      ensures unchanged(this`lernziele) && unchanged(this`materialien) && unchanged(this`name) && unchanged(this`error)
      ensures unchanged(this`typ) && unchanged(this`hersteller) && unchanged(this`beschreibung)
    {
      agenda := agenda[agendaIndex := agenda[agendaIndex].(themen := RemoveAt(agenda[agendaIndex].themen, themaIndex))];
    }

    /** Removes day index and numbers the remaining days 1..n again. */
    method RemoveAgendaTag(index: int)
      modifies this`agenda
      ensures Valid()
      ensures agenda == Renumber(RemoveAt(old(agenda), index))
      ensures unchanged(this`lernziele) && unchanged(this`materialien) && unchanged(this`name) && unchanged(this`error)
      ensures unchanged(this`typ) && unchanged(this`hersteller) && unchanged(this`beschreibung)
    {
      var updated := RemoveAt(agenda, index);
      ghost var base := updated;
      var i := 0;
      while i < |updated|
        invariant 0 <= i <= |updated| == |base|
        invariant forall k :: 0 <= k < i ==> updated[k] == base[k].(tag := k + 1)
        invariant forall k :: i <= k < |updated| ==> updated[k] == base[k]
      {
        updated := updated[i := updated[i].(tag := i + 1)];
        i := i + 1;
      }
      agenda := updated;
    }

    method AddMaterial()
      modifies this`materialien
      ensures materialien == old(materialien) + [Material("", "")]
      ensures unchanged(this`lernziele) && unchanged(this`agenda) && unchanged(this`name) && unchanged(this`error)
      ensures unchanged(this`typ) && unchanged(this`hersteller) && unchanged(this`beschreibung)
    {
      materialien := materialien + [Material("", "")];
    }

    method UpdateMaterial(index: int, field: MaterialField, value: string)
      requires 0 <= index < |materialien|
      modifies this`materialien
      ensures materialien == old(materialien)[index :=
        if field == Name then old(materialien)[index].(name := value) else old(materialien)[index].(beschreibung := value)]
      ensures unchanged(this`lernziele) && unchanged(this`agenda) && unchanged(this`name) && unchanged(this`error)
      ensures unchanged(this`typ) && unchanged(this`hersteller) && unchanged(this`beschreibung)
    {
      var m := materialien[index];
      materialien := materialien[index := if field == Name then m.(name := value) else m.(beschreibung := value)];
    }

    method RemoveMaterial(index: int)
      modifies this`materialien
      ensures materialien == RemoveAt(old(materialien), index)
      ensures unchanged(this`lernziele) && unchanged(this`agenda) && unchanged(this`name) && unchanged(this`error)
      ensures unchanged(this`typ) && unchanged(this`hersteller) && unchanged(this`beschreibung)
    {
      materialien := RemoveAt(materialien, index);
    }

    /** `handleSubmit`: a blank name is reported and nothing is sent; otherwise the cleaned
        body is sent, and requestOk is whether the server answered with success. The lists
        of the editor are left as they are. */
    method Submit(requestOk: bool) returns (sent: Option<Payload>)
      modifies this`error
      ensures IsBlank(name) ==> sent == None && error == ErrName
      ensures !IsBlank(name) ==>
        && sent == Some(Cleaned(name, typ, hersteller, beschreibung, lernziele, agenda, materialien))
        && error == (if requestOk then "" else ErrCreate)
    {
      error := "";
      if IsBlank(name) {
        error := ErrName;
        return None;
      }
      sent := Some(Cleaned(name, typ, hersteller, beschreibung, lernziele, agenda, materialien));
      if !requestOk {
        error := ErrCreate;
      }
    }
  }
}
