/** The template overview: templates grouped by manufacturer in list order, and the stat
    cards and per-template counts. */
module TemplatesPage {
  import opened Options
  import opened JsStrings
  import opened Seqs
  import Utils

  /** A stored template as the page reads it; a JSON column may be null. */
  datatype TemplateRow = TemplateRow(id: string, name: string, typ: string, hersteller: string,
                                     beschreibung: string, lernziele: Option<seq<string>>,
                                     agenda: Option<seq<string>>, materialien: Option<seq<string>>,
                                     standardFragen: Option<seq<string>>)

  function Hersteller(t: TemplateRow): string { t.hersteller }

  /** A list without repetitions has as many distinct elements as entries. */
  lemma {:induction false} DistinctCardinality(s: seq<string>)
    requires forall a, b :: 0 <= a < b < |s| ==> s[a] != s[b]
    ensures |set x | x in s| == |s|
    decreases |s|
  {
    if s != [] {
      var rest := s[1..];
      DistinctCardinality(rest);
      assert (set x | x in s) == (set x | x in rest) + {s[0]};
      assert s[0] !in rest;
    }
  }

  /** `templatesByHersteller`: every template lands in the group of its manufacturer,
      groups keep the list order, the groups appear in the order their manufacturer first
      occurs, and there are as many groups as distinct manufacturers. */
  method GroupByHersteller(templates: seq<TemplateRow>) returns (groups: map<string, seq<TemplateRow>>, order: seq<string>)
    ensures forall k :: k in groups <==> k in order
    ensures forall k :: k in order <==> exists i :: 0 <= i < |templates| && templates[i].hersteller == k
    ensures forall k :: k in groups ==> groups[k] == Filter(templates, (t: TemplateRow) => t.hersteller == k)
    ensures forall k :: k in groups ==> IsSubsequence(groups[k], templates)
    ensures forall i :: 0 <= i < |templates| ==> templates[i].hersteller in groups && templates[i] in groups[templates[i].hersteller]
    ensures |order| == |set t | t in templates :: t.hersteller|
    ensures order == Utils.FirstKeys(templates, Hersteller)
    ensures forall a, b :: 0 <= a < b < |order| ==> Utils.FirstBefore(templates, Hersteller, order[a], order[b])
  {
    groups, order := Utils.GroupBy(templates, Hersteller);
    forall k | k in groups
      ensures groups[k] == Filter(templates, (t: TemplateRow) => t.hersteller == k)
      ensures IsSubsequence(groups[k], templates)
    {
      HerstellerGroup(templates, k);
    }
    forall i | 0 <= i < |templates|
      ensures templates[i].hersteller in groups && templates[i] in groups[templates[i].hersteller]
    {
      var k := templates[i].hersteller;
      assert k in order;
      HerstellerGroup(templates, k);
      FilterMembership(templates, (t: TemplateRow) => t.hersteller == k, templates[i]);
    }
    OrderCardinality(templates, order);
  }

  /** The group of one manufacturer is the filter by it, a subsequence of the list. */
  lemma HerstellerGroup(templates: seq<TemplateRow>, k: string)
    ensures Utils.Group(templates, Hersteller, k) == Filter(templates, (t: TemplateRow) => t.hersteller == k)
    ensures IsSubsequence(Utils.Group(templates, Hersteller, k), templates)
  {
    Utils.GroupIsFilter(templates, Hersteller, k, (t: TemplateRow) => t.hersteller == k);
    FilterIsSubsequence(templates, (t: TemplateRow) => t.hersteller == k);
  }

  /** A repetition-free list of exactly the occurring manufacturers is as long as their set. */
  lemma OrderCardinality(templates: seq<TemplateRow>, order: seq<string>)
    requires forall a, b :: 0 <= a < b < |order| ==> order[a] != order[b]
    requires forall k :: k in order <==> exists i :: 0 <= i < |templates| && templates[i].hersteller == k
    ensures |order| == |set t | t in templates :: t.hersteller|
  {
    DistinctCardinality(order);
    var names := set t | t in templates :: t.hersteller;
    forall x ensures x in order <==> x in names {
      if x in order {
        var i :| 0 <= i < |templates| && templates[i].hersteller == x;
        assert templates[i] in templates;
      }
      if x in names {
        var t :| t in templates && t.hersteller == x;
        var i :| 0 <= i < |templates| && templates[i] == t;
      }
    }
    SameMembers(order, names);
  }

  lemma SameMembers(s: seq<string>, names: set<string>)
    requires forall x :: x in s <==> x in names
    ensures (set x | x in s) == names
  {
  }

  function TypIs(typ: string): TemplateRow -> bool {
    (t: TemplateRow) => Lower(t.typ) == typ
  }

  /** The Grundlagen and Fortgeschritten cards: types compared ignoring case; together at
      most the total. */
  lemma TypCards(templates: seq<TemplateRow>)
    ensures Count(templates, TypIs("grundlagen")) + Count(templates, TypIs("fortgeschritten")) <= |templates|
    ensures forall t :: t in Filter(templates, TypIs("grundlagen")) <==> t in templates && Lower(t.typ) == "grundlagen"
  {
    CountDisjoint3(templates, TypIs("grundlagen"), TypIs("fortgeschritten"), (t: TemplateRow) => false);
    forall t
      ensures t in Filter(templates, TypIs("grundlagen")) <==> t in templates && Lower(t.typ) == "grundlagen"
    {
      FilterMembership(templates, TypIs("grundlagen"), t);
    }
  }

  /** `(list as any[])?.length || 0`. */
  function ListCount(list: Option<seq<string>>): (n: nat)
    ensures list.None? ==> n == 0
    ensures list.Some? ==> n == |list.value|
  {
    if list.None? then 0 else |list.value|
  }

  /** The question count is shown for a template whose test is not null; an empty list
      is truthy and shows 0. */
  predicate ShowsFragen(t: TemplateRow) {
    t.standardFragen.Some?
  }

  /** The question line of a template card: shown iff the test is not null, and then with
      the number of questions, 0 for an empty test. */
  function FragenLine(t: TemplateRow): (r: Option<nat>)
    ensures r.Some? <==> t.standardFragen.Some?
    ensures r.Some? ==> r.value == |t.standardFragen.value|
    ensures t.standardFragen == Some([]) ==> r == Some(0)
  {
    if ShowsFragen(t) then Some(ListCount(t.standardFragen)) else None
  }
}
