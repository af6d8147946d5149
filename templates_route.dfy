/** `/api/templates`: the listing order of GET and the check and defaults of POST. */
module TemplatesRoute {
  import opened Options
  import opened JsStrings

  /** A stored course template; the JSON columns are kept as the JSON text of each entry. */
  datatype Template = Template(
    id: string, name: string, typ: string, hersteller: string, beschreibung: string,
    lernziele: seq<string>, agenda: seq<string>, materialien: seq<string>, standardFragen: Option<string>)

  /** Strings compared character by character, a proper prefix first. */
  predicate LexLe(a: string, b: string)
    decreases |a|
  {
    a == [] || (b != [] && (a[0] < b[0] || (a[0] == b[0] && LexLe(a[1..], b[1..]))))
  }

  lemma {:induction false} LexTotal(a: string, b: string)
    ensures LexLe(a, b) || LexLe(b, a)
    decreases |a|
  {
    if a != [] && b != [] && a[0] == b[0] {
      LexTotal(a[1..], b[1..]);
    }
  }

  lemma {:induction false} LexTransitive(a: string, b: string, c: string)
    requires LexLe(a, b) && LexLe(b, c)
    ensures LexLe(a, c)
    decreases |a|
  {
    if a != [] && a[0] == b[0] && b[0] == c[0] {
      LexTransitive(a[1..], b[1..], c[1..]);
    }
  }

  lemma {:induction false} LexAntisymmetric(a: string, b: string)
    requires LexLe(a, b) && LexLe(b, a)
    ensures a == b
    decreases |a|
  {
    if a != [] {
      LexAntisymmetric(a[1..], b[1..]);
      assert a == [a[0]] + a[1..] && b == [b[0]] + b[1..];
    }
  }

  /** `orderBy: [{hersteller: 'asc'}, {typ: 'asc'}, {name: 'asc'}]`. */
  predicate TemplateLe(x: Template, y: Template) {
    if x.hersteller != y.hersteller then LexLe(x.hersteller, y.hersteller)
    else if x.typ != y.typ then LexLe(x.typ, y.typ)
    else LexLe(x.name, y.name)
  }

  /** The listing order is total and transitive, so a listing sorted by it exists and is
      determined up to templates agreeing on all three columns. */
  lemma TemplateLeTotal(x: Template, y: Template)
    ensures TemplateLe(x, y) || TemplateLe(y, x)
  {
    LexTotal(x.hersteller, y.hersteller);
    LexTotal(x.typ, y.typ);
    LexTotal(x.name, y.name);
  }

  lemma TemplateLeTransitive(x: Template, y: Template, z: Template)
    requires TemplateLe(x, y) && TemplateLe(y, z)
    ensures TemplateLe(x, z)
  {
    if x.hersteller != y.hersteller && y.hersteller != z.hersteller {
      LexTransitive(x.hersteller, y.hersteller, z.hersteller);
      if x.hersteller == z.hersteller {
        LexAntisymmetric(x.hersteller, y.hersteller);
      }
    } else if x.hersteller == y.hersteller && y.hersteller == z.hersteller {
      if x.typ != y.typ && y.typ != z.typ {
        LexTransitive(x.typ, y.typ, z.typ);
        if x.typ == z.typ {
          LexAntisymmetric(x.typ, y.typ);
        }
      } else if x.typ == y.typ && y.typ == z.typ {
        LexTransitive(x.name, y.name, z.name);
      }
    }
  }

  /** Two templates in the order both ways agree on the three columns. */
  lemma TemplateLeTies(x: Template, y: Template)
    requires TemplateLe(x, y) && TemplateLe(y, x)
    ensures x.hersteller == y.hersteller && x.typ == y.typ && x.name == y.name
  {
    if x.hersteller != y.hersteller {
      LexAntisymmetric(x.hersteller, y.hersteller);
    } else if x.typ != y.typ {
      LexAntisymmetric(x.typ, y.typ);
    } else {
      LexAntisymmetric(x.name, y.name);
    }
  }

  ghost predicate Listed(a: seq<Template>) {
    forall p, q :: 0 <= p < q < |a| ==> TemplateLe(a[p], a[q])
  }

  /** Moves a[i] down into the ordered prefix a[..i]. */
  method InsertDown(a: array<Template>, i: int)
    requires 0 <= i < a.Length
    requires forall p, q :: 0 <= p < q < i ==> TemplateLe(a[p], a[q])
    modifies a
    ensures forall p, q :: 0 <= p < q <= i ==> TemplateLe(a[p], a[q])
    ensures multiset(a[..]) == multiset(old(a[..]))
  {
    var j := i;
    while j > 0 && !TemplateLe(a[j - 1], a[j])
      invariant 0 <= j <= i
      invariant forall p, q :: 0 <= p < q <= i && p != j && q != j ==> TemplateLe(a[p], a[q])
      invariant forall q :: j < q <= i ==> TemplateLe(a[j], a[q])
      invariant multiset(a[..]) == multiset(old(a[..]))
    {
      TemplateLeTotal(a[j - 1], a[j]);
      a[j - 1], a[j] := a[j], a[j - 1];
      j := j - 1;
    }
    if j > 0 {
      forall p | 0 <= p < j - 1
        ensures TemplateLe(a[p], a[j])
      {
        TemplateLeTransitive(a[p], a[j - 1], a[j]);
      }
    }
  }

  /** GET: read is the outcome of `findMany`, the table or the error it throws. The
      answer is the table in listing order, a permutation of it, or 500 when the read
      throws. The database sorts; the model sorts by insertion. */
  method Get(read: Result<seq<Template>>) returns (resp: Response)
    ensures read.Err? <==> resp == Failure(500, ErrFetch)
    ensures read.Ok? ==> resp.Listing? && multiset(resp.templates) == multiset(read.value) && Listed(resp.templates)
  {
    if read.Err? {
      return Failure(500, ErrFetch);
    }
    var table := read.value;
    var a := new Template[|table|](k requires 0 <= k < |table| => table[k]);
    assert a[..] == table;
    var i := 0;
    while i < a.Length
      invariant 0 <= i <= a.Length
      invariant forall p, q :: 0 <= p < q < i ==> TemplateLe(a[p], a[q])
      invariant multiset(a[..]) == multiset(table)
    {
      InsertDown(a, i);
      i := i + 1;
    }
    resp := Listing(a[..]);
  }

  /** The POST body; an array field is falsy only when absent. */
  datatype Body = Body(
    name: Option<string>, typ: Option<string>, hersteller: Option<string>, beschreibung: Option<string>,
    lernziele: Option<seq<string>>, agenda: Option<seq<string>>, materialien: Option<seq<string>>,
    standardFragen: Option<string>)

  datatype Response = Listing(templates: seq<Template>) | Created(template: Template) | Failure(status: int, error: string)

  const ErrFetch: string := "Failed to fetch templates"
  const ErrRequired: string := "Name, Typ und Hersteller sind erforderlich"
  const ErrCreate: string := "Failed to create template"

  function OrEmpty(o: Option<seq<string>>): seq<string> {
    if o.None? then [] else o.value
  }

  /** The record to create for a body that passed the check, with the id the database
      gives it. */
  function NewTemplate(b: Body, id: string): Template
    requires !Falsy(b.name) && !Falsy(b.typ) && !Falsy(b.hersteller)
  {
    Template(id, b.name.value, b.typ.value, b.hersteller.value, Or(b.beschreibung, ""),
             OrEmpty(b.lernziele), OrEmpty(b.agenda), OrEmpty(b.materialien),
             if Falsy(b.standardFragen) then None else b.standardFragen)
  }

  /** POST: body is the outcome of `request.json()`, create the database's new id or error. */
  function Post(body: Result<Body>, create: Template -> Result<string>): Response {
    if body.Err? then Failure(500, ErrCreate)
    else
      var b := body.value;
      if Falsy(b.name) || Falsy(b.typ) || Falsy(b.hersteller) then Failure(400, ErrRequired)
      else match create(NewTemplate(b, ""))
        case Err(_) => Failure(500, ErrCreate)
        case Ok(id) => Created(NewTemplate(b, id))
  }

  /** 400 exactly for a missing name, type or manufacturer; otherwise the created template
      carries the body's fields with "" for a missing description, [] for missing lists
      and null for missing standard questions. */
  lemma PostOutcomes(b: Body, create: Template -> Result<string>)
    ensures (Post(Ok(b), create) == Failure(400, ErrRequired)) <==> (Falsy(b.name) || Falsy(b.typ) || Falsy(b.hersteller))
    ensures var r := Post(Ok(b), create);
      r.Created? ==>
        && r.template.name == b.name.value && r.template.typ == b.typ.value && r.template.hersteller == b.hersteller.value
        && r.template.beschreibung == (if Falsy(b.beschreibung) then "" else b.beschreibung.value)
        && r.template.lernziele == (if b.lernziele.None? then [] else b.lernziele.value)
        && r.template.agenda == (if b.agenda.None? then [] else b.agenda.value)
        && r.template.materialien == (if b.materialien.None? then [] else b.materialien.value)
        && r.template.standardFragen == (if Falsy(b.standardFragen) then None else b.standardFragen)
    ensures Post(Ok(b), create).Failure? ==> Post(Ok(b), create).status in {400, 500}
  {
  }
}
