/** The dialog that issues certificates for the selected participants of a course, one
    request at a time, and turns each returned PDF from base 64 into byte chunks. */
module CertificateModal {
  import opened Options
  import opened JsStrings
  import opened Seqs
  import Utils
  import Dates

  /** A participant as the dialog lists it; a missing `hasZertifikat` is false. */
  datatype Teilnehmer = Teilnehmer(id: string, vorname: string, nachname: string,
                                   firma: Option<string>, hasZertifikat: bool)

  /** `toggleTeilnehmer`: a selected id is removed, any other appended. */
  function Toggle(selected: seq<string>, id: string): seq<string> {
    if id in selected then Filter(selected, (t: string) => t != id) else selected + [id]
  }

  /** Toggling flips the one id and no other. */
  lemma ToggleFlips(selected: seq<string>, id: string, x: string)
    ensures id in Toggle(selected, id) <==> id !in selected
    ensures x != id ==> (x in Toggle(selected, id) <==> x in selected)
  {
    FilterMembership(selected, (t: string) => t != id, x);
    FilterMembership(selected, (t: string) => t != id, id);
  }

  /** Toggling an unselected id twice gives back the same list. */
  lemma ToggleTwice(selected: seq<string>, id: string)
    requires id !in selected
    ensures Toggle(Toggle(selected, id), id) == selected
  {
    var p := (t: string) => t != id;
    FilterConcat(selected, [id], p);
    FilterAll(selected, p);
  }

  function Ids(ts: seq<Teilnehmer>): (r: seq<string>)
    ensures |r| == |ts| && forall k :: 0 <= k < |ts| ==> r[k] == ts[k].id
  {
    seq(|ts|, k requires 0 <= k < |ts| => ts[k].id)
  }

  /** `selectAll`: the ids of participants that have no certificate yet, in list order. */
  function SelectAll(ts: seq<Teilnehmer>): seq<string> {
    Ids(Filter(ts, (t: Teilnehmer) => !t.hasZertifikat))
  }

  /** Exactly the participants without a certificate are selected, and selecting from two
      lists in a row is selecting from each in turn. */
  lemma SelectAllCases(ts: seq<Teilnehmer>, us: seq<Teilnehmer>, t: Teilnehmer)
    ensures t in ts && !t.hasZertifikat ==> t.id in SelectAll(ts)
    ensures forall x :: x in SelectAll(ts) ==> exists u :: u in ts && !u.hasZertifikat && u.id == x
    ensures SelectAll(ts + us) == SelectAll(ts) + SelectAll(us)
  {
    var p := (t: Teilnehmer) => !t.hasZertifikat;
    var f := Filter(ts, p);
    FilterMembership(ts, p, t);
    if t in ts && !t.hasZertifikat {
      var k :| 0 <= k < |f| && f[k] == t;
      assert SelectAll(ts)[k] == t.id;
    }
    forall x | x in SelectAll(ts)
      ensures exists u :: u in ts && !u.hasZertifikat && u.id == x
    {
      var k :| 0 <= k < |f| && Ids(f)[k] == x;
      FilterMembership(ts, p, f[k]);
    }
    FilterConcat(ts, us, p);
    assert Ids(Filter(ts, p) + Filter(us, p)) == Ids(Filter(ts, p)) + Ids(Filter(us, p));
  }

  /** `deselectAll`. */
  function DeselectAll(): (r: seq<string>)
    ensures r == []
  {
    []
  }

  /** `getTeilnehmerName`: first and last name of the first participant with the id,
      "" for none. */
  function TeilnehmerName(ts: seq<Teilnehmer>, id: string): (r: string)
    ensures (forall k :: 0 <= k < |ts| ==> ts[k].id != id) ==> r == ""
    ensures forall k :: 0 <= k < |ts| && ts[k].id == id && (forall j :: 0 <= j < k ==> ts[j].id != id) ==>
      r == ts[k].vorname + " " + ts[k].nachname
    decreases |ts|
  {
    if ts == [] then "" else if ts[0].id == id then ts[0].vorname + " " + ts[0].nachname else TeilnehmerName(ts[1..], id)
  }

  /** What the issuing route answered for one participant: the PDF with its file name,
      a refusal with its error text, or no answer at all. */
  datatype Reply = Issued(filename: string, pdf: string) | Refused(error: Option<string>) | NetworkFailure

  datatype GenResult = GenResult(teilnehmerId: string, success: bool, filename: Option<string>, error: Option<string>)

  const ErrNetwork: string := "Netzwerkfehler"

  function ResultFor(id: string, reply: Reply): (r: GenResult)
    ensures r.teilnehmerId == id && (r.success <==> reply.Issued?)
  {
    match reply
    case Issued(filename, _) => GenResult(id, true, Some(filename), None)
    case Refused(error) => GenResult(id, false, None, error)
    case NetworkFailure => GenResult(id, false, None, Some(ErrNetwork))
  }

  /** The progress shown after k + 1 of n requests, in exact arithmetic. */
  function Progress(k: int, n: int): int
    requires n > 0
  {
    Utils.RoundDiv(100 * (k + 1), n)
  }

  lemma ProgressBounds(k: int, n: int)
    requires 0 <= k < n
    ensures 0 <= Progress(k, n) <= 100
    ensures k == n - 1 ==> Progress(k, n) == 100
  {
    var r := Progress(k, n);
    assert 2 * n * r - n <= 200 * (k + 1) < 2 * n * r + n;
    assert n * (2 * r - 201) <= 0;
    Dates.MulSign(n, 2 * r - 201);
    assert n * (2 * r + 1) > 0;
    Dates.MulSign(n, 2 * r + 1);
    if k == n - 1 {
      assert n * (2 * r - 199) > 0;
      Dates.MulSign(n, 2 * r - 199);
    }
  }

  /** `handleGenerate`: nothing is requested for an empty selection, which raises the
      alert; otherwise the route is asked once per selected id, in order, reply giving its
      answer, with one result per id and the progress after each. */
  method HandleGenerate(selected: seq<string>, reply: string -> Reply)
    returns (alerted: bool, requested: seq<string>, results: seq<GenResult>, progress: seq<int>)
    ensures alerted <==> selected == []
    ensures requested == selected
    ensures |results| == |selected| && |progress| == |selected|
    ensures forall k :: 0 <= k < |selected| ==> results[k] == ResultFor(selected[k], reply(selected[k]))
    ensures forall k :: 0 <= k < |selected| ==> progress[k] == Progress(k, |selected|) && 0 <= progress[k] <= 100
    ensures selected != [] ==> progress[|selected| - 1] == 100
  {
    if |selected| == 0 {
      return true, [], [], [];
    }
    alerted := false;
    var total := |selected|;
    requested, results, progress := [], [], [];
    var i := 0;
    while i < |selected|
      invariant 0 <= i <= |selected|
      invariant requested == selected[..i]
      invariant |results| == i && |progress| == i
      invariant forall k :: 0 <= k < i ==> results[k] == ResultFor(selected[k], reply(selected[k]))
      invariant forall k :: 0 <= k < i ==> progress[k] == Progress(k, total) && 0 <= progress[k] <= 100
    {
      var teilnehmerId := selected[i];
      requested := requested + [teilnehmerId];
      results := results + [ResultFor(teilnehmerId, reply(teilnehmerId))];
      ProgressBounds(i, total);
      progress := progress + [Utils.RoundDiv(100 * (i + 1), total)];
      i := i + 1;
    }
    assert selected[..i] == selected;
    ProgressBounds(total - 1, total);
  }

  /** The chunks glued together again. */
  function Concat(chunks: seq<seq<int>>): seq<int> {
    if chunks == [] then [] else Concat(chunks[..|chunks| - 1]) + chunks[|chunks| - 1]
  }

  /** The bytes a `Uint8Array` stores for the character codes of s: each taken modulo 256. */
  function Bytes(s: string): (r: seq<int>)
    ensures |r| == |s| && forall k :: 0 <= k < |s| ==> r[k] == (s[k] as int) % 256
  {
    seq(|s|, k requires 0 <= k < |s| => (s[k] as int) % 256)
  }

  /** The bytes of a slice are a slice of the bytes. */
  lemma BytesSlice(s: string, i: int, j: int)
    requires 0 <= i <= j <= |s|
    ensures Bytes(s[..j]) == Bytes(s[..i]) + Bytes(s[i..j])
  {
  }

  /** The chunking loop of `base64ToBlob` on the decoded string (the output of `atob`):
      slices of 512 characters, the last one shorter, each turned into bytes. */
  method ToByteArrays(byteCharacters: string) returns (byteArrays: seq<seq<int>>)
    ensures Concat(byteArrays) == Bytes(byteCharacters)
    ensures |byteArrays| == (|byteCharacters| + 511) / 512
    ensures forall k :: 0 <= k < |byteArrays| ==> 0 < |byteArrays[k]| <= 512
    ensures forall k :: 0 <= k < |byteArrays| - 1 ==> |byteArrays[k]| == 512
  {
    var n := |byteCharacters|;
    byteArrays := [];
    var offset := 0;
    while offset < n
      invariant 0 <= offset < n + 512
      invariant offset == 512 * |byteArrays|
      invariant Concat(byteArrays) == Bytes(byteCharacters[..Min(offset, n)])
      invariant forall k :: 0 <= k < |byteArrays| ==> |byteArrays[k]| == Min(512, n - 512 * k) > 0
    {
      var end := Min(offset + 512, n);
      var slice := byteCharacters[offset..end];
      var byteNumbers := new int[|slice|];
      for i := 0 to |slice|
        invariant forall k :: 0 <= k < i ==> byteNumbers[k] == (slice[k] as int) % 256
      {
        byteNumbers[i] := (slice[i] as int) % 256;
      }
      assert byteNumbers[..] == Bytes(slice);
      BytesSlice(byteCharacters, offset, end);
      assert byteCharacters[..end][offset..] == slice;
      ghost var before := byteArrays;
      byteArrays := byteArrays + [byteNumbers[..]];
      assert byteArrays[..|byteArrays| - 1] == before;
      offset := offset + 512;
    }
  }

  function Min(a: int, b: int): int {
    if a < b then a else b
  }
}
