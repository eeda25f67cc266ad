/** Record normalisation: a raw MARC/Aleph record, already parsed into its varfields and
    their labelled subfields, becomes the JSON dictionary written to `data/normalized`. */
module Normalize {
  import opened Common
  import opened Json

  datatype Subfield = Subfield(code: string, text: string)

  /** A `varfield` element: its `id` attribute and its `subfield` children in order. */
  datatype Varfield = Varfield(id: string, subfields: seq<Subfield>)

  /** A parsed raw record: the text of its `doc_number` element, if there is one, and
      every `varfield` in document order. */
  datatype RawRecord = RawRecord(docNumber: Option<string>, varfields: seq<Varfield>)

  const GND_PREFIX := "http://d-nb.info/gnd"

  // ---------------------------------------------------------------------------
  // Lookups on the parsed tree

  /** A varfield whose id is non-empty decimal text with `start <= int(id) < end`. */
  predicate InIdRange(tag: Varfield, start: int, end: int)
  {
    tag.id != "" && IsDigits(tag.id) && start <= DigitsValue(tag.id) < end
  }

  /** `find_tags_in_id_range`: the varfields in the id range, in document order. */
  function FindTagsInIdRange(tags: seq<Varfield>, start: int, end: int): (r: seq<Varfield>)
    ensures |r| <= |tags|
    ensures forall t :: t in r <==> t in tags && InIdRange(t, start, end)
  {
    if tags == [] then []
    else
      var last := tags[|tags| - 1];
      var init := tags[..|tags| - 1];
      assert tags == init + [last];
      FindTagsInIdRange(init, start, end) + (if InIdRange(last, start, end) then [last] else [])
  }

  /** The selection keeps document order: selecting from a concatenation concatenates the
      selections. */
  lemma {:induction false} FindTagsInIdRangeAppend(a: seq<Varfield>, b: seq<Varfield>, start: int, end: int)
    ensures FindTagsInIdRange(a + b, start, end)
         == FindTagsInIdRange(a, start, end) + FindTagsInIdRange(b, start, end)
  {
    if b == [] {
      assert a + b == a;
    } else {
      var init := b[..|b| - 1];
      assert (a + b)[..|a + b| - 1] == a + init;
      assert (a + b)[|a + b| - 1] == b[|b| - 1];
      FindTagsInIdRangeAppend(a, init, start, end);
    }
  }

  /** Position `i` holds the first varfield with that id. */
  predicate FirstIdAt(tags: seq<Varfield>, id: string, i: int)
  {
    0 <= i < |tags| && tags[i].id == id && forall j :: 0 <= j < i ==> tags[j].id != id
  }

  /** `soup.find("varfield", id=id)`: the first varfield with exactly that id. */
  function FirstWithId(tags: seq<Varfield>, id: string): (r: Option<Varfield>)
    ensures r.Some? <==> exists t :: t in tags && t.id == id
    ensures r.Some? ==> r.value in tags && r.value.id == id
  {
    if tags == [] then None
    else if tags[0].id == id then Some(tags[0])
    else FirstWithId(tags[1..], id)
  }

  /** The varfield found is the one at the first position with that id. */
  lemma {:induction false} FirstWithIdFirst(tags: seq<Varfield>, id: string)
    ensures FirstWithId(tags, id).Some? ==> exists i :: FirstIdAt(tags, id, i) && tags[i] == FirstWithId(tags, id).value
    ensures forall i :: FirstIdAt(tags, id, i) ==> FirstWithId(tags, id) == Some(tags[i])
  {
    if tags != [] {
      if tags[0].id == id {
        assert FirstIdAt(tags, id, 0);
      } else {
        FirstWithIdFirst(tags[1..], id);
        assert forall i :: FirstIdAt(tags, id, i) ==> i >= 1 && FirstIdAt(tags[1..], id, i - 1);
        var r := FirstWithId(tags[1..], id);
        if r.Some? {
          var k :| FirstIdAt(tags[1..], id, k) && tags[1..][k] == r.value;
          assert FirstIdAt(tags, id, k + 1);
        }
      }
    }
  }

  /** Position `i` holds the first subfield labelled `code`. */
  predicate FirstCodeAt(sfs: seq<Subfield>, code: string, i: int)
  {
    0 <= i < |sfs| && sfs[i].code == code && forall j :: 0 <= j < i ==> sfs[j].code != code
  }

  /** `tag.find(label=code).string`: the text of the first subfield labelled `code`. */
  function FindSubfield(sfs: seq<Subfield>, code: string): (r: Option<string>)
    ensures r.Some? <==> exists sf :: sf in sfs && sf.code == code
    ensures r.Some? ==> Subfield(code, r.value) in sfs
  {
    if sfs == [] then None
    else if sfs[0].code == code then Some(sfs[0].text)
    else FindSubfield(sfs[1..], code)
  }

  /** The text found is that of the subfield at the first position with that label. */
  lemma {:induction false} FindSubfieldFirst(sfs: seq<Subfield>, code: string)
    ensures FindSubfield(sfs, code).Some? ==> exists i :: FirstCodeAt(sfs, code, i) && sfs[i].text == FindSubfield(sfs, code).value
    ensures forall i :: FirstCodeAt(sfs, code, i) ==> FindSubfield(sfs, code) == Some(sfs[i].text)
  {
    if sfs != [] {
      if sfs[0].code == code {
        assert FirstCodeAt(sfs, code, 0);
      } else {
        FindSubfieldFirst(sfs[1..], code);
        assert forall i :: FirstCodeAt(sfs, code, i) ==> i >= 1 && FirstCodeAt(sfs[1..], code, i - 1);
        var r := FindSubfield(sfs[1..], code);
        if r.Some? {
          var k :| FirstCodeAt(sfs[1..], code, k) && sfs[1..][k].text == r.value;
          assert FirstCodeAt(sfs, code, k + 1);
        }
      }
    }
  }

  /** A GND link: the prefix, a slash, and the subfield text without its first 8
      characters (Python `s[8:]`). */
  function GndLink(text: string): (r: string)
    ensures StripFrame(r, GND_PREFIX + "/", "") == Some(Drop(text, 8))
    ensures Contains(r, "gnd")
  {
    var r := GND_PREFIX + "/" + Drop(text, 8);
    FramedRecovers(GND_PREFIX + "/", Drop(text, 8), "");
    assert r == "http://d-nb.info/" + "gnd" + ("/" + Drop(text, 8));
    ContainsWithin("http://d-nb.info/", "gnd", "/" + Drop(text, 8));
    assert GND_PREFIX + "/" + Drop(text, 8) + "" == r;
    r
  }

  /** `.replace("[", "").replace("]", "")`. */
  function StripBrackets(s: string): (r: string)
    ensures '[' !in r && ']' !in r
    ensures forall c :: c in r <==> c in s && c != '[' && c != ']'
  {
    DeleteChar(DeleteChar(s, '['), ']')
  }

  /** Bracket stripping works character by character and keeps the order of the rest:
      it distributes over concatenation, drops a bracket and keeps any other character. */
  lemma StripBracketsPiecewise(a: string, b: string, c: char)
    ensures StripBrackets(a + b) == StripBrackets(a) + StripBrackets(b)
    ensures StripBrackets([c]) == if c == '[' || c == ']' then [] else [c]
  {
    DeleteCharAppend(a, b, '[');
    DeleteCharAppend(DeleteChar(a, '['), DeleteChar(b, '['), ']');
    DeleteCharOne(c, '[');
    DeleteCharOne(c, ']');
    assert DeleteChar([], ']') == [];
  }

  // ---------------------------------------------------------------------------
  // persons: varfields 100..199

  /** Line 39 reads the name before testing it, so a person varfield needs a `p` or an
      `a` subfield. */
  predicate HasName(tag: Varfield)
  {
    FindSubfield(tag.subfields, "p").Some? || FindSubfield(tag.subfields, "a").Some?
  }

  /** The name subfield: `p` if present, else `a`. */
  function BaseName(tag: Varfield): string
    requires HasName(tag)
  {
    match FindSubfield(tag.subfields, "p")
    case Some(p) => p
    case None => FindSubfield(tag.subfields, "a").value
  }

  function PersonName(tag: Varfield): string
    requires HasName(tag)
  {
    var name := BaseName(tag);
    var n := FindSubfield(tag.subfields, "n");
    if ' ' !in name && n.Some? then name + " " + n.value else name
  }

  /** The name rule: the base name, extended by `" " + n` exactly when the base name has
      no blank and an `n` subfield exists. */
  lemma PersonNameRule(tag: Varfield)
    requires HasName(tag)
    ensures BaseName(tag) <= PersonName(tag)
    ensures PersonName(tag) == BaseName(tag)
        <==> ' ' in BaseName(tag) || FindSubfield(tag.subfields, "n").None?
    ensures PersonName(tag) != BaseName(tag)
        ==> PersonName(tag) == BaseName(tag) + " " + FindSubfield(tag.subfields, "n").value
  {
    var name := BaseName(tag);
    if ' ' !in name && FindSubfield(tag.subfields, "n").Some? {
      assert |PersonName(tag)| > |name|;
    }
  }

  /** The person dictionary built for one varfield. */
  function PersonOf(tag: Varfield): (p: map<string, Json>)
    requires HasName(tag)
    ensures p.Keys <= {"name", "lifetime", "role", "sameas"}
    ensures "name" in p && p["name"] == JStr(PersonName(tag))
    ensures match FindSubfield(tag.subfields, "d")
      case None => "lifetime" !in p
      case Some(d) => "lifetime" in p && p["lifetime"] == JStr(d)
    ensures match FindSubfield(tag.subfields, "b")
      case None => "role" !in p
      case Some(b) => "role" in p && p["role"] == JStr(StripBrackets(b))
    ensures match FindSubfield(tag.subfields, "9")
      case None => "sameas" !in p
      case Some(g) => "sameas" in p && p["sameas"] == JList([JStr(GndLink(g))])
  {
    var sfs := tag.subfields;
    var p0 := map["name" := JStr(PersonName(tag))];
    var p1 := match FindSubfield(sfs, "d") case None => p0 case Some(d) => p0["lifetime" := JStr(d)];
    var p2 := match FindSubfield(sfs, "b") case None => p1 case Some(b) => p1["role" := JStr(StripBrackets(b))];
    match FindSubfield(sfs, "9") case None => p2 case Some(g) => p2["sameas" := JList([JStr(GndLink(g))])]
  }

  predicate PersonsNamed(rec: RawRecord)
  {
    forall t :: t in FindTagsInIdRange(rec.varfields, 100, 200) ==> HasName(t)
  }

  /** `persons`: one dictionary per varfield 100..199, in order. */
  function Persons(rec: RawRecord): (r: seq<Json>)
    requires PersonsNamed(rec)
    ensures |r| == |FindTagsInIdRange(rec.varfields, 100, 200)|
  {
    var tags := FindTagsInIdRange(rec.varfields, 100, 200);
    seq(|tags|, i requires 0 <= i < |tags| => JObj(PersonOf(tags[i])))
  }

  /** Entry `i` of `persons` is the dictionary of the `i`-th varfield 100..199. */
  lemma PersonsEntries(rec: RawRecord, tags: seq<Varfield>)
    requires PersonsNamed(rec) && tags == FindTagsInIdRange(rec.varfields, 100, 200)
    ensures forall i :: 0 <= i < |tags| ==> Persons(rec)[i] == JObj(PersonOf(tags[i]))
  {
  }

  /** One iteration of the `persons` loop. */
  method BuildPerson(tag: Varfield) returns (person: map<string, Json>)
    requires HasName(tag)
    ensures person == PersonOf(tag)
  {
    person := map[];
    var name := BaseName(tag);
    var ext := "";
    if ' ' !in name {
      var extTag := FindSubfield(tag.subfields, "n");
      if extTag.Some? {
        ext := " " + extTag.value;
      }
    }
    assert name + ext == PersonName(tag);
    person := person["name" := JStr(name + ext)];
    assert person == map["name" := JStr(PersonName(tag))];
    match FindSubfield(tag.subfields, "d") {
      case Some(lifetime) => person := person["lifetime" := JStr(lifetime)];
      case None =>
    }
    match FindSubfield(tag.subfields, "b") {
      case Some(role) => person := person["role" := JStr(StripBrackets(role))];
      case None =>
    }
    match FindSubfield(tag.subfields, "9") {
      case Some(gnd) => person := person["sameas" := JList([JStr(GndLink(gnd))])];
      case None =>
    }
  }

  method CollectPersons(rec: RawRecord) returns (persons: seq<Json>)
    requires PersonsNamed(rec)
    ensures persons == Persons(rec)
  {
    var tags := FindTagsInIdRange(rec.varfields, 100, 200);
    persons := [];
    for i := 0 to |tags|
      invariant persons == Persons(rec)[..i]
    {
      assert tags[i] in tags;
      var person := BuildPerson(tags[i]);
      assert Persons(rec)[i] == JObj(person);
      PrefixSnoc(Persons(rec), i);
      persons := persons + [JObj(person)];
    }
    assert Persons(rec)[..|tags|] == Persons(rec);
  }

  // ---------------------------------------------------------------------------
  // content: varfields 655 with a `u` subfield

  function ContentOf(tag: Varfield): (r: seq<Json>)
    ensures |r| <= 1
    ensures r != [] <==> FindSubfield(tag.subfields, "u").Some?
    ensures r != [] ==> r[0].JObj? && r[0].fields.Keys == {"uri", "note"}
    ensures r != [] ==> r[0].fields["uri"] == JStr(FindSubfield(tag.subfields, "u").value)
    ensures r != [] ==> (r[0].fields["note"] == JNull <==> FindSubfield(tag.subfields, "z").None?)
    ensures r != [] && FindSubfield(tag.subfields, "z").Some? ==>
      r[0].fields["note"] == JStr(FindSubfield(tag.subfields, "z").value)
  {
    var uri := FindSubfield(tag.subfields, "u");
    var note := FindSubfield(tag.subfields, "z");
    if uri.Some? then
      [JObj(map["uri" := JStr(uri.value), "note" := if note.Some? then JStr(note.value) else JNull])]
    else []
  }

  /** `content` over a prefix of the varfields. */
  function Content(tags: seq<Varfield>): seq<Json>
  {
    if tags == [] then []
    else
      var last := tags[|tags| - 1];
      Content(tags[..|tags| - 1]) + (if last.id == "655" then ContentOf(last) else [])
  }

  /** Every entry comes from a 655 varfield, and every 655 varfield with a `u` subfield
      contributes its entry. */
  lemma {:induction false} ContentMembers(tags: seq<Varfield>)
    ensures forall x :: (x in Content(tags) <==> exists t :: t in tags && t.id == "655" && x in ContentOf(t))
  {
    if tags != [] {
      var init := tags[..|tags| - 1];
      var last := tags[|tags| - 1];
      ContentMembers(init);
      assert tags == init + [last];
      forall x
        ensures x in Content(tags) <==> exists t :: t in tags && t.id == "655" && x in ContentOf(t)
      {
        if x in Content(tags) && x !in Content(init) {
          assert last in tags && last.id == "655" && x in ContentOf(last);
        }
        if exists t :: t in tags && t.id == "655" && x in ContentOf(t) {
          var t :| t in tags && t.id == "655" && x in ContentOf(t);
          if t != last {
            assert t in init;
          }
        }
      }
    }
  }

  method CollectContent(rec: RawRecord) returns (contents: seq<Json>)
    ensures contents == Content(rec.varfields)
  {
    var tags := rec.varfields;
    contents := [];
    for i := 0 to |tags|
      invariant contents == Content(tags[..i])
    {
      var tag := tags[i];
      assert tags[..i + 1][..i] == tags[..i];
      if tag.id == "655" {
        var uri := FindSubfield(tag.subfields, "u");
        var note := FindSubfield(tag.subfields, "z");
        var noteValue := if note.Some? then JStr(note.value) else JNull;
        if uri.Some? {
          contents := contents + [JObj(map["uri" := JStr(uri.value), "note" := noteValue])];
        }
      }
    }
    assert tags[..|tags|] == tags;
  }

  // ---------------------------------------------------------------------------
  // title and the record's own GND link: the first varfield 303

  /** `title`: the `t` subfield of the first varfield 303. */
  function Title(rec: RawRecord): (r: Option<string>)
    ensures FirstWithId(rec.varfields, "303").None? ==> r.None?
    ensures FirstWithId(rec.varfields, "303").Some?
        ==> r == FindSubfield(FirstWithId(rec.varfields, "303").value.subfields, "t")
    ensures forall i :: FirstIdAt(rec.varfields, "303", i) ==> r == FindSubfield(rec.varfields[i].subfields, "t")
  {
    FirstWithIdFirst(rec.varfields, "303");
    match FirstWithId(rec.varfields, "303")
    case None => None
    case Some(tag) => FindSubfield(tag.subfields, "t")
  }

  /** `gnd_link`: the GND link built from the `9` subfield of the first varfield 303. */
  function RecordGndLink(rec: RawRecord): (r: Option<string>)
    ensures r.Some? <==> (FirstWithId(rec.varfields, "303").Some?
                      && FindSubfield(FirstWithId(rec.varfields, "303").value.subfields, "9").Some?)
    ensures r.Some? ==> r.value == GndLink(FindSubfield(FirstWithId(rec.varfields, "303").value.subfields, "9").value)
    ensures forall i :: FirstIdAt(rec.varfields, "303", i) ==>
      match FindSubfield(rec.varfields[i].subfields, "9")
      case None => r.None?
      case Some(g) => r == Some(GndLink(g))
  {
    FirstWithIdFirst(rec.varfields, "303");
    match FirstWithId(rec.varfields, "303")
    case None => None
    case Some(tag) =>
      match FindSubfield(tag.subfields, "9")
      case None => None
      case Some(s) => Some(GndLink(s))
  }

  // ---------------------------------------------------------------------------
  // subtitles: every subfield of varfields 304..399

  function StripAll(sfs: seq<Subfield>): (r: seq<string>)
    ensures |r| == |sfs|
    ensures forall i :: 0 <= i < |sfs| ==> r[i] == StripBrackets(sfs[i].text)
  {
    seq(|sfs|, i requires 0 <= i < |sfs| => StripBrackets(sfs[i].text))
  }

  /** The subtitles contributed by a sequence of varfields (each already in range). */
  function SubtitlesOf(tags: seq<Varfield>): seq<string>
  {
    if tags == [] then []
    else SubtitlesOf(tags[..|tags| - 1]) + StripAll(tags[|tags| - 1].subfields)
  }

  function Subtitles(rec: RawRecord): seq<string>
  {
    SubtitlesOf(FindTagsInIdRange(rec.varfields, 304, 400))
  }

  function SubfieldCount(tags: seq<Varfield>): nat
  {
    if tags == [] then 0 else SubfieldCount(tags[..|tags| - 1]) + |tags[|tags| - 1].subfields|
  }

  /** One subtitle per subfield, none with a bracket. */
  lemma {:induction false} SubtitlesShape(tags: seq<Varfield>)
    ensures |SubtitlesOf(tags)| == SubfieldCount(tags)
    ensures forall s :: s in SubtitlesOf(tags) ==> '[' !in s && ']' !in s
  {
    if tags != [] {
      SubtitlesShape(tags[..|tags| - 1]);
    }
  }

  method CollectSubtitles(rec: RawRecord) returns (subtitles: seq<string>)
    ensures subtitles == Subtitles(rec)
  {
    var tags := FindTagsInIdRange(rec.varfields, 304, 400);
    subtitles := [];
    for i := 0 to |tags|
      invariant subtitles == SubtitlesOf(tags[..i])
    {
      var sfs := tags[i].subfields;
      ghost var before := subtitles;
      for j := 0 to |sfs|
        invariant subtitles == before + StripAll(sfs[..j])
      {
        assert StripAll(sfs[..j + 1]) == StripAll(sfs[..j]) + [StripBrackets(sfs[j].text)];
        subtitles := subtitles + [StripBrackets(sfs[j].text)];
      }
      assert sfs[..|sfs|] == sfs;
      assert tags[..i + 1][..i] == tags[..i];
    }
    assert tags[..|tags|] == tags;
  }

  // ---------------------------------------------------------------------------
  // dates: the first subfield of every varfield 425

  /** Line 106 reads `tag.subfield`, so every varfield 425 needs a subfield. */
  predicate DatesReadable(rec: RawRecord)
  {
    forall t :: t in rec.varfields && t.id == "425" ==> |t.subfields| > 0
  }

  function DatesOf(tags: seq<Varfield>): seq<string>
    requires forall t :: t in tags && t.id == "425" ==> |t.subfields| > 0
  {
    if tags == [] then []
    else
      var last := tags[|tags| - 1];
      DatesOf(tags[..|tags| - 1]) + (if last.id == "425" then [last.subfields[0].text] else [])
  }

  /** The dates are exactly the first subfield texts of the 425 varfields. */
  lemma {:induction false} DatesMembers(tags: seq<Varfield>)
    requires forall t :: t in tags && t.id == "425" ==> |t.subfields| > 0
    ensures forall x :: x in DatesOf(tags) <==> exists t :: t in tags && t.id == "425" && x == t.subfields[0].text
  {
    if tags != [] {
      var init := tags[..|tags| - 1];
      var last := tags[|tags| - 1];
      assert tags == init + [last];
      DatesMembers(init);
      forall x
        ensures x in DatesOf(tags) <==> exists t :: t in tags && t.id == "425" && x == t.subfields[0].text
      {
        if x in DatesOf(tags) && x !in DatesOf(init) {
          assert last in tags && last.id == "425" && x == last.subfields[0].text;
        }
        if exists t :: t in tags && t.id == "425" && x == t.subfields[0].text {
          var t :| t in tags && t.id == "425" && x == t.subfields[0].text;
          if t != last {
            assert t in init;
          }
        }
      }
    }
  }

  function Dates(rec: RawRecord): seq<string>
    requires DatesReadable(rec)
  {
    DatesOf(rec.varfields)
  }

  method CollectDates(rec: RawRecord) returns (dates: seq<string>)
    requires DatesReadable(rec)
    ensures dates == Dates(rec)
  {
    var tags := rec.varfields;
    dates := [];
    for i := 0 to |tags|
      invariant dates == DatesOf(tags[..i])
    {
      assert tags[..i + 1][..i] == tags[..i];
      if tags[i].id == "425" {
        dates := dates + [tags[i].subfields[0].text];
      }
    }
    assert tags[..|tags|] == tags;
  }

  // ---------------------------------------------------------------------------
  // notes: the `a` subfields of varfields 400..599

  function LabelTexts(sfs: seq<Subfield>, code: string): (r: seq<string>)
    ensures |r| <= |sfs|
    ensures forall x :: x in r <==> Subfield(code, x) in sfs
  {
    if sfs == [] then []
    else
      var last := sfs[|sfs| - 1];
      var init := sfs[..|sfs| - 1];
      assert sfs == init + [last];
      LabelTexts(init, code) + (if last.code == code then [last.text] else [])
  }

  /** Notes as written: `tag.id` is BeautifulSoup's lookup of a child element named `id`,
      which a varfield never has, so the test `tag.id != "425"` always holds. */
  function NotesAsWrittenOf(tags: seq<Varfield>): seq<string>
  {
    if tags == [] then []
    else
      var last := tags[|tags| - 1];
      var childId: Option<string> := None;
      NotesAsWrittenOf(tags[..|tags| - 1]) + (if childId != Some("425") then LabelTexts(last.subfields, "a") else [])
  }

  /** Notes as intended: varfields whose id attribute is 425 (the dates) are skipped. */
  function NotesOf(tags: seq<Varfield>): seq<string>
  {
    if tags == [] then []
    else
      var last := tags[|tags| - 1];
      NotesOf(tags[..|tags| - 1]) + (if last.id != "425" then LabelTexts(last.subfields, "a") else [])
  }

  function Notes(rec: RawRecord): seq<string>
  {
    NotesOf(FindTagsInIdRange(rec.varfields, 400, 600))
  }

  lemma DateTagInNoteRange()
    ensures InIdRange(Varfield("425", [Subfield("a", "1900")]), 400, 600)
  {
    assert "425"[..2] == "42" && "42"[..1] == "4" && "4"[..0] == "";
  }

  /** A date varfield's `a` subfield leaks into the notes as written. */
  lemma NotesAsWrittenKeepsDates()
    ensures var rec := RawRecord(None, [Varfield("425", [Subfield("a", "1900")])]);
      NotesAsWrittenOf(FindTagsInIdRange(rec.varfields, 400, 600)) == ["1900"]
      && Notes(rec) == []
  {
    var tag := Varfield("425", [Subfield("a", "1900")]);
    DateTagInNoteRange();
    var tags := [tag];
    assert tags[..0] == [];
    assert FindTagsInIdRange(tags, 400, 600) == [tag];
    assert tag.subfields[..0] == [];
    assert LabelTexts(tag.subfields, "a") == ["1900"];
    assert NotesAsWrittenOf([tag]) == ["1900"];
    assert NotesOf([tag]) == [];
  }

  /** The intended notes never draw on a date varfield, and otherwise keep every `a`
      subfield of the range. */
  lemma {:induction false} NotesSkipDates(tags: seq<Varfield>)
    ensures forall x :: (x in NotesOf(tags)
      <==> exists t :: t in tags && t.id != "425" && Subfield("a", x) in t.subfields)
  {
    if tags != [] {
      var init := tags[..|tags| - 1];
      var last := tags[|tags| - 1];
      NotesSkipDates(init);
      assert tags == init + [last];
      forall x
        ensures x in NotesOf(tags) <==> exists t :: t in tags && t.id != "425" && Subfield("a", x) in t.subfields
      {
        if x in NotesOf(tags) && x !in NotesOf(init) {
          assert last in tags && last.id != "425" && Subfield("a", x) in last.subfields;
        }
        if exists t :: t in tags && t.id != "425" && Subfield("a", x) in t.subfields {
          var t :| t in tags && t.id != "425" && Subfield("a", x) in t.subfields;
          if t != last {
            assert t in init;
          }
        }
      }
    }
  }

  /** Without a date varfield in range, the corrected notes are the notes as written. */
  lemma {:induction false} NotesAgreeWithoutDates(tags: seq<Varfield>)
    requires forall t :: t in tags ==> t.id != "425"
    ensures NotesOf(tags) == NotesAsWrittenOf(tags)
  {
    if tags != [] {
      NotesAgreeWithoutDates(tags[..|tags| - 1]);
      assert tags[|tags| - 1] in tags;
    }
  }

  /** `tag.find_all("subfield", label=code)`, read into their texts. */
  method CollectLabelled(sfs: seq<Subfield>, code: string) returns (texts: seq<string>)
    ensures texts == LabelTexts(sfs, code)
  {
    texts := [];
    for j := 0 to |sfs|
      invariant texts == LabelTexts(sfs[..j], code)
    {
      assert sfs[..j + 1][..j] == sfs[..j];
      if sfs[j].code == code {
        texts := texts + [sfs[j].text];
      }
    }
    assert sfs[..|sfs|] == sfs;
  }

  method CollectNotes(rec: RawRecord) returns (notes: seq<string>)
    ensures notes == Notes(rec)
  {
    var tags := FindTagsInIdRange(rec.varfields, 400, 600);
    notes := [];
    for i := 0 to |tags|
      invariant notes == NotesOf(tags[..i])
    {
      var tag := tags[i];
      assert tags[..i + 1][..i] == tags[..i];
      if tag.id != "425" {
        var texts := CollectLabelled(tag.subfields, "a");
        notes := notes + texts;
      }
    }
    assert tags[..|tags|] == tags;
  }

  // ---------------------------------------------------------------------------
  // terms: varfields 900..999

  /** The texts of all subfields not labelled `9`, in order. */
  function NonGndTexts(sfs: seq<Subfield>): (r: seq<string>)
    ensures |r| <= |sfs|
    ensures forall x :: x in r <==> exists sf :: sf in sfs && sf.code != "9" && sf.text == x
  {
    if sfs == [] then []
    else
      var last := sfs[|sfs| - 1];
      var init := sfs[..|sfs| - 1];
      assert sfs == init + [last];
      NonGndTexts(init) + (if last.code != "9" then [last.text] else [])
  }

  function TermOf(tag: Varfield): (t: map<string, Json>)
    ensures t.Keys <= {"labels", "sameas"}
    ensures "labels" in t <==> NonGndTexts(tag.subfields) != []
    ensures "labels" in t ==> t["labels"] == JList(JStrs(NonGndTexts(tag.subfields)))
    ensures "sameas" in t <==> FindSubfield(tag.subfields, "9").Some?
    ensures "sameas" in t ==> t["sameas"] == JList([JStr(GndLink(FindSubfield(tag.subfields, "9").value))])
  {
    var labels := NonGndTexts(tag.subfields);
    var t0: map<string, Json> := if |labels| > 0 then map["labels" := JList(JStrs(labels))] else map[];
    match FindSubfield(tag.subfields, "9")
    case None => t0
    case Some(g) => t0["sameas" := JList([JStr(GndLink(g))])]
  }

  function JStrs(ss: seq<string>): (r: seq<Json>)
    ensures |r| == |ss|
    ensures forall i :: 0 <= i < |ss| ==> r[i] == JStr(ss[i])
  {
    seq(|ss|, i requires 0 <= i < |ss| => JStr(ss[i]))
  }

  function Terms(rec: RawRecord): (r: seq<Json>)
    ensures var tags := FindTagsInIdRange(rec.varfields, 900, 1000);
      |r| == |tags| && forall i :: 0 <= i < |tags| ==> r[i] == JObj(TermOf(tags[i]))
  {
    var tags := FindTagsInIdRange(rec.varfields, 900, 1000);
    seq(|tags|, i requires 0 <= i < |tags| => JObj(TermOf(tags[i])))
  }

  /** One iteration of the `terms` loop. */
  method BuildTerm(tag: Varfield) returns (term: map<string, Json>)
    ensures term == TermOf(tag)
  {
    var sfs := tag.subfields;
    term := map[];
    var labels: seq<string> := [];
    for j := 0 to |sfs|
      invariant labels == NonGndTexts(sfs[..j])
    {
      assert sfs[..j + 1][..j] == sfs[..j];
      if sfs[j].code != "9" {
        labels := labels + [sfs[j].text];
      }
    }
    assert sfs[..|sfs|] == sfs;
    if |labels| > 0 {
      term := term["labels" := JList(JStrs(labels))];
    }
    var gnd := FindSubfield(sfs, "9");
    if gnd.Some? {
      term := term["sameas" := JList([JStr(GndLink(gnd.value))])];
    }
  }

  method CollectTerms(rec: RawRecord) returns (terms: seq<Json>)
    ensures terms == Terms(rec)
  {
    var tags := FindTagsInIdRange(rec.varfields, 900, 1000);
    terms := [];
    for i := 0 to |tags|
      invariant |terms| == i
      invariant forall k :: 0 <= k < i ==> terms[k] == JObj(TermOf(tags[k]))
    {
      var term := BuildTerm(tags[i]);
      terms := terms + [JObj(term)];
    }
  }

  // ---------------------------------------------------------------------------
  // mandatory identifiers and the whole record

  /** `aleph_id` reads the `a` subfield of the first varfield 001 and `doc_id` the
      `doc_number` element; both raise when these are missing, as `persons` and `dates`
      do for the cases their predicates exclude. */
  predicate Normalizable(rec: RawRecord)
  {
    && rec.docNumber.Some?
    && FirstWithId(rec.varfields, "001").Some?
    && FindSubfield(FirstWithId(rec.varfields, "001").value.subfields, "a").Some?
    && PersonsNamed(rec)
    && DatesReadable(rec)
  }

  function AlephId(rec: RawRecord): string
    requires Normalizable(rec)
  {
    FindSubfield(FirstWithId(rec.varfields, "001").value.subfields, "a").value
  }

  /** What the extractors return for one record. */
  datatype Extracted = Extracted(
    aleph: string, doc: string, title: Option<string>, subtitles: seq<string>,
    persons: seq<Json>, content: seq<Json>, dates: seq<string>, notes: seq<string>,
    terms: seq<Json>, gnd: Option<string>)

  function Extract(rec: RawRecord): Extracted
    requires Normalizable(rec)
  {
    Extracted(AlephId(rec), rec.docNumber.value, Title(rec), Subtitles(rec), Persons(rec),
              Content(rec.varfields), Dates(rec), Notes(rec), Terms(rec), RecordGndLink(rec))
  }

  /** The optional keys in the order `normalize` sets them, each set only when the
      extractor's result is truthy. */
  function OptionalAssignments(e: Extracted): seq<Assignment>
  {
    [ Assignment("title", e.title.Some? && e.title.value != "", JStr(if e.title.Some? then e.title.value else "")),
      Assignment("subtitles", e.subtitles != [], JList(JStrs(e.subtitles))),
      Assignment("persons", e.persons != [], JList(e.persons)),
      Assignment("content", e.content != [], JList(e.content)),
      Assignment("dates", e.dates != [], JList(JStrs(e.dates))),
      Assignment("notes", e.notes != [], JList(JStrs(e.notes))),
      Assignment("terms", e.terms != [], JList(e.terms)),
      Assignment("sameas", e.gnd.Some?, JList([JStr(if e.gnd.Some? then e.gnd.value else "")])) ]
  }

  /** The record dictionary: the two mandatory keys, then the optional ones. */
  function Assemble(e: Extracted): map<string, Json>
  {
    Apply(map["aleph_id" := JStr(e.aleph), "doc_id" := JStr(e.doc)], OptionalAssignments(e))
  }

  /** `normalize`. */
  function NormalizedRecord(rec: RawRecord): map<string, Json>
    requires Normalizable(rec)
  {
    Assemble(Extract(rec))
  }

  /** Key by key, what `normalize` stores: each mandatory key its identifier, each
      optional key its extractor's result when that is truthy, nothing otherwise. */
  function Expected(e: Extracted, k: string): Option<Json>
  {
    if k == "aleph_id" then Some(JStr(e.aleph))
    else if k == "doc_id" then Some(JStr(e.doc))
    else if k == "title" then (if e.title.Some? && e.title.value != "" then Some(JStr(e.title.value)) else None)
    else if k == "subtitles" then (if e.subtitles != [] then Some(JList(JStrs(e.subtitles))) else None)
    else if k == "persons" then (if e.persons != [] then Some(JList(e.persons)) else None)
    else if k == "content" then (if e.content != [] then Some(JList(e.content)) else None)
    else if k == "dates" then (if e.dates != [] then Some(JList(JStrs(e.dates))) else None)
    else if k == "notes" then (if e.notes != [] then Some(JList(JStrs(e.notes))) else None)
    else if k == "terms" then (if e.terms != [] then Some(JList(e.terms)) else None)
    else if k == "sameas" then (if e.gnd.Some? then Some(JList([JStr(e.gnd.value)])) else None)
    else None
  }

  lemma OptionalKeysDistinct(e: Extracted)
    ensures DistinctKeys(OptionalAssignments(e))
  {
  }

  /** The dictionary built step by step agrees with the key-by-key description. */
  lemma AssembleField(e: Extracted, k: string)
    ensures k in Assemble(e) <==> Expected(e, k).Some?
    ensures k in Assemble(e) ==> Assemble(e)[k] == Expected(e, k).value
  {
    var steps := OptionalAssignments(e);
    ApplyLookup(map["aleph_id" := JStr(e.aleph), "doc_id" := JStr(e.doc)], steps, k);
    OptionalKeysDistinct(e);
    var i := if k == "title" then 0 else if k == "subtitles" then 1 else if k == "persons" then 2
      else if k == "content" then 3 else if k == "dates" then 4 else if k == "notes" then 5
      else if k == "terms" then 6 else if k == "sameas" then 7 else -1;
    LastAssignedOnly(steps, k, i);
  }

  method NormalizeRecord(rec: RawRecord) returns (record: map<string, Json>)
    requires Normalizable(rec)
    ensures record == NormalizedRecord(rec)
  {
    var subtitles := CollectSubtitles(rec);
    var persons := CollectPersons(rec);
    var contents := CollectContent(rec);
    var dates := CollectDates(rec);
    var notes := CollectNotes(rec);
    var terms := CollectTerms(rec);
    record := Assemble(Extracted(AlephId(rec), rec.docNumber.value, Title(rec), subtitles, persons,
                                 contents, dates, notes, terms, RecordGndLink(rec)));
  }

  // ---------------------------------------------------------------------------
  // output file name

  /** `os.path.basename(filename).replace("xml", "json")`. */
  function OutputFileName(filename: string): string
  {
    RenameBase(filename, "xml", "json")
  }

  /** A base name without "xml" is kept as it is. */
  lemma OutputFileNameUnchanged(filename: string)
    requires !Contains(LastPiece(filename, '/'), "xml")
    ensures OutputFileName(filename) == LastPiece(filename, '/')
  {
    RenameBaseUnchanged(filename, "xml", "json");
  }

  /** A record file `dir/stem.xml` is written as `stem.json`. */
  lemma OutputFileNameOfXml(dir: string, stem: string)
    requires '/' !in stem && !Contains(stem, "xml")
    ensures OutputFileName(dir + "/" + stem + ".xml") == stem + ".json"
  {
    var name := stem + ".xml";
    var path := dir + "/" + name;
    assert path == dir + "/" + stem + ".xml" by { AppendAssoc(dir + "/", stem, ".xml"); }
    assert name == stem + ['.'] + "xml" by { assert ['.'] + "xml" == ".xml"; AppendAssoc(stem, ['.'], "xml"); }
    assert stem + ['.'] + "json" == stem + ".json" by { assert ['.'] + "json" == ".json"; AppendAssoc(stem, ['.'], "json"); }
    RenameAtMark(dir, stem, '.', "xml", "json");
    assert OutputFileName(path) == ReplaceAll(LastPiece(path, '/'), "xml", "json");
  }
}
