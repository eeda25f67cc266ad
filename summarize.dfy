/** Per-record statistics for the summary CSV: how many artwork links, persons, person
    links to GND, DBpedia and VIAF, and related Europeana objects a record has. */
module Summarize {
  import opened Common
  import opened Json
  import Enrich

  /** The seven columns of one summary row. */
  datatype Entry = Entry(
    id: Json, linksArtwork: nat, persons: nat, linksPersonGnd: nat,
    linksPersonDbpedia: nat, linksPersonViaf: nat, relatedEuropeanaItems: nat)

  const FIELDNAMES: seq<string> :=
    ["id", "links_artwork", "persons", "links_person_gnd", "links_person_dbpedia",
     "links_person_viaf", "related_europeana_items"]

  /** A value `len` accepts: a list, a string or a dictionary. */
  predicate Sized(j: Json)
  {
    j.JList? || j.JStr? || j.JObj?
  }

  /** Python `len`. */
  function Len(j: Json): nat
    requires Sized(j)
  {
    match j
    case JList(items) => |items|
    case JStr(s) => |s|
    case JObj(m) => |m.Keys|
  }

  /** A person whose links are read: a dictionary whose `sameas`, if any, is a list of
      strings (`'gnd' in link` is a substring test). */
  predicate PersonShaped(p: Json)
  {
    p.JObj? && ("sameas" in p.fields ==>
      p.fields["sameas"].JList? && forall l :: l in p.fields["sameas"].items ==> l.JStr?)
  }

  /** What `summarize` reads without checking: `aleph_id`, sized values under the three
      counted keys, and `persons` a list of shaped persons. */
  predicate Summarizable(data: map<string, Json>)
  {
    && "aleph_id" in data
    && ("sameas" in data ==> Sized(data["sameas"]))
    && ("related_europeana_items" in data ==> Sized(data["related_europeana_items"]))
    && ("persons" in data ==> data["persons"].JList? && forall p :: p in data["persons"].items ==> PersonShaped(p))
  }

  /** A shaped person's links. */
  function LinksOf(p: Json): (links: seq<string>)
    requires PersonShaped(p)
    ensures "sameas" !in p.fields ==> links == []
    ensures "sameas" in p.fields ==> |links| == |p.fields["sameas"].items|
  {
    if "sameas" in p.fields then
      var items := p.fields["sameas"].items;
      seq(|items|, i requires 0 <= i < |items| => items[i].s)
    else []
  }

  /** How many links contain `sub`. */
  function LinkCount(links: seq<string>, sub: string): nat
  {
    if links == [] then 0
    else LinkCount(links[..|links| - 1], sub) + (if Contains(links[|links| - 1], sub) then 1 else 0)
  }

  /** The links of the given persons that contain `sub`, summed over the persons. */
  function PersonLinkCount(persons: seq<Json>, sub: string): nat
    requires forall p :: p in persons ==> PersonShaped(p)
  {
    if persons == [] then 0
    else PersonLinkCount(persons[..|persons| - 1], sub) + LinkCount(LinksOf(persons[|persons| - 1]), sub)
  }

  /** All links of the given persons. */
  function PersonLinkTotal(persons: seq<Json>): nat
    requires forall p :: p in persons ==> PersonShaped(p)
  {
    if persons == [] then 0
    else PersonLinkTotal(persons[..|persons| - 1]) + |LinksOf(persons[|persons| - 1])|
  }

  /** A count never exceeds the number of links, and reaches it exactly when every link
      contains `sub`. */
  lemma {:induction false} LinkCountBound(links: seq<string>, sub: string)
    ensures LinkCount(links, sub) <= |links|
    ensures LinkCount(links, sub) == |links| <==> forall l :: l in links ==> Contains(l, sub)
  {
    if links != [] {
      var init := links[..|links| - 1];
      var last := links[|links| - 1];
      assert links == init + [last];
      LinkCountBound(init, sub);
      if forall l :: l in links ==> Contains(l, sub) {
        assert forall l :: l in init ==> l in links;
        assert last in links;
      } else {
        var l :| l in links && !Contains(l, sub);
        if l != last {
          assert l in init;
        }
      }
    }
  }

  /** Each of the three person-link counts is at most the number of person links. */
  lemma {:induction false} PersonLinkCountBound(persons: seq<Json>, sub: string)
    requires forall p :: p in persons ==> PersonShaped(p)
    ensures PersonLinkCount(persons, sub) <= PersonLinkTotal(persons)
  {
    if persons != [] {
      PersonLinkCountBound(persons[..|persons| - 1], sub);
      LinkCountBound(LinksOf(persons[|persons| - 1]), sub);
    }
  }

  /** A link is counted under every substring it contains: appending a link that
      contains both `a` and `b` raises both counts by one. */
  lemma LinkCountedTwice(links: seq<string>, l: string, a: string, b: string)
    requires Contains(l, a) && Contains(l, b)
    ensures LinkCount(links + [l], a) == LinkCount(links, a) + 1
    ensures LinkCount(links + [l], b) == LinkCount(links, b) + 1
  {
    assert (links + [l])[..|links|] == links;
  }

  /** The counts are not a partition of the links: when every link contains both `a`
      and `b`, the two counts add up to twice the number of links. */
  lemma LinkCountsOverlap(links: seq<string>, a: string, b: string)
    requires forall l :: l in links ==> Contains(l, a) && Contains(l, b)
    ensures LinkCount(links, a) + LinkCount(links, b) == 2 * |links|
  {
    LinkCountBound(links, a);
    LinkCountBound(links, b);
  }

  /** The counts of one person's links, accumulated as the source does. */
  method CountLinks(links: seq<string>) returns (gnd: nat, dbpedia: nat, viaf: nat)
    ensures gnd == LinkCount(links, "gnd")
    ensures dbpedia == LinkCount(links, "dbpedia")
    ensures viaf == LinkCount(links, "viaf")
  {
    gnd, dbpedia, viaf := 0, 0, 0;
    for i := 0 to |links|
      invariant gnd == LinkCount(links[..i], "gnd")
      invariant dbpedia == LinkCount(links[..i], "dbpedia")
      invariant viaf == LinkCount(links[..i], "viaf")
    {
      assert links[..i + 1][..i] == links[..i];
      if Contains(links[i], "gnd") {
        gnd := gnd + 1;
      }
      if Contains(links[i], "dbpedia") {
        dbpedia := dbpedia + 1;
      }
      if Contains(links[i], "viaf") {
        viaf := viaf + 1;
      }
    }
    assert links[..|links|] == links;
  }

  function PersonsOf(data: map<string, Json>): seq<Json>
    requires Summarizable(data)
  {
    if "persons" in data then data["persons"].items else []
  }

  /** `summarize`. */
  method Summarize(data: map<string, Json>) returns (entry: Entry)
    requires Summarizable(data)
    ensures entry.id == data["aleph_id"]
    ensures entry.linksArtwork == if "sameas" in data then Len(data["sameas"]) else 0
    ensures entry.persons == |PersonsOf(data)|
    ensures entry.linksPersonGnd == PersonLinkCount(PersonsOf(data), "gnd")
    ensures entry.linksPersonDbpedia == PersonLinkCount(PersonsOf(data), "dbpedia")
    ensures entry.linksPersonViaf == PersonLinkCount(PersonsOf(data), "viaf")
    ensures entry.relatedEuropeanaItems ==
      if "related_europeana_items" in data then Len(data["related_europeana_items"]) else 0
  {
    var artworkLinks := 0;
    if "sameas" in data {
      artworkLinks := Len(data["sameas"]);
    }
    var persons := 0;
    if "persons" in data {
      persons := |data["persons"].items|;
    }
    var gnd, dbpedia, viaf := 0, 0, 0;
    var ps := PersonsOf(data);
    for i := 0 to |ps|
      invariant gnd == PersonLinkCount(ps[..i], "gnd")
      invariant dbpedia == PersonLinkCount(ps[..i], "dbpedia")
      invariant viaf == PersonLinkCount(ps[..i], "viaf")
    {
      assert ps[..i + 1][..i] == ps[..i];
      assert ps[i] in ps;
      var g, d, v := CountLinks(LinksOf(ps[i]));
      gnd, dbpedia, viaf := gnd + g, dbpedia + d, viaf + v;
    }
    assert ps[..|ps|] == ps;
    var related := 0;
    if "related_europeana_items" in data {
      related := Len(data["related_europeana_items"]);
    }
    entry := Entry(data["aleph_id"], artworkLinks, persons, gnd, dbpedia, viaf, related);
  }

  /** GND enrichment raises the artwork link count by the number of links collected for
      the record's non-null `sameas` entries. */
  lemma ArtworkLinksAfterGnd(data: map<string, Json>, collect: Json -> seq<Json>)
    requires "sameas" in data && data["sameas"].JList?
    ensures var after := Enrich.EnrichGnd(JObj(data), collect).fields;
      "sameas" in after && after["sameas"].JList?
      && |after["sameas"].items| == |data["sameas"].items| + |Enrich.CollectedFor(data["sameas"].items, collect)|
  {
    var after := Enrich.EnrichGnd(JObj(data), collect).fields;
    assert after["sameas"] == Enrich.EnrichEntry("sameas", data["sameas"], collect);
  }

  // ---------------------------------------------------------------------------
  // read_summary

  /** The line kept for one CSV row: its columns after the first, joined by ", ". */
  function SummaryLine(row: seq<string>): (line: string)
    ensures |row| <= 1 ==> line == ""
    ensures |row| >= 2 ==> row[1] <= line && line == Join(row[1..], ", ")
  {
    if |row| <= 1 then "" else JoinPrefix(row[1..], ", "); Join(row[1..], ", ")
  }

  /** The first part of a join is its prefix. */
  lemma JoinPrefix(parts: seq<string>, sep: string)
    requires |parts| >= 1
    ensures parts[0] <= Join(parts, sep)
  {
  }

  /** The parts after the first, each with the blank that follows a comma in front. */
  function BlankLed(parts: seq<string>): (r: seq<string>)
    requires |parts| >= 1
    ensures |r| == |parts| - 1
    ensures forall i :: 0 <= i < |r| ==> r[i] == " " + parts[i + 1]
  {
    seq(|parts| - 1, i requires 0 <= i < |parts| - 1 => " " + parts[i + 1])
  }

  /** A ", " join of comma-free parts splits on ',' into the first part and the others
      behind their blanks. */
  lemma {:induction false} SplitCommaJoin(parts: seq<string>)
    requires |parts| >= 1
    requires forall p :: p in parts ==> ',' !in p
    ensures Split(Join(parts, ", "), ',') == [parts[0]] + BlankLed(parts)
  {
    if |parts| == 1 {
      SplitNoSeparator(parts[0], ',');
      assert BlankLed(parts) == [];
    } else {
      var rest := Join(parts[1..], ", ");
      SplitCommaJoin(parts[1..]);
      assert Join(parts, ", ") == parts[0] + [','] + (" " + rest);
      SplitAfterPiece(parts[0], " " + rest, ',');
      var t := Split(rest, ',');
      assert (" " + rest)[0] == ' ' && (" " + rest)[1..] == rest;
      assert Split(" " + rest, ',') == [" " + t[0]] + t[1..];
      assert t[0] == parts[1] && t[1..] == BlankLed(parts[1..]);
      assert [" " + parts[1]] + BlankLed(parts[1..]) == BlankLed(parts);
    }
  }

  /** The summary line of a row whose columns hold no comma gives the columns after the
      first back: split on ',', each after the first behind a blank. */
  lemma SummaryLineSplit(row: seq<string>)
    requires |row| >= 2
    requires forall c :: c in row[1..] ==> ',' !in c
    ensures Split(SummaryLine(row), ',') == [row[1]] + BlankLed(row[1..])
  {
    SplitCommaJoin(row[1..]);
  }

  /** The length of a join: the parts' lengths plus one separator between neighbours. */
  function TotalLength(parts: seq<string>): nat
  {
    if parts == [] then 0 else |parts[0]| + TotalLength(parts[1..])
  }

  lemma {:induction false} JoinLength(parts: seq<string>, sep: string)
    requires |parts| >= 1
    ensures |Join(parts, sep)| == TotalLength(parts) + |sep| * (|parts| - 1)
  {
    if |parts| >= 2 {
      JoinLength(parts[1..], sep);
    }
  }

  /** The first column never shows in the line. */
  lemma SummaryLineIgnoresFirst(a: string, b: string, rest: seq<string>)
    ensures SummaryLine([a] + rest) == SummaryLine([b] + rest)
  {
    assert ([a] + rest)[1..] == rest == ([b] + rest)[1..];
  }

  method ReadSummary(rows: seq<seq<string>>) returns (summary: seq<string>)
    ensures |summary| == |rows|
    ensures forall i :: 0 <= i < |rows| ==> summary[i] == SummaryLine(rows[i])
  {
    summary := [];
    for i := 0 to |rows|
      invariant |summary| == i
      invariant forall j :: 0 <= j < i ==> summary[j] == SummaryLine(rows[j])
    {
      var row := rows[i];
      var line := if |row| <= 1 then "" else Join(row[1..], ", ");
      summary := summary + [line];
    }
  }
}
