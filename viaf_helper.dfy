/** The VIAF step: query each author's VIAF record and list the works under the
    record's title sections, one composition row per title element. */
module ViafHelper {
  import opened Common

  const VIAF_API_URL := "http://www.viaf.org/viaf/"
  const VIAF_XML_SUFFIX := "/viaf.xml"
  const VIAF_ID_COL := 7
  const BLANK := ' '

  const VIAF_COMPOSITIONS_FIELDNAMES: seq<string> := ["author id", "work id", "title"]

  /** An XML element as ElementTree presents it: tag, attributes, text (None when the
      element has none) and the child elements in document order. */
  datatype Element = Element(tag: string, attrib: map<string, string>, text: Option<string>, children: seq<Element>)

  /** A composition row: a CSV cell is a string or Python's None. */
  type Row = map<string, Option<string>>

  /** The lookup URL of one VIAF id. */
  function ViafQuery(viafId: string): (q: string)
    ensures StripFrame(q, VIAF_API_URL, VIAF_XML_SUFFIX) == Some(viafId)
  {
    FramedRecovers(VIAF_API_URL, viafId, VIAF_XML_SUFFIX);
    VIAF_API_URL + viafId + VIAF_XML_SUFFIX
  }

  /** `work.attrib.get('id')`. */
  function WorkId(work: Element): (r: Option<string>)
    ensures r.Some? <==> "id" in work.attrib
    ensures r.Some? ==> r.value == work.attrib["id"]
  {
    if "id" in work.attrib then Some(work.attrib["id"]) else None
  }

  /** `build_viaf_composition_entry`: the three composition fields, each holding its
      value. */
  function BuildCompositionEntry(authorId: string, compositionId: Option<string>, title: Option<string>): (entry: Row)
    ensures entry.Keys == set n | n in VIAF_COMPOSITIONS_FIELDNAMES
    ensures entry["author id"] == Some(authorId) && entry["work id"] == compositionId && entry["title"] == title
  {
    map["author id" := Some(authorId), "work id" := compositionId, "title" := title]
  }

  // ---------------------------------------------------------------------------
  // parse_response, specified

  /** The entries one work yields: one per child element whose tag contains 'title'. */
  function ElemEntries(viafId: string, work: Element, elems: seq<Element>): seq<Row>
  {
    if elems == [] then []
    else
      var last := elems[|elems| - 1];
      ElemEntries(viafId, work, elems[..|elems| - 1])
        + (if Contains(last.tag, "title") then [BuildCompositionEntry(viafId, WorkId(work), last.text)] else [])
  }

  /** The entries of the works of one title section, in order. */
  function WorkEntries(viafId: string, works: seq<Element>): seq<Row>
  {
    if works == [] then []
    else
      var last := works[|works| - 1];
      WorkEntries(viafId, works[..|works| - 1]) + ElemEntries(viafId, last, last.children)
  }

  /** The entries of the root's children: only children whose tag contains 'titles'
      contribute. */
  function ChildEntries(viafId: string, children: seq<Element>): seq<Row>
  {
    if children == [] then []
    else
      var last := children[|children| - 1];
      ChildEntries(viafId, children[..|children| - 1])
        + (if Contains(last.tag, "titles") then WorkEntries(viafId, last.children) else [])
  }

  function ParseEntries(viafId: string, root: Element): seq<Row>
  {
    ChildEntries(viafId, root.children)
  }

  /** A row is produced for a work exactly when one of its elements is a title, and
      then it holds that element's text and the work's id. */
  lemma {:induction false} ElemEntriesMember(viafId: string, work: Element, elems: seq<Element>, e: Row)
    ensures e in ElemEntries(viafId, work, elems) <==>
      exists x :: x in elems && Contains(x.tag, "title") && e == BuildCompositionEntry(viafId, WorkId(work), x.text)
  {
    if elems != [] {
      var init, last := elems[..|elems| - 1], elems[|elems| - 1];
      assert elems == init + [last];
      ElemEntriesMember(viafId, work, init, e);
      if exists x :: x in elems && Contains(x.tag, "title") && e == BuildCompositionEntry(viafId, WorkId(work), x.text) {
        var x :| x in elems && Contains(x.tag, "title") && e == BuildCompositionEntry(viafId, WorkId(work), x.text);
        if x != last {
          assert x in init;
        }
      }
    }
  }

  lemma {:induction false} WorkEntriesMember(viafId: string, works: seq<Element>, e: Row)
    ensures e in WorkEntries(viafId, works) <==>
      exists w :: w in works && e in ElemEntries(viafId, w, w.children)
  {
    if works != [] {
      var init, last := works[..|works| - 1], works[|works| - 1];
      assert works == init + [last];
      WorkEntriesMember(viafId, init, e);
      if exists w :: w in works && e in ElemEntries(viafId, w, w.children) {
        var w :| w in works && e in ElemEntries(viafId, w, w.children);
        if w != last {
          assert w in init;
        }
      }
    }
  }

  lemma {:induction false} ChildEntriesMember(viafId: string, children: seq<Element>, e: Row)
    ensures e in ChildEntries(viafId, children) <==>
      exists c :: c in children && Contains(c.tag, "titles") && e in WorkEntries(viafId, c.children)
  {
    if children != [] {
      var init, last := children[..|children| - 1], children[|children| - 1];
      assert children == init + [last];
      ChildEntriesMember(viafId, init, e);
      if exists c :: c in children && Contains(c.tag, "titles") && e in WorkEntries(viafId, c.children) {
        var c :| c in children && Contains(c.tag, "titles") && e in WorkEntries(viafId, c.children);
        if c != last {
          assert c in init;
        }
      }
    }
  }

  /** The rows of a parsed record are exactly the title elements of the works under the
      root's title sections, each paired with its work's id. */
  lemma ParseEntriesMember(viafId: string, root: Element, e: Row)
    ensures e in ParseEntries(viafId, root) <==>
      exists c, w, x :: c in root.children && Contains(c.tag, "titles") && w in c.children && x in w.children
        && Contains(x.tag, "title") && e == BuildCompositionEntry(viafId, WorkId(w), x.text)
  {
    ChildEntriesMember(viafId, root.children, e);
    forall c | c in root.children
      ensures e in WorkEntries(viafId, c.children) <==>
        exists w :: w in c.children && e in ElemEntries(viafId, w, w.children)
    {
      WorkEntriesMember(viafId, c.children, e);
    }
    forall w: Element
      ensures e in ElemEntries(viafId, w, w.children) <==>
        exists x :: x in w.children && Contains(x.tag, "title") && e == BuildCompositionEntry(viafId, WorkId(w), x.text)
    {
      ElemEntriesMember(viafId, w, w.children, e);
    }
  }

  /** The entries of consecutive children follow each other. */
  lemma {:induction false} ChildEntriesAppend(viafId: string, a: seq<Element>, b: seq<Element>)
    ensures ChildEntries(viafId, a + b) == ChildEntries(viafId, a) + ChildEntries(viafId, b)
  {
    if b != [] {
      var init, last := b[..|b| - 1], b[|b| - 1];
      assert a + b == (a + init) + [last];
      assert (a + b)[..|a + b| - 1] == a + init;
      ChildEntriesAppend(viafId, a, init);
    } else {
      assert a + b == a;
    }
  }

  /** A root child whose tag lacks 'titles' contributes nothing, wherever it stands. */
  lemma OtherChildIgnored(viafId: string, a: seq<Element>, c: Element, b: seq<Element>)
    requires !Contains(c.tag, "titles")
    ensures ChildEntries(viafId, a + [c] + b) == ChildEntries(viafId, a + b)
  {
    ChildEntriesAppend(viafId, a + [c], b);
    ChildEntriesAppend(viafId, a, [c]);
    ChildEntriesAppend(viafId, a, b);
    assert [c][..0] == [];
  }

  // ---------------------------------------------------------------------------
  // parse_response

  /** `parse_response`: the rows written, in the order the three loops meet them. */
  method ParseResponse(viafId: string, root: Element) returns (entries: seq<Row>)
    ensures entries == ParseEntries(viafId, root)
  {
    entries := [];
    var children := root.children;
    for i := 0 to |children|
      invariant entries == ChildEntries(viafId, children[..i])
    {
      assert children[..i + 1][..i] == children[..i];
      var child := children[i];
      if Contains(child.tag, "titles") {
        var works := child.children;
        var sectionRows := [];
        for j := 0 to |works|
          invariant sectionRows == WorkEntries(viafId, works[..j])
        {
          assert works[..j + 1][..j] == works[..j];
          var work := works[j];
          var elems := work.children;
          var workRows := [];
          for k := 0 to |elems|
            invariant workRows == ElemEntries(viafId, work, elems[..k])
          {
            assert elems[..k + 1][..k] == elems[..k];
            var elem := elems[k];
            if Contains(elem.tag, "title") {
              var entry := BuildCompositionEntry(viafId, WorkId(work), elem.text);
              workRows := workRows + [entry];
            }
          }
          assert elems[..|elems|] == elems;
          sectionRows := sectionRows + workRows;
        }
        assert works[..|works|] == works;
        entries := entries + sectionRows;
      }
    }
    assert children[..|children|] == children;
  }

  // ---------------------------------------------------------------------------
  // retrieve_viaf_compositions_by_author_id and retrieve_authors_data_by_viaf_id

  /** The rows of one VIAF id: its record is fetched (`contentFor`) and, when the
      content is non-empty, parsed (`parse`) and walked. */
  function CompositionsOf(viafId: string, contentFor: string -> string, parse: string -> Element): (rows: seq<Row>)
    ensures contentFor(ViafQuery(viafId)) == "" ==> rows == []
    ensures contentFor(ViafQuery(viafId)) != "" ==> rows == ParseEntries(viafId, parse(contentFor(ViafQuery(viafId))))
  {
    var content := contentFor(ViafQuery(viafId));
    if content != "" then ParseEntries(viafId, parse(content)) else []
  }

  /** Rows that have a VIAF column: reading it from a shorter row raises. */
  predicate ViafRows(rows: seq<seq<string>>)
  {
    forall i :: 0 <= i < |rows| ==> |rows[i]| > VIAF_ID_COL
  }

  /** The VIAF ids queried for the given data rows: column 7 of each, split on blanks,
      in order. */
  function ViafIds(rows: seq<seq<string>>): seq<string>
    requires ViafRows(rows)
  {
    if rows == [] then []
    else ViafIds(rows[..|rows| - 1]) + Split(rows[|rows| - 1][VIAF_ID_COL], BLANK)
  }

  /** No queried id holds a blank, and each row queries at least one id. */
  lemma {:induction false} ViafIdsShape(rows: seq<seq<string>>)
    requires ViafRows(rows)
    ensures forall id :: id in ViafIds(rows) ==> BLANK !in id
    ensures |ViafIds(rows)| >= |rows|
  {
    if rows != [] {
      var init := rows[..|rows| - 1];
      ViafIdsShape(init);
      SplitPiecesFree(rows[|rows| - 1][VIAF_ID_COL], BLANK);
    }
  }

  /** A row naming one id queries it alone; ids joined by blanks are queried one by one. */
  lemma ViafIdsOfRow(row: seq<string>, ids: seq<string>)
    requires |row| > VIAF_ID_COL && |ids| >= 1 && forall id :: id in ids ==> BLANK !in id
    requires row[VIAF_ID_COL] == Join(ids, [BLANK])
    ensures ViafIds([row]) == ids
  {
    SplitJoin(ids, BLANK);
    assert [row][..0] == [];
  }

  /** The rows of the queried ids, one id after the other. */
  function CompositionsOfAll(ids: seq<string>, contentFor: string -> string, parse: string -> Element): seq<Row>
  {
    if ids == [] then []
    else CompositionsOfAll(ids[..|ids| - 1], contentFor, parse) + CompositionsOf(ids[|ids| - 1], contentFor, parse)
  }

  lemma {:induction false} CompositionsOfAllAppend(a: seq<string>, b: seq<string>, contentFor: string -> string, parse: string -> Element)
    ensures CompositionsOfAll(a + b, contentFor, parse) == CompositionsOfAll(a, contentFor, parse) + CompositionsOfAll(b, contentFor, parse)
  {
    if b != [] {
      assert (a + b)[..|a + b| - 1] == a + b[..|b| - 1];
      CompositionsOfAllAppend(a, b[..|b| - 1], contentFor, parse);
    } else {
      assert a + b == a;
    }
  }

  /** The URLs of the given ids, in order. */
  function Queries(ids: seq<string>): (qs: seq<string>)
    ensures |qs| == |ids| && forall i :: 0 <= i < |ids| ==> qs[i] == ViafQuery(ids[i])
  {
    if ids == [] then [] else Queries(ids[..|ids| - 1]) + [ViafQuery(ids[|ids| - 1])]
  }

  lemma QueriesAppend(a: seq<string>, b: seq<string>)
    ensures Queries(a + b) == Queries(a) + Queries(b)
  {
  }

  /** The URLs and rows of the given data rows, row by row. */
  function RowsQueries(rows: seq<seq<string>>): seq<string>
    requires ViafRows(rows)
  {
    if rows == [] then [] else RowsQueries(rows[..|rows| - 1]) + Queries(Split(rows[|rows| - 1][VIAF_ID_COL], BLANK))
  }

  function RowsCompositions(rows: seq<seq<string>>, contentFor: string -> string, parse: string -> Element): seq<Row>
    requires ViafRows(rows)
  {
    if rows == [] then [] else
      RowsCompositions(rows[..|rows| - 1], contentFor, parse)
      + CompositionsOfAll(Split(rows[|rows| - 1][VIAF_ID_COL], BLANK), contentFor, parse)
  }

  /** Row by row is id by id over all the rows' ids. */
  lemma {:induction false} RowsFlatten(rows: seq<seq<string>>, contentFor: string -> string, parse: string -> Element)
    requires ViafRows(rows)
    ensures RowsQueries(rows) == Queries(ViafIds(rows))
    ensures RowsCompositions(rows, contentFor, parse) == CompositionsOfAll(ViafIds(rows), contentFor, parse)
  {
    if rows != [] {
      var init := rows[..|rows| - 1];
      RowsFlatten(init, contentFor, parse);
      var ids := Split(rows[|rows| - 1][VIAF_ID_COL], BLANK);
      QueriesAppend(ViafIds(init), ids);
      CompositionsOfAllAppend(ViafIds(init), ids, contentFor, parse);
    }
  }

  /** `retrieve_viaf_compositions_by_author_id`: the URL queried and the rows written. */
  method RetrieveViafCompositionsByAuthorId(viafId: string, contentFor: string -> string, parse: string -> Element)
    returns (query: string, rows: seq<Row>)
    ensures query == ViafQuery(viafId) && rows == CompositionsOf(viafId, contentFor, parse)
  {
    query := VIAF_API_URL + viafId + VIAF_XML_SUFFIX;
    var content := contentFor(query);
    rows := [];
    if content != "" {
      var root := parse(content);
      rows := ParseResponse(viafId, root);
    }
  }

  /** The inner loop of `retrieve_authors_data_by_viaf_id`: the ids of one row, queried
      in order. */
  method RetrieveEach(ids: seq<string>, contentFor: string -> string, parse: string -> Element)
    returns (queries: seq<string>, entries: seq<Row>)
    ensures queries == Queries(ids) && entries == CompositionsOfAll(ids, contentFor, parse)
  {
    queries, entries := [], [];
    for k := 0 to |ids|
      invariant queries == Queries(ids[..k])
      invariant entries == CompositionsOfAll(ids[..k], contentFor, parse)
    {
      assert ids[..k + 1][..k] == ids[..k];
      var query, rows := RetrieveViafCompositionsByAuthorId(ids[k], contentFor, parse);
      queries := queries + [query];
      entries := entries + rows;
    }
    assert ids[..|ids|] == ids;
  }

  /** `retrieve_authors_data_by_viaf_id` on the rows of the mapped-authors CSV: the
      header is skipped, and the ids of column 7 of each further row are queried in
      order. Returns the queried URLs and the composition rows written after the
      header. */
  method RetrieveAuthorsDataByViafId(summary: seq<seq<string>>, contentFor: string -> string, parse: string -> Element)
    returns (queries: seq<string>, entries: seq<Row>)
    requires forall i :: 1 <= i < |summary| ==> |summary[i]| > VIAF_ID_COL
    ensures var rows := if summary == [] then [] else summary[1..];
      && ViafRows(rows)
      && queries == Queries(ViafIds(rows))
      && entries == CompositionsOfAll(ViafIds(rows), contentFor, parse)
  {
    var rows := if summary == [] then [] else summary[1..];
    assert ViafRows(rows) by {
      assert forall i :: 0 <= i < |rows| ==> rows[i] == summary[i + 1];
    }
    queries, entries := [], [];
    for i := 0 to |rows|
      invariant ViafRows(rows[..i])
      invariant queries == RowsQueries(rows[..i])
      invariant entries == RowsCompositions(rows[..i], contentFor, parse)
    {
      assert rows[..i + 1][..i] == rows[..i];
      var ids := Split(rows[i][VIAF_ID_COL], BLANK);
      var rowQueries, rowEntries := RetrieveEach(ids, contentFor, parse);
      queries := queries + rowQueries;
      entries := entries + rowEntries;
    }
    assert rows[..|rows|] == rows;
    RowsFlatten(rows, contentFor, parse);
  }
}
