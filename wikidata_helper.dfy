/** Reading Wikidata Query (WDQ) responses, the query strings sent to WDQ, the author-line
    dedup run that writes one author row per Wikidata id, and the facet-collection rows.
    The input lines are `onb;name;gnd-uri;...` CSV lines. */
module WikidataHelper {
  import opened Common
  import opened Json

  const WIKIDATA_API_URL := "https://wdq.wmflabs.org/api?q="
  const ITEMS_JSON := "items"
  const PROPS_JSON := "props"
  const VALUE_POS_IN_WIKIDATA_PROP_LIST := 2

  const ONB_COL := 0
  const NAME_COL := 1
  const GND_COL := 2

  const OCCUPATION_PROP: nat := 106
  const VIAF_ID_PROP: nat := 214
  const MUSIC_BRAINZ_ARTIST_ID_PROP: nat := 434
  const GND_ID_PROP: nat := 227
  const BNF_ID_PROP: nat := 268
  const NKC_ID_PROP: nat := 691
  const FREEBASE_ID_PROP: nat := 646
  const GENRE_PROP: nat := 136
  const IMSLP_ID_PROP: nat := 839
  const NTA_ID_PROP: nat := 1006
  const COMMONS_CATEGORY_PROP: nat := 373

  /** The properties requested for an author, in declared order. */
  const PROPERTIES: seq<nat> :=
    [OCCUPATION_PROP, VIAF_ID_PROP, MUSIC_BRAINZ_ARTIST_ID_PROP, GND_ID_PROP, BNF_ID_PROP,
     NKC_ID_PROP, FREEBASE_ID_PROP, GENRE_PROP, IMSLP_ID_PROP, NTA_ID_PROP]

  // ---------------------------------------------------------------------------
  // extract_property_value

  /** `value_list` has a container at position 2, whose `str` is a Python repr. */
  predicate ContainerAtValuePos(v: Json)
  {
    v.JList? && |v.items| > VALUE_POS_IN_WIKIDATA_PROP_LIST &&
      (v.items[VALUE_POS_IN_WIKIDATA_PROP_LIST].JList? || v.items[VALUE_POS_IN_WIKIDATA_PROP_LIST].JObj?)
  }

  /** `str(value_list[2])`, or None where Python raises (too short, not subscriptable by
      an int, or non-ASCII text that Python 2 `str` cannot encode). A string's position 2
      is its third character. */
  function ValueText(v: Json): (r: Option<string>)
    requires !ContainerAtValuePos(v)
    ensures v.JList? && |v.items| <= 2 ==> r == None
    ensures v.JList? && |v.items| > 2 && v.items[2].JStr? ==>
      r == if IsAscii(v.items[2].s) then Some(v.items[2].s) else None
    ensures v.JStr? ==> r == if |v.s| > 2 && v.s[2] as int < 128 then Some([v.s[2]]) else None
    ensures !v.JList? && !v.JStr? ==> r == None
  {
    match v
    case JList(items) =>
      if |items| > VALUE_POS_IN_WIKIDATA_PROP_LIST && !EncodeFails(items[VALUE_POS_IN_WIKIDATA_PROP_LIST])
      then ScalarText(items[VALUE_POS_IN_WIKIDATA_PROP_LIST])
      else None
    case JStr(s) =>
      if |s| > VALUE_POS_IN_WIKIDATA_PROP_LIST && s[VALUE_POS_IN_WIKIDATA_PROP_LIST] as int < 128
      then Some([s[VALUE_POS_IN_WIKIDATA_PROP_LIST]])
      else None
    case _ => None
  }

  /** The texts of all value lists, or None as soon as one raises. */
  function ValueTexts(vs: seq<Json>): (r: Option<seq<string>>)
    requires forall v :: v in vs ==> !ContainerAtValuePos(v)
    ensures r.Some? ==> |r.value| == |vs| && forall i :: 0 <= i < |vs| ==> ValueText(vs[i]) == Some(r.value[i])
    ensures r.None? ==> exists i :: 0 <= i < |vs| && ValueText(vs[i]).None?
  {
    if vs == [] then Some([])
    else
      var last := vs[|vs| - 1];
      match ValueTexts(vs[..|vs| - 1])
      case None => None
      case Some(ts) =>
        match ValueText(last)
        case None => None
        case Some(t) => Some(ts + [t])
  }

  /** The property's data list in the response, when `props` is a dictionary holding
      `str(property)`. */
  function PropertyData(response: Json, property: nat): (r: Option<Json>)
    ensures r.Some? <==> Path(response, [PROPS_JSON, NatToDecimal(property)]).Some?
    ensures r.Some? ==> r == Path(response, [PROPS_JSON, NatToDecimal(property)])
  {
    if response.JObj? && PROPS_JSON in response.fields && response.fields[PROPS_JSON].JObj?
      && NatToDecimal(property) in response.fields[PROPS_JSON].fields
    then Some(response.fields[PROPS_JSON].fields[NatToDecimal(property)])
    else None
  }

  /** What the model covers: the property's data is not a dictionary (whose iteration
      order Python leaves open) and no value list holds a container at position 2. */
  predicate PropertyModelled(response: Json, property: nat)
  {
    match PropertyData(response, property)
    case None => true
    case Some(d) => !d.JObj? && (d.JList? ==> forall v :: v in d.items ==> !ContainerAtValuePos(v))
  }

  /** The texts joined by `extract_property_value`, or None where iterating raises. */
  function PropertyTexts(d: Json): (r: Option<seq<string>>)
    requires !d.JObj? && (d.JList? ==> forall v :: v in d.items ==> !ContainerAtValuePos(v))
  {
    match d
    case JList(items) => ValueTexts(items)
    // each character's position 2 raises, so only the empty string iterates cleanly
    case JStr(s) => if s == "" then Some([]) else None
    case _ => None
  }

  /** `extract_property_value`: every failure is caught and leaves ''. */
  function ExtractPropertyValue(response: Json, property: nat): (r: string)
    requires PropertyModelled(response, property)
    ensures PropertyData(response, property).None? ==> r == ""
    ensures PropertyData(response, property).Some? && PropertyTexts(PropertyData(response, property).value).None? ==> r == ""
  {
    match PropertyData(response, property)
    case None => ""
    case Some(d) =>
      match PropertyTexts(d)
      case None => ""
      case Some(ts) => Join(ts, " ")
  }

  /** The joined values split back into the texts at position 2 of the value lists, in
      order, as long as none of them contains a blank. */
  lemma PropertyValueSplit(response: Json, property: nat, lists: seq<Json>)
    requires PropertyData(response, property) == Some(JList(lists)) && lists != []
    requires forall v :: v in lists ==> !ContainerAtValuePos(v)
    requires forall v :: v in lists ==> ValueText(v).Some? && ' ' !in ValueText(v).value
    ensures PropertyModelled(response, property)
    ensures var texts := Split(ExtractPropertyValue(response, property), ' ');
      |texts| == |lists| && forall i :: 0 <= i < |lists| ==> Some(texts[i]) == ValueText(lists[i])
  {
    var ts := ValueTexts(lists);
    forall p | p in ts.value ensures ' ' !in p {
      var i :| 0 <= i < |ts.value| && ts.value[i] == p;
      assert lists[i] in lists;
    }
    SplitJoin(ts.value, ' ');
  }

  // ---------------------------------------------------------------------------
  // extract_wikidata_author_id

  /** What `response['items'][0]` needs so that only the caught IndexError can occur. */
  predicate HasItems(response: Json)
  {
    response.JObj? && ITEMS_JSON in response.fields &&
      (response.fields[ITEMS_JSON].JList? || response.fields[ITEMS_JSON].JStr?)
  }

  /** `extract_wikidata_author_id`: the first item, None when there is none. */
  function ExtractWikidataAuthorId(response: Json): (r: Option<Json>)
    requires HasItems(response)
    ensures var items := response.fields[ITEMS_JSON];
      (r.None? <==> (items.JList? && items.items == []) || (items.JStr? && items.s == []))
    ensures var items := response.fields[ITEMS_JSON];
      items.JList? && r.Some? ==> [r.value] == items.items[..1]
  {
    match response.fields[ITEMS_JSON]
    case JList(items) => if items == [] then None else Some(items[0])
    case JStr(s) => if s == [] then None else Some(JStr([s[0]]))
  }

  // ---------------------------------------------------------------------------
  // extract_gnd_from_line

  /** `extract_gnd_from_line`: the text after the last '/' in the third ';'-field; None
      when the line has fewer than three fields. */
  function ExtractGndFromLine(line: string): (r: Option<string>)
    ensures r.Some? <==> |Split(line, ';')| > GND_COL
    ensures r.Some? ==> '/' !in r.value && ';' !in r.value
  {
    var row := Split(line, ';');
    if |row| > GND_COL then
      SplitPiecesFree(line, ';');
      assert row[GND_COL] in row;
      Some(LastPiece(row[GND_COL], '/'))
    else None
  }

  /** A line written as `onb;name;base/gnd` (plus any further fields) yields `gnd`. */
  lemma GndFromRow(onb: string, name: string, base: string, gnd: string, rest: seq<string>)
    requires ';' !in onb && ';' !in name && ';' !in base && ';' !in gnd
    requires forall p :: p in rest ==> ';' !in p
    requires '/' !in gnd
    ensures ExtractGndFromLine(Join([onb, name, base + "/" + gnd] + rest, ";")) == Some(gnd)
  {
    var parts := [onb, name, base + "/" + gnd] + rest;
    forall p | p in parts ensures ';' !in p {
      if p !in rest {
        assert p == onb || p == name || p == base + "/" + gnd;
      }
    }
    SplitJoin(parts, ';');
    assert base + "/" + gnd == base + ['/'] + gnd;
    LastPieceAfterSeparator(base, gnd, '/');
  }

  // ---------------------------------------------------------------------------
  // Query strings

  const GND_QUERY_PREFIX := WIKIDATA_API_URL + "string[" + NatToDecimal(GND_ID_PROP) + ":"
  const FREEBASE_QUERY_PREFIX := WIKIDATA_API_URL + "string[" + NatToDecimal(FREEBASE_ID_PROP) + ":"
  const ITEMS_QUERY_PREFIX := WIKIDATA_API_URL + ITEMS_JSON + "["

  /** `", ".join(str(e) for e in properties)`. */
  function PropertiesText(props: seq<nat>): (r: string)
    ensures props != [] ==> NatToDecimal(props[0]) <= r
  {
    if props == [] then ""
    else if |props| == 1 then NatToDecimal(props[0])
    else NatToDecimal(props[0]) + ", " + PropertiesText(props[1..])
  }

  /** Decimal text holds no ',' separator. */
  lemma NoCommaInDecimal(n: nat)
    ensures ',' !in NatToDecimal(n)
  {
    var r := NatToDecimal(n);
    assert forall i :: 0 <= i < |r| ==> IsDigit(r[i]);
  }

  /** The properties text splits on ',' back into the numbers in the given order, each
      after the first preceded by its blank. */
  lemma {:induction false} PropertiesTextSplit(props: seq<nat>)
    requires props != []
    ensures var pieces := Split(PropertiesText(props), ',');
      |pieces| == |props| && pieces[0] == NatToDecimal(props[0])
      && forall i :: 0 < i < |props| ==> pieces[i] == " " + NatToDecimal(props[i])
  {
    NoCommaInDecimal(props[0]);
    var d0 := NatToDecimal(props[0]);
    if |props| == 1 {
      SplitNoSeparator(d0, ',');
    } else {
      var rest := PropertiesText(props[1..]);
      PropertiesTextSplit(props[1..]);
      assert PropertiesText(props) == d0 + ", " + rest;
      var t := Split(rest, ',');
      SplitCommaBlank(d0, rest);
      var pieces := [d0] + [" " + t[0]] + t[1..];
      forall i | 0 < i < |props|
        ensures pieces[i] == " " + NatToDecimal(props[i])
      {
        if i > 1 {
          assert pieces[i] == t[i - 1] == " " + NatToDecimal(props[1..][i - 1]);
        }
      }
    }
  }

  /** Splitting `a, b` on ',' when `a` has no ',': `a`, then the pieces of `b` with
      the blank in front of the first. */
  lemma SplitCommaBlank(a: string, b: string)
    requires ',' !in a
    ensures var t := Split(b, ',');
      Split(a + ", " + b, ',') == [a] + [" " + t[0]] + t[1..]
  {
    assert a + ", " + b == a + [','] + (" " + b);
    SplitAfterPiece(a, " " + b, ',');
    assert (" " + b)[1..] == b;
  }

  /** The query for the Wikidata item holding GND id `gnd` (property P227). */
  function AuthorIdQuery(gnd: string): (q: string)
    ensures StripFrame(q, GND_QUERY_PREFIX, "]") == Some(gnd)
  {
    FramedRecovers(GND_QUERY_PREFIX, gnd, "]");
    GND_QUERY_PREFIX + gnd + "]"
  }

  /** The WDQ GND query reads `...?q=string[227:<gnd>]`. */
  lemma GndQueryPrefix()
    ensures GND_QUERY_PREFIX == "https://wdq.wmflabs.org/api?q=string[227:"
  {
    assert NatToDecimal(227) == "227";
  }

  /** The query for the composition holding Freebase id `freebaseId` (property P646). */
  function CompositionByFreebaseQuery(freebaseId: string): (q: string)
    ensures StripFrame(q, FREEBASE_QUERY_PREFIX, "]") == Some(freebaseId)
  {
    FramedRecovers(FREEBASE_QUERY_PREFIX, freebaseId, "]");
    FREEBASE_QUERY_PREFIX + freebaseId + "]"
  }

  /** The query for an author's properties; `authorId` is `str(wikidata_author_id)`. */
  function AuthorDataQuery(authorId: string): (q: string)
    ensures StripFrame(q, ITEMS_QUERY_PREFIX, "]&" + PROPS_JSON + "=" + PropertiesText(PROPERTIES)) == Some(authorId)
  {
    var suffix := "]&" + PROPS_JSON + "=" + PropertiesText(PROPERTIES);
    FramedRecovers(ITEMS_QUERY_PREFIX, authorId, suffix);
    ITEMS_QUERY_PREFIX + authorId + suffix
  }

  /** The query for an occupation's Commons category (property P373). */
  function OccupationQuery(occupationId: string): (q: string)
    ensures StripFrame(q, ITEMS_QUERY_PREFIX, "]&" + PROPS_JSON + "=" + NatToDecimal(COMMONS_CATEGORY_PROP)) == Some(occupationId)
  {
    var suffix := "]&" + PROPS_JSON + "=" + NatToDecimal(COMMONS_CATEGORY_PROP);
    FramedRecovers(ITEMS_QUERY_PREFIX, occupationId, suffix);
    ITEMS_QUERY_PREFIX + occupationId + suffix
  }

  // ---------------------------------------------------------------------------
  // store_author_data_by_gnd / store_author_data

  /** Every line after the header has a GND field: a `None` GND would make the cache-file
      name concatenation raise. */
  predicate GndLines(lines: seq<string>)
  {
    forall k :: 0 < k < |lines| ==> ExtractGndFromLine(lines[k]).Some?
  }

  /** The shared `gnd_cache` list and the rows written so far, each row given by the
      Wikidata id it is for and the index of the line it was built from. */
  datatype Store = Store(cache: seq<Json>, written: seq<(Json, nat)>)

  /** `store_author_data` for line `k`. The cache is probed with the GND text but filled
      with Wikidata ids, as in the source. */
  function StoreStep(st: Store, k: nat, line: string, authorIdFor: (string, string) -> Json): Store
    requires ExtractGndFromLine(line).Some?
  {
    var gnd := ExtractGndFromLine(line).value;
    if JStr(gnd) in st.cache then st
    else
      var id := authorIdFor(gnd, line);
      if Truthy(id) && id !in st.cache then Store(st.cache + [id], st.written + [(id, k)])
      else st
  }

  /** The store after the lines before index `n`; line 0 is the header. */
  function StoreRun(lines: seq<string>, authorIdFor: (string, string) -> Json, n: nat): Store
    requires n <= |lines| && GndLines(lines)
  {
    if n == 0 then Store([], [])
    else if n == 1 then StoreRun(lines, authorIdFor, 0)
    else StoreStep(StoreRun(lines, authorIdFor, n - 1), n - 1, lines[n - 1], authorIdFor)
  }

  /** The id of line `k` once its GND is looked up. */
  function LineAuthorId(lines: seq<string>, authorIdFor: (string, string) -> Json, k: nat): Json
    requires 0 < k < |lines| && GndLines(lines)
  {
    authorIdFor(ExtractGndFromLine(lines[k]).value, lines[k])
  }

  /** What the run keeps: the cache holds distinct truthy ids, one row per cached id in
      the same order, each row built from a later line than the previous one, never the
      header, and for the id that line was looked up with. */
  ghost predicate StoreValid(lines: seq<string>, authorIdFor: (string, string) -> Json, st: Store, n: nat)
    requires n <= |lines| && GndLines(lines)
  {
    && |st.written| == |st.cache|
    && (forall i :: 0 <= i < |st.cache| ==> st.written[i].0 == st.cache[i] && Truthy(st.cache[i]))
    && (forall i, j :: 0 <= i < j < |st.cache| ==> st.cache[i] != st.cache[j])
    && (forall i :: 0 <= i < |st.written| ==> 0 < st.written[i].1 < n)
    && (forall i, j :: 0 <= i < j < |st.written| ==> st.written[i].1 < st.written[j].1)
    && (forall i :: 0 <= i < |st.written| ==> st.written[i].0 == LineAuthorId(lines, authorIdFor, st.written[i].1))
  }

  /** One `store_author_data` call keeps the run's invariant. */
  lemma StoreStepValid(lines: seq<string>, authorIdFor: (string, string) -> Json, st: Store, n: nat)
    requires 0 < n < |lines| && GndLines(lines)
    requires StoreValid(lines, authorIdFor, st, n)
    ensures StoreValid(lines, authorIdFor, StoreStep(st, n, lines[n], authorIdFor), n + 1)
    ensures forall x :: x in st.cache ==> x in StoreStep(st, n, lines[n], authorIdFor).cache
    ensures var id := LineAuthorId(lines, authorIdFor, n); var st' := StoreStep(st, n, lines[n], authorIdFor);
      JStr(ExtractGndFromLine(lines[n]).value) in st'.cache || (Truthy(id) ==> id in st'.cache)
  {
    var gnd := ExtractGndFromLine(lines[n]).value;
    var id := LineAuthorId(lines, authorIdFor, n);
    if JStr(gnd) !in st.cache && Truthy(id) && id !in st.cache {
      StoreAppendValid(lines, authorIdFor, st, n, id);
    } else {
      StoreValidLater(lines, authorIdFor, st, n);
    }
  }

  /** Caching a new truthy id with its row for line `n` keeps the invariant. */
  lemma StoreAppendValid(lines: seq<string>, authorIdFor: (string, string) -> Json, st: Store, n: nat, id: Json)
    requires 0 < n < |lines| && GndLines(lines)
    requires StoreValid(lines, authorIdFor, st, n)
    requires id == LineAuthorId(lines, authorIdFor, n) && Truthy(id) && id !in st.cache
    ensures StoreValid(lines, authorIdFor, Store(st.cache + [id], st.written + [(id, n)]), n + 1)
  {
    var st' := Store(st.cache + [id], st.written + [(id, n)]);
    var m := |st.cache|;
    assert st'.cache[m] == id && st'.written[m] == (id, n);
    assert forall i :: 0 <= i < m ==> st'.cache[i] == st.cache[i] && st'.written[i] == st.written[i];
    assert forall i :: 0 <= i < m ==> st.cache[i] != id;
  }

  /** A store valid after `n` lines is valid after `n + 1` when nothing is added. */
  lemma StoreValidLater(lines: seq<string>, authorIdFor: (string, string) -> Json, st: Store, n: nat)
    requires n < |lines| && GndLines(lines)
    requires StoreValid(lines, authorIdFor, st, n)
    ensures StoreValid(lines, authorIdFor, st, n + 1)
  {
  }

  /** The dedup run never writes two rows for one Wikidata id and never processes the
      header, and no truthy id is lost: each processed line's id is cached unless its GND
      text itself was in the cache. */
  lemma {:induction false} StoreRunValid(lines: seq<string>, authorIdFor: (string, string) -> Json, n: nat)
    requires n <= |lines| && GndLines(lines)
    ensures StoreValid(lines, authorIdFor, StoreRun(lines, authorIdFor, n), n)
    ensures forall k :: 0 < k < n ==>
      var st := StoreRun(lines, authorIdFor, n); var id := LineAuthorId(lines, authorIdFor, k);
      JStr(ExtractGndFromLine(lines[k]).value) in st.cache || (Truthy(id) ==> id in st.cache)
  {
    if n > 1 {
      StoreRunValid(lines, authorIdFor, n - 1);
      var prev := StoreRun(lines, authorIdFor, n - 1);
      StoreStepValid(lines, authorIdFor, prev, n - 1);
    }
  }

  /** A run without the GND probe: the reference the source's run reduces to. */
  function DedupRun(lines: seq<string>, authorIdFor: (string, string) -> Json, n: nat): Store
    requires n <= |lines| && GndLines(lines)
  {
    if n <= 1 then Store([], [])
    else
      var st := DedupRun(lines, authorIdFor, n - 1);
      var id := LineAuthorId(lines, authorIdFor, n - 1);
      if Truthy(id) && id !in st.cache then Store(st.cache + [id], st.written + [(id, n - 1)]) else st
  }

  /** When no looked-up id is a string (WDQ returns numbers), the GND probe never hits
      and the run is the plain dedup by Wikidata id. */
  lemma {:induction false} ProbeNeverHits(lines: seq<string>, authorIdFor: (string, string) -> Json, n: nat)
    requires n <= |lines| && GndLines(lines)
    requires forall k :: 0 < k < |lines| ==> !LineAuthorId(lines, authorIdFor, k).JStr?
    ensures StoreRun(lines, authorIdFor, n) == DedupRun(lines, authorIdFor, n)
    ensures forall x :: x in StoreRun(lines, authorIdFor, n).cache ==> !x.JStr?
  {
    if n > 1 {
      ProbeNeverHits(lines, authorIdFor, n - 1);
      var prev := StoreRun(lines, authorIdFor, n - 1);
      assert JStr(ExtractGndFromLine(lines[n - 1]).value) !in prev.cache;
      assert !LineAuthorId(lines, authorIdFor, n - 1).JStr?;
    }
  }

  /** `store_author_data_by_gnd`: the lines are enumerated, the header skipped and each
      further line handed to `store_author_data` with the shared cache. */
  method StoreAuthorDataByGnd(lines: seq<string>, authorIdFor: (string, string) -> Json) returns (st: Store)
    requires GndLines(lines)
    ensures st == StoreRun(lines, authorIdFor, |lines|)
  {
    st := Store([], []);
    for idx := 0 to |lines|
      invariant st == StoreRun(lines, authorIdFor, idx)
    {
      if idx > 0 {
        var gnd := ExtractGndFromLine(lines[idx]).value;
        if JStr(gnd) !in st.cache {
          var id := authorIdFor(gnd, lines[idx]);
          if Truthy(id) && id !in st.cache {
            st := Store(st.cache + [id], st.written + [(id, idx)]);
          }
        }
      }
    }
  }

  // ---------------------------------------------------------------------------
  // extract_and_save_label_data

  /** The facet id: the label's text before the first '_', '' without one. */
  function FacetId(facetLabel: string): (id: string)
    ensures '_' !in id
    ensures '_' !in facetLabel ==> id == ""
    ensures '_' in facetLabel ==> id + "_" <= facetLabel
  {
    if '_' in facetLabel then
      SplitFirstPiece(facetLabel, '_');
      SplitPiecesFree(facetLabel, '_');
      assert Split(facetLabel, '_')[0] in Split(facetLabel, '_');
      Split(facetLabel, '_')[0]
    else ""
  }

  /** A label `<id>_<name>` has facet id `<id>`. */
  lemma FacetIdOf(id: string, name: string)
    requires '_' !in id
    ensures FacetId(id + "_" + name) == id
  {
    assert id + "_" + name == id + ['_'] + name;
    assert (id + "_" + name)[|id|] == '_';
    SplitAfterPiece(id, name, '_');
  }

  /** A facet field the row loop gets through: a dictionary with a string label and the
      scalar it reads as the count. */
  predicate FacetFieldAsWritten(field: Json)
  {
    field.JObj? && "label" in field.fields && field.fields["label"].JStr?
  }

  /** The row as written: `COUNT_JSON` is 'label', so the count column repeats the label. */
  function FacetRowAsWritten(field: Json): (row: seq<string>)
    requires FacetFieldAsWritten(field)
    ensures |row| == 3 && row[2] == row[1]
  {
    var facetLabel := field.fields["label"].s;
    [FacetId(facetLabel), facetLabel, facetLabel]
  }

  /** A field the loop gets through without ending: its label and count can be read and
      the count has a text form. */
  predicate FacetField(field: Json)
  {
    FacetFieldAsWritten(field) && "count" in field.fields && ScalarText(field.fields["count"]).Some?
  }

  /** A field whose row can be written: `str` and the CSV writer raise UnicodeEncodeError
      on a non-ASCII label or count, which the inner handler catches, skipping the row. */
  predicate FacetEncodable(field: Json)
    requires FacetField(field)
  {
    IsAscii(field.fields["label"].s) && !EncodeFails(field.fields["count"])
  }

  /** The intended row: id, label and the facet's count. */
  function FacetRow(field: Json): (row: seq<string>)
    requires FacetField(field)
    ensures |row| == 3 && row[0] == FacetId(row[1])
    ensures row[1] == field.fields["label"].s && Some(row[2]) == ScalarText(field.fields["count"])
  {
    var facetLabel := field.fields["label"].s;
    [FacetId(facetLabel), facetLabel, ScalarText(field.fields["count"]).value]
  }

  /** For a facet with label "12_Foo" and count 5 the row as written shows the label where
      the count belongs. */
  lemma FacetCountShowsLabel()
    ensures var field := JObj(map["label" := JStr("12_Foo"), "count" := JNum("5")]);
      FacetRowAsWritten(field) == ["12", "12_Foo", "12_Foo"] && FacetRow(field) == ["12", "12_Foo", "5"]
  {
    var field := JObj(map["label" := JStr("12_Foo"), "count" := JNum("5")]);
    assert field.fields["label"] == JStr("12_Foo") && field.fields["count"] == JNum("5");
    FacetIdOf("12", "Foo");
    assert "12" + "_" + "Foo" == "12_Foo";
  }

  /** The rows written for the fields, in order: a field that cannot be encoded is
      skipped, and the loop ends at the first field whose lookups raise. */
  function FacetRows(fields: seq<Json>): seq<seq<string>>
  {
    if fields == [] || !FacetField(fields[0]) then []
    else (if FacetEncodable(fields[0]) then [FacetRow(fields[0])] else []) + FacetRows(fields[1..])
  }

  /** How many fields from the start the loop gets through. */
  function FacetRun(fields: seq<Json>): (n: nat)
    ensures n <= |fields|
    ensures forall i :: 0 <= i < n ==> FacetField(fields[i])
    ensures n < |fields| ==> !FacetField(fields[n])
  {
    if fields == [] || !FacetField(fields[0]) then 0 else 1 + FacetRun(fields[1..])
  }

  /** The rows are those of the encodable fields among the ones the loop gets through:
      every row is such a field's row, and every such field has its row. */
  lemma {:induction false} FacetRowsShape(fields: seq<Json>)
    ensures var rows := FacetRows(fields);
      && |rows| <= FacetRun(fields)
      && (forall r :: r in rows ==>
            exists i :: 0 <= i < FacetRun(fields) && FacetEncodable(fields[i]) && r == FacetRow(fields[i]))
      && (forall i :: 0 <= i < FacetRun(fields) && FacetEncodable(fields[i]) ==> FacetRow(fields[i]) in rows)
  {
    if fields != [] && FacetField(fields[0]) {
      var tail := fields[1..];
      FacetRowsShape(tail);
      var rows := FacetRows(fields);
      var head := if FacetEncodable(fields[0]) then [FacetRow(fields[0])] else [];
      assert rows == head + FacetRows(tail);
      forall r | r in rows
        ensures exists i :: 0 <= i < FacetRun(fields) && FacetEncodable(fields[i]) && r == FacetRow(fields[i])
      {
        if r in head {
          assert 0 < FacetRun(fields) && FacetEncodable(fields[0]) && r == FacetRow(fields[0]);
        } else {
          var k :| 0 <= k < FacetRun(tail) && FacetEncodable(tail[k]) && r == FacetRow(tail[k]);
          assert tail[k] == fields[k + 1];
        }
      }
      forall i | 0 <= i < FacetRun(fields) && FacetEncodable(fields[i])
        ensures FacetRow(fields[i]) in rows
      {
        if i > 0 {
          assert tail[i - 1] == fields[i];
        }
      }
    }
  }

  /** A field Python 2 cannot encode is skipped and the loop goes on. */
  lemma NonAsciiFieldSkipped(field: Json, rest: seq<Json>)
    requires FacetField(field) && !IsAscii(field.fields["label"].s)
    ensures FacetRows([field] + rest) == FacetRows(rest)
  {
    assert ([field] + rest)[1..] == rest;
  }

  /** One loop step: a field that can be read writes its row when it can be encoded and
      the loop goes on; any other field ends the rows. */
  lemma FacetRowsFrom(fs: seq<Json>, i: nat)
    requires i < |fs|
    ensures FacetField(fs[i]) ==>
      FacetRows(fs[i..]) == (if FacetEncodable(fs[i]) then [FacetRow(fs[i])] else []) + FacetRows(fs[i + 1..])
    ensures !FacetField(fs[i]) ==> FacetRows(fs[i..]) == []
  {
    assert fs[i..][1..] == fs[i + 1..];
  }

  /** The rows written for a facet's `fields` value. */
  function FacetRowsOf(fields: Json): seq<seq<string>>
  {
    match Lookup(fields, "fields")
    case Some(JList(fs)) => FacetRows(fs)
    case _ => []
  }

  /** `facets[0]` of the response, when the lookup does not raise. */
  function FacetsFirst(response: Json): Option<Json>
  {
    match Lookup(response, "facets")
    case Some(JList(facets)) => if facets == [] then None else Some(facets[0])
    case Some(JStr(s)) => if s == [] then None else Some(JStr([s[0]]))
    case _ => None
  }

  /** `extract_and_save_label_data`: the rows written after the header, and the returned
      `fields` (`[]` when `facets[0]` raises). */
  method ExtractAndSaveLabelData(response: Json) returns (rows: seq<seq<string>>, fields: Json)
    ensures FacetsFirst(response).None? ==> rows == [] && fields == JList([])
    ensures FacetsFirst(response).Some? ==> fields == FacetsFirst(response).value
    ensures rows == FacetRowsOf(fields)
  {
    rows := [];
    fields := JList([]);
    var first := FacetsFirst(response);
    if first.None? {
      return;
    }
    fields := first.value;
    var list := Lookup(fields, "fields");
    if !(list.Some? && list.value.JList?) {
      return;
    }
    var fs := list.value.items;
    var i := 0;
    while i < |fs| && FacetField(fs[i])
      invariant 0 <= i <= |fs|
      invariant FacetRows(fs) == rows + FacetRows(fs[i..])
      decreases |fs| - i
    {
      FacetRowsFrom(fs, i);
      if FacetEncodable(fs[i]) {
        rows := rows + [FacetRow(fs[i])];
      }
      i := i + 1;
    }
    if i < |fs| {
      FacetRowsFrom(fs, i);
    } else {
      assert fs[i..] == [];
    }
  }
}
