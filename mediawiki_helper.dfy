/** Reading MediaWiki `wbgetentities` responses: claim values and numeric ids, English
    labels, the 14-column author row and the property-label table. The author-line GND
    extraction and the dedup run are the same code as in the WDQ helper and are taken from
    `WikidataHelper`. */
module MediawikiHelper {
  import opened Common
  import opened Json
  import WikidataHelper

  const MAX_PROP_ID: nat := 2500
  const WIKIDATA_API_ACTION := "https://www.wikidata.org/w/api.php?action="
  const WIKIDATA_API_URL := WIKIDATA_API_ACTION + "wbgetentities&ids=Q"
  const LANGUAGE_EN := "&languages=en"
  const FORMAT_JSON := "&format=json"

  const AUTHOR_FIELDNAMES: seq<string> :=
    ["gnd", "wikidata", "onb", "name", "genre", "occupation", "freebase", "viaf", "bnf",
     "nkc", "nta", "imslp", "dbpedia", "music_brainz_artist_id"]

  const PROPERTY_FIELDNAMES: seq<string> := ["id", "name"]

  // ---------------------------------------------------------------------------
  // extract_property_value / extract_property_id

  /** The claim key of a property, `'P' + str(property)`. */
  function ClaimKey(property: nat): string
  {
    "P" + NatToDecimal(property)
  }

  /** The claims listed under `key`, when iterating them can start: only a list of claims
      yields anything (any other value raises on its first element, or has none). */
  function Claims(claims: Json, key: string): (r: seq<Json>)
    ensures r != [] ==> Lookup(claims, key) == Some(JList(r))
  {
    match Lookup(claims, key)
    case Some(JList(items)) => items
    case _ => []
  }

  /** `values + ' ' + value` after the first value; None where Python raises a
      TypeError (either side not a string). While `values` is still '' the value is taken
      as it is. */
  function Accumulate(values: Json, value: Json): (r: Option<Json>)
    ensures values == JStr("") ==> r == Some(value)
    ensures values != JStr("") && values.JStr? && value.JStr? ==> r == Some(JStr(values.s + " " + value.s))
  {
    if values == JStr("") then Some(value)
    else if values.JStr? && value.JStr? then Some(JStr(values.s + " " + value.s))
    else None
  }

  /** The loop of `extract_property_value` / `extract_property_id` from `values` on: the
      first claim whose lookup or concatenation raises ends it (the bare `except` keeps
      what was accumulated). */
  function FoldClaims(values: Json, claims: seq<Json>, path: seq<string>): Json
    decreases |claims|
  {
    if claims == [] then values
    else
      match Path(claims[0], path)
      case None => values
      case Some(v) =>
        match Accumulate(values, v)
        case None => values
        case Some(values') => FoldClaims(values', claims[1..], path)
  }

  const VALUE_PATH: seq<string> := ["mainsnak", "datavalue", "value"]
  const ID_PATH: seq<string> := ["mainsnak", "datavalue", "value", "numeric-id"]

  /** The loop shared by both extractors, as an accumulating `for` with its `break`s. */
  method AccumulateClaims(claims: seq<Json>, path: seq<string>) returns (values: Json)
    ensures values == FoldClaims(JStr(""), claims, path)
  {
    values := JStr("");
    var i := 0;
    while i < |claims|
      invariant 0 <= i <= |claims|
      invariant FoldClaims(JStr(""), claims, path) == FoldClaims(values, claims[i..], path)
    {
      assert claims[i..][0] == claims[i] && claims[i..][1..] == claims[i + 1..];
      var v := Path(claims[i], path);
      if v.None? {
        break;
      }
      var next := Accumulate(values, v.value);
      if next.None? {
        break;
      }
      values := next.value;
      i := i + 1;
    }
  }

  /** A claim value column: what `extract_property_value` returns for the key. */
  function ValueColumn(claims: Json, key: string): Json
  {
    FoldClaims(JStr(""), Claims(claims, key), VALUE_PATH)
  }

  /** A numeric-id column: what `extract_property_id` returns for the key. */
  function IdColumn(claims: Json, key: string): Json
    requires IdTextModelled(claims, key)
  {
    JStr(ScalarText(FoldClaims(JStr(""), Claims(claims, key), ID_PATH)).value)
  }

  const GENRE_CLAIM := "P136"
  const OCCUPATION_CLAIM := "P106"
  const FREEBASE_CLAIM := "P646"
  const VIAF_CLAIM := "P214"
  const BNF_CLAIM := "P268"
  const NKC_CLAIM := "P691"
  const NTA_CLAIM := "P1006"
  const IMSLP_CLAIM := "P839"
  const MUSIC_BRAINZ_ARTIST_CLAIM := "P434"

  /** `extract_property_value`: the claims' values joined by blanks (the result is
      whatever `values` holds, a string unless a lone non-string value was taken). */
  method ExtractPropertyValue(claims: Json, property: nat) returns (values: Json)
    ensures values == ValueColumn(claims, ClaimKey(property))
    ensures Claims(claims, ClaimKey(property)) == [] ==> values == JStr("")
  {
    values := AccumulateClaims(Claims(claims, ClaimKey(property)), VALUE_PATH);
  }

  /** With every claim holding a string value and the first one non-empty, the result is
      the values joined by single blanks, in claim order. */
  lemma {:induction false} FoldClaimsJoin(claims: seq<Json>, path: seq<string>, texts: seq<string>)
    requires |claims| == |texts| && claims != []
    requires forall i :: 0 <= i < |claims| ==> Path(claims[i], path) == Some(JStr(texts[i]))
    requires texts[0] != ""
    ensures FoldClaims(JStr(""), claims, path) == JStr(Join(texts, " "))
  {
    FoldFromJoin(claims[1..], path, texts[1..], [texts[0]]);
    assert [texts[0]] + texts[1..] == texts;
  }

  lemma {:induction false} FoldFromJoin(claims: seq<Json>, path: seq<string>, texts: seq<string>, done: seq<string>)
    requires |claims| == |texts| && done != [] && done[0] != ""
    requires forall i :: 0 <= i < |claims| ==> Path(claims[i], path) == Some(JStr(texts[i]))
    ensures FoldClaims(JStr(Join(done, " ")), claims, path) == JStr(Join(done + texts, " "))
    decreases |claims|
  {
    JoinNonEmpty(done, " ");
    if claims == [] {
      assert done + texts == done;
    } else {
      var next := done + [texts[0]];
      JoinSnoc(done, texts[0], " ");
      FoldStringStep(Join(done, " "), claims, path, texts[0]);
      assert forall i :: 0 <= i < |claims| - 1 ==> claims[1..][i] == claims[i + 1] && texts[1..][i] == texts[i + 1];
      FoldFromJoin(claims[1..], path, texts[1..], next);
      assert next + texts[1..] == done + texts;
    }
  }

  /** One string claim after a non-empty accumulation appends a blank and its text. */
  lemma FoldStringStep(acc: string, claims: seq<Json>, path: seq<string>, text: string)
    requires acc != "" && claims != [] && Path(claims[0], path) == Some(JStr(text))
    ensures FoldClaims(JStr(acc), claims, path) == FoldClaims(JStr(acc + " " + text), claims[1..], path)
  {
  }

  /** A join whose first part is non-empty is non-empty. */
  lemma JoinNonEmpty(parts: seq<string>, sep: string)
    requires parts != [] && parts[0] != ""
    ensures Join(parts, sep) != ""
  {
    assert |parts| == 1 || Join(parts, sep) == parts[0] + sep + Join(parts[1..], sep);
  }

  /** Values that are '' while nothing has been accumulated are dropped. */
  lemma LeadingEmptyValueDropped(claims: seq<Json>, path: seq<string>)
    requires claims != [] && Path(claims[0], path) == Some(JStr(""))
    ensures FoldClaims(JStr(""), claims, path) == FoldClaims(JStr(""), claims[1..], path)
  {
  }

  /** What `str(values)` needs: not a container, whose repr is not modelled. */
  predicate IdTextModelled(claims: Json, key: string)
  {
    ScalarText(FoldClaims(JStr(""), Claims(claims, key), ID_PATH)).Some?
  }

  /** `extract_property_id`: `str(values)` of the same loop over the numeric ids. */
  method ExtractPropertyId(claims: Json, property: nat) returns (id: string)
    requires IdTextModelled(claims, ClaimKey(property))
    ensures Some(id) == ScalarText(FoldClaims(JStr(""), Claims(claims, ClaimKey(property)), ID_PATH))
    ensures Claims(claims, ClaimKey(property)) == [] ==> id == ""
  {
    var values := AccumulateClaims(Claims(claims, ClaimKey(property)), ID_PATH);
    id := ScalarText(values).value;
  }

  /** A numeric first id is the whole result: adding ' ' to a number raises at the second
      claim, and the bare `except` keeps the first id. */
  lemma FirstNumericIdOnly(claims: Json, key: string, text: string)
    requires Claims(claims, key) != []
    requires Path(Claims(claims, key)[0], ID_PATH) == Some(JNum(text))
    ensures IdTextModelled(claims, key)
    ensures FoldClaims(JStr(""), Claims(claims, key), ID_PATH) == JNum(text)
  {
    var cs := Claims(claims, key);
    var rest := cs[1..];
    assert FoldClaims(JStr(""), cs, ID_PATH) == FoldClaims(JNum(text), rest, ID_PATH);
    if rest != [] {
      assert Accumulate(JNum(text), JNull) == None;
    }
  }

  // ---------------------------------------------------------------------------
  // extract_occupation_label / extract_property_label

  /** `json_data['entities'][key]['labels']['en']['value']`, '' when any step raises. */
  function EnglishLabel(response: Json, key: string): (r: Json)
    ensures Path(response, ["entities", key, "labels", "en", "value"]).None? ==> r == JStr("")
  {
    match Path(response, ["entities", key, "labels", "en", "value"])
    case Some(v) => v
    case None => JStr("")
  }

  /** `extract_occupation_label`: the label of item `Q<occupation>`, '' when the
      response carries none. */
  function ExtractOccupationLabel(response: Json, occupationId: string): (r: Json)
    ensures Path(response, ["entities", "Q" + occupationId, "labels", "en", "value"]).None? ==> r == JStr("")
  {
    EnglishLabel(response, "Q" + occupationId)
  }

  /** `extract_property_label`: the label of property `P<property>`, '' when the
      response carries none. */
  function ExtractPropertyLabel(response: Json, property: nat): (r: Json)
    ensures Path(response, ["entities", "P" + NatToDecimal(property), "labels", "en", "value"]).None? ==> r == JStr("")
  {
    EnglishLabel(response, "P" + NatToDecimal(property))
  }

  /** The smallest response carrying an English label for `key`. */
  function LabelResponse(key: string, text: Json): Json
  {
    JObj(map["entities" := JObj(map[key := JObj(map["labels" := JObj(map["en" := JObj(map["value" := text])])])])])
  }

  /** The label extractors read back the label a response carries, and give '' for a
      response about another entity. */
  lemma EnglishLabelOf(key: string, other: string, text: Json)
    requires other != key
    ensures EnglishLabel(LabelResponse(key, text), key) == text
    ensures EnglishLabel(LabelResponse(key, text), other) == JStr("")
  {
    var value := JObj(map["value" := text]);
    var en := JObj(map["en" := value]);
    var labels := JObj(map["labels" := en]);
    var entities := JObj(map[key := labels]);
    var r := LabelResponse(key, text);
    PathStep(value, "value", text, []);
    PathStep(en, "en", value, ["value"]);
    PathStep(labels, "labels", en, ["en", "value"]);
    PathStep(entities, key, labels, ["labels", "en", "value"]);
    PathStep(r, "entities", entities, [key, "labels", "en", "value"]);
    PathStep(r, "entities", entities, [other, "labels", "en", "value"]);
    assert Lookup(entities, other) == None;
  }

  /** The occupation label is read under `"Q"` followed by the occupation id: a
      response about that item gives its label, one about another item gives ''. */
  lemma OccupationLabelOf(occupationId: string, otherId: string, text: Json)
    requires otherId != occupationId
    ensures ExtractOccupationLabel(LabelResponse("Q" + occupationId, text), occupationId) == text
    ensures ExtractOccupationLabel(LabelResponse("Q" + occupationId, text), otherId) == JStr("")
  {
    assert ("Q" + otherId)[1..] == otherId && ("Q" + occupationId)[1..] == occupationId;
    EnglishLabelOf("Q" + occupationId, "Q" + otherId, text);
  }

  /** The property label is read under `"P"` followed by the decimal property number:
      a response about that property gives its label, one about another gives ''. */
  lemma PropertyLabelOf(property: nat, other: nat, text: Json)
    requires other != property
    ensures ExtractPropertyLabel(LabelResponse("P" + NatToDecimal(property), text), property) == text
    ensures ExtractPropertyLabel(LabelResponse("P" + NatToDecimal(property), text), other) == JStr("")
  {
    var key := "P" + NatToDecimal(property);
    var otherKey := "P" + NatToDecimal(other);
    assert otherKey != key by {
      if otherKey == key {
        assert otherKey[1..] == NatToDecimal(other) && key[1..] == NatToDecimal(property);
        DecimalRoundTrip(other);
        DecimalRoundTrip(property);
      }
    }
    EnglishLabelOf(key, otherKey, text);
  }

  /** A path through a dictionary continues below the key's value. */
  lemma PathStep(j: Json, k: string, v: Json, rest: seq<string>)
    requires Lookup(j, k) == Some(v)
    ensures Path(j, [k] + rest) == Path(v, rest)
  {
    assert ([k] + rest)[1..] == rest;
  }

  // ---------------------------------------------------------------------------
  // build_wikidata_author_entry

  /** No name occurs twice. */
  predicate Distinct(names: seq<string>)
  {
    forall a, b :: 0 <= a < b < |names| ==> names[a] != names[b]
  }

  /** `dict(zip(names, values))` for distinct names: each name is paired with the value
      at its position. */
  function Zip(names: seq<string>, values: seq<Json>): (d: map<string, Json>)
    requires |names| == |values| && Distinct(names)
    ensures d.Keys == set n | n in names
    ensures forall i :: 0 <= i < |names| ==> d[names[i]] == values[i]
  {
    map i | 0 <= i < |names| :: names[i] := values[i]
  }

  /** The claims of the author's entity, read without a guard. */
  function AuthorClaims(authorData: Json, authorId: Json): Option<Json>
  {
    match ScalarText(authorId)
    case None => None
    case Some(t) => Path(authorData, ["entities", "Q" + t, "claims"])
  }

  /** What building the row needs: the row's line has a GND field, the author's `claims`
      exist, the numeric-id columns have a string form and the Freebase value is split
      as a string. */
  predicate AuthorRowBuildable(authorData: Json, line: string, authorId: Json)
  {
    && WikidataHelper.ExtractGndFromLine(line).Some?
    && AuthorClaims(authorData, authorId).Some?
    && var claims := AuthorClaims(authorData, authorId).value;
    && IdTextModelled(claims, GENRE_CLAIM)
    && IdTextModelled(claims, OCCUPATION_CLAIM)
    && ValueColumn(claims, FREEBASE_CLAIM).JStr?
  }

  /** The author field names are distinct, so `dict(zip(...))` loses no column. */
  lemma AuthorFieldnamesDistinct()
    ensures Distinct(AUTHOR_FIELDNAMES)
  {
  }

  /** The author row's columns, one per author field. */
  datatype AuthorColumns = AuthorColumns(
    gnd: Json, wikidata: Json, onb: Json, name: Json, genre: Json, occupation: Json,
    freebase: Json, viaf: Json, bnf: Json, nkc: Json, nta: Json, imslp: Json,
    dbpedia: Json, musicBrainzArtistId: Json)

  /** The columns in field order, as the `values` list pairs them with the field names. */
  function ColumnValues(c: AuthorColumns): (vs: seq<Json>)
    ensures |vs| == |AUTHOR_FIELDNAMES|
  {
    [c.gnd, c.wikidata, c.onb, c.name, c.genre, c.occupation, c.freebase, c.viaf, c.bnf,
     c.nkc, c.nta, c.imslp, c.dbpedia, c.musicBrainzArtistId]
  }

  /** The columns `build_wikidata_author_entry` computes: the GND URI, ONB id and name
      from the line, the Wikidata id, the genre and occupation ids, the Freebase, VIAF,
      BNF, NKC, NTA, IMSLP and MusicBrainz values, and an always-empty DBpedia column. */
  function AuthorColumnsOf(claims: Json, line: string, authorId: Json): (c: AuthorColumns)
    requires IdTextModelled(claims, GENRE_CLAIM) && IdTextModelled(claims, OCCUPATION_CLAIM)
    requires |Split(line, ';')| > WikidataHelper.GND_COL
    ensures var row := Split(line, ';');
      c.gnd == JStr(row[2]) && c.onb == JStr(row[0]) && c.name == JStr(row[1]) && c.wikidata == authorId
    ensures c.dbpedia == JStr("")
    ensures c.genre == IdColumn(claims, GENRE_CLAIM) && c.occupation == IdColumn(claims, OCCUPATION_CLAIM)
    ensures c.viaf == ValueColumn(claims, VIAF_CLAIM) && c.freebase == ValueColumn(claims, FREEBASE_CLAIM)
    ensures c.bnf == ValueColumn(claims, BNF_CLAIM) && c.nkc == ValueColumn(claims, NKC_CLAIM)
    ensures c.nta == ValueColumn(claims, NTA_CLAIM) && c.imslp == ValueColumn(claims, IMSLP_CLAIM)
    ensures c.musicBrainzArtistId == ValueColumn(claims, MUSIC_BRAINZ_ARTIST_CLAIM)
  {
    var row := Split(line, ';');
    AuthorColumns(
      JStr(row[WikidataHelper.GND_COL]), authorId, JStr(row[WikidataHelper.ONB_COL]), JStr(row[WikidataHelper.NAME_COL]),
      IdColumn(claims, GENRE_CLAIM), IdColumn(claims, OCCUPATION_CLAIM),
      ValueColumn(claims, FREEBASE_CLAIM), ValueColumn(claims, VIAF_CLAIM),
      ValueColumn(claims, BNF_CLAIM), ValueColumn(claims, NKC_CLAIM),
      ValueColumn(claims, NTA_CLAIM), ValueColumn(claims, IMSLP_CLAIM),
      JStr(""), ValueColumn(claims, MUSIC_BRAINZ_ARTIST_CLAIM))
  }

  /** `dict(zip(wikidata_author_fieldnames, values))`: exactly the 14 author fields, each
      holding the column at its position. */
  function ColumnsEntry(c: AuthorColumns): (entry: map<string, Json>)
    ensures entry.Keys == set n | n in AUTHOR_FIELDNAMES
    ensures forall i :: 0 <= i < |AUTHOR_FIELDNAMES| ==> entry[AUTHOR_FIELDNAMES[i]] == ColumnValues(c)[i]
  {
    AuthorFieldnamesDistinct();
    Zip(AUTHOR_FIELDNAMES, ColumnValues(c))
  }

  /** The entry's identity fields hold the GND URI and the Wikidata id, and its DBpedia
      field the (always empty) DBpedia column. */
  lemma ColumnsEntryFields(c: AuthorColumns)
    ensures var entry := ColumnsEntry(c);
      && "gnd" in entry && entry["gnd"] == c.gnd
      && "wikidata" in entry && entry["wikidata"] == c.wikidata
      && "dbpedia" in entry && entry["dbpedia"] == c.dbpedia
  {
    var entry := ColumnsEntry(c);
    assert "gnd" in entry && entry["gnd"] == c.gnd by {
      AuthorFieldnamePositions();
      ColumnsEntryAt(c, 0);
    }
    assert "wikidata" in entry && entry["wikidata"] == c.wikidata by {
      AuthorFieldnamePositions();
      ColumnsEntryAt(c, 1);
    }
    assert "dbpedia" in entry && entry["dbpedia"] == c.dbpedia by {
      AuthorFieldnamePositions();
      ColumnsEntryAt(c, 12);
    }
  }

  /** The entry's genre, occupation and VIAF fields hold those columns. */
  lemma ColumnsEntryClaims(c: AuthorColumns)
    ensures var entry := ColumnsEntry(c);
      && "genre" in entry && entry["genre"] == c.genre
      && "occupation" in entry && entry["occupation"] == c.occupation
      && "viaf" in entry && entry["viaf"] == c.viaf
  {
    var entry := ColumnsEntry(c);
    assert "genre" in entry && entry["genre"] == c.genre by {
      AuthorFieldnamePositions();
      ColumnsEntryAt(c, 4);
    }
    assert "occupation" in entry && entry["occupation"] == c.occupation by {
      AuthorFieldnamePositions();
      ColumnsEntryAt(c, 5);
    }
    assert "viaf" in entry && entry["viaf"] == c.viaf by {
      AuthorFieldnamePositions();
      ColumnsEntryAt(c, 7);
    }
  }

  /** Where the fields the lemmas above name sit in the field order. */
  lemma AuthorFieldnamePositions()
    ensures AUTHOR_FIELDNAMES[0] == "gnd" && AUTHOR_FIELDNAMES[1] == "wikidata"
    ensures AUTHOR_FIELDNAMES[4] == "genre" && AUTHOR_FIELDNAMES[5] == "occupation"
    ensures AUTHOR_FIELDNAMES[7] == "viaf" && AUTHOR_FIELDNAMES[12] == "dbpedia"
  {
  }

  /** The field at position `i` holds the column at that position. */
  lemma ColumnsEntryAt(c: AuthorColumns, i: nat)
    requires i < |AUTHOR_FIELDNAMES|
    ensures AUTHOR_FIELDNAMES[i] in ColumnsEntry(c) && ColumnsEntry(c)[AUTHOR_FIELDNAMES[i]] == ColumnValues(c)[i]
  {
    assert AUTHOR_FIELDNAMES[i] in AUTHOR_FIELDNAMES;
  }

  /** `build_wikidata_author_entry` on the author's claims. */
  function AuthorEntry(authorData: Json, line: string, authorId: Json): map<string, Json>
    requires AuthorRowBuildable(authorData, line, authorId)
  {
    ColumnsEntry(AuthorColumnsOf(AuthorClaims(authorData, authorId).value, line, authorId))
  }
  /** The rows `store_author_data` writes: one per distinct Wikidata id of the run, in the
      order of their lines, each built from that line and the id's data. */
  method AuthorRows(lines: seq<string>, authorIdFor: (string, string) -> Json, authorDataFor: Json -> Json)
    returns (rows: seq<map<string, Json>>)
    requires WikidataHelper.GndLines(lines)
    requires var w := WikidataHelper.StoreRun(lines, authorIdFor, |lines|).written;
      forall i :: 0 <= i < |w| ==> w[i].1 < |lines| && AuthorRowBuildable(authorDataFor(w[i].0), lines[w[i].1], w[i].0)
    ensures var w := WikidataHelper.StoreRun(lines, authorIdFor, |lines|).written;
      |rows| == |w| && forall i :: 0 <= i < |w| ==> rows[i] == AuthorEntry(authorDataFor(w[i].0), lines[w[i].1], w[i].0)
  {
    var st := WikidataHelper.StoreAuthorDataByGnd(lines, authorIdFor);
    rows := BuildEntries(st.written, lines, authorDataFor);
  }

  /** The entries for the given (Wikidata id, line index) pairs, in their order. */
  method BuildEntries(written: seq<(Json, nat)>, lines: seq<string>, authorDataFor: Json -> Json)
    returns (rows: seq<map<string, Json>>)
    requires forall i :: 0 <= i < |written| ==>
      written[i].1 < |lines| && AuthorRowBuildable(authorDataFor(written[i].0), lines[written[i].1], written[i].0)
    ensures |rows| == |written|
    ensures forall i :: 0 <= i < |written| ==>
      rows[i] == AuthorEntry(authorDataFor(written[i].0), lines[written[i].1], written[i].0)
  {
    ghost var entries := seq(|written|, k requires 0 <= k < |written| =>
      AuthorEntry(authorDataFor(written[k].0), lines[written[k].1], written[k].0));
    rows := [];
    for i := 0 to |written|
      invariant rows == entries[..i]
    {
      var entry := AuthorEntry(authorDataFor(written[i].0), lines[written[i].1], written[i].0);
      assert entry == entries[i];
      PrefixSnoc(entries, i);
      rows := rows + [entry];
    }
    assert entries[..|written|] == entries;
  }

  // ---------------------------------------------------------------------------
  // load_properties

  /** The rows written for the property ids before `n`, from 1 on: a property is written
      unless fetching or decoding its description failed (`store` turned false). */
  function PropertyRows(responseFor: nat -> Option<Json>, n: nat): seq<(nat, Json)>
  {
    if n <= 1 then []
    else
      var rows := PropertyRows(responseFor, n - 1);
      match responseFor(n - 1)
      case None => rows
      case Some(r) => rows + [(n - 1, ExtractPropertyLabel(r, n - 1))]
  }

  /** The property table lists ids in increasing order within 1..n-1, holds exactly the
      ids whose response was obtained, and names each by its English label. */
  ghost predicate PropertyRowsShaped(responseFor: nat -> Option<Json>, rows: seq<(nat, Json)>, n: nat)
  {
    && (forall i :: 0 <= i < |rows| ==> 1 <= rows[i].0 < n)
    && (forall i, j :: 0 <= i < j < |rows| ==> rows[i].0 < rows[j].0)
    && (forall id :: 1 <= id < n ==> (responseFor(id).Some? <==> exists i :: 0 <= i < |rows| && rows[i].0 == id))
    && (forall i :: 0 <= i < |rows| ==>
          (responseFor(rows[i].0).Some? && rows[i].1 == ExtractPropertyLabel(responseFor(rows[i].0).value, rows[i].0)))
  }

  lemma {:induction false} PropertyRowsShape(responseFor: nat -> Option<Json>, n: nat)
    ensures PropertyRowsShaped(responseFor, PropertyRows(responseFor, n), n)
  {
    if n > 1 {
      PropertyRowsShape(responseFor, n - 1);
      PropertyRowsStep(responseFor, n);
    }
  }

  lemma PropertyRowsStep(responseFor: nat -> Option<Json>, n: nat)
    requires n > 1 && PropertyRowsShaped(responseFor, PropertyRows(responseFor, n - 1), n - 1)
    ensures PropertyRowsShaped(responseFor, PropertyRows(responseFor, n), n)
  {
    PropertyRowsStepOrder(responseFor, n);
    PropertyRowsStepComplete(responseFor, n);
    PropertyRowsStepSound(responseFor, n);
  }

  /** The row a step adds, if any, is the new id's. */
  lemma PropertyRowsExtend(responseFor: nat -> Option<Json>, n: nat)
    requires n > 1
    ensures var rows, prev := PropertyRows(responseFor, n), PropertyRows(responseFor, n - 1);
      && rows[..|prev|] == prev
      && (responseFor(n - 1).None? ==> rows == prev)
      && (responseFor(n - 1).Some? ==>
            |rows| == |prev| + 1 && rows[|prev|] == (n - 1, ExtractPropertyLabel(responseFor(n - 1).value, n - 1)))
  {
  }

  lemma PropertyRowsStepOrder(responseFor: nat -> Option<Json>, n: nat)
    requires n > 1 && PropertyRowsShaped(responseFor, PropertyRows(responseFor, n - 1), n - 1)
    ensures var rows := PropertyRows(responseFor, n);
      && (forall i :: 0 <= i < |rows| ==> 1 <= rows[i].0 < n)
      && (forall i, j :: 0 <= i < j < |rows| ==> rows[i].0 < rows[j].0)
      && (forall i :: 0 <= i < |rows| ==>
            (responseFor(rows[i].0).Some? && rows[i].1 == ExtractPropertyLabel(responseFor(rows[i].0).value, rows[i].0)))
  {
    PropertyRowsExtend(responseFor, n);
    var rows, prev := PropertyRows(responseFor, n), PropertyRows(responseFor, n - 1);
    assert forall i :: 0 <= i < |prev| ==> rows[i] == prev[i];
  }

  lemma PropertyRowsStepComplete(responseFor: nat -> Option<Json>, n: nat)
    requires n > 1 && PropertyRowsShaped(responseFor, PropertyRows(responseFor, n - 1), n - 1)
    ensures var rows := PropertyRows(responseFor, n);
      forall id :: 1 <= id < n && responseFor(id).Some? ==> exists i :: 0 <= i < |rows| && rows[i].0 == id
  {
    PropertyRowsExtend(responseFor, n);
    var rows, prev := PropertyRows(responseFor, n), PropertyRows(responseFor, n - 1);
    forall id | 1 <= id < n && responseFor(id).Some?
      ensures exists i :: 0 <= i < |rows| && rows[i].0 == id
    {
      if id == n - 1 {
        assert rows[|prev|].0 == id;
      } else {
        var i :| 0 <= i < |prev| && prev[i].0 == id;
        assert rows[i] == prev[i];
      }
    }
  }

  lemma PropertyRowsStepSound(responseFor: nat -> Option<Json>, n: nat)
    requires n > 1 && PropertyRowsShaped(responseFor, PropertyRows(responseFor, n - 1), n - 1)
    ensures var rows := PropertyRows(responseFor, n);
      forall id :: 1 <= id < n && (exists i :: 0 <= i < |rows| && rows[i].0 == id) ==> responseFor(id).Some?
  {
    PropertyRowsExtend(responseFor, n);
    var rows, prev := PropertyRows(responseFor, n), PropertyRows(responseFor, n - 1);
    forall id | 1 <= id < n && exists i :: 0 <= i < |rows| && rows[i].0 == id
      ensures responseFor(id).Some?
    {
      var i :| 0 <= i < |rows| && rows[i].0 == id;
      if i < |prev| {
        assert rows[i] == prev[i];
      }
    }
  }

  /** `load_properties`: ids 1..MAX_PROP_ID-1 in order; `responseFor` gives the stored or
      fetched description, None when decoding the fetched one failed. */
  method LoadProperties(responseFor: nat -> Option<Json>) returns (rows: seq<(nat, Json)>)
    ensures rows == PropertyRows(responseFor, MAX_PROP_ID)
  {
    rows := [];
    for id := 1 to MAX_PROP_ID
      invariant rows == PropertyRows(responseFor, id)
    {
      var response := responseFor(id);
      var store := response.Some?;
      if store {
        rows := rows + [(id, ExtractPropertyLabel(response.value, id))];
      }
    }
  }

  /** The query for an author's entity. */
  function AuthorDataQuery(authorId: string): (q: string)
    ensures StripFrame(q, WIKIDATA_API_URL, LANGUAGE_EN + FORMAT_JSON) == Some(authorId)
  {
    FramedRecovers(WIKIDATA_API_URL, authorId, LANGUAGE_EN + FORMAT_JSON);
    WIKIDATA_API_URL + authorId + (LANGUAGE_EN + FORMAT_JSON)
  }
}
