# scoregraph metadata scripts, modelled in Dafny

This project models the record-transformation core of the scoregraph metadata
scripts. These scripts take library catalogue records for music scores, link the
persons in them to external authority files and summarise the result:

- `normalize` turns an Aleph/MARC varfield tree into a JSON record: persons,
  content links, title, subtitles, dates, GND link, notes, terms and the two ids.
- `enrich` adds two kinds of data to a normalized record:
  - the `sameas` URIs collected from GND;
  - Europeana objects whose creator URI is a known person link.
- `summarize` counts artwork links, persons, person links and related objects per
  record, and reads the summary CSV back.
- `wikidata_helper` and `mediawiki_helper` build Wikidata queries and extract
  property values, ids and labels from the responses. They walk an author CSV and
  write at most one author row per Wikidata id. `mediawiki_helper` also lays out
  the 14-column author entry and loads the property table.
- `viaf_helper` walks the VIAF `titles → work → title` tree into composition
  entries.
- `geo_location_helper` builds Google and Geonames query strings and reads the
  first Geonames result.

Parsed documents are modelled as values:

- the varfield tree is `seq<Varfield>`;
- a JSON document is the `Json` datatype, whose objects are `map<string, Json>`;
- an XML element is `Element`.

Network calls, file caches and file reads are function parameters:

- Europeana search: `search`;
- GND harvesting: `collect`;
- the Wikidata lookups: `authorIdFor`, `authorDataFor` and `responseFor`;
- VIAF download and parse: `contentFor` and `parse`;
- existing output files: `pathExists`.

The modelling conventions are these:

- An exception the script does not catch aborts it. That condition is a
  `requires` of the member.
- An exception the script catches becomes the fallback value the script then
  uses.
- Loops that build lists by appending are methods. Each is proved equal to a
  function that states the result, and the promised properties are lemmas about
  that function.
- Module layout:
  - `Common` holds the Python string operations: split on one character, join,
    replace, substring tests and decimal text;
  - `Json` holds JSON values and Python truthiness;
  - there is one module per script.

`common.py` defines only `progress`, `read_records`, `ensure_directory` and
`write_json_file`, although the scripts use more of it:

- `toByteStr` is treated as the identity, `BLANK` as `' '`, `SLASH` as `'/'` and
  `UNDERSCORE` as `'_'`.
- `process_http_query` is the fetch behind the query parameters (`responseFor`,
  `contentFor` and the Wikidata lookups).
- `validate_response_json`, `is_stored_as_json_file` and `read_json_file` read a
  response or a cached file; their JSON result is part of those parameters.
- `JSON_EXT` and `WIKIDATA_AUTHOR_DATA_DIR` only name cache files, which are
  left out.
- `wikidata_author_fieldnames` is the column layout of a `wikidata_helper` author
  row. A written row is modelled by its Wikidata id and the line it came from,
  not by its columns.
- `summarize.read_csv_summary`, called at viaf_helper.py:86, is not defined in
  `summarize.py` either. Its only reader is `read_summary` (summarize.py:164-172),
  which returns joined lines rather than rows.
  `ViafHelper.RetrieveAuthorsDataByViafId` therefore takes the summary as rows of
  CSV columns, which is what its indexing by column 7 assumes.

The Geonames user name comes from a configuration file in the script; here it is
a parameter.

## Model

| member | source | states |
|---|---|---|
| Normalize.FindTagsInIdRange | normalize.py:22-26 | exactly the varfields whose id is non-empty, all digits and within [start, end) are kept, and no others |
| Normalize.FindTagsInIdRangeAppend | normalize.py:22-26 | the filter distributes over concatenation, so document order is kept |
| Normalize.FirstWithId | normalize.py:80 | `soup.find`: a varfield is found exactly when one with that id exists, and the one found has that id |
| Normalize.FindSubfield | normalize.py:35-37 | a subfield text is found exactly when a subfield with that label exists, and it is that subfield's text |
| Normalize.FirstWithIdFirst | normalize.py:80 | `soup.find` returns the varfield at the earliest position with that id: found exactly when such a position exists, and then the one there |
| Normalize.FindSubfieldFirst | normalize.py:35-37 | the text found is that of the subfield at the earliest position with that label |
| Normalize.GndLink | normalize.py:17 | the link is the GND prefix plus "/", followed by the subfield text with its first 8 characters dropped |
| Normalize.StripBrackets | normalize.py:52 | the result has no `[` or `]` and keeps every other character of the input |
| Normalize.StripBracketsPiecewise | normalize.py:52 | stripping works character by character: it distributes over concatenation, drops `[` and `]` and keeps every other character, so the order of the kept characters is that of the input |
| Normalize.PersonNameRule | normalize.py:35-44 | the name is `p`, else `a`; it gains " " + `n` exactly when it has no blank and an `n` subfield exists, and is unchanged otherwise |
| Normalize.PersonOf | normalize.py:33-58 | a person has `name`; `lifetime`, `role` and `sameas` are present exactly when subfield d, b or 9 exists, and then hold the first d text, the first b text with brackets stripped, and the one GND link of the first 9 text |
| Normalize.Persons | normalize.py:29-60 | one person per varfield in the range 100..199 |
| Normalize.PersonsEntries | normalize.py:29-60 | entry i of the persons is the person of the i-th varfield in the range 100..199 |
| Normalize.BuildPerson | normalize.py:33-58 | the dictionary built key by key equals the person above |
| Normalize.CollectPersons | normalize.py:29-60 | the appending loop yields the persons above, in order |
| Normalize.ContentOf | normalize.py:65-75 | a 655 varfield gives one `{uri, note}` exactly when it has a `u` subfield; `note` is null exactly when there is no `z`, and otherwise the first `z` text; `uri` is the first `u` text |
| Normalize.ContentMembers | normalize.py:63-76 | the content list holds exactly the entries of the 655 varfields |
| Normalize.CollectContent | normalize.py:63-76 | the appending loop yields that content list |
| Normalize.Title | normalize.py:79-88 | the title is subfield `t` of the first 303 varfield (the earliest position with id 303); it is absent when there is no such varfield or no `t` |
| Normalize.RecordGndLink | normalize.py:110-119 | the GND link is read from the first 303 varfield: absent when it has no `9` subfield, else the link of its first `9` text |
| Normalize.StripAll | normalize.py:93-98 | one stripped text per subfield, in order |
| Normalize.SubtitlesShape | normalize.py:91-99 | one subtitle per subfield of the varfields in the range 304..399, none holding a bracket |
| Normalize.CollectSubtitles | normalize.py:91-99 | the nested appending loops yield those subtitles |
| Normalize.CollectDates | normalize.py:102-107 | the loop yields the first subfield text of each 425 varfield |
| Normalize.DatesMembers | normalize.py:102-107 | a date is collected exactly when it is the first subfield text of some 425 varfield |
| Normalize.LabelTexts | normalize.py:127-128 | the kept texts are exactly those of subfields with the given label |
| Normalize.CollectLabelled | normalize.py:127-128 | the inner loop yields those texts |
| Normalize.DateTagInNoteRange | normalize.py:122-126 | a 425 varfield lies in the notes' id range 400..599 |
| Normalize.NotesAsWrittenKeepsDates | normalize.py:122-129 | as written, a 425 date appears among the notes |
| Normalize.NotesSkipDates | normalize.py:122-129 | the corrected notes are exactly the `a` texts of the varfields in range other than 425 |
| Normalize.CollectNotes | normalize.py:122-129 | the nested loops yield the corrected notes |
| Normalize.NotesAgreeWithoutDates | normalize.py:122-129 | for records without a 425 varfield the corrected notes are exactly the notes as written |
| Normalize.NonGndTexts | normalize.py:137-141 | a term's labels are exactly its subfield texts not labelled 9 |
| Normalize.TermOf | normalize.py:134-147 | `labels` exists exactly when there are such texts; `sameas` is the one GND link exactly when a 9 subfield exists |
| Normalize.JStrs | normalize.py:137-141 | each label text becomes a JSON string, in order |
| Normalize.Terms | normalize.py:132-148 | one term per varfield in the range 900..999, entry i the term of varfield i, in order |
| Normalize.BuildTerm | normalize.py:134-147 | the dictionary built in place equals that term |
| Normalize.CollectTerms | normalize.py:132-148 | the appending loop yields the terms |
| Normalize.OptionalKeysDistinct | normalize.py:166-191 | each optional key is assigned at most once |
| Normalize.AssembleField | normalize.py:161-193 | `aleph_id` and `doc_id` are always present; each optional key is present exactly when its extracted value is truthy, and `sameas` is the one GND link |
| Normalize.NormalizeRecord | normalize.py:161-193 | the dictionary filled key by key is that record |
| Common.RenameBase | normalize.py:205 | the output name is the base name with every occurrence replaced, so it holds no `/`; `Normalize.OutputFileName` replaces "xml" by "json" and `Enrich.EnrichedFileName` (enrich.py:221-222) ".json" by "_enriched.json" |
| Normalize.OutputFileNameUnchanged | normalize.py:205 | a base name without "xml" is kept as it is |
| Normalize.OutputFileNameOfXml | normalize.py:205 | `dir/stem.xml`, for a stem without "xml", is written as `stem.json` |
| Enrich.UrisOfMembers | enrich.py:84-89 | the known URIs are exactly the members of the persons' `sameas` lists |
| Enrich.CollectKnownPersonUris | enrich.py:84-89 | the nested appending loops yield those URIs |
| Enrich.MatchCount | enrich.py:92-96 | the number of matching creator terms is at most their number, and positive exactly when some term is known |
| Enrich.Repeat | enrich.py:92-96 | an item appended once per match appears that many times |
| Enrich.FilteredAppend | enrich.py:92-96 | filtering distributes over concatenation: input order is kept |
| Enrich.FilteredMembers | enrich.py:82-97 | every kept item has a creator term among the known URIs, and every such item is kept |
| Enrich.FilteredLength | enrich.py:92-96 | the output length is the total number of matching creator terms |
| Enrich.NoKnownNothingKept | enrich.py:84-89 | with no known person URI nothing is kept |
| Enrich.RepeatForMatches | enrich.py:92-96 | the inner loop appends the item once per matching term |
| Enrich.FilterEuropeanaItems | enrich.py:82-97 | the loops yield the filtered items |
| Enrich.Projection | enrich.py:74-78 | a projection has exactly the keys id, creator, title and score, each taken from the hit |
| Enrich.Projections | enrich.py:72-79 | length and order are kept; entry i is the projection of hit i |
| Enrich.ExtractEuropeanaData | enrich.py:72-79 | the appending loop yields those projections |
| Enrich.Query | enrich.py:107-110 | the query is the person's name, followed by " " and the title when the record has a truthy title |
| Enrich.EuropeanaAfter | enrich.py:107-134 | enrichment changes no key other than `related_europeana_items` |
| Enrich.EuropeanaAfterRelated | enrich.py:127-134 | the record is unchanged when no batch has items; otherwise the related list is the old list followed by all batches in order |
| Enrich.AddRelatedExtends | enrich.py:131-134 | an empty batch changes nothing; a non-empty one extends the related list, creating it if absent |
| Enrich.EnrichEuropeanaEffect | enrich.py:100-135 | a record without persons is returned unchanged; other keys are kept; old related items stay a prefix; a newly created related list is non-empty |
| Enrich.EuropeanaStep | enrich.py:107-134 | one person's search filters and appends one batch |
| Enrich.EuropeanaAfterKeeps | enrich.py:107-134 | persons, title and known URIs stay the same across the loop |
| Enrich.EuropeanaAfterStep | enrich.py:107-134 | the loop state after one more person is one more appended batch |
| Enrich.EnrichEuropeana | enrich.py:100-135 | the loop over persons yields the specified enrichment |
| Enrich.EnrichGnd | enrich.py:177-200 | the result is a dictionary exactly when the input is, with the same keys, and each value is that key's entry enriched |
| Enrich.EnrichEntry | enrich.py:179-199 | nested dictionaries are enriched recursively; a `sameas` list keeps its entries as a prefix, followed by the URIs collected for its non-null entries; every other list keeps its length and has each element enriched |
| Enrich.EnrichGndNothingCollected | enrich.py:177-200 | when nothing is collected the record is unchanged |
| Enrich.EnrichEntryNothingCollected | enrich.py:179-199 | when nothing is collected an entry is unchanged |
| Enrich.CollectedForNothing | enrich.py:184-195 | nothing collected per URI means nothing appended |
| Enrich.CollectedForSkipsNull | enrich.py:186 | a null entry adds no URIs |
| Enrich.CollectedForAppend | enrich.py:184-195 | collection distributes over concatenation: the URIs follow the entries' order |
| Enrich.EnrichRecord | enrich.py:205-214 | the enriched record is GND enrichment followed by Europeana enrichment |
| Enrich.EnrichedFileNameUnchanged | enrich.py:221-222 | a base name without ".json" is kept as it is |
| Enrich.EnrichedFileNameOfJson | enrich.py:221-222 | `dir/stem.json`, for a stem without a dot, is named `stem_enriched.json` |
| Enrich.EnrichedPath | enrich.py:223 | the path is the output directory, "/" and that name |
| Enrich.WrittenPathsMembers | enrich.py:217-230 | a path counts as written exactly when some earlier outcome wrote the file of that name into the output directory |
| Enrich.OutcomesFitExtend | enrich.py:217-230 | one more outcome that fits its input, given the paths written before it, keeps every earlier outcome fitting |
| Enrich.EnrichFile | enrich.py:221-230 | the output file is skipped exactly when its path exists on disk or was written earlier in the run, and `force` is off; otherwise it is written with the enriched record. Only a file that is written needs an enrichable record |
| Enrich.EnrichRecords | enrich.py:217-230 | one outcome per input file, in order; each is skipped or written as above, where the files written earlier in the loop count as existing. An input need not be enrichable when it is skipped: its output existed before the run, or an earlier input has the same output name, and `force` is off |
| Enrich.ReadOrSkipped | enrich.py:224-228 | an input whose record cannot be enriched is met only on the skip branch: its output already exists and `force` is off |
| Enrich.EarlierOutputsStep | enrich.py:224-230 | after each file its output exists, whether it was there before or the loop wrote it |
| Enrich.SecondSameNameSkipped | enrich.py:217-230 | of two input files with the same output name, once the first is written the second is skipped exactly when `force` is off |
| Summarize.LinksOf | summarize.py:36-37 | a person without `sameas` has no links; otherwise one link per entry |
| Summarize.LinkCountBound | summarize.py:38-43 | a substring count is at most the number of links, and equals it exactly when every link contains the substring |
| Summarize.PersonLinkCountBound | summarize.py:38-43 | each person-link count is at most the total number of person links |
| Summarize.LinkCountedTwice | summarize.py:38-43 | a link containing both substrings (such as "gnd" and "dbpedia") raises both counts by one |
| Summarize.LinkCountsOverlap | summarize.py:38-43 | when every link contains both substrings, the two counts add up to twice the number of links |
| Summarize.CountLinks | summarize.py:36-43 | the counters for one person's links equal the three substring counts |
| Summarize.Summarize | summarize.py:21-59 | the seven columns: `id` is `aleph_id`; artwork links, persons and related items are lengths or 0 when absent; the person-link columns are the summed substring counts |
| Summarize.ArtworkLinksAfterGnd | summarize.py:24-25 | after GND enrichment the artwork link count grows by the number of URIs collected for the non-null `sameas` entries |
| Summarize.SummaryLine | summarize.py:169-171 | a row of one column gives ""; otherwise the line is the columns after the first joined by ", ", and starts with the second column |
| Summarize.JoinLength | summarize.py:169-171 | the line's length is the columns' lengths plus one separator between neighbours |
| Summarize.SummaryLineIgnoresFirst | summarize.py:169-171 | the first column never affects the line |
| Summarize.SplitCommaJoin | summarize.py:169-171 | joining comma-free parts with ", " and splitting on commas gives back the first part and the others, each led by a blank |
| Summarize.SummaryLineSplit | summarize.py:169-171 | splitting a line on commas gives back the second column and the later ones led by a blank, for comma-free columns |
| Summarize.ReadSummary | summarize.py:164-172 | one line per row, in order, each the row's line |
| WikidataHelper.ValueText | wikidata_helper.py:95-96 | a value list too short to have position 2 gives no text; a string at position 2 gives its text when it is ASCII and no text otherwise, since Python 2 `str` cannot encode it; a string value gives its ASCII third character; any other value gives no text |
| WikidataHelper.ValueTexts | wikidata_helper.py:94-97 | the texts exist exactly when every value list has one, and then they are those texts, in order |
| WikidataHelper.PropertyData | wikidata_helper.py:93 | the property's data is found exactly when `props` has the property's decimal key |
| WikidataHelper.ExtractPropertyValue | wikidata_helper.py:91-105 | a missing property, or any caught failure, gives '' |
| WikidataHelper.PropertyValueSplit | wikidata_helper.py:93-98 | splitting the result on blanks gives back the position-2 texts of the value lists, in order |
| WikidataHelper.ExtractWikidataAuthorId | wikidata_helper.py:108-117 | there is no id exactly when `items` is empty; otherwise it is the first item |
| WikidataHelper.ExtractGndFromLine | wikidata_helper.py:463-470 | a GND exists exactly when the line has at least three `;` fields; it has no `/` or `;` |
| WikidataHelper.GndFromRow | wikidata_helper.py:463-470 | the GND is the text after the last `/` of the third field |
| WikidataHelper.PropertiesText | wikidata_helper.py:64-75 | the property list starts with the first property number |
| WikidataHelper.NoCommaInDecimal | wikidata_helper.py:431 | a property number's text has no comma |
| WikidataHelper.PropertiesTextSplit | wikidata_helper.py:64-75 | splitting on commas gives the property numbers in declared order, each after the first preceded by a blank |
| WikidataHelper.SplitCommaBlank | wikidata_helper.py:431 | joining with ", " splits back into the first piece and the blank-prefixed rest |
| WikidataHelper.AuthorIdQuery | wikidata_helper.py:178 | the query is the GND query prefix, the GND and "]" |
| WikidataHelper.CompositionByFreebaseQuery | wikidata_helper.py:189 | the query frames the Freebase id between its prefix and "]" |
| WikidataHelper.AuthorDataQuery | wikidata_helper.py:430-431 | the query frames the author id between "items[" and "]&props=" + the property list |
| WikidataHelper.OccupationQuery | wikidata_helper.py:444-445 | the query frames the occupation id between "items[" and "]&props=" + the commons category property |
| WikidataHelper.StoreStepValid | wikidata_helper.py:582-596 | one `store_author_data` call keeps the cache free of duplicates, with one written row per cached id in line order; the line's GND or truthy id is then cached |
| WikidataHelper.StoreAppendValid | wikidata_helper.py:586-590 | appending a truthy id that is not cached keeps the invariant |
| WikidataHelper.StoreValidLater | wikidata_helper.py:584-596 | a call that changes nothing keeps the invariant |
| WikidataHelper.StoreRunValid | wikidata_helper.py:575-579 | after any number of lines: at most one row per distinct id, each for the id its own line gave, never from the header |
| WikidataHelper.ProbeNeverHits | wikidata_helper.py:584-587 | when ids are never strings, the GND probe never finds anything and the store is plain id deduplication |
| WikidataHelper.StoreAuthorDataByGnd | wikidata_helper.py:569-579 | the line loop yields the specified store |
| WikidataHelper.FacetId | wikidata_helper.py:510-512 | the id has no `_`; it is '' without a `_`; otherwise it ends right before the label's first `_` |
| WikidataHelper.FacetIdOf | wikidata_helper.py:510-512 | the id of "id_name" is id |
| WikidataHelper.FacetRowAsWritten | wikidata_helper.py:38 | as written, the count column repeats the label |
| WikidataHelper.FacetCountShowsLabel | wikidata_helper.py:505-519 | for the label "12_Foo" with count 5, as written the row says "12_Foo" where 5 belongs |
| WikidataHelper.FacetRow | wikidata_helper.py:505-520 | the corrected row is (facet id, label, count text) |
| WikidataHelper.FacetRun | wikidata_helper.py:504-527 | the fields the loop gets through: all well-formed, up to the first one that is not |
| WikidataHelper.FacetRowsShape | wikidata_helper.py:504-527 | with the corrected count, the loop gets through the leading well-formed fields; the rows are exactly the rows of the encodable fields among them, and no more rows than those fields |
| WikidataHelper.NonAsciiFieldSkipped | wikidata_helper.py:509-522 | a field whose label Python 2 cannot encode is skipped and the loop goes on with the next field |
| WikidataHelper.FacetRowsFrom | wikidata_helper.py:504-527 | one loop step: a well-formed field writes its row when it can be encoded, and the loop goes on; any other field ends the rows |
| WikidataHelper.ExtractAndSaveLabelData | wikidata_helper.py:496-530 | without facets nothing is written; otherwise the rows are those of the first facet's fields, and the count column holds the facet's count |
| MediawikiHelper.Claims | mediawiki_helper.py:108-110 | claims are read only from a list found under the claim key |
| MediawikiHelper.Accumulate | mediawiki_helper.py:111-116 | the first value replaces ''; later ones are appended after a blank |
| MediawikiHelper.AccumulateClaims | mediawiki_helper.py:111-116 | the loop yields the specified fold |
| MediawikiHelper.ExtractPropertyValue | mediawiki_helper.py:106-128 | an absent claim gives ''; otherwise the values are accumulated |
| MediawikiHelper.FoldClaimsJoin | mediawiki_helper.py:111-116 | with a non-empty first value, the result is the claims' `mainsnak.datavalue.value` texts joined by single blanks, in order |
| MediawikiHelper.FoldFromJoin | mediawiki_helper.py:111-116 | continuing the fold from a join extends that join |
| MediawikiHelper.LeadingEmptyValueDropped | mediawiki_helper.py:112-113 | a leading empty value leaves no blank behind |
| MediawikiHelper.ExtractPropertyId | mediawiki_helper.py:131-153 | the id is the text of the fold over the claims' numeric ids; an absent claim gives '' |
| MediawikiHelper.FirstNumericIdOnly | mediawiki_helper.py:138-141 | when the first id is a number, the swallowed TypeError leaves just that number |
| MediawikiHelper.EnglishLabel | mediawiki_helper.py:156-183 | a missing key anywhere on the label path gives '' |
| MediawikiHelper.EnglishLabelOf | mediawiki_helper.py:156-183 | the label of the key the response is about is read; the label of any other key is '' |
| MediawikiHelper.ExtractOccupationLabel | mediawiki_helper.py:156-169 | '' when the response has no English label under `"Q"` + the occupation id |
| MediawikiHelper.ExtractPropertyLabel | mediawiki_helper.py:171-183 | '' when the response has no English label under `"P"` + the decimal property number |
| MediawikiHelper.OccupationLabelOf | mediawiki_helper.py:156-169 | the label is read under `"Q"` + the occupation id: a response about that item gives its label, one about any other id gives '' |
| MediawikiHelper.PropertyLabelOf | mediawiki_helper.py:171-183 | the label is read under `"P"` + the decimal property number: a response about that property gives its label, one about any other number gives '' |
| MediawikiHelper.PathStep | mediawiki_helper.py:160 | reading a path is reading the first key, then the rest |
| MediawikiHelper.Zip | mediawiki_helper.py:230 | the entry has exactly the field names as keys, each mapped to its value |
| MediawikiHelper.AuthorFieldnamesDistinct | mediawiki_helper.py:77-92 | the 14 field names are distinct |
| MediawikiHelper.ColumnValues | mediawiki_helper.py:217-232 | one value per field name |
| MediawikiHelper.AuthorColumnsOf | mediawiki_helper.py:199-232 | gnd, onb and name come from the line's fields; wikidata is the id; dbpedia is ''; genre, occupation, freebase, viaf, bnf, nkc, nta, imslp and the MusicBrainz artist id each come from its own claim |
| MediawikiHelper.ColumnsEntry | mediawiki_helper.py:217-234 | the entry has exactly the 14 field names, in the declared order of values |
| MediawikiHelper.ColumnsEntryAt | mediawiki_helper.py:217-234 | field name i maps to column value i |
| MediawikiHelper.ColumnsEntryFields | mediawiki_helper.py:217-234 | gnd, wikidata and dbpedia are set from their columns |
| MediawikiHelper.ColumnsEntryClaims | mediawiki_helper.py:217-234 | genre, occupation and viaf are set from their columns |
| MediawikiHelper.BuildEntries | mediawiki_helper.py:428-433 | one author entry per written row, in order |
| MediawikiHelper.AuthorRows | mediawiki_helper.py:399-433 | the rows written are the entries for the deduplicated ids, one per distinct id, in line order |
| MediawikiHelper.PropertyRowsShape | mediawiki_helper.py:321-348 | the property rows have increasing ids in 1..2499, exactly the ids whose fetch succeeded, each named by its English label |
| MediawikiHelper.PropertyRowsStep | mediawiki_helper.py:326-348 | one more property id keeps that shape |
| MediawikiHelper.PropertyRowsExtend | mediawiki_helper.py:340-348 | the earlier rows stay a prefix; a row is added exactly when the fetch succeeded |
| MediawikiHelper.PropertyRowsStepOrder | mediawiki_helper.py:326-348 | ids stay increasing and in range, and each row carries its label |
| MediawikiHelper.PropertyRowsStepComplete | mediawiki_helper.py:326-348 | every id whose fetch succeeded has a row |
| MediawikiHelper.PropertyRowsStepSound | mediawiki_helper.py:326-348 | every id with a row had a successful fetch |
| MediawikiHelper.LoadProperties | mediawiki_helper.py:321-348 | the loop up to MAX_PROP_ID yields the specified rows |
| MediawikiHelper.AuthorDataQuery | mediawiki_helper.py:279 | the query frames the author id between the entities URL and the language and format parameters |
| ViafHelper.ViafQuery | viaf_helper.py:34 | the URL is the VIAF API URL, the id and "/viaf.xml" |
| ViafHelper.WorkId | viaf_helper.py:53-55 | the work id exists exactly when the element has an `id` attribute, and is its value |
| ViafHelper.BuildCompositionEntry | viaf_helper.py:59-68 | the entry has exactly the three field names, holding the author id, work id and title |
| ViafHelper.ElemEntriesMember | viaf_helper.py:54-56 | a work's entries are exactly those of its elements whose tag contains "title" |
| ViafHelper.WorkEntriesMember | viaf_helper.py:50-56 | a titles element's entries are exactly those of its works |
| ViafHelper.ChildEntriesMember | viaf_helper.py:47-56 | the root's entries are exactly those of its children whose tag contains "titles" |
| ViafHelper.ParseEntriesMember | viaf_helper.py:44-56 | an entry is produced exactly for a titles child, a work under it and a title element under that |
| ViafHelper.ChildEntriesAppend | viaf_helper.py:47-56 | entries follow document order |
| ViafHelper.OtherChildIgnored | viaf_helper.py:48 | a child whose tag lacks "titles" contributes nothing |
| ViafHelper.ParseResponse | viaf_helper.py:44-56 | the three nested loops yield the entries above |
| ViafHelper.CompositionsOf | viaf_helper.py:32-41 | empty content gives no entries; otherwise the parsed response's entries |
| ViafHelper.RetrieveViafCompositionsByAuthorId | viaf_helper.py:32-41 | the query issued and the entries written are those |
| ViafHelper.ViafIdsShape | viaf_helper.py:88-91 | the split ids contain no blank, and each row gives at least one |
| ViafHelper.ViafIdsOfRow | viaf_helper.py:88-91 | a blank-joined column splits back into its ids |
| ViafHelper.CompositionsOfAllAppend | viaf_helper.py:91-92 | entries follow the order of the ids |
| ViafHelper.Queries | viaf_helper.py:91-92 | one query per id, in order |
| ViafHelper.QueriesAppend | viaf_helper.py:91-92 | queries follow the order of the ids |
| ViafHelper.RowsFlatten | viaf_helper.py:87-92 | the nested loops equal one pass over all split ids |
| ViafHelper.RetrieveEach | viaf_helper.py:91-92 | the inner loop issues one query per piece, in order, and collects their entries |
| ViafHelper.RetrieveAuthorsDataByViafId | viaf_helper.py:80-92 | the header is skipped; the queries and entries are those of the blank-split column 7 of every other row |
| GeoLocationHelper.CreateGoogleSearchQuery | geo_location_helper.py:36-37 | base URL plus the text with every blank made '+': same length, no blank after the base |
| GeoLocationHelper.SearchQueryRecovers | geo_location_helper.py:36-37 | for a text without '+', the query gives back the text |
| GeoLocationHelper.ParseGoogleMapsStr | geo_location_helper.py:69-71 | the URL starts with the maps base path, is no longer than base plus tuple, and is strictly longer than the base for a non-empty tuple |
| GeoLocationHelper.MapsStrUnescaped | geo_location_helper.py:69-71 | a tuple without "&amp;" is appended unchanged |
| GeoLocationHelper.MapsStrUnescapesAll | geo_location_helper.py:69-71 | every "&amp;" between `&`-free pieces becomes "&", and nothing else changes |
| GeoLocationHelper.ParseGoogleAddress | geo_location_helper.py:75-81 | the label, street, city and country are the first four comma fields, and the query is the label's search query |
| GeoLocationHelper.GoogleAddressOfFields | geo_location_helper.py:75-81 | a comma-joined address gives back its four fields |
| GeoLocationHelper.QuoteByte | geo_location_helper.py:144 | a safe byte stays itself; any other byte becomes `%` and two hex digits of its value |
| GeoLocationHelper.QuoteChars | geo_location_helper.py:144 | a quoted name holds no '&', '=' or blank |
| GeoLocationHelper.QuoteRoundTrip | geo_location_helper.py:144 | unquoting a quoted name gives back its bytes |
| GeoLocationHelper.PlaceNameUri | geo_location_helper.py:140-148 | the URI frames the quoted name between the endpoint + "q=" and "&username=" + user |
| GeoLocationHelper.PlaceNameUriParameters | geo_location_helper.py:140-148 | the user name is the last `&` parameter, and the quoted name, with no `&`, unquotes to the name |
| GeoLocationHelper.ReverseGeocodingUri | geo_location_helper.py:154-194 | endpoint + "lat=" + lat + "&lng=" + lng + "&username=" + user |
| GeoLocationHelper.ReverseGeocodingParameters | geo_location_helper.py:154-194 | the `&` parameters are lat, lng and username, in that order |
| GeoLocationHelper.PlaceByCoordinatesUri | geo_location_helper.py:154-164 | that URI for the nearby place name endpoint |
| GeoLocationHelper.ExtendedFindNearbyUri | geo_location_helper.py:170-179 | that URI for the extended find nearby endpoint |
| GeoLocationHelper.FindNearbyWikipediaUri | geo_location_helper.py:185-194 | that URI for the nearby Wikipedia endpoint |
| GeoLocationHelper.ParseGeonamesResponse | geo_location_helper.py:198-208 | the eight fields are read from the first result |
| GeoLocationHelper.FirstResultOnly | geo_location_helper.py:199 | results after the first never change the answer |

## Left out

- All network access, file reading and writing, directory listing, CSV and JSON
  files, caching files and progress output. Fetched or parsed results are
  function parameters, and written output is the returned value.
- Parsing itself (BeautifulSoup, ElementTree, `json.loads`) is left out. The
  models work on the parsed tree or JSON value that the parser returns.
- `enrich.py` defines `extract_europeana_data` twice. Python keeps the second
  definition (enrich.py:72-79), so only that one is modelled.
- `find_europeana_items`, `collect_sameas_uris` and every `retrieve_*` request are
  parameters. Each is modelled as a deterministic function of its query. The
  model does not capture that these responses change over time.
- `add_occupation` and the Freebase and occupation side effects of the Wikidata
  scripts are left out, because they only fetch and save data.
- `mediawiki_helper.extract_gnd_from_line` and the loop in mediawiki
  `store_author_data_by_gnd` are the same code as in `wikidata_helper`, so the
  `WikidataHelper` members model both.
  - mediawiki reads the author data under `entities["Q" + id]["claims"]`
    (mediawiki_helper.py:431). That reading is modelled in
    `MediawikiHelper.AuthorRows`.
- `MediawikiHelper.AuthorRows`: in the source, the author data for each id is
  fetched inside the line loop. Here it is fetched after the deduplicated ids are
  known. Both read the same data, so the rows written are the same.
- `mediawiki_helper.extract_wikidata_author_id` (mediawiki_helper.py:186-196) is
  the same index lookup `response["items"][0]`, with `None` on an `IndexError`, as
  in `wikidata_helper`; `WikidataHelper.ExtractWikidataAuthorId` models both.
- `build_wikidata_occupation_entry` and `build_wikidata_property_entry` are left
  out. They are straight dictionary builders like the author entry.
- `summarize_titles_data` and `summarize_titles` are left out. They rely on module
  globals and on stripping a unicode repr.
- `summarize_records` only writes a file.
- Strings are Python 2 text as sequences of characters.
  - The id test of `find_tags_in_id_range` calls unicode `isnumeric`
    (normalize.py:24). The model accepts ASCII digits only. A non-ASCII numeral
    such as '½' passes `isnumeric` and then makes `int()` raise; that case is
    not modelled.
  - Python 2 `str()` and the CSV writer raise `UnicodeEncodeError` on non-ASCII
    text. This is modelled where the script catches it: in
    `WikidataHelper.ValueText` (the error makes `extract_property_value` give '')
    and in the facet rows, where a field that cannot be encoded is skipped.
    Elsewhere text is written as it is.
  - `quote` works on the UTF-8 bytes of the name, which are a parameter. The
    encoding step itself is not modelled.
- `Normalize.PersonOf`: subfield texts are assumed non-empty. BeautifulSoup's
  `.string` of an empty subfield is `None`, which the model reads as "". On such a
  subfield the source either raises or writes `null`, and the model does neither:
  - `persons` raises on an empty name (normalize.py:39), on an empty `n` appended
    to it (normalize.py:41), on an empty role (normalize.py:52) and on an empty 9
    subfield (normalize.py:57); an empty lifetime is written as `null`
    (normalize.py:48).
  - `Normalize.ContentOf` writes `null` for an empty `u` or `z` in the source
    (normalize.py:69-73), "" in the model.
  - `Normalize.Title` is `None` for an empty `t` (normalize.py:88); the record is
    the same, since neither value is truthy.
  - `Normalize.SubtitlesShape` and `Normalize.RecordGndLink` (through
    `Normalize.GndLink`): the source raises on an empty subfield (normalize.py:97,
    :119).
  - `Normalize.CollectDates` and `Normalize.LabelTexts`: the dates and notes
    contain `null` for an empty first or `a` subfield (normalize.py:106, :128).
  - `Normalize.TermOf`: the labels contain `null` for an empty subfield
    (normalize.py:140), and an empty 9 subfield raises (normalize.py:145).
- Uncaught exceptions are not modelled as behaviour. The condition that raises
  one becomes a `requires`: a missing key, a name missing from a person, fewer
  than four address fields, and a `None` GND that would break the cache-file
  name.
- JSON numbers keep their decimal text.
  - `str()` of a number is that text.
  - Floats, such as Geonames coordinates, are kept as opaque strings.
  - `str()` of a list or dictionary would print a Python repr, which the model
    does not have. Such values are excluded by a `requires` in two places:
    at value position 2 of a Wikidata property (`WikidataHelper.ValueText`), and
    as the accumulated `numeric-id` of `MediawikiHelper.ExtractPropertyId`
    (mediawiki_helper.py:153), through `MediawikiHelper.IdTextModelled`, which
    `MediawikiHelper.IdColumn` and `MediawikiHelper.AuthorColumnsOf` also require.
- Python 2 dictionaries have no defined iteration order. JSON files are written
  with sorted keys (common.py:35), so the written key order follows from the map.
  The order of CSV columns is modelled by the field-name lists.
- `Normalize.NormalizeRecord`: the `notes` it assembles are the corrected notes
  of the finding below, not the notes as written. For a record without a 425
  varfield the two agree, as `Normalize.NotesAgreeWithoutDates` shows.
- `Enrich.ItemShaped`: the model assumes that a truthy `dcCreator` of a hit is a
  list. A truthy string would be iterated character by character by the source;
  that case is excluded.
- `WikidataHelper.FacetRowsShape`: the rows are stated for the corrected count
  of the finding below, which reads the field's `count`. There a field without a
  label or count, with a label that is not a string, or with a count that is a
  list or dictionary ends the rows. In the source a missing label or a number
  label raises an error that the outer bare `except` catches, which also ends the
  loop; a list label would be written as its Python repr, which the model does
  not have. As written, `COUNT_JSON` is 'label' (wikidata_helper.py:38), so the
  count is the label again: a missing or container `count` is never read and
  changes nothing, and a field with a string label is written as
  `WikidataHelper.FacetRowAsWritten` states.
- `WikidataHelper.ExtractPropertyValue`: its ensures covers only the '' cases; the
  joined texts are stated by `WikidataHelper.PropertyValueSplit`.
- `MediawikiHelper.EnglishLabel`, `MediawikiHelper.ExtractOccupationLabel` and
  `MediawikiHelper.ExtractPropertyLabel`: their ensures cover only the '' case; the
  value read is stated by `MediawikiHelper.EnglishLabelOf`,
  `MediawikiHelper.OccupationLabelOf` and `MediawikiHelper.PropertyLabelOf`.
- `Common.RenameBase`: the renaming is
  stated, by `Normalize.OutputFileNameUnchanged`, `Normalize.OutputFileNameOfXml`,
  `Enrich.EnrichedFileNameUnchanged` and `Enrich.EnrichedFileNameOfJson`, for
  names without an occurrence and for the usual `stem.xml` and `stem.json` names,
  not for names with several occurrences.
- `geo_location_helper` query execution (`get_html`, `query_google`), the regex
  extraction of Google tuples and the geopy geocoders are network or library
  calls, so they are left out.
- cdvs.py and the other scripts of the repository are outside this model.

## Findings

| source | as written | input that shows it | evidently intended | confidence | as-written member | corrected member |
|---|---|---|---|---|---|---|
| normalize.py:126 | `tag.id != "425"` reads BeautifulSoup's child element `id`, which is `None`, so the test always holds | a record with varfield 425, subfield a "1900" | dates (425) are excluded from the notes, as the comparison says | not executed | Normalize.NotesAsWrittenKeepsDates | Normalize.NotesSkipDates, Normalize.NormalizeRecord |
| wikidata_helper.py:38 | `COUNT_JSON = 'label'`, so the count column at line 506 repeats the label | a facet field with label "12_Foo" and count 5 | the count column holds the facet's `count` | not executed | WikidataHelper.FacetCountShowsLabel | WikidataHelper.ExtractAndSaveLabelData |
