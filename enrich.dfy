/** Enrichment of normalized records: related Europeana objects found by searching for
    each person, and `sameas` lists extended with the links a GND description lists.
    Both searches are network calls and are passed in as functions. */
module Enrich {
  import opened Common
  import opened Json

  const RELATED := "related_europeana_items"

  // ---------------------------------------------------------------------------
  // Shapes the scripts rely on without checking

  /** `data['persons']` is iterated, each person is tested with `'sameas' in person` and
      its `sameas` is iterated: a list of dictionaries whose `sameas` are lists. */
  predicate PersonsShaped(data: map<string, Json>)
  {
    "persons" in data ==>
      && data["persons"].JList?
      && forall p :: p in data["persons"].items ==>
           p.JObj? && ("sameas" in p.fields ==> p.fields["sameas"].JList?)
  }

  /** A search hit is read with `item.get`, and a truthy `dcCreator` is iterated. */
  predicate ItemShaped(item: Json)
  {
    item.JObj? && (Truthy(Get(item.fields, "dcCreator")) ==> Get(item.fields, "dcCreator").JList?)
  }

  predicate ItemsShaped(items: seq<Json>)
  {
    forall item :: item in items ==> ItemShaped(item)
  }

  // ---------------------------------------------------------------------------
  // filter_europeana_items

  /** The `sameas` links of the given persons, person by person, in order. */
  function UrisOf(persons: seq<Json>): seq<Json>
    requires forall p :: p in persons ==> p.JObj? && ("sameas" in p.fields ==> p.fields["sameas"].JList?)
  {
    if persons == [] then []
    else
      var last := persons[|persons| - 1];
      UrisOf(persons[..|persons| - 1])
      + (if "sameas" in last.fields then last.fields["sameas"].items else [])
  }

  /** `known_person_uris`. */
  function KnownPersonUris(data: map<string, Json>): seq<Json>
    requires PersonsShaped(data)
  {
    if "persons" in data then UrisOf(data["persons"].items) else []
  }

  /** A link is known exactly when some person lists it in its `sameas`. */
  lemma {:induction false} UrisOfMembers(persons: seq<Json>)
    requires forall p :: p in persons ==> p.JObj? && ("sameas" in p.fields ==> p.fields["sameas"].JList?)
    ensures forall u :: (u in UrisOf(persons) <==>
      exists p :: p in persons && "sameas" in p.fields && u in p.fields["sameas"].items)
  {
    if persons != [] {
      var init := persons[..|persons| - 1];
      var last := persons[|persons| - 1];
      assert persons == init + [last];
      UrisOfMembers(init);
      forall u
        ensures u in UrisOf(persons) <==>
          exists p :: p in persons && "sameas" in p.fields && u in p.fields["sameas"].items
      {
        if u in UrisOf(persons) && u !in UrisOf(init) {
          assert last in persons && "sameas" in last.fields && u in last.fields["sameas"].items;
        }
        if exists p :: p in persons && "sameas" in p.fields && u in p.fields["sameas"].items {
          var p :| p in persons && "sameas" in p.fields && u in p.fields["sameas"].items;
          if p != last {
            assert p in init;
          }
        }
      }
    }
  }

  method CollectKnownPersonUris(data: map<string, Json>) returns (known: seq<Json>)
    requires PersonsShaped(data)
    ensures known == KnownPersonUris(data)
  {
    known := [];
    if "persons" in data {
      var persons := data["persons"].items;
      for i := 0 to |persons|
        invariant known == UrisOf(persons[..i])
      {
        assert persons[..i + 1][..i] == persons[..i];
        var person := persons[i];
        if "sameas" in person.fields {
          var uris := person.fields["sameas"].items;
          ghost var before := known;
          for j := 0 to |uris|
            invariant known == before + uris[..j]
          {
            assert uris[..j + 1] == uris[..j] + [uris[j]];
            known := known + [uris[j]];
          }
          assert uris[..|uris|] == uris;
        }
      }
      assert persons[..|persons|] == persons;
    }
  }

  /** The creator terms of a hit: its `dcCreator` list when truthy, else none. */
  function CreatorTerms(item: Json): seq<Json>
    requires ItemShaped(item)
  {
    if Truthy(Get(item.fields, "dcCreator")) then Get(item.fields, "dcCreator").items else []
  }

  /** How many of the terms are known links (a repeated term counts each time). */
  function MatchCount(known: seq<Json>, terms: seq<Json>): (n: nat)
    ensures n <= |terms|
    ensures n > 0 <==> exists t :: t in terms && t in known
  {
    if terms == [] then 0
    else
      var last := terms[|terms| - 1];
      assert terms == terms[..|terms| - 1] + [last];
      MatchCount(known, terms[..|terms| - 1]) + (if last in known then 1 else 0)
  }

  function Repeat(x: Json, n: nat): (r: seq<Json>)
    ensures |r| == n
    ensures forall i :: 0 <= i < n ==> r[i] == x
  {
    seq(n, i => x)
  }

  /** `filter_europeana_items`: each hit once per known creator term, in order. */
  function Filtered(known: seq<Json>, items: seq<Json>): seq<Json>
    requires ItemsShaped(items)
  {
    if items == [] then []
    else
      var last := items[|items| - 1];
      Filtered(known, items[..|items| - 1]) + Repeat(last, MatchCount(known, CreatorTerms(last)))
  }

  /** The filter keeps the order of the hits: it distributes over concatenation. */
  lemma {:induction false} FilteredAppend(known: seq<Json>, a: seq<Json>, b: seq<Json>)
    requires ItemsShaped(a) && ItemsShaped(b)
    ensures ItemsShaped(a + b)
    ensures Filtered(known, a + b) == Filtered(known, a) + Filtered(known, b)
  {
    if b == [] {
      assert a + b == a;
    } else {
      var init := b[..|b| - 1];
      assert (a + b)[..|a + b| - 1] == a + init;
      assert (a + b)[|a + b| - 1] == b[|b| - 1];
      FilteredAppend(known, a, init);
    }
  }

  /** Every kept hit is one of the hits and names a known person; every hit that names
      a known person is kept. */
  lemma {:induction false} FilteredMembers(known: seq<Json>, items: seq<Json>)
    requires ItemsShaped(items)
    ensures forall x :: (x in Filtered(known, items) <==>
      x in items && exists t :: t in CreatorTerms(x) && t in known)
  {
    if items != [] {
      var init := items[..|items| - 1];
      var last := items[|items| - 1];
      assert items == init + [last];
      FilteredMembers(known, init);
      forall x
        ensures x in Filtered(known, items) <==> x in items && exists t :: t in CreatorTerms(x) && t in known
      {
        var tail := Repeat(last, MatchCount(known, CreatorTerms(last)));
        if x in tail {
          assert x == last;
        }
        if x == last && exists t :: t in CreatorTerms(x) && t in known {
          assert tail[0] == last;
        }
      }
    }
  }

  /** The number of kept hits is the number of known creator terms over all hits. */
  function TotalMatches(known: seq<Json>, items: seq<Json>): nat
    requires ItemsShaped(items)
  {
    if items == [] then 0
    else MatchCount(known, CreatorTerms(items[0])) + TotalMatches(known, items[1..])
  }

  lemma {:induction false} FilteredLength(known: seq<Json>, items: seq<Json>)
    requires ItemsShaped(items)
    ensures |Filtered(known, items)| == TotalMatches(known, items)
  {
    if items != [] {
      FilteredAppend(known, [items[0]], items[1..]);
      assert [items[0]] + items[1..] == items;
      assert [items[0]][..0] == [];
      FilteredLength(known, items[1..]);
    }
  }

  /** Without known person links nothing is kept. */
  lemma {:induction false} NoKnownNothingKept(known: seq<Json>, items: seq<Json>)
    requires ItemsShaped(items) && known == []
    ensures Filtered(known, items) == []
  {
    if items != [] {
      NoKnownNothingKept(known, items[..|items| - 1]);
    }
  }

  /** One hit, once per known creator term. */
  method RepeatForMatches(known: seq<Json>, item: Json) returns (kept: seq<Json>)
    requires ItemShaped(item)
    ensures kept == Repeat(item, MatchCount(known, CreatorTerms(item)))
  {
    kept := [];
    if Truthy(Get(item.fields, "dcCreator")) {
      var terms := item.fields["dcCreator"].items;
      for j := 0 to |terms|
        invariant kept == Repeat(item, MatchCount(known, terms[..j]))
      {
        assert terms[..j + 1][..j] == terms[..j];
        if terms[j] in known {
          kept := kept + [item];
        }
      }
      assert terms[..|terms|] == terms;
    }
  }

  method FilterEuropeanaItems(data: map<string, Json>, items: seq<Json>) returns (filtered: seq<Json>)
    requires PersonsShaped(data) && ItemsShaped(items)
    ensures filtered == Filtered(KnownPersonUris(data), items)
  {
    var known := CollectKnownPersonUris(data);
    filtered := [];
    for i := 0 to |items|
      invariant filtered == Filtered(known, items[..i])
    {
      assert items[..i + 1][..i] == items[..i];
      var kept := RepeatForMatches(known, items[i]);
      filtered := filtered + kept;
    }
    assert items[..|items|] == items;
  }

  // ---------------------------------------------------------------------------
  // extract_europeana_data

  /** The small record kept for one hit. */
  function Projection(item: Json): (r: Json)
    requires item.JObj?
    ensures r.JObj? && r.fields.Keys == {"id", "creator", "title", "score"}
    ensures r.fields["id"] == Get(item.fields, "id")
    ensures r.fields["creator"] == Get(item.fields, "dcCreator")
    ensures r.fields["title"] == Get(item.fields, "title")
    ensures r.fields["score"] == Get(item.fields, "score")
  {
    JObj(map["id" := Get(item.fields, "id"), "creator" := Get(item.fields, "dcCreator"),
             "title" := Get(item.fields, "title"), "score" := Get(item.fields, "score")])
  }

  function Projections(items: seq<Json>): (r: seq<Json>)
    requires forall item :: item in items ==> item.JObj?
    ensures |r| == |items|
    ensures forall i :: 0 <= i < |items| ==> r[i] == Projection(items[i])
  {
    seq(|items|, i requires 0 <= i < |items| => Projection(items[i]))
  }

  method ExtractEuropeanaData(items: seq<Json>) returns (data: seq<Json>)
    requires forall item :: item in items ==> item.JObj?
    ensures data == Projections(items)
  {
    data := [];
    for i := 0 to |items|
      invariant data == Projections(items[..i])
    {
      data := data + [Projection(items[i])];
    }
    assert items[..|items|] == items;
  }

  // ---------------------------------------------------------------------------
  // enrich_europeana

  /** `data.get('title')` is concatenated to a name when truthy, and an existing
      non-null `related_europeana_items` is extended. */
  predicate RecordShaped(data: map<string, Json>)
  {
    && PersonsShaped(data)
    && (Truthy(Get(data, "title")) ==> Get(data, "title").JStr?)
    && (Get(data, RELATED) != JNull ==> Get(data, RELATED).JList?)
    && ("persons" in data ==> forall p :: p in data["persons"].items ==>
          "name" in p.fields && p.fields["name"].JStr?)
  }

  /** What a search returns: None, or hits shaped as the filter reads them. */
  ghost predicate SearchShaped(search: string -> Option<seq<Json>>)
  {
    forall q :: search(q).Some? ==> ItemsShaped(search(q).value)
  }

  /** The query for one person: the name, followed by a blank and the title when the
      record has a truthy title. */
  function Query(name: string, title: Json): (q: string)
    requires Truthy(title) ==> title.JStr?
    ensures name <= q
    ensures !Truthy(title) ==> q == name
    ensures Truthy(title) ==> q == name + " " + title.s
  {
    if Truthy(title) then name + " " + title.s else name
  }

  /** The enrichments found for one person. */
  function Batch(known: seq<Json>, title: Json, person: Json, search: string -> Option<seq<Json>>): seq<Json>
    requires Truthy(title) ==> title.JStr?
    requires person.JObj? && "name" in person.fields && person.fields["name"].JStr?
    requires SearchShaped(search)
  {
    match search(Query(person.fields["name"].s, title))
    case None => []
    case Some(found) =>
      FilteredMembers(known, found);
      Projections(Filtered(known, found))
  }

  /** The effect of one non-empty batch on the record. */
  function AddRelated(data: map<string, Json>, batch: seq<Json>): map<string, Json>
    requires Get(data, RELATED) != JNull ==> Get(data, RELATED).JList?
  {
    if batch == [] then data
    else if Get(data, RELATED) != JNull then data[RELATED := JList(data[RELATED].items + batch)]
    else data[RELATED := JList(batch)]
  }

  /** The record after the loop has visited the given persons. */
  function EuropeanaAfter(data: map<string, Json>, persons: seq<Json>, known: seq<Json>,
                          search: string -> Option<seq<Json>>): (r: map<string, Json>)
    requires RecordShaped(data) && SearchShaped(search)
    requires forall p :: p in persons ==> p.JObj? && "name" in p.fields && p.fields["name"].JStr?
    ensures Get(r, RELATED) != JNull ==> Get(r, RELATED).JList?
    ensures forall k :: k != RELATED ==> (k in r <==> k in data) && (k in r ==> r[k] == data[k])
  {
    if persons == [] then data
    else
      var prev := EuropeanaAfter(data, persons[..|persons| - 1], known, search);
      AddRelated(prev, Batch(known, Get(data, "title"), persons[|persons| - 1], search))
  }

  /** `enrich_europeana`. */
  function EnrichEuropeanaSpec(data: map<string, Json>, search: string -> Option<seq<Json>>): map<string, Json>
    requires RecordShaped(data) && SearchShaped(search)
  {
    if "persons" !in data then data
    else EuropeanaAfter(data, data["persons"].items, KnownPersonUris(data), search)
  }

  /** All enrichments found for the given persons, in order. */
  function AllBatches(persons: seq<Json>, known: seq<Json>, title: Json,
                      search: string -> Option<seq<Json>>): seq<Json>
    requires Truthy(title) ==> title.JStr?
    requires SearchShaped(search)
    requires forall p :: p in persons ==> p.JObj? && "name" in p.fields && p.fields["name"].JStr?
  {
    if persons == [] then []
    else AllBatches(persons[..|persons| - 1], known, title, search)
         + Batch(known, title, persons[|persons| - 1], search)
  }

  /** The previous related items, when there were any. */
  function RelatedBefore(data: map<string, Json>): seq<Json>
    requires Get(data, RELATED) != JNull ==> Get(data, RELATED).JList?
  {
    if Get(data, RELATED) != JNull then data[RELATED].items else []
  }

  /** Only `related_europeana_items` changes: it is left alone while no enrichment was
      found, and afterwards holds the old items followed by every batch, in order. */
  lemma {:induction false} EuropeanaAfterRelated(data: map<string, Json>, persons: seq<Json>, known: seq<Json>,
                                                 search: string -> Option<seq<Json>>)
    requires RecordShaped(data) && SearchShaped(search)
    requires forall p :: p in persons ==> p.JObj? && "name" in p.fields && p.fields["name"].JStr?
    ensures var r := EuropeanaAfter(data, persons, known, search);
      var all := AllBatches(persons, known, Get(data, "title"), search);
      && (all == [] ==> r == data)
      && (all != [] ==> RELATED in r && r[RELATED] == JList(RelatedBefore(data) + all))
  {
    if persons != [] {
      var init := persons[..|persons| - 1];
      EuropeanaAfterRelated(data, init, known, search);
      var prev := EuropeanaAfter(data, init, known, search);
      var all0 := AllBatches(init, known, Get(data, "title"), search);
      var batch := Batch(known, Get(data, "title"), persons[|persons| - 1], search);
      AddRelatedExtends(prev, batch);
      if batch == [] {
        assert all0 + batch == all0;
      } else if all0 == [] {
        assert all0 + batch == batch;
      } else {
        assert RelatedBefore(prev) == RelatedBefore(data) + all0;
        AppendAssoc(RelatedBefore(data), all0, batch);
      }
    }
  }

  /** A non-empty batch is appended to the items already there. */
  lemma AddRelatedExtends(data: map<string, Json>, batch: seq<Json>)
    requires Get(data, RELATED) != JNull ==> Get(data, RELATED).JList?
    ensures batch == [] ==> AddRelated(data, batch) == data
    ensures batch != [] ==>
      RELATED in AddRelated(data, batch) && AddRelated(data, batch)[RELATED] == JList(RelatedBefore(data) + batch)
  {
    if batch != [] && Get(data, RELATED) == JNull {
      assert RelatedBefore(data) + batch == batch;
    }
  }

  /** With no persons the record comes back unchanged; otherwise the existing related
      items stay a prefix, and the key is created only once an enrichment is found. */
  lemma EnrichEuropeanaEffect(data: map<string, Json>, search: string -> Option<seq<Json>>)
    requires RecordShaped(data) && SearchShaped(search)
    ensures "persons" !in data ==> EnrichEuropeanaSpec(data, search) == data
    ensures var r := EnrichEuropeanaSpec(data, search);
      && (forall k :: k != RELATED ==> (k in r <==> k in data) && (k in r ==> r[k] == data[k]))
      && (Get(data, RELATED) != JNull ==> Get(r, RELATED).JList? && Items(data[RELATED]) <= Items(Get(r, RELATED)))
      && (RELATED in r && RELATED !in data ==> Get(r, RELATED).JList? && Items(r[RELATED]) != [])
  {
    if "persons" in data {
      var persons := data["persons"].items;
      var known := KnownPersonUris(data);
      EuropeanaAfterRelated(data, persons, known, search);
    }
  }

  /** One iteration of the person loop. */
  method EuropeanaStep(data: map<string, Json>, person: Json, search: string -> Option<seq<Json>>)
    returns (next: map<string, Json>)
    requires RecordShaped(data) && SearchShaped(search)
    requires person.JObj? && "name" in person.fields && person.fields["name"].JStr?
    ensures next == AddRelated(data, Batch(KnownPersonUris(data), Get(data, "title"), person, search))
  {
    var title := Get(data, "title");
    var name := person.fields["name"].s;
    var query := name;
    if Truthy(title) {
      query := query + " " + title.s;
    }
    var found := search(query);
    if found.None? {
      return data;
    }
    var kept := FilterEuropeanaItems(data, found.value);
    FilteredMembers(KnownPersonUris(data), found.value);
    var enrichments := ExtractEuropeanaData(kept);
    if |enrichments| == 0 {
      return data;
    }
    if Get(data, RELATED) != JNull {
      next := data[RELATED := JList(data[RELATED].items + enrichments)];
    } else {
      next := data[RELATED := JList(enrichments)];
    }
  }

  /** The loop leaves the persons and the title as they were, so every step reads the
      record's original known links and title. */
  lemma EuropeanaAfterKeeps(data: map<string, Json>, persons: seq<Json>, known: seq<Json>,
                            search: string -> Option<seq<Json>>)
    requires RecordShaped(data) && SearchShaped(search) && "persons" in data
    requires forall p :: p in persons ==> p.JObj? && "name" in p.fields && p.fields["name"].JStr?
    ensures var r := EuropeanaAfter(data, persons, known, search);
      && RecordShaped(r) && "persons" in r && r["persons"] == data["persons"]
      && Get(r, "title") == Get(data, "title") && KnownPersonUris(r) == KnownPersonUris(data)
  {
    var r := EuropeanaAfter(data, persons, known, search);
    assert "persons" in r && r["persons"] == data["persons"];
    assert Get(r, "title") == Get(data, "title");
  }

  /** Visiting person `i` is one `EuropeanaStep` on the record so far. */
  lemma EuropeanaAfterStep(data: map<string, Json>, i: nat, search: string -> Option<seq<Json>>)
    requires RecordShaped(data) && SearchShaped(search) && "persons" in data && i < |data["persons"].items|
    ensures var persons := data["persons"].items;
      var known := KnownPersonUris(data);
      var person := persons[i];
      && (forall p :: p in persons[..i] ==> p.JObj? && "name" in p.fields && p.fields["name"].JStr?)
      && (forall p :: p in persons[..i + 1] ==> p.JObj? && "name" in p.fields && p.fields["name"].JStr?)
      && var prev := EuropeanaAfter(data, persons[..i], known, search);
      && RecordShaped(prev) && person.JObj? && "name" in person.fields && person.fields["name"].JStr?
      && EuropeanaAfter(data, persons[..i + 1], known, search)
         == AddRelated(prev, Batch(KnownPersonUris(prev), Get(prev, "title"), person, search))
  {
    var persons := data["persons"].items;
    assert persons[i] in persons;
    assert forall p :: p in persons[..i + 1] ==> p in persons;
    assert persons[..i + 1][..i] == persons[..i];
    EuropeanaAfterKeeps(data, persons[..i], KnownPersonUris(data), search);
  }

  method EnrichEuropeana(data: map<string, Json>, search: string -> Option<seq<Json>>)
    returns (result: map<string, Json>)
    requires RecordShaped(data) && SearchShaped(search)
    ensures result == EnrichEuropeanaSpec(data, search)
  {
    if "persons" !in data {
      return data;
    }
    var persons := data["persons"].items;
    ghost var known := KnownPersonUris(data);
    result := data;
    for i := 0 to |persons|
      invariant result == EuropeanaAfter(data, persons[..i], known, search)
    {
      EuropeanaAfterStep(data, i, search);
      result := EuropeanaStep(result, persons[i], search);
    }
    assert persons[..|persons|] == persons;
  }

  // ---------------------------------------------------------------------------
  // enrich_gnd

  /** The links collected for the non-null entries of a `sameas` list, in order. */
  function CollectedFor(uris: seq<Json>, collect: Json -> seq<Json>): seq<Json>
  {
    if uris == [] then []
    else
      var last := uris[|uris| - 1];
      CollectedFor(uris[..|uris| - 1], collect) + (if last == JNull then [] else collect(last))
  }

  /** `enrich_gnd` on any value: dictionaries are traversed, other values kept. */
  function EnrichGnd(d: Json, collect: Json -> seq<Json>): (r: Json)
    ensures d.JObj? <==> r.JObj?
    ensures d.JObj? ==> r.fields.Keys == d.fields.Keys
    ensures d.JObj? ==> forall k :: k in d.fields ==> r.fields[k] == EnrichEntry(k, d.fields[k], collect)
    ensures !d.JObj? ==> r == d
    decreases d, 0
  {
    match d
    case JObj(m) => JObj(map k | k in m :: EnrichEntry(k, m[k], collect))
    case _ => d
  }

  /** The new value stored under key `k`: a dictionary is enriched, a `sameas` list gets
      the collected links appended, and dictionaries directly inside any other list are
      enriched (in place in the source). */
  function EnrichEntry(k: string, v: Json, collect: Json -> seq<Json>): (r: Json)
    ensures v.JObj? ==> r == EnrichGnd(v, collect)
    ensures v.JList? && k == "sameas" ==> r == JList(v.items + CollectedFor(v.items, collect))
    ensures v.JList? && k != "sameas" ==> r.JList? && |r.items| == |v.items|
    ensures v.JList? && k != "sameas" ==>
      forall i :: 0 <= i < |v.items| ==> r.items[i] == EnrichGnd(v.items[i], collect)
    ensures !v.JObj? && !v.JList? ==> r == v
    decreases v, 1
  {
    match v
    case JObj(_) => EnrichGnd(v, collect)
    case JList(items) =>
      if k == "sameas" then JList(items + CollectedFor(items, collect))
      else JList(seq(|items|, i requires 0 <= i < |items| => EnrichGnd(items[i], collect)))
    case _ => v
  }

  /** Nothing changes when no link is collected. */
  lemma {:induction false} EnrichGndNothingCollected(d: Json, collect: Json -> seq<Json>)
    requires forall u :: collect(u) == []
    ensures EnrichGnd(d, collect) == d
    decreases d, 1
  {
    match d
    case JObj(m) =>
      forall k | k in m
        ensures EnrichEntry(k, m[k], collect) == m[k]
      {
        EnrichEntryNothingCollected(k, m[k], collect);
      }
      assert EnrichGnd(d, collect).fields == m;
    case _ =>
  }

  lemma {:induction false} EnrichEntryNothingCollected(k: string, v: Json, collect: Json -> seq<Json>)
    requires forall u :: collect(u) == []
    ensures EnrichEntry(k, v, collect) == v
    decreases v, 2
  {
    match v
    case JObj(_) => EnrichGndNothingCollected(v, collect);
    case JList(items) =>
      if k == "sameas" {
        CollectedForNothing(items, collect);
        assert items + [] == items;
      } else {
        var r := EnrichEntry(k, v, collect).items;
        forall i | 0 <= i < |items|
          ensures r[i] == items[i]
        {
          EnrichGndNothingCollected(items[i], collect);
        }
        assert r == items;
      }
    case _ =>
  }

  lemma {:induction false} CollectedForNothing(uris: seq<Json>, collect: Json -> seq<Json>)
    requires forall u :: collect(u) == []
    ensures CollectedFor(uris, collect) == []
  {
    if uris != [] {
      CollectedForNothing(uris[..|uris| - 1], collect);
    }
  }

  /** Null entries of a `sameas` list are never resolved: only the non-null entries'
      links are collected. */
  lemma {:induction false} CollectedForSkipsNull(uris: seq<Json>, collect: Json -> seq<Json>)
    ensures CollectedFor(uris + [JNull], collect) == CollectedFor(uris, collect)
  {
    assert (uris + [JNull])[..|uris|] == uris;
  }

  /** The collected links of a concatenation are those of its parts, in order. */
  lemma {:induction false} CollectedForAppend(a: seq<Json>, b: seq<Json>, collect: Json -> seq<Json>)
    ensures CollectedFor(a + b, collect) == CollectedFor(a, collect) + CollectedFor(b, collect)
  {
    if b == [] {
      assert a + b == a;
    } else {
      var init, last := b[..|b| - 1], b[|b| - 1];
      var ab := a + b;
      assert ab[..|ab| - 1] == a + init;
      assert ab[|ab| - 1] == last;
      CollectedForAppend(a, init, collect);
      var tail := if last == JNull then [] else collect(last);
      assert CollectedFor(ab, collect) == CollectedFor(a + init, collect) + tail;
      assert CollectedFor(b, collect) == CollectedFor(init, collect) + tail;
      AppendAssoc(CollectedFor(a, collect), CollectedFor(init, collect), tail);
    }
  }

  // ---------------------------------------------------------------------------
  // enrich and the per-file rule of enrich_records

  /** `enrich`: GND enrichment first, then Europeana. `normalized_record['aleph_id']` is
      read, so the key is required. */
  predicate Enrichable(record: Json, collect: Json -> seq<Json>)
  {
    && record.JObj? && "aleph_id" in record.fields
    && RecordShaped(EnrichGnd(record, collect).fields)
  }

  /** `enrich`. */
  function EnrichedRecord(record: Json, collect: Json -> seq<Json>, search: string -> Option<seq<Json>>)
    : map<string, Json>
    requires Enrichable(record, collect) && SearchShaped(search)
  {
    EnrichEuropeanaSpec(EnrichGnd(record, collect).fields, search)
  }

  method EnrichRecord(record: Json, collect: Json -> seq<Json>, search: string -> Option<seq<Json>>)
    returns (enriched: map<string, Json>)
    requires Enrichable(record, collect) && SearchShaped(search)
    ensures enriched == EnrichedRecord(record, collect, search)
  {
    var gnd := EnrichGnd(record, collect);
    enriched := EnrichEuropeana(gnd.fields, search);
  }

  /** `os.path.basename(filename).replace(".json", "_enriched.json")`. */
  function EnrichedFileName(filename: string): string
  {
    RenameBase(filename, ".json", "_enriched.json")
  }

  /** A base name without ".json" is kept as it is. */
  lemma EnrichedFileNameUnchanged(filename: string)
    requires !Contains(LastPiece(filename, '/'), ".json")
    ensures EnrichedFileName(filename) == LastPiece(filename, '/')
  {
    RenameBaseUnchanged(filename, ".json", "_enriched.json");
  }

  /** A record file `dir/stem.json` is written as `stem_enriched.json`. */
  lemma EnrichedFileNameOfJson(dir: string, stem: string)
    requires '/' !in stem && '.' !in stem
    ensures EnrichedFileName(dir + "/" + stem + ".json") == stem + "_enriched.json"
  {
    assert dir + "/" + stem + ".json" == dir + ['/'] + (stem + ".json");
    LastPieceAfterSeparator(dir, stem + ".json", '/');
    ReplaceAllAtEnd(stem, ".json", "_enriched.json");
  }

  /** `outputdir + "/" + out_file`. */
  function EnrichedPath(outputdir: string, filename: string): (r: string)
    ensures StripFrame(r, outputdir + "/", "") == Some(EnrichedFileName(filename))
    ensures LastPiece(r, '/') == EnrichedFileName(filename)
  {
    var name := EnrichedFileName(filename);
    FramedRecovers(outputdir + "/", name, "");
    assert outputdir + "/" + name + "" == outputdir + "/" + name;
    LastPieceAfterSeparator(outputdir, name, '/');
    outputdir + "/" + name
  }

  /** One input file: its output name, and whether it is written. */
  datatype Outcome = Skipped(outFile: string) | Written(outFile: string, record: map<string, Json>)

  /** The files the loop has written so far: `outputdir + "/" + out_file` of every
      written outcome. */
  function WrittenPaths(outputdir: string, outcomes: seq<Outcome>): set<string>
  {
    if outcomes == [] then {}
    else
      var last := outcomes[|outcomes| - 1];
      WrittenPaths(outputdir, outcomes[..|outcomes| - 1]) + (if last.Written? then {outputdir + "/" + last.outFile} else {})
  }

  /** A path counts as written exactly when some written outcome names it. */
  lemma {:induction false} WrittenPathsMembers(outputdir: string, outcomes: seq<Outcome>, p: string)
    ensures p in WrittenPaths(outputdir, outcomes)
        <==> exists i :: 0 <= i < |outcomes| && outcomes[i].Written? && p == outputdir + "/" + outcomes[i].outFile
  {
    if outcomes != [] {
      var init := outcomes[..|outcomes| - 1];
      WrittenPathsMembers(outputdir, init, p);
      if p in WrittenPaths(outputdir, init) {
        var i :| 0 <= i < |init| && init[i].Written? && p == outputdir + "/" + init[i].outFile;
        assert outcomes[i] == init[i];
      }
      if exists i :: 0 <= i < |outcomes| && outcomes[i].Written? && p == outputdir + "/" + outcomes[i].outFile {
        var i :| 0 <= i < |outcomes| && outcomes[i].Written? && p == outputdir + "/" + outcomes[i].outFile;
        if i < |init| {
          assert init[i] == outcomes[i];
        }
      }
    }
  }

  /** What `enrich_records` does with one input file: it names the output after the
      input, skips the file exactly when the output exists (it existed before the run, or
      an earlier file of the run wrote it) and `force` is off, and otherwise writes the
      enriched record. */
  ghost predicate OutcomeFits(o: Outcome, input: (string, Json), outputdir: string, force: bool,
                              pathExists: string -> bool, written: set<string>, collect: Json -> seq<Json>,
                              search: string -> Option<seq<Json>>)
  {
    var path := EnrichedPath(outputdir, input.0);
    && o.outFile == EnrichedFileName(input.0)
    && (o.Skipped? <==> (pathExists(path) || path in written) && !force)
    && (o.Written? ==> Enrichable(input.1, collect) && SearchShaped(search)
                       && o.record == EnrichedRecord(input.1, collect, search))
  }

  /** The first `n` outcomes fit their inputs, each against the files written before it. */
  ghost predicate OutcomesFit(outcomes: seq<Outcome>, inputs: seq<(string, Json)>, n: nat, outputdir: string, force: bool,
                              pathExists: string -> bool, collect: Json -> seq<Json>,
                              search: string -> Option<seq<Json>>)
    requires n <= |outcomes| && n <= |inputs|
  {
    forall j :: 0 <= j < n ==>
      OutcomeFits(outcomes[j], inputs[j], outputdir, force, pathExists,
                  WrittenPaths(outputdir, outcomes[..j]), collect, search)
  }

  /** Appending the next fitting outcome keeps the earlier ones fitting. */
  lemma OutcomesFitExtend(outcomes: seq<Outcome>, o: Outcome, inputs: seq<(string, Json)>, outputdir: string,
                          force: bool, pathExists: string -> bool, collect: Json -> seq<Json>,
                          search: string -> Option<seq<Json>>)
    requires |outcomes| < |inputs|
    requires OutcomesFit(outcomes, inputs, |outcomes|, outputdir, force, pathExists, collect, search)
    requires OutcomeFits(o, inputs[|outcomes|], outputdir, force, pathExists,
                         WrittenPaths(outputdir, outcomes), collect, search)
    ensures OutcomesFit(outcomes + [o], inputs, |outcomes| + 1, outputdir, force, pathExists, collect, search)
  {
    var next := outcomes + [o];
    forall j | 0 <= j < |outcomes| + 1
      ensures OutcomeFits(next[j], inputs[j], outputdir, force, pathExists,
                          WrittenPaths(outputdir, next[..j]), collect, search)
    {
      if j < |outcomes| {
        assert next[j] == outcomes[j] && next[..j] == outcomes[..j];
      } else {
        assert next[j] == o && next[..j] == outcomes;
      }
    }
  }

  /** `enrich_records`: a file is skipped exactly when its output exists and `force` is
      off; `pathExists` is the filesystem before the run, and the files the run writes
      exist from then on. A record is read only when it is enriched, so a skipped file
      (its output existed before the run, or an earlier file of the same output name
      left it behind, and `force` is off) need not hold an enrichable record. */
  method EnrichRecords(inputs: seq<(string, Json)>, outputdir: string, force: bool,
                       pathExists: string -> bool, collect: Json -> seq<Json>,
                       search: string -> Option<seq<Json>>)
    returns (outcomes: seq<Outcome>)
    requires forall i :: 0 <= i < |inputs| ==>
      Enrichable(inputs[i].1, collect)
      || (!force && (pathExists(EnrichedPath(outputdir, inputs[i].0))
                     || exists j :: 0 <= j < i && EnrichedFileName(inputs[j].0) == EnrichedFileName(inputs[i].0)))
    requires SearchShaped(search)
    ensures |outcomes| == |inputs|
    ensures forall i :: 0 <= i < |inputs| ==>
      OutcomeFits(outcomes[i], inputs[i], outputdir, force, pathExists,
                  WrittenPaths(outputdir, outcomes[..i]), collect, search)
  {
    outcomes := [];
    var written: set<string> := {};
    for i := 0 to |inputs|
      invariant |outcomes| == i
      invariant written == WrittenPaths(outputdir, outcomes)
      invariant OutcomesFit(outcomes, inputs, i, outputdir, force, pathExists, collect, search)
      invariant EarlierOutputsExist(inputs, i, outputdir, pathExists, written)
    {
      ReadOrSkipped(inputs, i, outputdir, force, pathExists, written, collect);
      var outcome := EnrichFile(inputs[i], outputdir, force, pathExists, written, collect, search);
      EarlierOutputsStep(inputs, i, outputdir, force, pathExists, written, outcome);
      OutcomesFitExtend(outcomes, outcome, inputs, outputdir, force, pathExists, collect, search);
      assert (outcomes + [outcome])[..i] == outcomes;
      outcomes := outcomes + [outcome];
      written := written + (if outcome.Written? then {outputdir + "/" + outcome.outFile} else {});
    }
  }

  /** The outputs of the first `n` inputs exist: from before the run, or written by it. */
  ghost predicate EarlierOutputsExist(inputs: seq<(string, Json)>, n: nat, outputdir: string,
                                      pathExists: string -> bool, written: set<string>)
  {
    forall j :: 0 <= j < n && j < |inputs| ==>
      pathExists(EnrichedPath(outputdir, inputs[j].0)) || EnrichedPath(outputdir, inputs[j].0) in written
  }

  /** An input whose record cannot be enriched is one the loop skips. */
  lemma ReadOrSkipped(inputs: seq<(string, Json)>, i: nat, outputdir: string, force: bool,
                      pathExists: string -> bool, written: set<string>, collect: Json -> seq<Json>)
    requires i < |inputs|
    requires EarlierOutputsExist(inputs, i, outputdir, pathExists, written)
    requires Enrichable(inputs[i].1, collect)
      || (!force && (pathExists(EnrichedPath(outputdir, inputs[i].0))
                     || exists j :: 0 <= j < i && EnrichedFileName(inputs[j].0) == EnrichedFileName(inputs[i].0)))
    ensures ((pathExists(EnrichedPath(outputdir, inputs[i].0)) || EnrichedPath(outputdir, inputs[i].0) in written) && !force)
            || Enrichable(inputs[i].1, collect)
  {
    var path := EnrichedPath(outputdir, inputs[i].0);
    if !Enrichable(inputs[i].1, collect) && !pathExists(path) {
      var j :| 0 <= j < i && EnrichedFileName(inputs[j].0) == EnrichedFileName(inputs[i].0);
      assert EnrichedPath(outputdir, inputs[j].0) == path;
    }
  }

  /** After one more file, its output exists too. */
  lemma EarlierOutputsStep(inputs: seq<(string, Json)>, i: nat, outputdir: string, force: bool,
                           pathExists: string -> bool, written: set<string>, o: Outcome)
    requires i < |inputs|
    requires EarlierOutputsExist(inputs, i, outputdir, pathExists, written)
    requires o.outFile == EnrichedFileName(inputs[i].0)
    requires o.Skipped? ==> pathExists(EnrichedPath(outputdir, inputs[i].0)) || EnrichedPath(outputdir, inputs[i].0) in written
    ensures EarlierOutputsExist(inputs, i + 1, outputdir, pathExists,
                                written + (if o.Written? then {outputdir + "/" + o.outFile} else {}))
  {
  }

  /** One pass of the `enrich_records` loop: the file's outcome, given the files written
      so far. */
  method EnrichFile(input: (string, Json), outputdir: string, force: bool,
                    pathExists: string -> bool, written: set<string>, collect: Json -> seq<Json>,
                    search: string -> Option<seq<Json>>)
    returns (outcome: Outcome)
    requires SearchShaped(search)
    requires ((pathExists(EnrichedPath(outputdir, input.0)) || EnrichedPath(outputdir, input.0) in written) && !force)
             || Enrichable(input.1, collect)
    ensures OutcomeFits(outcome, input, outputdir, force, pathExists, written, collect, search)
  {
    var (filename, record) := input;
    var outFile := EnrichedFileName(filename);
    var outPath := outputdir + "/" + outFile;
    assert outPath == EnrichedPath(outputdir, filename);
    if (pathExists(outPath) || outPath in written) && !force {
      outcome := Skipped(outFile);
    } else {
      var enriched := EnrichRecord(record, collect, search);
      outcome := Written(outFile, enriched);
    }
  }

  /** Two inputs with the same base name: once the first is written, the second is
      skipped unless `force` is on. */
  lemma SecondSameNameSkipped(inputs: seq<(string, Json)>, outputdir: string, force: bool,
                              pathExists: string -> bool, collect: Json -> seq<Json>,
                              search: string -> Option<seq<Json>>, outcomes: seq<Outcome>, i: nat, j: nat)
    requires |outcomes| == |inputs|
    requires forall k :: 0 <= k < |inputs| ==>
      OutcomeFits(outcomes[k], inputs[k], outputdir, force, pathExists,
                  WrittenPaths(outputdir, outcomes[..k]), collect, search)
    requires i < j < |inputs| && EnrichedFileName(inputs[i].0) == EnrichedFileName(inputs[j].0)
    requires outcomes[i].Written?
    ensures outcomes[j].Skipped? <==> !force
  {
    var path := EnrichedPath(outputdir, inputs[j].0);
    assert path == outputdir + "/" + outcomes[i].outFile;
    assert outcomes[..j][i] == outcomes[i];
    WrittenPathsMembers(outputdir, outcomes[..j], path);
  }
}
