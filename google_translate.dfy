/**
  The Google Translate service: one call to the translation provider, then the
  normalisation of the provider's nested `extra_data` payload into a Word with a
  single Language (app/v1/services/google_translate.py).

  Each section of the payload has a specification function; the three sections
  that the source builds with nested loops (synonyms, definitions, all
  translations) also have a method with those loops, proved to compute the
  specification. A section is a list of part-of-speech groups; it is decoded
  group by group into a list of `(key, value)` pairs, and the dict the source
  builds is `Assign(map[], pairs)`, the result of writing the pairs in order.
 */
module GoogleTranslate {
  import opened Models
  import opened Payload
  import opened Dicts

  /** The provider's reply object: detected source, target, the original text, its translation and the raw payload. */
  datatype Translated = Translated(
    src: string,
    dest: string,
    origin: string,
    text: string,
    extraData: ExtraData)

  /** Synonym lists keyed by the opaque per-definition key. */
  type SynonymTable = map<Json, Json>

  // ---------------------------------------------------------------- synonyms

  /** One `group` of a synonyms list: `group[0]` is the synonym list, `group[1]` its key. */
  function SynonymPair(group: Json): (r: Result<(Json, Json)>)
    ensures r.Ok? <==> At(group, 0).Ok? && At(group, 1).Ok? && Hashable(At(group, 1).value)
    ensures r.Ok? ==> r.value == (At(group, 1).value, At(group, 0).value)
  {
    var synonyms :- At(group, 0);
    var key :- At(group, 1);
    if !Hashable(key) then Malformed else Ok((key, synonyms))
  }

  /** The `(key, synonyms)` pairs of a synonyms list, in order. */
  function SynonymPairs(groups: seq<Json>): (r: Result<seq<(Json, Json)>>)
    ensures r.Ok? <==> forall k :: 0 <= k < |groups| ==> SynonymPair(groups[k]).Ok?
    ensures r.Ok? ==> |r.value| == |groups|
    ensures r.Ok? ==> forall k :: 0 <= k < |groups| ==> SynonymPair(groups[k]) == Ok(r.value[k])
  {
    if groups == [] then Ok([])
    else
      var p :- SynonymPair(groups[0]);
      var rest :- SynonymPairs(groups[1..]);
      Ok([p] + rest)
  }

  /** One part-of-speech entry `part_of_speech, synonyms_list, *_`: its pairs. */
  function SynonymEntryPairs(entry: Json): (r: Result<seq<(Json, Json)>>)
    ensures UnpackAtLeast(entry, 2).Malformed? ==> r == Malformed
    ensures UnpackAtLeast(entry, 2).Ok? ==>
      var parts := UnpackAtLeast(entry, 2).value;
      && (r.Ok? <==> Items(parts[1]).Ok? && SynonymPairs(Items(parts[1]).value).Ok?)
      && (r.Ok? ==> r == SynonymPairs(Items(parts[1]).value))
  {
    var parts :- UnpackAtLeast(entry, 2);
    var groups :- Items(parts[1]);
    SynonymPairs(groups)
  }

  /** The pairs of all entries, concatenated: keys of every part of speech go into one table. */
  function SynonymEntriesPairs(entries: seq<Json>): (r: Result<seq<(Json, Json)>>)
    ensures r.Ok? <==> forall k :: 0 <= k < |entries| ==> SynonymEntryPairs(entries[k]).Ok?
    ensures r.Ok? && entries != [] ==>
      SynonymEntryPairs(entries[0]).value + SynonymEntriesPairs(entries[1..]).value == r.value
  {
    if entries == [] then Ok([])
    else
      var ps :- SynonymEntryPairs(entries[0]);
      var rest :- SynonymEntriesPairs(entries[1..]);
      Ok(ps + rest)
  }

  /** All `(key, synonyms)` pairs of the `synonyms` section, in the order the loops visit them. */
  function SynonymPairsOf(extra: ExtraData): (r: Result<seq<(Json, Json)>>)
    ensures r.Ok? <==> "synonyms" in extra && Items(extra["synonyms"]).Ok? && SynonymEntriesPairs(Items(extra["synonyms"]).value).Ok?
    ensures r.Ok? ==> r == SynonymEntriesPairs(Items(extra["synonyms"]).value)
  {
    var section :- Lookup(extra, "synonyms");
    var entries :- Items(section);
    SynonymEntriesPairs(entries)
  }

  /** `_get_synonyms_grouped_by_keys`: `None` for a falsy section, otherwise the key-to-synonyms dict. */
  function SynonymsGroupedByKeys(extra: ExtraData): (r: Result<Option<SynonymTable>>)
    ensures "synonyms" !in extra ==> r == Malformed
    ensures "synonyms" in extra && !Truthy(extra["synonyms"]) ==> r == Ok(None)
    ensures r.Ok? && r.value.Some? ==> SynonymPairsOf(extra).Ok? && r.value.value == Assign(map[], SynonymPairsOf(extra).value)
    ensures "synonyms" in extra && Truthy(extra["synonyms"]) ==>
      (r.Ok? <==> SynonymPairsOf(extra).Ok?) && (r.Ok? ==> r.value.Some?)
  {
    var section :- Lookup(extra, "synonyms");
    if !Truthy(section) then Ok(None)
    else
      var pairs :- SynonymPairsOf(extra);
      Ok(Some(Assign(map[], pairs)))
  }

  /** The outer loop of `_get_synonyms_grouped_by_keys`, over the part-of-speech entries. */
  method GetSynonymsGroupedByKeys(extra: ExtraData) returns (r: Result<Option<SynonymTable>>)
    ensures r == SynonymsGroupedByKeys(extra)
  {
    var section :- Lookup(extra, "synonyms");
    if !Truthy(section) {
      return Ok(None);
    }
    var entries :- Items(section);
    var result: SynonymTable := map[];
    ghost var done: seq<(Json, Json)> := [];
    assert entries[0..] == entries;
    PrependEmpty(SynonymEntriesPairs(entries));
    for i := 0 to |entries|
      invariant result == Assign(map[], done)
      invariant SynonymEntriesPairs(entries) == Prepend(done, SynonymEntriesPairs(entries[i..]))
    {
      assert entries[i..][0] == entries[i] && entries[i..][1..] == entries[i + 1..];
      var parts :- UnpackAtLeast(entries[i], 2);
      var synonymsList :- Items(parts[1]);
      ghost var pairs := SynonymPairs(synonymsList);
      assert SynonymEntryPairs(entries[i]) == pairs;
      result :- AddSynonyms(result, synonymsList);
      AssignConcat(map[], done, pairs.value);
      PrependConcat(done, pairs.value, SynonymEntriesPairs(entries[i + 1..]));
      done := done + pairs.value;
    }
    assert entries[|entries|..] == [];
    assert done + [] == done;
    return Ok(Some(result));
  }

  /** The pairs from group `j` on: group `j`'s pair, then the pairs of the rest. */
  lemma SynonymPairsStep(groups: seq<Json>, j: nat)
    requires j < |groups|
    ensures SynonymPairs(groups[j..]) ==
      if SynonymPair(groups[j]).Ok? then Prepend([SynonymPair(groups[j]).value], SynonymPairs(groups[j + 1..])) else Malformed
  {
    assert groups[j..][0] == groups[j] && groups[j..][1..] == groups[j + 1..];
  }

  /** The inner loop of `_get_synonyms_grouped_by_keys`: `result[group[1]] = group[0]` for each group. */
  method AddSynonyms(result: SynonymTable, synonymsList: seq<Json>) returns (r: Result<SynonymTable>)
    ensures r.Ok? <==> SynonymPairs(synonymsList).Ok?
    ensures r.Ok? ==> r.value == Assign(result, SynonymPairs(synonymsList).value)
  {
    var table := result;
    ghost var added: seq<(Json, Json)> := [];
    assert synonymsList[0..] == synonymsList;
    PrependEmpty(SynonymPairs(synonymsList));
    for j := 0 to |synonymsList|
      invariant table == Assign(result, added)
      invariant SynonymPairs(synonymsList) == Prepend(added, SynonymPairs(synonymsList[j..]))
    {
      SynonymPairsStep(synonymsList, j);
      var group := synonymsList[j];
      var synonyms :- At(group, 0);
      var key :- At(group, 1);
      if !Hashable(key) {
        return Malformed;
      }
      assert SynonymPair(group) == Ok((key, synonyms));
      AssignSnoc(result, added, (key, synonyms));
      PrependConcat(added, [(key, synonyms)], SynonymPairs(synonymsList[j + 1..]));
      table := table[key := synonyms];
      added := added + [(key, synonyms)];
    }
    assert synonymsList[|synonymsList|..] == [];
    assert added + [] == added;
    return Ok(table);
  }

  /** The synonym table maps every key of any part of speech to the list its last group gave it. */
  lemma SynonymTableLastWins(extra: ExtraData, table: SynonymTable, pairs: seq<(Json, Json)>)
    requires SynonymsGroupedByKeys(extra) == Ok(Some(table))
    requires SynonymPairsOf(extra) == Ok(pairs)
    ensures table.Keys == KeysOf(pairs)
    ensures forall j :: 0 <= j < |pairs| && LastOfKey(pairs, j) ==> table[pairs[j].0] == pairs[j].1
  {
    AssignKeys(map[], pairs);
    forall j | 0 <= j < |pairs| && LastOfKey(pairs, j)
      ensures table[pairs[j].0] == pairs[j].1
    {
      AssignLastWins(map[], pairs, j);
    }
  }

  /** The pairs of two runs of entries are the pairs of the first run followed by those of the second. */
  lemma {:induction false} SynonymEntriesPairsAppend(a: seq<Json>, b: seq<Json>)
    ensures SynonymEntriesPairs(a).Malformed? ==> SynonymEntriesPairs(a + b) == Malformed
    ensures SynonymEntriesPairs(a).Ok? ==> SynonymEntriesPairs(a + b) == Prepend(SynonymEntriesPairs(a).value, SynonymEntriesPairs(b))
  {
    if a == [] {
      assert a + b == b;
      PrependEmpty(SynonymEntriesPairs(b));
    } else {
      assert (a + b)[0] == a[0] && (a + b)[1..] == a[1..] + b;
      SynonymEntriesPairsAppend(a[1..], b);
      if SynonymEntriesPairs(a).Ok? {
        PrependConcat(SynonymEntryPairs(a[0]).value, SynonymEntriesPairs(a[1..]).value, SynonymEntriesPairs(b));
      }
    }
  }

  /** The pairs of entry `e` sit, in order, right after the pairs of the entries before it. */
  lemma SynonymGroupPosition(entries: seq<Json>, e: nat, g: nat)
    requires SynonymEntriesPairs(entries).Ok? && e < |entries|
    requires SynonymEntryPairs(entries[e]).Ok? && g < |SynonymEntryPairs(entries[e]).value|
    ensures SynonymEntriesPairs(entries[..e]).Ok?
    ensures var offset := |SynonymEntriesPairs(entries[..e]).value|;
      && offset + g < |SynonymEntriesPairs(entries).value|
      && SynonymEntriesPairs(entries).value[offset + g] == SynonymEntryPairs(entries[e]).value[g]
  {
    assert entries == entries[..e] + entries[e..];
    SynonymEntriesPairsAppend(entries[..e], entries[e..]);
    assert entries[e..][0] == entries[e];
  }

  /**
    Every group of every part of speech puts its key into the one synonym
    table; the key holds that group's synonyms unless a later group, of any
    part of speech, writes the same key.
   */
  lemma SynonymGroupInTable(extra: ExtraData, table: SynonymTable, entries: seq<Json>, e: nat, g: nat)
    requires SynonymsGroupedByKeys(extra) == Ok(Some(table))
    requires Items(extra["synonyms"]) == Ok(entries) && e < |entries|
    requires SynonymEntryPairs(entries[e]).Ok? && g < |SynonymEntryPairs(entries[e]).value|
    ensures SynonymEntryPairs(entries[e]).value[g].0 in table
    ensures SynonymEntriesPairs(entries[..e]).Ok?
    ensures var j := |SynonymEntriesPairs(entries[..e]).value| + g;
      && j < |SynonymPairsOf(extra).value|
      && (LastOfKey(SynonymPairsOf(extra).value, j) ==> table[SynonymEntryPairs(entries[e]).value[g].0] == SynonymEntryPairs(entries[e]).value[g].1)
  {
    assert SynonymPairsOf(extra) == SynonymEntriesPairs(entries);
    var pairs := SynonymPairsOf(extra).value;
    SynonymGroupPosition(entries, e, g);
    var j := |SynonymEntriesPairs(entries[..e]).value| + g;
    assert pairs[j] == SynonymEntryPairs(entries[e]).value[g];
    SynonymTableLastWins(extra, table, pairs);
  }

  // ------------------------------------------------------------- definitions

  /** `grouped_synonyms` is truthy: a non-empty dict. */
  predicate HasSynonyms(table: Option<SynonymTable>) {
    table.Some? && |table.value| > 0
  }

  /** One entry `definition, key, *context` of a definitions list. */
  function DefinitionItem(table: Option<SynonymTable>, entry: Json): (r: Result<Definition>)
    ensures Items(entry).Malformed? || |Items(entry).value| < 2 ==> r == Malformed
    ensures Items(entry).Ok? && |Items(entry).value| >= 2 ==>
      var parts := Items(entry).value;
      r.Ok? <==>
        && AsOptStr(parts[0]).Ok?
        && (HasSynonyms(table) ==> Hashable(parts[1]) && AsOptStrList(Get(table.value, parts[1], List([]))).Ok?)
        && (|parts| > 2 ==> AsOptStr(parts[2]).Ok?)
        && (|parts| > 3 ==> At(parts[3], 0).Ok? && AsOptStrList(At(parts[3], 0).value).Ok?)
    ensures r.Ok? ==>
      var parts := Items(entry).value;
      && AsOptStr(parts[0]) == Ok(r.value.definition)
      && (HasSynonyms(table) ==> Hashable(parts[1]) && AsOptStrList(Get(table.value, parts[1], List([]))) == Ok(r.value.synonyms))
      && (!HasSynonyms(table) ==> r.value.synonyms == None)
      && (|parts| == 2 ==> r.value.example == None)
      && (|parts| > 2 ==> AsOptStr(parts[2]) == Ok(r.value.example))
      && (|parts| <= 3 ==> r.value.context == None)
      && (|parts| > 3 ==> At(parts[3], 0).Ok? && AsOptStrList(At(parts[3], 0).value) == Ok(r.value.context))
  {
    var parts :- UnpackAtLeast(entry, 2);
    var key, context := parts[1], parts[2..];
    var text :- AsOptStr(parts[0]);
    var item := Definition(text);
    var withSynonyms :-
      if !HasSynonyms(table) then Ok(item)
      else if !Hashable(key) then Malformed
      else
        var synonyms :- AsOptStrList(Get(table.value, key, List([])));
        Ok(item.(synonyms := synonyms));
    if |context| == 0 then Ok(withSynonyms)
    else
      var example :- AsOptStr(context[0]);
      if |context| == 1 then Ok(withSynonyms.(example := example))
      else
        var first :- At(context[1], 0);
        var contextList :- AsOptStrList(first);
        Ok(withSynonyms.(example := example, context := contextList))
  }

  /** The Definitions of one definitions list, in order. */
  function DefinitionList(table: Option<SynonymTable>, items: seq<Json>): (r: Result<seq<Definition>>)
    ensures r.Ok? <==> forall k :: 0 <= k < |items| ==> DefinitionItem(table, items[k]).Ok?
    ensures r.Ok? ==> |r.value| == |items|
    ensures r.Ok? ==> forall k :: 0 <= k < |items| ==> DefinitionItem(table, items[k]) == Ok(r.value[k])
  {
    if items == [] then Ok([])
    else
      var d :- DefinitionItem(table, items[0]);
      var rest :- DefinitionList(table, items[1..]);
      Ok([d] + rest)
  }

  /** One entry `part_of_speech, definitions_list, _, _` of the definitions section. */
  function DefinitionGroup(table: Option<SynonymTable>, entry: Json): (r: Result<(string, seq<Definition>)>)
    ensures UnpackExactly(entry, 4).Malformed? ==> r == Malformed
    ensures UnpackExactly(entry, 4).Ok? ==>
      var parts := UnpackExactly(entry, 4).value;
      && (r.Ok? <==> parts[0].Str? && Items(parts[1]).Ok? && DefinitionList(table, Items(parts[1]).value).Ok?)
      && (r.Ok? ==> r.value == (parts[0].s, DefinitionList(table, Items(parts[1]).value).value))
  {
    var parts :- UnpackExactly(entry, 4);
    var partOfSpeech :- AsStr(parts[0]);
    var items :- Items(parts[1]);
    var definitions :- DefinitionList(table, items);
    Ok((partOfSpeech, definitions))
  }

  /** The `(part of speech, definitions)` pairs of the definitions section, in order. */
  function DefinitionGroups(table: Option<SynonymTable>, entries: seq<Json>): (r: Result<seq<(string, seq<Definition>)>>)
    ensures r.Ok? <==> forall k :: 0 <= k < |entries| ==> DefinitionGroup(table, entries[k]).Ok?
    ensures r.Ok? ==> |r.value| == |entries|
    ensures r.Ok? ==> forall k :: 0 <= k < |entries| ==> DefinitionGroup(table, entries[k]) == Ok(r.value[k])
  {
    if entries == [] then Ok([])
    else
      var g :- DefinitionGroup(table, entries[0]);
      var rest :- DefinitionGroups(table, entries[1..]);
      Ok([g] + rest)
  }

  /** `_get_definitions`: absent for a falsy section, otherwise the definitions by part of speech. */
  function DefinitionsOf(extra: ExtraData): (r: Result<Option<map<string, seq<Definition>>>>)
    ensures "definitions" !in extra ==> r == Malformed
    ensures "definitions" in extra && !Truthy(extra["definitions"]) ==> r == Ok(None)
    ensures "definitions" in extra && Truthy(extra["definitions"]) ==>
      && (r.Ok? <==>
            && SynonymsGroupedByKeys(extra).Ok?
            && Items(extra["definitions"]).Ok?
            && DefinitionGroups(SynonymsGroupedByKeys(extra).value, Items(extra["definitions"]).value).Ok?)
      && (r.Ok? ==>
            r.value == Some(Assign(map[], DefinitionGroups(SynonymsGroupedByKeys(extra).value, Items(extra["definitions"]).value).value)))
  {
    var section :- Lookup(extra, "definitions");
    if !Truthy(section) then Ok(None)
    else
      var table :- SynonymsGroupedByKeys(extra);
      var entries :- Items(section);
      var groups :- DefinitionGroups(table, entries);
      Ok(Some(Assign(map[], groups)))
  }

  /** The outer loop of `_get_definitions`, over the part-of-speech entries. */
  method GetDefinitions(extra: ExtraData) returns (r: Result<Option<map<string, seq<Definition>>>>)
    ensures r == DefinitionsOf(extra)
  {
    var section :- Lookup(extra, "definitions");
    if !Truthy(section) {
      return Ok(None);
    }
    var result: map<string, seq<Definition>> := map[];
    var groupedSynonyms :- GetSynonymsGroupedByKeys(extra);
    var entries :- Items(section);
    ghost var done: seq<(string, seq<Definition>)> := [];
    assert entries[0..] == entries;
    PrependEmpty(DefinitionGroups(groupedSynonyms, entries));
    for i := 0 to |entries|
      invariant result == Assign(map[], done)
      invariant DefinitionGroups(groupedSynonyms, entries) == Prepend(done, DefinitionGroups(groupedSynonyms, entries[i..]))
    {
      assert entries[i..][0] == entries[i] && entries[i..][1..] == entries[i + 1..];
      result :- AddDefinitionGroup(result, groupedSynonyms, entries[i]);
      ghost var group := DefinitionGroup(groupedSynonyms, entries[i]).value;
      PrependConcat(done, [group], DefinitionGroups(groupedSynonyms, entries[i + 1..]));
      AssignSnoc(map[], done, group);
      done := done + [group];
    }
    assert entries[|entries|..] == [];
    assert done + [] == done;
    return Ok(Some(result));
  }

  /** One pass of the outer loop of `_get_definitions`: unpack the entry and store its definitions under its part of speech. */
  method AddDefinitionGroup(result: map<string, seq<Definition>>, groupedSynonyms: Option<SynonymTable>, entry: Json)
    returns (r: Result<map<string, seq<Definition>>>)
    ensures r.Ok? <==> DefinitionGroup(groupedSynonyms, entry).Ok?
    ensures r.Ok? ==> r.value == result[DefinitionGroup(groupedSynonyms, entry).value.0 := DefinitionGroup(groupedSynonyms, entry).value.1]
  {
    var parts :- UnpackExactly(entry, 4);
    var partOfSpeech :- AsStr(parts[0]);
    var definitionsList :- Items(parts[1]);
    var table := result[partOfSpeech := []];
    r := AddDefinitions(table, partOfSpeech, groupedSynonyms, definitionsList);
    if r.Ok? {
      assert [] + DefinitionList(groupedSynonyms, definitionsList).value == DefinitionList(groupedSynonyms, definitionsList).value;
    }
  }

  /** The definitions from entry `j` on: entry `j`'s Definition, then those of the rest. */
  lemma DefinitionListStep(table: Option<SynonymTable>, items: seq<Json>, j: nat)
    requires j < |items|
    ensures DefinitionList(table, items[j..]) ==
      if DefinitionItem(table, items[j]).Ok? then Prepend([DefinitionItem(table, items[j]).value], DefinitionList(table, items[j + 1..]))
      else Malformed
  {
    assert items[j..][0] == items[j] && items[j..][1..] == items[j + 1..];
  }

  /** The inner loop of `_get_definitions`: append each built item to `result[partOfSpeech]`. */
  method AddDefinitions(result: map<string, seq<Definition>>, partOfSpeech: string, groupedSynonyms: Option<SynonymTable>,
                        definitionsList: seq<Json>) returns (r: Result<map<string, seq<Definition>>>)
    requires partOfSpeech in result
    ensures r.Ok? <==> DefinitionList(groupedSynonyms, definitionsList).Ok?
    ensures r.Ok? ==> r.value == result[partOfSpeech := result[partOfSpeech] + DefinitionList(groupedSynonyms, definitionsList).value]
  {
    var table := result;
    ghost var items: seq<Definition> := [];
    assert definitionsList[0..] == definitionsList;
    assert result[partOfSpeech] + [] == result[partOfSpeech];
    PrependEmpty(DefinitionList(groupedSynonyms, definitionsList));
    for j := 0 to |definitionsList|
      invariant table == result[partOfSpeech := result[partOfSpeech] + items]
      invariant DefinitionList(groupedSynonyms, definitionsList) == Prepend(items, DefinitionList(groupedSynonyms, definitionsList[j..]))
    {
      DefinitionListStep(groupedSynonyms, definitionsList, j);
      var item :- BuildDefinition(groupedSynonyms, definitionsList[j]);
      assert result[partOfSpeech] + items + [item] == result[partOfSpeech] + (items + [item]);
      table := table[partOfSpeech := table[partOfSpeech] + [item]];
      PrependConcat(items, [item], DefinitionList(groupedSynonyms, definitionsList[j + 1..]));
      items := items + [item];
    }
    assert definitionsList[|definitionsList|..] == [];
    assert items + [] == items;
    return Ok(table);
  }

  /** The body of the inner loop of `_get_definitions`: build the item, then set its optional fields. */
  method BuildDefinition(groupedSynonyms: Option<SynonymTable>, entry: Json) returns (r: Result<Definition>)
    ensures r == DefinitionItem(groupedSynonyms, entry)
  {
    var fields :- UnpackAtLeast(entry, 2);
    var definition, key, context := fields[0], fields[1], fields[2..];
    var text :- AsOptStr(definition);
    var item := Definition(text);
    if HasSynonyms(groupedSynonyms) {
      if !Hashable(key) {
        return Malformed;
      }
      var synonyms :- AsOptStrList(Get(groupedSynonyms.value, key, List([])));
      item := item.(synonyms := synonyms);
    }
    if |context| > 0 {
      var example :- AsOptStr(context[0]);
      item := item.(example := example);
      if |context| > 1 {
        var first :- At(context[1], 0);
        var contextList :- AsOptStrList(first);
        item := item.(context := contextList);
      }
    }
    return Ok(item);
  }

  /** A definition never gets a synonyms list when the synonym table is absent or empty. */
  lemma {:induction false} DefinitionsWithoutSynonyms(extra: ExtraData, definitions: map<string, seq<Definition>>, table: Option<SynonymTable>)
    requires DefinitionsOf(extra) == Ok(Some(definitions))
    requires SynonymsGroupedByKeys(extra) == Ok(table) && !HasSynonyms(table)
    ensures forall pos, k :: pos in definitions && 0 <= k < |definitions[pos]| ==> definitions[pos][k].synonyms == None
  {
    var entries := Items(extra["definitions"]).value;
    var groups := DefinitionGroups(table, entries).value;
    forall pos, k | pos in definitions && 0 <= k < |definitions[pos]|
      ensures definitions[pos][k].synonyms == None
    {
      AssignValueFrom(map[], groups, pos);
      var j :| 0 <= j < |groups| && groups[j] == (pos, definitions[pos]);
      var parts := Items(entries[j]).value;
      var items := Items(parts[1]).value;
      assert DefinitionList(table, items) == Ok(definitions[pos]);
      assert DefinitionItem(table, items[k]) == Ok(definitions[pos][k]);
    }
  }

  /** A repeated part of speech replaces the earlier group: each part of speech holds its last group's list. */
  lemma DefinitionsLastWins(extra: ExtraData, definitions: map<string, seq<Definition>>, table: Option<SynonymTable>, groups: seq<(string, seq<Definition>)>)
    requires DefinitionsOf(extra) == Ok(Some(definitions))
    requires SynonymsGroupedByKeys(extra) == Ok(table)
    requires DefinitionGroups(table, Items(extra["definitions"]).value) == Ok(groups)
    ensures definitions.Keys == KeysOf(groups)
    ensures forall j :: 0 <= j < |groups| && LastOfKey(groups, j) ==> definitions[groups[j].0] == groups[j].1
  {
    AssignKeys(map[], groups);
    forall j | 0 <= j < |groups| && LastOfKey(groups, j)
      ensures definitions[groups[j].0] == groups[j].1
    {
      AssignLastWins(map[], groups, j);
    }
  }

  // ---------------------------------------------------------------- examples

  /** The first element of each example entry, in order. */
  function ExampleList(examples: seq<Json>): (r: Result<seq<string>>)
    ensures r.Ok? <==> forall k :: 0 <= k < |examples| ==> At(examples[k], 0).Ok? && At(examples[k], 0).value.Str?
    ensures r.Ok? ==> |r.value| == |examples|
    ensures r.Ok? ==> forall k :: 0 <= k < |examples| ==> At(examples[k], 0) == Ok(Str(r.value[k]))
  {
    if examples == [] then Ok([])
    else
      var first :- At(examples[0], 0);
      var text :- AsStr(first);
      var rest :- ExampleList(examples[1..]);
      Ok([text] + rest)
  }

  /** `_get_examples`: `[]` for a falsy section, otherwise the first element of each entry of `examples[0]`. */
  function ExamplesOf(section: Json): (r: Result<seq<string>>)
    ensures !Truthy(section) ==> r == Ok([])
    ensures Truthy(section) && r.Ok? ==>
      At(section, 0).Ok? && Items(At(section, 0).value).Ok? && ExampleList(Items(At(section, 0).value).value) == r
    ensures Truthy(section) ==>
      (r.Ok? <==> At(section, 0).Ok? && Items(At(section, 0).value).Ok? && ExampleList(Items(At(section, 0).value).value).Ok?)
  {
    if !Truthy(section) then Ok([])
    else
      var group :- At(section, 0);
      var examples :- Items(group);
      ExampleList(examples)
  }

  // ------------------------------------------------------------ translations

  /** One entry `word` of a translations list: text `word[0]`, alternates `word[1]`, confidence `word[-1]` when a float. */
  function TranslationItem(w: Json): (r: Result<Translation>)
    ensures Items(w).Malformed? || |Items(w).value| < 2 ==> r == Malformed
    ensures Items(w).Ok? && |Items(w).value| >= 2 ==>
      (r.Ok? <==> Items(w).value[0].Str? && AsStrList(Items(w).value[1]).Ok?)
    ensures r.Ok? ==>
      var parts := Items(w).value;
      var last := parts[|parts| - 1];
      && parts[0] == Str(r.value.text)
      && AsStrList(parts[1]) == Ok(r.value.translations)
      && (r.value.confidence.Some? <==> last.Float?)
      && (last.Float? ==> r.value.confidence == Some(last.x))
  {
    var parts :- Items(w);
    // `word[-1]`, `word[0]` and `word[1]` all exist exactly when there are two items
    if |parts| < 2 then Malformed
    else
      var last := parts[|parts| - 1];
      var confidence := if last.Float? then Some(last.x) else None;
      var text :- AsStr(parts[0]);
      var alternates :- AsStrList(parts[1]);
      Ok(Translation(text, alternates, confidence))
  }

  /** The Translations of one translations list, in order. */
  function TranslationList(items: seq<Json>): (r: Result<seq<Translation>>)
    ensures r.Ok? <==> forall k :: 0 <= k < |items| ==> TranslationItem(items[k]).Ok?
    ensures r.Ok? ==> |r.value| == |items|
    ensures r.Ok? ==> forall k :: 0 <= k < |items| ==> TranslationItem(items[k]) == Ok(r.value[k])
  {
    if items == [] then Ok([])
    else
      var t :- TranslationItem(items[0]);
      var rest :- TranslationList(items[1..]);
      Ok([t] + rest)
  }

  /** One entry `part_of_speech, _, translation, *_` of the all-translations section. */
  function TranslationGroup(entry: Json): (r: Result<(string, seq<Translation>)>)
    ensures UnpackAtLeast(entry, 3).Malformed? ==> r == Malformed
    ensures UnpackAtLeast(entry, 3).Ok? ==>
      var parts := UnpackAtLeast(entry, 3).value;
      && (r.Ok? <==> parts[0].Str? && Items(parts[2]).Ok? && TranslationList(Items(parts[2]).value).Ok?)
      && (r.Ok? ==> r.value == (parts[0].s, TranslationList(Items(parts[2]).value).value))
  {
    var parts :- UnpackAtLeast(entry, 3);
    var partOfSpeech :- AsStr(parts[0]);
    var items :- Items(parts[2]);
    var translations :- TranslationList(items);
    Ok((partOfSpeech, translations))
  }

  /** The `(part of speech, translations)` pairs of the all-translations section, in order. */
  function TranslationGroups(entries: seq<Json>): (r: Result<seq<(string, seq<Translation>)>>)
    ensures r.Ok? <==> forall k :: 0 <= k < |entries| ==> TranslationGroup(entries[k]).Ok?
    ensures r.Ok? ==> |r.value| == |entries|
    ensures r.Ok? ==> forall k :: 0 <= k < |entries| ==> TranslationGroup(entries[k]) == Ok(r.value[k])
  {
    if entries == [] then Ok([])
    else
      var g :- TranslationGroup(entries[0]);
      var rest :- TranslationGroups(entries[1..]);
      Ok([g] + rest)
  }

  /** `_get_translations`: absent for a falsy section, otherwise the translations by part of speech. */
  function TranslationsOf(extra: ExtraData): (r: Result<Option<map<string, seq<Translation>>>>)
    ensures "all-translations" !in extra ==> r == Malformed
    ensures "all-translations" in extra && !Truthy(extra["all-translations"]) ==> r == Ok(None)
    ensures "all-translations" in extra && Truthy(extra["all-translations"]) ==>
      && (r.Ok? <==> Items(extra["all-translations"]).Ok? && TranslationGroups(Items(extra["all-translations"]).value).Ok?)
      && (r.Ok? ==> r.value == Some(Assign(map[], TranslationGroups(Items(extra["all-translations"]).value).value)))
  {
    var section :- Lookup(extra, "all-translations");
    if !Truthy(section) then Ok(None)
    else
      var entries :- Items(section);
      var groups :- TranslationGroups(entries);
      Ok(Some(Assign(map[], groups)))
  }

  /** The outer loop of `_get_translations`, over the part-of-speech entries. */
  method GetTranslations(extra: ExtraData) returns (r: Result<Option<map<string, seq<Translation>>>>)
    ensures r == TranslationsOf(extra)
  {
    var section :- Lookup(extra, "all-translations");
    if !Truthy(section) {
      return Ok(None);
    }
    var result: map<string, seq<Translation>> := map[];
    var entries :- Items(section);
    ghost var done: seq<(string, seq<Translation>)> := [];
    assert entries[0..] == entries;
    PrependEmpty(TranslationGroups(entries));
    for i := 0 to |entries|
      invariant result == Assign(map[], done)
      invariant TranslationGroups(entries) == Prepend(done, TranslationGroups(entries[i..]))
    {
      assert entries[i..][0] == entries[i] && entries[i..][1..] == entries[i + 1..];
      result :- AddTranslationGroup(result, entries[i]);
      ghost var group := TranslationGroup(entries[i]).value;
      PrependConcat(done, [group], TranslationGroups(entries[i + 1..]));
      AssignSnoc(map[], done, group);
      done := done + [group];
    }
    assert entries[|entries|..] == [];
    assert done + [] == done;
    return Ok(Some(result));
  }

  /** One pass of the outer loop of `_get_translations`: unpack the entry and store its translations under its part of speech. */
  method AddTranslationGroup(result: map<string, seq<Translation>>, entry: Json) returns (r: Result<map<string, seq<Translation>>>)
    ensures r.Ok? <==> TranslationGroup(entry).Ok?
    ensures r.Ok? ==> r.value == result[TranslationGroup(entry).value.0 := TranslationGroup(entry).value.1]
  {
    var parts :- UnpackAtLeast(entry, 3);
    var partOfSpeech :- AsStr(parts[0]);
    var translation :- Items(parts[2]);
    var table := result[partOfSpeech := []];
    r := AddTranslations(table, partOfSpeech, translation);
    if r.Ok? {
      assert [] + TranslationList(translation).value == TranslationList(translation).value;
    }
  }

  /** The translations from word `j` on: word `j`'s Translation, then those of the rest. */
  lemma TranslationListStep(items: seq<Json>, j: nat)
    requires j < |items|
    ensures TranslationList(items[j..]) ==
      if TranslationItem(items[j]).Ok? then Prepend([TranslationItem(items[j]).value], TranslationList(items[j + 1..])) else Malformed
  {
    assert items[j..][0] == items[j] && items[j..][1..] == items[j + 1..];
  }

  /** The inner loop of `_get_translations`: append one Translation per word to `result[partOfSpeech]`. */
  method AddTranslations(result: map<string, seq<Translation>>, partOfSpeech: string, translation: seq<Json>)
    returns (r: Result<map<string, seq<Translation>>>)
    requires partOfSpeech in result
    ensures r.Ok? <==> TranslationList(translation).Ok?
    ensures r.Ok? ==> r.value == result[partOfSpeech := result[partOfSpeech] + TranslationList(translation).value]
  {
    var table := result;
    ghost var items: seq<Translation> := [];
    assert translation[0..] == translation;
    assert result[partOfSpeech] + [] == result[partOfSpeech];
    PrependEmpty(TranslationList(translation));
    for j := 0 to |translation|
      invariant table == result[partOfSpeech := result[partOfSpeech] + items]
      invariant TranslationList(translation) == Prepend(items, TranslationList(translation[j..]))
    {
      TranslationListStep(translation, j);
      var item :- BuildTranslation(translation[j]);
      assert result[partOfSpeech] + items + [item] == result[partOfSpeech] + (items + [item]);
      table := table[partOfSpeech := table[partOfSpeech] + [item]];
      PrependConcat(items, [item], TranslationList(translation[j + 1..]));
      items := items + [item];
    }
    assert translation[|translation|..] == [];
    assert items + [] == items;
    return Ok(table);
  }

  /** The body of the inner loop of `_get_translations`: the confidence when `word[-1]` is a float, then the item. */
  method BuildTranslation(word: Json) returns (r: Result<Translation>)
    ensures r == TranslationItem(word)
  {
    var parts :- Items(word);
    if |parts| < 2 {
      return Malformed;
    }
    var confidence := if parts[|parts| - 1].Float? then Some(parts[|parts| - 1].x) else None;
    var text :- AsStr(parts[0]);
    var alternates :- AsStrList(parts[1]);
    return Ok(Translation(text, alternates, confidence));
  }

  /** A repeated part of speech replaces the earlier group of translations. */
  lemma TranslationsLastWins(extra: ExtraData, translations: map<string, seq<Translation>>, groups: seq<(string, seq<Translation>)>)
    requires TranslationsOf(extra) == Ok(Some(translations))
    requires TranslationGroups(Items(extra["all-translations"]).value) == Ok(groups)
    ensures translations.Keys == KeysOf(groups)
    ensures forall j :: 0 <= j < |groups| && LastOfKey(groups, j) ==> translations[groups[j].0] == groups[j].1
  {
    AssignKeys(map[], groups);
    forall j | 0 <= j < |groups| && LastOfKey(groups, j)
      ensures translations[groups[j].0] == groups[j].1
    {
      AssignLastWins(map[], groups, j);
    }
  }

  // ------------------------------------------------------- language and word

  /** `extra_data.get('confidence', None)` stored in a `float | None` field (an int or bool is widened). */
  function ConfidenceOf(extra: ExtraData): (r: Result<Option<real>>)
    ensures "confidence" !in extra ==> r == Ok(None)
    ensures "confidence" in extra && extra["confidence"].Null? ==> r == Ok(None)
    ensures "confidence" in extra && extra["confidence"].Float? ==> r == Ok(Some(extra["confidence"].x))
    ensures "confidence" in extra && (extra["confidence"].Str? || extra["confidence"].List?) ==> r == Malformed
  {
    if "confidence" !in extra then Ok(None)
    else
      match extra["confidence"]
      case Null => Ok(None)
      case Float(x) => Ok(Some(x))
      case Int(i) => Ok(Some(i as real))
      case Bool(b) => Ok(Some(if b then 1.0 else 0.0))
      case _ => Malformed
  }

  /** The items of the last element of the `translation` section, which carry the pronunciations. */
  function PronunciationHints(extra: ExtraData): (r: Result<seq<Json>>)
    ensures r.Ok? <==> "translation" in extra && At(extra["translation"], -1).Ok? && Items(At(extra["translation"], -1).value).Ok?
    ensures r.Ok? ==> r == Items(At(extra["translation"], -1).value)
  {
    var translation :- Lookup(extra, "translation");
    var last :- At(translation, -1);
    Items(last)
  }

  /** `extra_data['translation'][-1][-n]`, for `n >= 1`, stored in an `Optional[str]` field. */
  function HintFromEnd(extra: ExtraData, n: nat): (r: Result<Option<string>>)
    ensures r.Ok? <==>
      var hints := PronunciationHints(extra);
      hints.Ok? && 1 <= n <= |hints.value| && AsOptStr(hints.value[|hints.value| - n]).Ok?
    ensures r.Ok? ==>
      var hints := PronunciationHints(extra).value;
      r == AsOptStr(hints[|hints| - n])
  {
    var hints :- PronunciationHints(extra);
    if 1 <= n <= |hints| then AsOptStr(hints[|hints| - n]) else Malformed
  }

  /** `_get_language`: the one Language view of the reply. */
  function LanguageOf(data: Translated): (r: Result<Language>)
    ensures r.Ok? <==>
      var extra := data.extraData;
      && ConfidenceOf(extra).Ok?
      && HintFromEnd(extra, 2).Ok?
      && DefinitionsOf(extra).Ok?
      && "examples" in extra && ExamplesOf(extra["examples"]).Ok?
      && TranslationsOf(extra).Ok?
    ensures r.Ok? ==> r.value.text == data.text && r.value.examples.Some?
    ensures r.Ok? ==> HintFromEnd(data.extraData, 2) == Ok(r.value.pronunciation)
    ensures r.Ok? ==>
      && ConfidenceOf(data.extraData) == Ok(r.value.confidence)
      && DefinitionsOf(data.extraData) == Ok(r.value.definitions)
      && "examples" in data.extraData
      && ExamplesOf(data.extraData["examples"]) == Ok(r.value.examples.value)
      && TranslationsOf(data.extraData) == Ok(r.value.translations)
    ensures (|| ConfidenceOf(data.extraData).Malformed?
             || DefinitionsOf(data.extraData).Malformed?
             || TranslationsOf(data.extraData).Malformed?) ==> r == Malformed
  {
    var extra := data.extraData;
    var confidence :- ConfidenceOf(extra);
    var pronunciation :- HintFromEnd(extra, 2);
    var definitions :- DefinitionsOf(extra);
    var section :- Lookup(extra, "examples");
    var examples :- ExamplesOf(section);
    var translations :- TranslationsOf(extra);
    Ok(Language(data.text, confidence, pronunciation, definitions, Some(examples), translations := translations))
  }

  /** `get_model`: the Word for the reply, holding exactly one language, the reply's target. */
  function ModelOf(data: Translated): (r: Result<Word>)
    ensures r.Ok? ==> r.value.word == Some(data.origin) && r.value.language == Some(data.src)
    ensures r.Ok? ==> r.value.languages.Keys == {data.dest} && LanguageOf(data) == Ok(r.value.languages[data.dest])
    ensures r.Ok? ==> HintFromEnd(data.extraData, 1) == Ok(r.value.pronunciation)
  {
    var pronunciation :- HintFromEnd(data.extraData, 1);
    var language :- LanguageOf(data);
    Ok(Word(Some(data.origin), Some(data.src), pronunciation, map[data.dest := language]))
  }

  /** `get_model` succeeds exactly when `get_language` does and the last pronunciation hint is a string or null. */
  lemma ModelOfSucceeds(data: Translated)
    ensures ModelOf(data).Ok? <==> LanguageOf(data).Ok? && HintFromEnd(data.extraData, 1).Ok?
  {
  }

  method GetLanguage(data: Translated) returns (r: Result<Language>)
    ensures r == LanguageOf(data)
  {
    var extra := data.extraData;
    var confidence :- ConfidenceOf(extra);
    var pronunciation :- HintFromEnd(extra, 2);
    var definitions :- GetDefinitions(extra);
    var section :- Lookup(extra, "examples");
    var examples :- ExamplesOf(section);
    var translations :- GetTranslations(extra);
    return Ok(Language(data.text, confidence, pronunciation, definitions, Some(examples), translations := translations));
  }

  method GetModel(data: Translated) returns (r: Result<Word>)
    ensures r == ModelOf(data)
  {
    var pronunciation :- HintFromEnd(data.extraData, 1);
    var language :- GetLanguage(data);
    return Ok(Word(Some(data.origin), Some(data.src), pronunciation, map[data.dest := language]));
  }

  /** Pronunciations are positional: the word's is the last hint, the language's the one before it. */
  lemma Pronunciations(data: Translated, w: Word)
    requires ModelOf(data) == Ok(w)
    ensures PronunciationHints(data.extraData).Ok?
    ensures var hints := PronunciationHints(data.extraData).value;
      && |hints| >= 2
      && AsOptStr(hints[|hints| - 1]) == Ok(w.pronunciation)
      && AsOptStr(hints[|hints| - 2]) == Ok(w.languages[data.dest].pronunciation)
  {
    var language := w.languages[data.dest];
    assert HintFromEnd(data.extraData, 1) == Ok(w.pronunciation);
    assert HintFromEnd(data.extraData, 2) == Ok(language.pronunciation) by {
      assert LanguageOf(data) == Ok(language);
    }
    LastHints(data.extraData, w.pronunciation, language.pronunciation);
  }

  /** What the two successful `HintFromEnd` lookups say about the last two hints themselves. */
  lemma LastHints(extra: ExtraData, last: Option<string>, secondLast: Option<string>)
    requires HintFromEnd(extra, 1) == Ok(last)
    requires HintFromEnd(extra, 2) == Ok(secondLast)
    ensures PronunciationHints(extra).Ok?
    ensures var hints := PronunciationHints(extra).value;
      && |hints| >= 2
      && AsOptStr(hints[|hints| - 1]) == Ok(last)
      && AsOptStr(hints[|hints| - 2]) == Ok(secondLast)
  {
  }

  /** Fewer than two pronunciation hints, or a missing section, make the whole normalisation fail. */
  lemma MissingSectionFails(data: Translated)
    requires || PronunciationHints(data.extraData).Malformed?
             || |PronunciationHints(data.extraData).value| < 2
             || "definitions" !in data.extraData
             || "examples" !in data.extraData
             || "all-translations" !in data.extraData
    ensures ModelOf(data) == Malformed
  {
  }

  /** A falsy section gives an absent field, except examples, which become an empty list. */
  lemma FalsySections(data: Translated, lang: Language)
    requires LanguageOf(data) == Ok(lang)
    ensures !Truthy(data.extraData["definitions"]) ==> lang.definitions == None
    ensures !Truthy(data.extraData["all-translations"]) ==> lang.translations == None
    ensures !Truthy(data.extraData["examples"]) ==> lang.examples == Some([])
  {
  }

  /** The key that links the stub's definition to its synonyms. */
  const StubKey := "m_en_gbus0170610.006"

  /** The last element of the stub's `translation` section: the language's and the word's pronunciations. */
  const StubHints := [Null, Null, Str("desa-fee-o"), Str("chal-enj")]

  /** A reply laid out as the provider lays out `challenge` from English to Spanish. */
  function StubReply(): Translated {
    Translated("en", "es", "challenge", "desafio", map[
      "confidence" := Float(0.75),
      "translation" := StubTranslationSection(),
      "synonyms" := StubSynonymSection(),
      "definitions" := StubDefinitionSection(),
      "examples" := StubExampleSection(),
      "all-translations" := StubAllTranslationsSection()])
  }

  function StubTranslationSection(): Json {
    List([List([Str("desafio"), Str("challenge"), Null, Null, Int(10)]), List(StubHints)])
  }

  function StubSynonymSection(): Json {
    List([List([Str("noun"), List([StubSynonymGroup()]), Str("challenge")])])
  }

  function StubDefinitionSection(): Json {
    List([List([Str("noun"), List([StubDefinitionEntry()]), Str("challenge"), Int(1)])])
  }

  function StubExampleSection(): Json {
    List([List([List([Str("a new challenge"), Null, Null, Int(3)])])])
  }

  function StubAllTranslationsSection(): Json {
    List([List([Str("noun"), List([Str("desafio")]), List([StubTranslationWord()]), Str("challenge"), Int(1)])])
  }

  function StubSynonymGroup(): Json {
    List([List([Str("test"), Str("trial")]), Str(StubKey)])
  }

  function StubDefinitionEntry(): Json {
    List([Str("a call to take part in a contest"), Str(StubKey), Str("he accepted the challenge")])
  }

  function StubTranslationWord(): Json {
    List([Str("desafio"), List([Str("challenge"), Str("defiance")]), Null, Float(0.5)])
  }

  /** The sections of a payload laid out like the stub reply's. */
  predicate StubSections(extra: ExtraData) {
    && "confidence" in extra && extra["confidence"] == Float(0.75)
    && "translation" in extra && extra["translation"] == StubTranslationSection()
    && "synonyms" in extra && extra["synonyms"] == StubSynonymSection()
    && "definitions" in extra && extra["definitions"] == StubDefinitionSection()
    && "examples" in extra && extra["examples"] == StubExampleSection()
    && "all-translations" in extra && extra["all-translations"] == StubAllTranslationsSection()
  }

  /** The synonym table of the stub reply. */
  const StubTable: SynonymTable := map[Str(StubKey) := List([Str("test"), Str("trial")])]

  const StubDefinition := Definition(Some("a call to take part in a contest"), Some("he accepted the challenge"), Some(["test", "trial"]))

  const StubTranslation := Translation("desafio", ["challenge", "defiance"], Some(0.5))

  /** The Language the stub reply describes. */
  function StubLanguage(): Language {
    Language("desafio", Some(0.75), Some("desa-fee-o"), Some(map["noun" := [StubDefinition]]), Some(["a new challenge"]),
      translations := Some(map["noun" := [StubTranslation]]))
  }

  lemma StubReplySections()
    ensures StubSections(StubReply().extraData)
  {
  }

  lemma StubStrings()
    ensures AsStrList(List([Str("test"), Str("trial")])) == Ok(["test", "trial"])
    ensures AsStrList(List([Str("challenge"), Str("defiance")])) == Ok(["challenge", "defiance"])
  {
    var synonyms := Strings([Str("test"), Str("trial")]);
    assert synonyms.Ok? && synonyms.value[0] == "test" && synonyms.value[1] == "trial";
    assert synonyms.value == ["test", "trial"];
    var alternates := Strings([Str("challenge"), Str("defiance")]);
    assert alternates.Ok? && alternates.value[0] == "challenge" && alternates.value[1] == "defiance";
    assert alternates.value == ["challenge", "defiance"];
  }

  lemma StubSynonymPairs()
    ensures SynonymEntriesPairs(Items(StubSynonymSection()).value) == Ok([(Str(StubKey), List([Str("test"), Str("trial")]))])
  {
    var pair := (Str(StubKey), List([Str("test"), Str("trial")]));
    assert SynonymPair(StubSynonymGroup()) == Ok(pair);
    var groupPairs := SynonymPairs([StubSynonymGroup()]);
    assert groupPairs.Ok? && groupPairs.value[0] == pair;
    assert groupPairs.value == [pair];
    var entries := Items(StubSynonymSection()).value;
    assert SynonymEntryPairs(entries[0]) == Ok([pair]);
    assert entries[1..] == [];
  }

  lemma StubSynonyms(extra: ExtraData)
    requires "synonyms" in extra && extra["synonyms"] == StubSynonymSection()
    ensures SynonymsGroupedByKeys(extra) == Ok(Some(StubTable))
  {
    StubSynonymPairs();
    var pairs: seq<(Json, Json)> := [(Str(StubKey), List([Str("test"), Str("trial")]))];
    assert pairs[..0] == [];
    assert Assign(map[], pairs) == StubTable;
  }

  lemma StubDefinitionList()
    ensures DefinitionList(Some(StubTable), [StubDefinitionEntry()]) == Ok([StubDefinition])
  {
    StubStrings();
    assert Get(StubTable, Str(StubKey), List([])) == List([Str("test"), Str("trial")]);
    assert DefinitionItem(Some(StubTable), StubDefinitionEntry()) == Ok(StubDefinition);
    var list := DefinitionList(Some(StubTable), [StubDefinitionEntry()]);
    assert list.Ok? && list.value[0] == StubDefinition;
    assert list.value == [StubDefinition];
  }

  lemma StubDefinitionGroups()
    ensures DefinitionGroups(Some(StubTable), Items(StubDefinitionSection()).value) == Ok([("noun", [StubDefinition])])
  {
    StubDefinitionList();
    var entries := Items(StubDefinitionSection()).value;
    assert DefinitionGroup(Some(StubTable), entries[0]) == Ok(("noun", [StubDefinition]));
    var defGroups := DefinitionGroups(Some(StubTable), entries);
    assert defGroups.Ok? && defGroups.value[0] == ("noun", [StubDefinition]);
    assert defGroups.value == [("noun", [StubDefinition])];
  }

  lemma StubDefinitions(extra: ExtraData)
    requires "synonyms" in extra && extra["synonyms"] == StubSynonymSection()
    requires "definitions" in extra && extra["definitions"] == StubDefinitionSection()
    ensures DefinitionsOf(extra) == Ok(StubLanguage().definitions)
  {
    StubSynonyms(extra);
    StubDefinitionGroups();
    var groups: seq<(string, seq<Definition>)> := [("noun", [StubDefinition])];
    assert groups[..0] == [];
    assert Assign(map[], groups) == map["noun" := [StubDefinition]];
  }

  lemma StubTranslationGroups()
    ensures TranslationGroups(Items(StubAllTranslationsSection()).value) == Ok([("noun", [StubTranslation])])
  {
    StubStrings();
    assert TranslationItem(StubTranslationWord()) == Ok(StubTranslation);
    var list := TranslationList([StubTranslationWord()]);
    assert list.Ok? && list.value[0] == StubTranslation;
    assert list.value == [StubTranslation];
    var entries := Items(StubAllTranslationsSection()).value;
    assert TranslationGroup(entries[0]) == Ok(("noun", [StubTranslation]));
    var trGroups := TranslationGroups(entries);
    assert trGroups.Ok? && trGroups.value[0] == ("noun", [StubTranslation]);
    assert trGroups.value == [("noun", [StubTranslation])];
  }

  lemma StubTranslations(extra: ExtraData)
    requires "all-translations" in extra && extra["all-translations"] == StubAllTranslationsSection()
    ensures TranslationsOf(extra) == Ok(StubLanguage().translations)
  {
    StubTranslationGroups();
    var groups: seq<(string, seq<Translation>)> := [("noun", [StubTranslation])];
    assert groups[..0] == [];
    assert Assign(map[], groups) == map["noun" := [StubTranslation]];
  }

  lemma StubExamples()
    ensures ExamplesOf(StubExampleSection()) == Ok(["a new challenge"])
  {
    var examples := Items(At(StubExampleSection(), 0).value).value;
    assert At(examples[0], 0) == Ok(Str("a new challenge"));
    var list := ExampleList(examples);
    assert list.Ok? && list.value[0] == "a new challenge";
    assert list.value == ["a new challenge"];
  }

  lemma StubPronunciationHints(extra: ExtraData)
    requires "translation" in extra && extra["translation"] == StubTranslationSection()
    ensures HintFromEnd(extra, 1) == Ok(Some("chal-enj"))
    ensures HintFromEnd(extra, 2) == Ok(Some("desa-fee-o"))
  {
    assert At(StubTranslationSection(), -1) == Ok(List(StubHints));
    assert PronunciationHints(extra) == Ok(StubHints);
  }

  /** The language is assembled from the sections once each of them normalises. */
  lemma LanguageFromSections(data: Translated, confidence: Option<real>, pronunciation: Option<string>,
                             definitions: Option<map<string, seq<Definition>>>, examples: seq<string>,
                             translations: Option<map<string, seq<Translation>>>)
    requires ConfidenceOf(data.extraData) == Ok(confidence)
    requires HintFromEnd(data.extraData, 2) == Ok(pronunciation)
    requires DefinitionsOf(data.extraData) == Ok(definitions)
    requires "examples" in data.extraData && ExamplesOf(data.extraData["examples"]) == Ok(examples)
    requires TranslationsOf(data.extraData) == Ok(translations)
    ensures LanguageOf(data) == Ok(Language(data.text, confidence, pronunciation, definitions, Some(examples), translations := translations))
  {
    var r := LanguageOf(data);
    assert r.Ok?;
    var l := r.value;
    assert l.text == data.text && l.confidence == confidence && l.pronunciation == pronunciation;
    assert l.definitions == definitions && l.examples == Some(examples) && l.translations == translations;
  }

  lemma StubConfidence(extra: ExtraData)
    requires "confidence" in extra && extra["confidence"] == Float(0.75)
    ensures ConfidenceOf(extra) == Ok(Some(0.75))
  {
  }

  lemma StubLanguageOf(data: Translated)
    requires StubSections(data.extraData) && data.text == "desafio"
    ensures LanguageOf(data) == Ok(StubLanguage())
  {
    StubDefinitions(data.extraData);
    StubTranslations(data.extraData);
    StubExamples();
    StubPronunciationHints(data.extraData);
    StubConfidence(data.extraData);
    LanguageFromSections(data, Some(0.75), Some("desa-fee-o"), StubLanguage().definitions,
                         ["a new challenge"], StubLanguage().translations);
  }

  /** The word is assembled from its language and the last pronunciation hint. */
  lemma WordFromSections(data: Translated, pronunciation: Option<string>, language: Language)
    requires LanguageOf(data) == Ok(language)
    requires HintFromEnd(data.extraData, 1) == Ok(pronunciation)
    ensures ModelOf(data) == Ok(Word(Some(data.origin), Some(data.src), pronunciation, map[data.dest := language]))
  {
    var w := ModelOf(data);
    assert w.Ok?;
    assert w.value.languages == map[data.dest := language];
  }

  /** A well-formed reply normalises to the Word its sections describe. */
  lemma StubReplyNormalises()
    ensures ModelOf(StubReply()) == Ok(Word(Some("challenge"), Some("en"), Some("chal-enj"), map["es" := StubLanguage()]))
  {
    var data := StubReply();
    StubReplySections();
    StubLanguageOf(data);
    StubPronunciationHints(data.extraData);
    WordFromSections(data, Some("chal-enj"), StubLanguage());
  }

  // -------------------------------------------------------- the service call

  /** What the translation library's `translate` call produces: a reply, or a raised error. */
  datatype Reply = Delivered(data: Translated) | ProviderError

  /** The provider, as a function of `(word, src, dest)`. */
  type Provider = (string, string, string) -> Reply

  /** What `get_translated_word` produces: a Word, or GoogleTranslateRequestException. */
  datatype TranslateOutcome = TranslatedWord(word: Word) | GoogleTranslateRequestException

  /** Every failure, of the provider or of normalisation, surfaces as the one request exception. */
  function TranslateWord(reply: Reply): (r: TranslateOutcome)
    ensures reply.ProviderError? ==> r == GoogleTranslateRequestException
    ensures reply.Delivered? && ModelOf(reply.data).Malformed? ==> r == GoogleTranslateRequestException
    ensures r.TranslatedWord? ==> reply.Delivered? && ModelOf(reply.data) == Ok(r.word)
    ensures reply.Delivered? && ModelOf(reply.data).Ok? ==> r == TranslatedWord(ModelOf(reply.data).value)
  {
    match reply
    case ProviderError => GoogleTranslateRequestException
    case Delivered(data) =>
      match ModelOf(data)
      case Ok(w) => TranslatedWord(w)
      case Malformed => GoogleTranslateRequestException
  }

  /** The translation library's client, with a count of the requests made. */
  class Translator {
    const translate: Provider
    var calls: nat

    constructor(translate: Provider)
      ensures this.translate == translate && calls == 0
    {
      this.translate := translate;
      calls := 0;
    }

    method Translate(word: string, src: string, dest: string) returns (reply: Reply)
      modifies this
      ensures reply == translate(word, src, dest)
      ensures calls == old(calls) + 1
    {
      reply := translate(word, src, dest);
      calls := calls + 1;
    }
  }

  class GoogleTranslateService {
    const translator: Translator

    constructor(translator: Translator)
      ensures this.translator == translator
    {
      this.translator := translator;
    }

    /** One provider request, normalised; any failure raises GoogleTranslateRequestException. */
    method GetTranslatedWord(word: string, sl: string, tl: string) returns (r: TranslateOutcome)
      modifies translator
      ensures translator.calls == old(translator.calls) + 1
      ensures r == TranslateWord(translator.translate(word, sl, tl))
    {
      var reply := translator.Translate(word, sl, tl);
      if reply.ProviderError? {
        return GoogleTranslateRequestException;
      }
      var model := GetModel(reply.data);
      if model.Malformed? {
        return GoogleTranslateRequestException;
      }
      return TranslatedWord(model.value);
    }
  }
}
