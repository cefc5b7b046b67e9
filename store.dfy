/**
  An in-memory stand-in for the MongoDB repository of stored words.

  A document is identified by the pair of its `word` and `language` fields,
  which is what `get_word` queries and what `update_word` is called with.
  Whether the driver raises is an input: `readFails` makes `find_one` raise
  (the service then reports no record), `writeFails` makes `insert_one` and
  `update_one` raise, which the repository swallows and reports as `false`.
 */
module Repository {
  import opened Models

  /** The `{word, language}` query that identifies a stored document. */
  type Key = (Option<string>, Option<string>)

  function KeyOf(w: Word): Key {
    (w.word, w.language)
  }

  /** Every record is stored under its own `word` and `language`. */
  ghost predicate Keyed(records: map<Key, Word>) {
    forall k :: k in records ==> KeyOf(records[k]) == k
  }

  /** `find_one({"word": word, "language": sl})`: the document whose fields equal the query strings. */
  function Find(records: map<Key, Word>, word: string, sl: string): (r: Option<Word>)
    ensures r.Some? <==> (Some(word), Some(sl)) in records
    ensures r.Some? ==> r.value == records[(Some(word), Some(sl))]
    ensures Keyed(records) && r.Some? ==> r.value.word == Some(word) && r.value.language == Some(sl)
  {
    var key := (Some(word), Some(sl));
    if key in records then Some(records[key]) else None
  }

  /**
    `insert_one(word)`: the word becomes findable under its own key. A second
    document with an existing key is never the one `find_one` returns, so the
    records keep the earlier one.
   */
  function Inserted(records: map<Key, Word>, w: Word): (r: map<Key, Word>)
    ensures r.Keys == records.Keys + {KeyOf(w)}
    ensures KeyOf(w) !in records ==> r[KeyOf(w)] == w
    ensures forall k :: k in records ==> r[k] == records[k]
  {
    if KeyOf(w) in records then records else records[KeyOf(w) := w]
  }

  /**
    `update_one(query, {"$set": {"languages": languages}})`: the matching
    document gets the new languages map and keeps its other fields; a query
    that matches nothing changes nothing.
   */
  function Updated(records: map<Key, Word>, key: Key, languages: map<string, Language>): (r: map<Key, Word>)
    ensures r.Keys == records.Keys
    ensures key in records ==> r[key] == records[key].(languages := languages)
    ensures forall k :: k in records && k != key ==> r[k] == records[k]
  {
    if key in records then records[key := records[key].(languages := languages)] else records
  }

  /** Inserting keeps every record under its own key. */
  lemma InsertedKeyed(records: map<Key, Word>, w: Word)
    requires Keyed(records)
    ensures Keyed(Inserted(records, w))
  {
  }

  /** Replacing a record's languages keeps it under its own key. */
  lemma UpdatedKeyed(records: map<Key, Word>, key: Key, languages: map<string, Language>)
    requires Keyed(records)
    ensures Keyed(Updated(records, key, languages))
  {
  }

  /** An inserted word is found by its own word and language, unless a record already had that key. */
  lemma FindInserted(records: map<Key, Word>, w: Word)
    requires w.word.Some? && w.language.Some?
    ensures Find(Inserted(records, w), w.word.value, w.language.value).Some?
    ensures KeyOf(w) !in records ==> Find(Inserted(records, w), w.word.value, w.language.value) == Some(w)
  {
  }

  /** The lookup matches the source language too: a record of the same text in another language is not found. */
  lemma FindIgnoresOtherLanguages(records: map<Key, Word>, other: Word, word: string, sl: string)
    requires other.language != Some(sl)
    ensures Find(records[KeyOf(other) := other], word, sl) == Find(records, word, sl)
  {
  }

  class WordStore {
    var records: map<Key, Word>
    var readFails: bool
    var writeFails: bool

    ghost predicate Valid()
      reads this
    {
      Keyed(records)
    }

    constructor(records: map<Key, Word>, readFails: bool, writeFails: bool)
      requires Keyed(records)
      ensures Valid()
      ensures this.records == records && this.readFails == readFails && this.writeFails == writeFails
    {
      this.records := records;
      this.readFails := readFails;
      this.writeFails := writeFails;
    }

    /** `get_word`: the stored document, or none; a driver failure raises instead. */
    method GetWord(word: string, sl: string) returns (found: Option<Word>, raised: bool)
      ensures raised == readFails
      ensures !raised ==> found == Find(records, word, sl)
    {
      if readFails {
        return None, true;
      }
      return Find(records, word, sl), false;
    }

    /** `insert_word`: the acknowledgement, `false` when the driver raised. */
    method InsertWord(w: Word) returns (ack: bool)
      requires Valid()
      modifies this
      ensures Valid()
      ensures ack == !writeFails
      ensures records == if ack then Inserted(old(records), w) else old(records)
      ensures readFails == old(readFails) && writeFails == old(writeFails)
    {
      if writeFails {
        return false;
      }
      InsertedKeyed(records, w);
      records := Inserted(records, w);
      return true;
    }

    /** `update_word` with `{"$set": {"languages": languages}}`: the acknowledgement, `false` when the driver raised. */
    method UpdateLanguages(key: Key, languages: map<string, Language>) returns (ack: bool)
      requires Valid()
      modifies this
      ensures Valid()
      ensures ack == !writeFails
      ensures records == if ack then Updated(old(records), key, languages) else old(records)
      ensures readFails == old(readFails) && writeFails == old(writeFails)
    {
      if writeFails {
        return false;
      }
      UpdatedKeyed(records, key, languages);
      records := Updated(records, key, languages);
      return true;
    }
  }
}
