/**
  The `GET /translations/{word}` handler: answer from the store when it holds
  the word in the source language with the target language, otherwise ask the
  provider once and write what it returned back to the store.

  `GetWordSpec` states the handler's decision as a function of the store's
  records, the driver's failure modes and the provider; the endpoint method
  is proved to follow it, and the lemmas below derive the handler's scenarios
  from it.
 */
module Endpoints {
  import opened Models
  import opened Payload
  import opened Repository
  import opened GoogleTranslate
  import opened Service

  /** What the handler produces. */
  datatype Response =
    | BadRequest          // HTTPException(BAD_REQUEST) raised before any I/O
    | Returned(word: Word)
    | ReturnedNone        // an exception inside the `try` was swallowed and the handler fell through

  /** The response, the records left in the store and the number of provider requests made. */
  datatype Outcome = Outcome(response: Response, records: map<Key, Word>, providerCalls: nat)

  /** The provider's answer to `(word, sl, tl)`, normalised. */
  function Fetch(translate: Provider, word: string, sl: string, tl: string): TranslateOutcome {
    TranslateWord(translate(word, sl, tl))
  }

  /** What `get_word_from_db` yields: a driver failure looks the same as a missing record. */
  function StoredWord(records: map<Key, Word>, readFails: bool, word: string, sl: string): (r: Option<Word>)
    ensures r.None? <==> readFails || (Some(word), Some(sl)) !in records
    ensures r.Some? ==> !readFails && r.value == records[(Some(word), Some(sl))]
  {
    if readFails then None else Find(records, word, sl)
  }

  /** The handler's decision, scenario by scenario. */
  function GetWordSpec(records: map<Key, Word>, readFails: bool, writeFails: bool, translate: Provider,
                       word: string, sl: string, tl: string): (o: Outcome)
    ensures o.response.BadRequest? <==> sl == tl
    ensures o.providerCalls <= 1
    ensures o.records.Keys >= records.Keys
    ensures writeFails || o.response.ReturnedNone? || o.response.BadRequest? || o.providerCalls == 0 ==> o.records == records
    ensures o.response.ReturnedNone? ==> o.providerCalls == 1
  {
    if sl == tl then Outcome(BadRequest, records, 0)
    else
      var found := StoredWord(records, readFails, word, sl);
      if found.Some? then
        var stored := found.value;
        if tl in stored.languages then
          Outcome(Returned(stored.(languages := map[tl := stored.languages[tl]])), records, 0)
        else
          match Fetch(translate, word, sl, tl)
          case GoogleTranslateRequestException => Outcome(ReturnedNone, records, 1)
          case TranslatedWord(fetched) =>
            if tl !in fetched.languages then Outcome(ReturnedNone, records, 1)  // KeyError on `languages[tl]`
            else
              var merged := stored.languages[tl := fetched.languages[tl]];
              Outcome(Returned(fetched), if writeFails then records else Updated(records, KeyOf(stored), merged), 1)
      else
        match Fetch(translate, word, sl, tl)
        case GoogleTranslateRequestException => Outcome(ReturnedNone, records, 1)
        case TranslatedWord(fetched) =>
          Outcome(Returned(fetched), if writeFails then records else Inserted(records, fetched), 1)
  }

  class TranslationEndpoint {
    const translationService: TranslationService
    const googleTranslateService: GoogleTranslateService

    constructor(translationService: TranslationService, googleTranslateService: GoogleTranslateService)
      ensures this.translationService == translationService
      ensures this.googleTranslateService == googleTranslateService
    {
      this.translationService := translationService;
      this.googleTranslateService := googleTranslateService;
    }

    /** `get_word(word, sl, tl)`. */
    method GetWord(word: string, sl: string, tl: string) returns (response: Response)
      requires translationService.repository.Valid()
      modifies translationService.repository, googleTranslateService.translator
      ensures translationService.repository.Valid()
      ensures var o := GetWordSpec(old(translationService.repository.records), old(translationService.repository.readFails),
                                   old(translationService.repository.writeFails), googleTranslateService.translator.translate,
                                   word, sl, tl);
              && response == o.response
              && translationService.repository.records == o.records
              && googleTranslateService.translator.calls == old(googleTranslateService.translator.calls) + o.providerCalls
      ensures translationService.repository.readFails == old(translationService.repository.readFails)
      ensures translationService.repository.writeFails == old(translationService.repository.writeFails)
    {
      if sl == tl {
        return BadRequest;
      }
      ghost var records := translationService.repository.records;
      ghost var stored := StoredWord(records, translationService.repository.readFails, word, sl);
      var translatedWord := translationService.GetWordFromDb(word, sl);
      assert translatedWord == null <==> stored.None?;
      if translatedWord != null {
        assert translatedWord.Value() == stored.value;
        var isLanguageAvailable := tl in translatedWord.languages;
        if isLanguageAvailable {
          var only := translationService.GetOnlyMyLanguage(translatedWord, tl);
          return Returned(only.Value());
        }
        var googleWord := googleTranslateService.GetTranslatedWord(word, sl, tl);
        if googleWord.GoogleTranslateRequestException? || tl !in googleWord.word.languages {
          return ReturnedNone;
        }
        var newLanguageResult := translationService.AddNewLanguageToWord(translatedWord, tl, googleWord.word.languages[tl]);
        assert translationService.repository.records == if newLanguageResult
          then Updated(records, KeyOf(stored.value), stored.value.languages[tl := googleWord.word.languages[tl]])
          else records;
        return Returned(googleWord.word);
      }
      var googleWord := googleTranslateService.GetTranslatedWord(word, sl, tl);
      if googleWord.GoogleTranslateRequestException? {
        return ReturnedNone;
      }
      var ack := translationService.AddNewWord(googleWord.word);
      return Returned(googleWord.word);
    }
  }

  // ------------------------------------------------------------- scenarios

  /** Equal languages are rejected before the store is read or the provider asked. */
  lemma EqualLanguagesRejected(records: map<Key, Word>, readFails: bool, writeFails: bool, translate: Provider,
                               word: string, sl: string, tl: string)
    ensures var o := GetWordSpec(records, readFails, writeFails, translate, word, sl, tl);
            o.response == BadRequest <==> sl == tl
    ensures sl == tl ==> GetWordSpec(records, readFails, writeFails, translate, word, sl, tl) == Outcome(BadRequest, records, 0)
  {
  }

  /** A stored word that has the target language is answered from the store, narrowed to that language. */
  lemma HitWithTarget(records: map<Key, Word>, writeFails: bool, translate: Provider, word: string, sl: string, tl: string)
    requires Keyed(records) && sl != tl
    requires (Some(word), Some(sl)) in records && tl in records[(Some(word), Some(sl))].languages
    ensures var o := GetWordSpec(records, false, writeFails, translate, word, sl, tl);
            var stored := records[(Some(word), Some(sl))];
            && o.providerCalls == 0
            && o.records == records
            && o.response.Returned?
            && o.response.word.languages.Keys == {tl}
            && o.response.word.languages[tl] == stored.languages[tl]
            && o.response.word.word == Some(word)
            && o.response.word.language == Some(sl)
            && o.response.word.pronunciation == stored.pronunciation
  {
  }

  /**
    A stored word without the target language is fetched once; the store gets
    the old languages plus the fetched target language, the caller gets the
    fetched word.
   */
  lemma HitWithoutTarget(records: map<Key, Word>, translate: Provider, word: string, sl: string, tl: string, fetched: Word)
    requires Keyed(records) && sl != tl
    requires (Some(word), Some(sl)) in records && tl !in records[(Some(word), Some(sl))].languages
    requires Fetch(translate, word, sl, tl) == TranslatedWord(fetched) && tl in fetched.languages
    ensures var o := GetWordSpec(records, false, false, translate, word, sl, tl);
            var stored := records[(Some(word), Some(sl))];
            && o.providerCalls == 1
            && o.response == Returned(fetched)
            && o.records.Keys == records.Keys
            && Find(o.records, word, sl).Some?
            && Find(o.records, word, sl).value.languages.Keys == stored.languages.Keys + {tl}
            && Find(o.records, word, sl).value.languages[tl] == fetched.languages[tl]
            && (forall l :: l in stored.languages ==> Find(o.records, word, sl).value.languages[l] == stored.languages[l])
            && Find(o.records, word, sl).value.pronunciation == stored.pronunciation
            && (forall k :: k in records && k != (Some(word), Some(sl)) ==> o.records[k] == records[k])
  {
  }

  /** A word the store does not hold is fetched once, returned, and inserted with its one language. */
  lemma Miss(records: map<Key, Word>, readFails: bool, translate: Provider, word: string, sl: string, tl: string, fetched: Word)
    requires sl != tl && StoredWord(records, readFails, word, sl).None?
    requires Fetch(translate, word, sl, tl) == TranslatedWord(fetched)
    ensures var o := GetWordSpec(records, readFails, false, translate, word, sl, tl);
            && o.providerCalls == 1
            && o.response == Returned(fetched)
            && |fetched.languages| == 1
            && o.records.Keys == records.Keys + {KeyOf(fetched)}
            && (KeyOf(fetched) !in records ==> o.records[KeyOf(fetched)] == fetched)
            && (forall k :: k in records ==> o.records[k] == records[k])
  {
    var reply := translate(word, sl, tl);
    assert ModelOf(reply.data) == Ok(fetched);
    assert fetched.languages.Keys == {reply.data.dest};
  }

  /** The provider is asked exactly when the target language is not answered from the store. */
  lemma AtMostOneProviderCall(records: map<Key, Word>, readFails: bool, writeFails: bool, translate: Provider,
                              word: string, sl: string, tl: string)
    ensures var o := GetWordSpec(records, readFails, writeFails, translate, word, sl, tl);
            var stored := StoredWord(records, readFails, word, sl);
            && o.providerCalls <= 1
            && (o.providerCalls == 0 <==> sl == tl || (stored.Some? && tl in stored.value.languages))
  {
  }

  /**
    A stored word without the target language whose fetched word lacks it too
    fails at `languages[tl]`: the handler falls through and nothing is written.
   */
  lemma FetchedWordLacksTarget(records: map<Key, Word>, writeFails: bool, translate: Provider,
                               word: string, sl: string, tl: string, fetched: Word)
    requires sl != tl
    requires (Some(word), Some(sl)) in records && tl !in records[(Some(word), Some(sl))].languages
    requires Fetch(translate, word, sl, tl) == TranslatedWord(fetched) && tl !in fetched.languages
    ensures GetWordSpec(records, false, writeFails, translate, word, sl, tl) == Outcome(ReturnedNone, records, 1)
  {
  }

  /** A record of the same text in another source language does not make a hit. */
  lemma OtherSourceLanguageIsMiss(records: map<Key, Word>, translate: Provider, word: string, sl: string, tl: string, other: Word)
    requires sl != tl && other.word == Some(word) && other.language != Some(sl)
    requires (Some(word), Some(sl)) !in records
    ensures GetWordSpec(records[KeyOf(other) := other], false, false, translate, word, sl, tl).providerCalls == 1
  {
    FindIgnoresOtherLanguages(records, other, word, sl);
  }

  /** A failed store write changes neither the response nor the provider requests. */
  lemma WriteFailureKeepsResponse(records: map<Key, Word>, readFails: bool, translate: Provider,
                                  word: string, sl: string, tl: string)
    ensures var failed := GetWordSpec(records, readFails, true, translate, word, sl, tl);
            var written := GetWordSpec(records, readFails, false, translate, word, sl, tl);
            failed.response == written.response && failed.providerCalls == written.providerCalls && failed.records == records
  {
  }

  /** When the provider request fails, nothing is written and the handler falls through without a word. */
  lemma ProviderFailureWritesNothing(records: map<Key, Word>, readFails: bool, writeFails: bool, translate: Provider,
                                     word: string, sl: string, tl: string)
    requires sl != tl && Fetch(translate, word, sl, tl).GoogleTranslateRequestException?
    ensures var o := GetWordSpec(records, readFails, writeFails, translate, word, sl, tl);
            && o.records == records
            && (o.response == ReturnedNone || o.providerCalls == 0)
  {
  }

  /** Every word the handler returns carries exactly one language; one answered from the store carries the target. */
  lemma {:induction false} ReturnedWordHasOneLanguage(records: map<Key, Word>, readFails: bool, writeFails: bool,
                                                      translate: Provider, word: string, sl: string, tl: string)
    ensures var o := GetWordSpec(records, readFails, writeFails, translate, word, sl, tl);
            && (o.response.Returned? ==> |o.response.word.languages| == 1)
            && (o.response.Returned? && o.providerCalls == 0 ==> o.response.word.languages.Keys == {tl})
  {
    var o := GetWordSpec(records, readFails, writeFails, translate, word, sl, tl);
    if o.response.Returned? && o.providerCalls == 1 {
      var reply := translate(word, sl, tl);
      assert ModelOf(reply.data) == Ok(o.response.word);
      assert o.response.word.languages.Keys == {reply.data.dest};
    }
  }

  /** Every record stays stored under its own word and language. */
  lemma KeepsStoreKeyed(records: map<Key, Word>, readFails: bool, writeFails: bool, translate: Provider,
                        word: string, sl: string, tl: string)
    requires Keyed(records)
    ensures Keyed(GetWordSpec(records, readFails, writeFails, translate, word, sl, tl).records)
  {
    var stored := StoredWord(records, readFails, word, sl);
    if stored.Some? && tl !in stored.value.languages {
      forall languages: map<string, Language> ensures Keyed(Updated(records, KeyOf(stored.value), languages)) {
        UpdatedKeyed(records, KeyOf(stored.value), languages);
      }
    }
    forall w: Word ensures Keyed(Inserted(records, w)) {
      InsertedKeyed(records, w);
    }
  }
}
