# Google Translate playground: word lookup with a translation cache

This is a Dafny model of the core of a small web service. The service translates one word from a
source language `sl` to a target language `tl`. It keeps every word it has translated in a
document store keyed by the word and its source language. The store is filled lazily:

- A stored word that already has the target language is answered from the store.
- A stored word without the target language is sent to the translation provider once. The
  fetched language is merged into the stored record.
- A word that is not stored is fetched and inserted.

What the model covers:

- **Domain records** (`models.dfy`): `Word`, `Language`, `Definition` and `Translation`, with the
  same optional fields and defaults as the pydantic models.
- **Payload normalisation** (`google_translate.dfy`): the provider's reply carries a loosely typed,
  nested `extra_data` payload. It is turned into a `Word` with exactly one `Language`.
  - The payload is a `Json` value (`payload.dfy`).
  - Python's truthiness, iteration, negative indexing, unpacking and dict assignment are written
    out (`payload.dfy`, `dicts.dfy`).
  - Every exception the normaliser can raise becomes one `Malformed` outcome. The caller turns
    every one of them into the same `GoogleTranslateRequestException`.
  - Each section has a specification function. The three sections the source builds with nested
    loops (synonyms, definitions, all-translations) are also methods with those loops, each
    proved to compute its specification. A dict built by a loop is `Assign(map[], pairs)`: the
    pairs written in order, so the last write of a key wins.
- **Store stand-in** (`store.dfy`): an in-memory replacement for the MongoDB repository, with
  flags saying whether the driver fails on reads or on writes.
- **Translation service** (`translation_service.dfy`): the layer that turns stored documents into
  Word objects and changes them in place.
- **Endpoint** (`endpoint.dfy`): the `GET /translations/{word}` handler. It is a class method
  proved to follow `GetWordSpec`, a function of the records, the driver's failure modes and the
  provider. The handler's scenarios are lemmas about that function.

The provider is a function from `(word, src, dest)` to a reply, or a provider error. A counter
records how many requests were made.

Where the code behaves in ways a reader might not expect, the model follows the code:

- A missing `definitions`, `examples`, `all-translations` or `translation` section raises
  `KeyError`, so the lookup fails. It does not degrade to an absent field. The `synonyms` section
  is read only when `definitions` is truthy, so a missing `synonyms` section fails the lookup only
  then.
- Any failure inside the handler's `try` makes the handler return `None` (`ReturnedNone`). This
  includes a provider failure and a fetched word that lacks the target language. It is not a
  distinct error outcome.
- A miss returns and stores a word whose one language is the provider's `dest`. That is only the
  requested target when the provider echoes it.

## Model

| member | source | states |
|---|---|---|
| GoogleTranslate.SynonymPair | app/v1/services/google_translate.py:89-91 | a group decodes exactly when it has items 0 and 1 and item 1 is hashable; the pair is then `(group[1], group[0])` |
| GoogleTranslate.SynonymPairs | app/v1/services/google_translate.py:88-91 | a synonyms list decodes only if every group does; then one `(group[1], group[0])` pair per group, in order |
| GoogleTranslate.SynonymEntryPairs | app/v1/services/google_translate.py:87-88 | an entry that does not unpack into at least two items fails; otherwise it decodes exactly when `synonyms_list` is a list whose groups all decode, and gives their pairs |
| GoogleTranslate.SynonymEntriesPairs | app/v1/services/google_translate.py:87 | decodes exactly when every entry does; the pairs are the first entry's pairs followed by the rest's |
| GoogleTranslate.SynonymEntriesPairsAppend | app/v1/services/google_translate.py:87 | the pairs of two runs of entries are the first run's followed by the second's; a failing first run fails the whole |
| GoogleTranslate.SynonymGroupPosition | app/v1/services/google_translate.py:87-91 | the g-th group of the e-th entry is the pair at position (pairs of the earlier entries) + g of the whole sequence |
| GoogleTranslate.SynonymGroupInTable | app/v1/services/google_translate.py:85-91 | every group's key of every entry is in the table, and holds that group's synonyms unless a later group has the same key |
| GoogleTranslate.SynonymsGroupedByKeys | app/v1/services/google_translate.py:82-93 | a missing `synonyms` section raises; a falsy one gives `None`; a truthy one succeeds exactly when all its pairs decode, and then gives the table from writing every pair of every part of speech into one dict in order |
| GoogleTranslate.GetSynonymsGroupedByKeys | app/v1/services/google_translate.py:77-93 | the nested loops compute exactly `SynonymsGroupedByKeys`, including every failure |
| GoogleTranslate.AddSynonyms | app/v1/services/google_translate.py:88-91 | the inner loop succeeds exactly when every group has two items and a hashable key, and writes the list's pairs into the table in order |
| GoogleTranslate.SynonymTableLastWins | app/v1/services/google_translate.py:85-91 | the table's keys are exactly the keys of all groups across parts of speech, and a duplicate key holds its last group's synonyms |
| GoogleTranslate.DefinitionItem | app/v1/services/google_translate.py:59-71 | fewer than two items fail; otherwise it succeeds exactly when `definition`, the looked-up synonyms (with a non-empty table; the key must be hashable), `example` and `context[1][0]` have the right types; then `definition` is item 0; with a non-empty synonym table `synonyms` is `table.get(key, [])`, otherwise absent; `example` is `context[0]` and `context` is `context[1][0]`, each only when that item exists |
| GoogleTranslate.DefinitionList | app/v1/services/google_translate.py:59-73 | decodes exactly when every entry does; then one Definition per entry, same length and order |
| GoogleTranslate.DefinitionGroup | app/v1/services/google_translate.py:56 | an entry that does not unpack into exactly four items fails; otherwise it decodes exactly when the part of speech is a string and `definitions_list` a list whose entries all decode, and gives that pair |
| GoogleTranslate.DefinitionGroups | app/v1/services/google_translate.py:56 | decodes exactly when every entry does; then one `(part of speech, definitions)` pair per entry, in order |
| GoogleTranslate.DefinitionsOf | app/v1/services/google_translate.py:46-57 | a missing `definitions` section raises; a falsy one gives `None`; a truthy one succeeds exactly when the synonym table and every entry decode, and then gives the dict from writing every entry's pair in order |
| GoogleTranslate.GetDefinitions | app/v1/services/google_translate.py:46-75 | the outer loop computes exactly `DefinitionsOf` |
| GoogleTranslate.AddDefinitionGroup | app/v1/services/google_translate.py:56-57 | one pass succeeds exactly when the entry decodes, and sets that part of speech to the entry's definitions |
| GoogleTranslate.AddDefinitions | app/v1/services/google_translate.py:59-73 | the inner loop succeeds exactly when every entry decodes, and appends the Definitions in order to `result[part_of_speech]` |
| GoogleTranslate.BuildDefinition | app/v1/services/google_translate.py:60-71 | building the item and then assigning its optional fields gives exactly `DefinitionItem` |
| GoogleTranslate.DefinitionsWithoutSynonyms | app/v1/services/google_translate.py:64-65 | with an absent or empty synonym table, no definition of any part of speech gets a synonyms list |
| GoogleTranslate.DefinitionsLastWins | app/v1/services/google_translate.py:56-57 | the parts of speech are exactly the entries' ones, and a repeated part of speech holds only its last entry's definitions |
| GoogleTranslate.ExampleList | app/v1/services/google_translate.py:99 | the first element of each example entry, same length and order |
| GoogleTranslate.ExamplesOf | app/v1/services/google_translate.py:95-99 | a falsy section gives `[]`; a truthy one succeeds exactly when `examples[0]` exists and every entry of it starts with a string, and then gives those first elements, ignoring the other groups |
| GoogleTranslate.TranslationItem | app/v1/services/google_translate.py:110-117 | fewer than two items fail; otherwise it succeeds exactly when `w[0]` is a string and `w[1]` a list of strings; then `text` is `w[0]`, `translations` is `w[1]`, and `confidence` is `w[-1]` exactly when that item is a float, otherwise absent |
| GoogleTranslate.BuildTranslation | app/v1/services/google_translate.py:110-117 | the statements building one Translation compute exactly `TranslationItem` |
| GoogleTranslate.TranslationList | app/v1/services/google_translate.py:110-119 | decodes exactly when every entry does; then one Translation per entry, same length and order |
| GoogleTranslate.TranslationGroup | app/v1/services/google_translate.py:107 | an entry that does not unpack into at least three items fails; otherwise it decodes exactly when the part of speech is a string and `translation` a list whose words all decode, and gives that pair |
| GoogleTranslate.TranslationGroups | app/v1/services/google_translate.py:107 | decodes exactly when every entry does; then one `(part of speech, translations)` pair per entry, in order |
| GoogleTranslate.TranslationsOf | app/v1/services/google_translate.py:101-108 | a missing `all-translations` section raises; a falsy one gives `None`; a truthy one succeeds exactly when every entry decodes, and then gives the dict from writing every entry's pair in order |
| GoogleTranslate.GetTranslations | app/v1/services/google_translate.py:101-121 | the outer loop computes exactly `TranslationsOf` |
| GoogleTranslate.AddTranslationGroup | app/v1/services/google_translate.py:107-108 | one pass succeeds exactly when the entry decodes, and sets that part of speech to its translations |
| GoogleTranslate.AddTranslations | app/v1/services/google_translate.py:110-119 | the inner loop succeeds exactly when every word decodes, and appends the Translations in order to `result[part_of_speech]` |
| GoogleTranslate.TranslationsLastWins | app/v1/services/google_translate.py:107-108 | the parts of speech are exactly the entries' ones, and a repeated part of speech holds only its last entry's translations |
| GoogleTranslate.ConfidenceOf | app/v1/services/google_translate.py:39 | a missing or null `confidence` is absent; a float is kept; a string or list fails validation |
| GoogleTranslate.PronunciationHints | app/v1/services/google_translate.py:32-40 | the hints are the items of the last element of the `translation` section; they exist exactly when that section is present and its last element is a list |
| GoogleTranslate.HintFromEnd | app/v1/services/google_translate.py:32-40 | `hints[-n]` succeeds exactly when the hints exist, there are at least n of them and that one is a string or null, and gives that value |
| GoogleTranslate.LanguageOf | app/v1/services/google_translate.py:36-44 | succeeds exactly when the confidence, `hints[-2]`, definitions, examples and translations all decode; the Language then carries the reply's translated text and exactly those decodings; a failing confidence, definitions or translations section makes it fail |
| GoogleTranslate.ModelOf | app/v1/services/google_translate.py:28-34 | the Word is the reply's origin in its source language with pronunciation `hints[-1]`; it holds exactly one language, the reply's target, which is `LanguageOf` |
| GoogleTranslate.ModelOfSucceeds | app/v1/services/google_translate.py:28-34 | the Word is built exactly when its Language is and `hints[-1]` is a string or null |
| GoogleTranslate.GetLanguage | app/v1/services/google_translate.py:36-44 | computes exactly `LanguageOf` |
| GoogleTranslate.GetModel | app/v1/services/google_translate.py:28-34 | computes exactly `ModelOf` |
| GoogleTranslate.Pronunciations | app/v1/services/google_translate.py:32-40 | a normalised reply has at least two pronunciation hints; the word's pronunciation is the last one and the language's is the one before it |
| GoogleTranslate.MissingSectionFails | app/v1/services/google_translate.py:32-43 | fewer than two pronunciation hints, or a missing definitions, examples or all-translations section, make the whole normalisation fail |
| GoogleTranslate.FalsySections | app/v1/services/google_translate.py:50-103 | falsy definitions and all-translations sections give absent fields; a falsy examples section gives an empty list |
| GoogleTranslate.LanguageFromSections | app/v1/services/google_translate.py:36-44 | once every section decodes, the Language is exactly their decodings with the reply's text |
| GoogleTranslate.WordFromSections | app/v1/services/google_translate.py:28-34 | once the Language and `hints[-1]` decode, the Word is exactly the reply's origin and source with that pronunciation and the one language |
| GoogleTranslate.StubReplyNormalises | app/v1/services/google_translate.py:28-121 | a reply laid out as the provider lays out `challenge` from English to Spanish normalises to the expected Word: pronunciations, confidence, definitions with their synonyms and example, examples and translations |
| GoogleTranslate.TranslateWord | app/v1/services/google_translate.py:19-26 | a provider error or a normalisation failure yields `GoogleTranslateRequestException`; a delivered reply that normalises yields exactly its Word, and a Word is returned only then |
| GoogleTranslate.Translator.Translate | app/v1/services/google_translate.py:21 | returns the provider's reply and counts one request |
| GoogleTranslate.GoogleTranslateService.constructor | app/v1/services/google_translate.py:16-17 | the service holds the given translator |
| GoogleTranslate.GoogleTranslateService.GetTranslatedWord | app/v1/services/google_translate.py:19-26 | exactly one provider request; the outcome is `TranslateWord` of its reply |
| Dicts.AssignKeys | app/v1/services/google_translate.py:91 | repeated `d[k] = v` leaves exactly the original keys plus the written ones |
| Dicts.AssignLastWins | app/v1/services/google_translate.py:91 | after repeated `d[k] = v`, a key holds its last written value |
| Dicts.AssignValueFrom | app/v1/services/google_translate.py:57 | every value of the built dict was there at the start or was written by some pair |
| Repository.Find | app/v1/repositories/translation.py:41-42 | a record is found exactly when one is stored under `(word, sl)`; it is that stored record, and it has that word and language |
| Repository.Inserted | app/v1/repositories/translation.py:44-47 | the new word's key is added; the word is stored when the key was new; every earlier record is unchanged |
| Repository.Updated | app/v1/repositories/translation.py:52-55 | the matching record gets the new languages map and keeps its other fields; no other record changes and no key is added |
| Repository.InsertedKeyed | app/v1/repositories/translation.py:44-47 | an insert keeps every record under its own word and language |
| Repository.UpdatedKeyed | app/v1/repositories/translation.py:52-55 | a languages update keeps every record under its own word and language |
| Repository.FindInserted | app/v1/repositories/translation.py:41-47 | an inserted word is then found by its own word and language |
| Repository.FindIgnoresOtherLanguages | app/v1/repositories/translation.py:41-42 | storing a record in another language does not change the lookup of `(word, sl)` |
| Repository.WordStore.constructor | app/v1/repositories/translation.py:38-39 | the store starts with the given records and failure modes |
| Repository.WordStore.GetWord | app/v1/repositories/translation.py:41-42 | raises exactly when the driver fails; otherwise returns the document found |
| Repository.WordStore.InsertWord | app/v1/repositories/translation.py:44-50 | acknowledges exactly when the driver does not fail, and then inserts; a failure is swallowed and changes nothing |
| Repository.WordStore.UpdateLanguages | app/v1/repositories/translation.py:52-58 | acknowledges exactly when the driver does not fail, and then replaces the languages of the matching record |
| Service.MutableWord.constructor | app/v1/services/translation.py:31 | the new Word object holds the given record |
| Service.TranslationService.constructor | app/v1/services/translation.py:14-15 | the service holds the given repository |
| Service.TranslationService.AddNewWord | app/v1/services/translation.py:20-21 | inserts the whole word and returns the store's acknowledgement |
| Service.TranslationService.GetWordFromDb | app/v1/services/translation.py:26-33 | none exactly when the read raises or no record matches; otherwise a new object holding the stored record |
| Service.TranslationService.AddNewLanguageToWord | app/v1/services/translation.py:35-43 | `w.languages[l]` becomes `d` and every other entry is unchanged; the whole merged map is stored under `w`'s word and language; the acknowledgement is returned unchanged |
| Service.TranslationService.GetOnlyMyLanguage | app/v1/services/translation.py:45-48 | the same object, its languages narrowed to exactly `{l: old[l]}`, its other fields untouched |
| Endpoints.StoredWord | app/v1/services/translation.py:26-33 | no stored word exactly when the read raises or no record has `(word, sl)`; otherwise that stored record |
| Endpoints.GetWordSpec | app/v1/endpoints/translation.py:57-86 | a bad request exactly when `sl == tl`; at most one provider request, and one whenever no word is returned; no record is lost; nothing is written when the write fails, nothing is returned or the store answered |
| Endpoints.TranslationEndpoint.GetWord | app/v1/endpoints/translation.py:32-86 | response, final records and provider requests are exactly `GetWordSpec` of the initial store and the provider; records stay under their own keys |
| Endpoints.EqualLanguagesRejected | app/v1/endpoints/translation.py:57-58 | the response is a bad request exactly when `sl == tl`; then there are no store changes and no provider requests |
| Endpoints.HitWithTarget | app/v1/endpoints/translation.py:63-68 | stored word with the target: no provider request, store unchanged, response is the stored word with languages exactly `{tl: stored[tl]}` |
| Endpoints.HitWithoutTarget | app/v1/endpoints/translation.py:70-76 | stored word without the target: one provider request; the stored record gets its old languages plus the fetched target; no other record changes; the response is the fetched word |
| Endpoints.Miss | app/v1/endpoints/translation.py:78-83 | no stored word: one provider request; the fetched word is returned and inserted; it has exactly one language |
| Endpoints.AtMostOneProviderCall | app/v1/endpoints/translation.py:60-83 | at most one provider request; none exactly when the request is rejected or answered from the store |
| Endpoints.OtherSourceLanguageIsMiss | app/v1/endpoints/translation.py:61 | a stored record of the same text in another source language does not avoid the provider request |
| Endpoints.WriteFailureKeepsResponse | app/v1/endpoints/translation.py:73-83 | a failing store write leaves the response and the provider requests as they would be with a working store, and changes no record |
| Endpoints.ProviderFailureWritesNothing | app/v1/endpoints/translation.py:70-86 | a failed provider request writes nothing, and the handler returns no word |
| Endpoints.FetchedWordLacksTarget | app/v1/endpoints/translation.py:70-74 | a stored word without the target, refreshed by a fetched word that also lacks it (the `KeyError`), returns no word and writes nothing after one request |
| Endpoints.ReturnedWordHasOneLanguage | app/v1/endpoints/translation.py:63-83 | every returned word has exactly one language; one answered from the store has exactly the target |
| Endpoints.KeepsStoreKeyed | app/v1/endpoints/translation.py:60-83 | every record stays stored under its own word and language |

## Left out

- The MongoDB driver (app/v1/repositories/translation.py). It is replaced by a map keyed by
  `(word, language)`, with one flag for read failures and one for write failures.
  - Real Mongo query, update and insert semantics are server-side, and not modelled.
  - A second document with an existing key (possible after a read failure counted as a miss) is
    dropped in the model. In Mongo it would be added, but `find_one` would still return the
    earlier document.
- `get_list_of_words` and `delete_word`, in the service, the repository and the router. They are
  pass-throughs to server-side queries.
- Async scheduling and concurrent lookups. Each handler call runs alone.
- The `aiogoogletrans` transport. The provider is a deterministic function of `(word, src, dest)`.
  A new client is injected per request; the model keeps one client with a request counter.
- FastAPI and pydantic machinery:
  - the reaction of FastAPI's response validation to the `None` the handler falls through with;
  - `model_dump`, `del word['_id']` and the re-validation of stored documents. Stored records are
    `Word` values, so they are always valid.
  - The wording of the exception messages.
- The `print` of the stored languages in the handler.
- Floating point. Confidences are opaque reals; only "is a float" decides anything.
- ConfidenceOf: a numeric string as `confidence` fails in the model. Pydantic's lax mode would
  convert it.
- SynonymsGroupedByKeys: keys are compared as payload values. Python's `1 == 1.0 == True` key
  equality is not modelled.
- BuildDefinition: the source assigns `synonyms`, `example` and `context` without pydantic
  validation. The model type-checks each assigned value, so a wrongly typed value fails here
  instead of being carried along.
- DefinitionItem: same type check as BuildDefinition, for the same reason.
- AddTranslations: `text` and `translations` are type-checked at construction, as pydantic does.
  Lax coercions of other types are not modelled.
