/**
  The translation service: the layer between the endpoint and the repository.
  It turns stored documents into Word objects and back, and changes a Word's
  languages in place.
 */
module Service {
  import opened Models
  import opened Repository

  /** A Word object, whose fields the service reassigns. */
  class MutableWord {
    var word: Option<string>
    var language: Option<string>
    var pronunciation: Option<string>
    var languages: map<string, Language>

    /** The record the object currently holds. */
    function Value(): Word
      reads this
    {
      Word(word, language, pronunciation, languages)
    }

    /** `WordModel(**document)`. */
    constructor(w: Word)
      ensures Value() == w
    {
      word := w.word;
      language := w.language;
      pronunciation := w.pronunciation;
      languages := w.languages;
    }
  }

  class TranslationService {
    const repository: WordStore

    constructor(repository: WordStore)
      ensures this.repository == repository
    {
      this.repository := repository;
    }

    /** `add_new_word`: insert the whole word and pass on the acknowledgement. */
    method AddNewWord(w: Word) returns (ack: bool)
      requires repository.Valid()
      modifies repository
      ensures repository.Valid()
      ensures ack == !repository.writeFails
      ensures repository.records == if ack then Inserted(old(repository.records), w) else old(repository.records)
      ensures repository.readFails == old(repository.readFails) && repository.writeFails == old(repository.writeFails)
    {
      ack := repository.InsertWord(w);
    }

    /**
      `get_word_from_db`: a new Word object for the stored document; none when
      no document matches (indexing the missing document raises) or the driver raises.
     */
    method GetWordFromDb(word: string, sl: string) returns (w: MutableWord?)
      requires repository.Valid()
      ensures w == null <==> repository.readFails || Find(repository.records, word, sl).None?
      ensures w != null ==> fresh(w) && Some(w.Value()) == Find(repository.records, word, sl)
      ensures w != null ==> w.word == Some(word) && w.language == Some(sl)
    {
      var found, raised := repository.GetWord(word, sl);
      if raised || found.None? {
        return null;
      }
      w := new MutableWord(found.value);
    }

    /**
      `add_new_language_to_word`: add or replace one language of the object in
      place, then store the whole merged languages map under the object's own
      word and language; the acknowledgement is passed on.
     */
    method AddNewLanguageToWord(w: MutableWord, language: string, data: Language) returns (ack: bool)
      requires repository.Valid()
      modifies w, repository
      ensures repository.Valid()
      ensures w.Value() == old(w.Value()).(languages := old(w.languages)[language := data])
      ensures w.languages.Keys == old(w.languages).Keys + {language} && w.languages[language] == data
      ensures forall l :: l in old(w.languages) && l != language ==> w.languages[l] == old(w.languages)[l]
      ensures ack == !repository.writeFails
      ensures repository.records == if ack then Updated(old(repository.records), KeyOf(w.Value()), w.languages)
                                    else old(repository.records)
      ensures repository.readFails == old(repository.readFails) && repository.writeFails == old(repository.writeFails)
    {
      w.languages := w.languages[language := data];
      var query := (w.word, w.language);
      ack := repository.UpdateLanguages(query, w.languages);
    }

    /** `get_only_my_language`: narrow the object, in place, to its one language `language`. */
    method GetOnlyMyLanguage(w: MutableWord, language: string) returns (r: MutableWord)
      requires language in w.languages
      modifies w
      ensures r == w
      ensures w.Value() == old(w.Value()).(languages := map[language := old(w.languages)[language]])
    {
      w.languages := map[language := w.languages[language]];
      return w;
    }
  }
}
