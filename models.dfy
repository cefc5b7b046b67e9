/**
  The domain model of the translation service: a Word, its per-target-language
  Language views, their Definitions and alternate Translations.

  Each record mirrors one pydantic model. A field that the model declares with a
  default value gets the same default here (`None`), so a constructor call that
  names only the required fields builds the record the service builds.
  Confidences are kept as the payload's number (`real`); nothing computes with them.
 */
module Models {

  datatype Option<+T> = None | Some(value: T)

  /** An alternate rendering of the word for one part of speech. */
  datatype Translation = Translation(
    text: string,
    translations: seq<string>,
    confidence: Option<real>)

  /** One dictionary definition; only `definition` is required. */
  datatype Definition = Definition(
    definition: Option<string>,
    example: Option<string> := None,
    synonyms: Option<seq<string>> := None,
    context: Option<seq<string>> := None)

  /** The view of a word in one target language. */
  datatype Language = Language(
    text: string,
    confidence: Option<real>,
    pronunciation: Option<string> := None,
    definitions: Option<map<string, seq<Definition>>> := None,
    examples: Option<seq<string>> := None,
    nameonly translations: Option<map<string, seq<Translation>>>)

  /** A source-language word with its known target languages, keyed by language code. */
  datatype Word = Word(
    word: Option<string>,
    language: Option<string>,
    pronunciation: Option<string>,
    languages: map<string, Language>)
}
