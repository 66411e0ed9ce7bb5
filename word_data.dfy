/** The bot's word dataset (`data/words.json`): a JSON object from the
    lower-cased word to an entry with optional fields. */
module WordData {
  import opened JsonData

  datatype WordEntry = WordEntry(
    translation: Field<string>,
    partOfSpeech: Field<string>,
    level: Field<string>,
    prefixes: Field<seq<string>>,
    suffixes: Field<seq<string>>,
    singularPlural: Field<string>,
    examples: Field<seq<string>>,
    synonyms: Field<seq<string>>)

  /** The dataset as loaded: an object of entries, or some other JSON value
      (including the `{}` that a missing or unreadable file loads as). */
  datatype WordsFile = WordsObject(entries: map<string, WordEntry>) | NotAnObject

  /** Python truthiness of a looked-up string: present and non-empty. */
  predicate TruthyText(f: Field<string>) {
    f.Present? && f.value != []
  }

  /** Python truthiness of a looked-up list: present and non-empty. */
  predicate TruthyList(f: Field<seq<string>>) {
    f.Present? && f.value != []
  }
}
