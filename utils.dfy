/** The bot's text helpers (utils.py): the summary of a dataset entry, the
    random phrase line, and the ASCII-based language guess. */
module Utils {
  import opened Python
  import opened PyText
  import opened JsonData
  import opened WordData
  import BotTranslation

  // ------------------------------------------------------ word summary

  /** An f-string field for `info.get(key, default)`: the stored text, `None`
      for a JSON null, the default for a missing key. */
  function Shown(f: Field<string>, default: string): string {
    match f
    case Absent => default
    case Null => "None"
    case Present(s) => s
  }

  /** `", ".join(info.get(key, [])) or "N/A"`; joining a null raises `TypeError`. */
  function AffixText(f: Field<seq<string>>): (r: Result<string>)
    ensures r.Raise? <==> f.Null?
    ensures r.Ok? ==> r.value != []
  {
    match f
    case Absent => Ok("N/A")
    case Null => Raise(TypeError)
    case Present(xs) => Ok(if Join(xs, ", ") == [] then "N/A" else Join(xs, ", "))
  }

  /** `examples[0]` and `examples[1]` for `info.get("examples", ["N/A", "N/A"])`. */
  function ExamplePair(f: Field<seq<string>>): (r: Result<(string, string)>)
    ensures f.Absent? ==> r == Ok(("N/A", "N/A"))
    ensures r == Raise(TypeError) <==> f.Null?
    ensures r == Raise(IndexError) <==> f.Present? && |f.value| < 2
    ensures f.Present? && |f.value| >= 2 ==> r == Ok((f.value[0], f.value[1]))
  {
    match f
    case Absent => Ok(("N/A", "N/A"))
    case Null => Raise(TypeError)
    case Present(xs) => if |xs| < 2 then Raise(IndexError) else Ok((xs[0], xs[1]))
  }

  /** `format_word_response(word, info)` of utils.py: nine Markdown lines
      (the f-string's pieces, joined by `\n`), each field falling back to `N/A`. A null list of affixes or examples raises
      `TypeError`, fewer than two examples raise `IndexError`. */
  function FormatWordSummary(word: string, info: WordEntry): (r: Result<string>)
    ensures r.Ok? <==>
      && !info.prefixes.Null? && !info.suffixes.Null?
      && (info.examples.Absent? || (info.examples.Present? && |info.examples.value| >= 2))
    ensures r == Raise(IndexError) <==>
      && !info.prefixes.Null? && !info.suffixes.Null?
      && info.examples.Present? && |info.examples.value| < 2
  {
    match AffixText(info.prefixes)
    case Raise(e) => Raise(e)
    case Ok(prefixes) =>
      match AffixText(info.suffixes)
      case Raise(e) => Raise(e)
      case Ok(suffixes) =>
        var singularPlural := Shown(info.singularPlural, "N/A");
        match ExamplePair(info.examples)
        case Raise(e) => Raise(e)
        case Ok(examples) =>
          Ok(Join(SummaryLines(word, Shown(info.translation, "N/A"), Shown(info.partOfSpeech, "N/A"),
                               Shown(info.level, "N/A"), prefixes, suffixes, singularPlural,
                               examples.0, examples.1), "\n"))
  }

  /** The summary's lines, as they appear one after the other. */
  function SummaryLines(word: string, translation: string, partOfSpeech: string, level: string,
                        prefixes: string, suffixes: string, singularPlural: string,
                        example1: string, example2: string): (lines: seq<string>)
    ensures |lines| == 9
  {
    ["\U{1F539} *Word:* " + word,
     "\U{1F539} *Translation:* " + translation,
     "\U{1F539} *Part of Speech:* " + partOfSpeech,
     "\U{1F539} *Level:* " + level,
     "\U{1F539} *Prefixes/Suffixes:* " + prefixes + " / " + suffixes,
     "\U{1F539} *Singular/Plural:* " + singularPlural,
     "\U{1F539} *Examples:*",
     "   1. " + example1,
     "   2. " + example2]
  }

  /** An empty affix list, or one holding only the empty string, renders as
      `N/A`; any other list renders as its items joined by `, `. */
  lemma AffixTextFallback(f: Field<seq<string>>)
    requires !f.Null?
    ensures f.Absent? || f.value == [] || f.value == [[]] ==> AffixText(f) == Ok("N/A")
    ensures f.Present? && f.value != [] && f.value != [[]] ==> AffixText(f) == Ok(Join(f.value, ", "))
  {
    if f.Present? {
      JoinEmpty(f.value, ", ");
    }
  }

  /** When no shown value holds a line break, the summary splits on `\n` into
      exactly its nine lines, the last two being the numbered examples. */
  lemma SummaryHasNineLines(word: string, info: WordEntry)
    requires FormatWordSummary(word, info).Ok?
    requires '\n' !in word
    requires '\n' !in Shown(info.translation, "N/A") && '\n' !in Shown(info.partOfSpeech, "N/A")
    requires '\n' !in Shown(info.level, "N/A") && '\n' !in Shown(info.singularPlural, "N/A")
    requires '\n' !in AffixText(info.prefixes).value && '\n' !in AffixText(info.suffixes).value
    requires '\n' !in ExamplePair(info.examples).value.0 && '\n' !in ExamplePair(info.examples).value.1
    ensures SplitOn(FormatWordSummary(word, info).value, '\n') ==
      SummaryLines(word, Shown(info.translation, "N/A"), Shown(info.partOfSpeech, "N/A"),
                   Shown(info.level, "N/A"), AffixText(info.prefixes).value, AffixText(info.suffixes).value,
                   Shown(info.singularPlural, "N/A"),
                   ExamplePair(info.examples).value.0, ExamplePair(info.examples).value.1)
    ensures |SplitOn(FormatWordSummary(word, info).value, '\n')| == 9
    ensures SplitOn(FormatWordSummary(word, info).value, '\n')[7] == "   1. " + ExamplePair(info.examples).value.0
    ensures SplitOn(FormatWordSummary(word, info).value, '\n')[8] == "   2. " + ExamplePair(info.examples).value.1
  {
    var e := ExamplePair(info.examples).value;
    assert FormatWordSummary(word, info).value ==
      Join(SummaryLines(word, Shown(info.translation, "N/A"), Shown(info.partOfSpeech, "N/A"),
                        Shown(info.level, "N/A"), AffixText(info.prefixes).value, AffixText(info.suffixes).value,
                        Shown(info.singularPlural, "N/A"), e.0, e.1), "\n");
    SummaryLinesSplit(word, Shown(info.translation, "N/A"), Shown(info.partOfSpeech, "N/A"),
                      Shown(info.level, "N/A"), AffixText(info.prefixes).value, AffixText(info.suffixes).value,
                      Shown(info.singularPlural, "N/A"), e.0, e.1);
  }

  /** Nine lines free of line breaks, joined by `\n`, split back into themselves. */
  lemma SummaryLinesSplit(word: string, translation: string, partOfSpeech: string, level: string,
                          prefixes: string, suffixes: string, singularPlural: string,
                          example1: string, example2: string)
    requires '\n' !in word && '\n' !in translation && '\n' !in partOfSpeech && '\n' !in level
    requires '\n' !in prefixes && '\n' !in suffixes && '\n' !in singularPlural
    requires '\n' !in example1 && '\n' !in example2
    ensures var lines := SummaryLines(word, translation, partOfSpeech, level, prefixes, suffixes,
                                      singularPlural, example1, example2);
      SplitOn(Join(lines, "\n"), '\n') == lines
  {
    var lines := SummaryLines(word, translation, partOfSpeech, level, prefixes, suffixes,
                              singularPlural, example1, example2);
    assert forall p :: p in lines ==> '\n' !in p;
    SplitOnJoin(lines, '\n');
  }

  // ------------------------------------------------------ random phrase

  /** An item of the phrase list; either key may be missing. */
  datatype PhraseItem = PhraseItem(phrase: Field<string>, meaning: Field<string>)

  const NoPhrases: string := "\U{2757} No phrases available."

  /** `f"🌟 {item['phrase']} – {item['meaning']}"`; a missing key raises `KeyError`. */
  function PhraseLine(item: PhraseItem): (r: Result<string>)
    ensures r.Raise? <==> item.phrase.Absent? || item.meaning.Absent?
    ensures r.Raise? ==> r == Raise(KeyError)
  {
    if item.phrase.Absent? || item.meaning.Absent? then Raise(KeyError)
    else Ok("\U{1F31F} " + Shown(item.phrase, "") + " \U{2013} " + Shown(item.meaning, ""))
  }

  /** `pick_random_phrase(phrases_list)`: the fixed notice for an empty list,
      otherwise the line of some item of the list. */
  method PickRandomPhrase(phrases: seq<PhraseItem>) returns (r: Result<string>)
    ensures phrases == [] ==> r == Ok(NoPhrases)
    ensures phrases != [] ==> exists i :: 0 <= i < |phrases| && r == PhraseLine(phrases[i])
  {
    if phrases == [] {
      return Ok(NoPhrases);
    }
    var i :| 0 <= i < |phrases|;
    r := PhraseLine(phrases[i]);
  }

  /** A phrase line starts with the star and holds the phrase, then the dash,
      then the meaning. */
  lemma PhraseLineShape(p: string, m: string)
    ensures PhraseLine(PhraseItem(Present(p), Present(m))) == Ok("\U{1F31F} " + p + " \U{2013} " + m)
    ensures PhraseLine(PhraseItem(Present(p), Present(m))) != Ok(NoPhrases)
  {
    var line := "\U{1F31F} " + p + " \U{2013} " + m;
    assert line[0] != NoPhrases[0];
  }

  // ------------------------------------------------------ language guess

  /** `ord(c) < 128` for every character. */
  function AllAscii(s: string): (r: bool)
    ensures r <==> forall k :: 0 <= k < |s| ==> s[k] < '\U{0080}'
  {
    if s == [] then true else s[0] < '\U{0080}' && AllAscii(s[1..])
  }

  /** `detect_language(text)`: nothing for blank text, `english` when the
      stripped text is all ASCII, `uzbek` otherwise. */
  function DetectLanguage(text: string): (r: Option<string>)
    ensures r == None <==> forall k :: 0 <= k < |text| ==> IsSpace(text[k])
    ensures r == None || r == Some("english") || r == Some("uzbek")
  {
    StripSpacesEmpty(text);
    var t := StripSpaces(text);
    if t == [] then None
    else if AllAscii(t) then Some("english")
    else Some("uzbek")
  }

  /** The guess is nothing exactly for blank text; a non-blank ASCII text is
      English; a text with a non-ASCII character that is not whitespace is
      Uzbek; and an Uzbek guess means the text has a non-ASCII character. */
  lemma DetectLanguageSpec(text: string)
    ensures DetectLanguage(text) == None <==> forall k :: 0 <= k < |text| ==> IsSpace(text[k])
    ensures (exists k :: 0 <= k < |text| && !IsSpace(text[k])) && (forall k :: 0 <= k < |text| ==> text[k] < '\U{0080}')
      ==> DetectLanguage(text) == Some("english")
    ensures (exists k :: 0 <= k < |text| && !IsSpace(text[k]) && text[k] >= '\U{0080}')
      ==> DetectLanguage(text) == Some("uzbek")
    ensures DetectLanguage(text) == Some("uzbek") ==> exists k :: 0 <= k < |text| && text[k] >= '\U{0080}'
  {
    StripSpacesEmpty(text);
    var span := StripSpan(text, IsSpace);
    var t := StripSpaces(text);
    assert forall k :: 0 <= k < |t| ==> t[k] == text[span.0 + k];
    if k :| 0 <= k < |text| && !IsSpace(text[k]) && text[k] >= '\U{0080}' {
      assert t[k - span.0] == text[k];
    }
  }

  /** A non-blank text is guessed English exactly when each of its
      non-ASCII characters sits in its leading or trailing whitespace, the
      part that `strip()` removes (so a leading no-break space still counts
      as English and an ideographic space between two words as Uzbek). */
  lemma DetectEnglishExactly(text: string)
    ensures DetectLanguage(text) == Some("english") <==>
      && (exists k :: 0 <= k < |text| && !IsSpace(text[k]))
      && forall k :: 0 <= k < |text| && text[k] >= '\U{0080}' ==> StrippedAt(text, k)
  {
    StripSpacesEmpty(text);
    var span := StripSpan(text, IsSpace);
    if span.0 < span.1 {
      EnglishWithinSpan(text);
      forall k | 0 <= k < |text| ensures StrippedAt(text, k) <==> !(span.0 <= k < span.1) {
        StripSpanEdges(text, IsSpace, k);
      }
    }
  }

  /** Character `k` lies in the leading or in the trailing whitespace of `text`. */
  predicate StrippedAt(text: string, k: nat)
    requires k < |text|
  {
    (forall i :: 0 <= i <= k ==> IsSpace(text[i])) || (forall i :: k <= i < |text| ==> IsSpace(text[i]))
  }

  /** For a non-blank text, the English guess is the ASCII test on the span
      that `strip()` keeps. */
  lemma EnglishWithinSpan(text: string)
    requires StripSpan(text, IsSpace).0 < StripSpan(text, IsSpace).1
    ensures DetectLanguage(text) == Some("english") <==>
      forall k :: StripSpan(text, IsSpace).0 <= k < StripSpan(text, IsSpace).1 ==> text[k] < '\U{0080}'
  {
    var span := StripSpan(text, IsSpace);
    var t := StripSpaces(text);
    assert |t| == span.1 - span.0;
    assert forall j :: 0 <= j < |t| ==> t[j] == text[span.0 + j];
    if AllAscii(t) {
      forall k | span.0 <= k < span.1 ensures text[k] < '\U{0080}' {
        assert t[k - span.0] == text[k];
      }
    }
  }

  /** Both classifiers call a text with a character of the Cyrillic block Uzbek. */
  lemma CyrillicIsUzbek(text: string)
    requires exists k :: 0 <= k < |text| && BotTranslation.IsCyrillic(text[k])
    ensures DetectLanguage(text) == Some("uzbek")
    ensures BotTranslation.DetectUzbek(text)
  {
    var k :| 0 <= k < |text| && BotTranslation.IsCyrillic(text[k]);
    assert !IsSpace(text[k]) && text[k] >= '\U{0080}';
    DetectLanguageSpec(text);
  }
}
