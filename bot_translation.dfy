/** How the bot classifies a text as Uzbek and picks the direction in which
    it asks the external translator to translate it (bot.py). */
module BotTranslation {
  import opened Python
  import opened PyText

  /** A character of the Unicode Cyrillic block U+0400..U+04FF. */
  predicate IsCyrillic(c: char) {
    '\U{0400}' <= c <= '\U{04FF}'
  }

  function HasCyrillic(s: string): (r: bool)
    ensures r <==> exists k :: 0 <= k < |s| && IsCyrillic(s[k])
  {
    if s == [] then false else IsCyrillic(s[0]) || HasCyrillic(s[1..])
  }

  /** The fixed list of Latin-script Uzbek words the classifier recognises. */
  const UzTokens: set<string> :=
    {"men", "sen", "biz", "siz", "ular", "va", "yoq", "yo'q",
     "kitob", "rahmat", "salom", "yaxshi", "bor", "yo'qlik",
     "qanday", "iltimos", "olma", "ot", "it", "bolalar"}

  /** The punctuation stripped from both ends of a word before the lookup. */
  predicate IsTokenPunct(c: char) {
    c in ".,!?;:"
  }

  /** `tok.strip(".,!?;:")`. */
  function TokenCore(tok: string): string {
    Strip(tok, IsTokenPunct)
  }

  function AnyUzToken(toks: seq<string>): (r: bool)
    ensures r <==> exists t :: t in toks && TokenCore(t) in UzTokens
  {
    if toks == [] then false else TokenCore(toks[0]) in UzTokens || AnyUzToken(toks[1..])
  }

  /** `detect_uzbek(text)`. */
  function DetectUzbek(text: string): (r: bool)
    ensures text == [] ==> !r
    ensures HasCyrillic(text) ==> r
  {
    if text == [] then false
    else if HasCyrillic(text) then true
    else AnyUzToken(Split(Lower(text)))
  }

  /** The classifier holds exactly when some character is Cyrillic or some
      whitespace-separated word of the lower-cased text, with `.,!?;:`
      stripped from its ends, is one of the Uzbek words. */
  lemma DetectUzbekSpec(text: string)
    ensures DetectUzbek(text) <==>
      || (exists k :: 0 <= k < |text| && IsCyrillic(text[k]))
      || (exists t :: IsWordOf(Lower(text), t) && TokenCore(t) in UzTokens)
  {
    var low := Lower(text);
    forall t
      ensures t in Split(low) <==> IsWordOf(low, t)
    {
      SplitWords(low, t);
    }
  }

  /** The external translator, called as `translate(source, target, text)`:
      `Some(result)` when it answers, `None` when the call raises. */
  type Translator = (string, string, string) -> Option<string>

  /** What `translate_dynamic` returns: the translation (`None` when there is
      none) and the source and target language codes it reports. */
  datatype Translation = Translation(text: Option<string>, source: string, target: string)

  /** `translate_dynamic(text)`. */
  function TranslateDynamic(text: string, translate: Translator): (r: Translation)
    ensures (forall k :: 0 <= k < |text| ==> IsSpace(text[k])) ==>
      r == Translation(None, "unknown", "unknown")
    ensures (exists k :: 0 <= k < |text| && !IsSpace(text[k])) ==>
      && (r.source, r.target) == (if DetectUzbek(text) then ("uz", "en") else ("auto", "uz"))
      && r.text == translate(r.source, r.target, text)
  {
    StripSpacesEmpty(text);
    if StripSpaces(text) == [] then Translation(None, "unknown", "unknown")
    else
      var isUz := DetectUzbek(text);
      var source := if isUz then "uz" else "auto";
      var target := if isUz then "en" else "uz";
      match translate(source, target, text)
      case Some(t) => Translation(Some(t), source, target)
      case None => Translation(None, if isUz then "uz" else "auto", if isUz then "en" else "uz")
  }

  /** Text holding a Cyrillic character is always sent from Uzbek to English,
      whatever the translator does. */
  lemma CyrillicTranslatesFromUzbek(text: string, translate: Translator)
    requires HasCyrillic(text)
    ensures TranslateDynamic(text, translate).source == "uz"
    ensures TranslateDynamic(text, translate).target == "en"
  {
    var k :| 0 <= k < |text| && IsCyrillic(text[k]);
    assert !IsSpace(text[k]);
  }
}
