/** Looking a word up in the word dataset and formatting the reply for it
    (bot.py, `find_word_info` and `format_word_response`). */
module BotWords {
  import opened Python
  import opened PyText
  import opened WordData

  /** `find_word_info(word)`: the entry stored under the lower-cased word;
      it finds one exactly when the dataset is an object holding that key. */
  function FindWordInfo(word: string, words: WordsFile): (r: Option<WordEntry>)
    ensures r.Some? <==> words.WordsObject? && Lower(word) in words.entries
    ensures r.Some? ==> r.value == words.entries[Lower(word)]
  {
    if words.NotAnObject? then None
    else if Lower(word) in words.entries then Some(words.entries[Lower(word)])
    else None
  }

  /** The lookup does not depend on the case of ASCII letters in the query. */
  lemma FindWordInfoCaseInsensitive(word: string, other: string, words: WordsFile)
    requires Lower(word) == Lower(other)
    ensures FindWordInfo(word, words) == FindWordInfo(other, words)
    ensures FindWordInfo(Lower(word), words) == FindWordInfo(word, words)
  {
    LowerIdempotent(word);
  }

  // ------------------------------------------------------------ the optional sections

  /** One optional section of the reply. */
  datatype Section =
    | PartOfSpeech(text: string)
    | Level(text: string)
    | Prefixes(items: seq<string>)
    | Suffixes(items: seq<string>)
    | SingularPlural(text: string)
    | Examples(items: seq<string>)
    | Synonyms(items: seq<string>)

  const SectionKinds: nat := 7

  /** The place of a section in the fixed order of the reply. */
  function Rank(s: Section): (k: nat)
    ensures k < SectionKinds
  {
    match s
    case PartOfSpeech(_) => 0
    case Level(_) => 1
    case Prefixes(_) => 2
    case Suffixes(_) => 3
    case SingularPlural(_) => 4
    case Examples(_) => 5
    case Synonyms(_) => 6
  }

  /** Whether the entry's field behind the section of rank `k` is truthy. */
  predicate FieldTruthy(e: WordEntry, k: nat)
    requires k < SectionKinds
  {
    match k
    case 0 => TruthyText(e.partOfSpeech)
    case 1 => TruthyText(e.level)
    case 2 => TruthyList(e.prefixes)
    case 3 => TruthyList(e.suffixes)
    case 4 => TruthyText(e.singularPlural)
    case 5 => TruthyList(e.examples)
    case _ => TruthyList(e.synonyms)
  }

  /** The section of rank `k`, present when its field is truthy. */
  function SectionAt(e: WordEntry, k: nat): (r: Option<Section>)
    requires k < SectionKinds
    ensures r.Some? <==> FieldTruthy(e, k)
    ensures r.Some? ==> Rank(r.value) == k
  {
    if !FieldTruthy(e, k) then None
    else if k == 0 then Some(PartOfSpeech(e.partOfSpeech.value))
    else if k == 1 then Some(Level(e.level.value))
    else if k == 2 then Some(Prefixes(e.prefixes.value))
    else if k == 3 then Some(Suffixes(e.suffixes.value))
    else if k == 4 then Some(SingularPlural(e.singularPlural.value))
    else if k == 5 then Some(Examples(e.examples.value))
    else Some(Synonyms(e.synonyms.value))
  }

  function OptionSeq(o: Option<Section>): seq<Section> {
    if o.Some? then [o.value] else []
  }

  /** The present sections of rank `k` and above, in rank order. */
  function SectionsFrom(e: WordEntry, k: nat): seq<Section>
    requires k <= SectionKinds
    decreases SectionKinds - k
  {
    if k == SectionKinds then [] else OptionSeq(SectionAt(e, k)) + SectionsFrom(e, k + 1)
  }

  /** The sections a reply for `info` shows. */
  function SectionsOf(info: Option<WordEntry>): seq<Section> {
    if info.Some? then SectionsFrom(info.value, 0) else []
  }

  /** Every section listed from rank `k` on has rank at least `k`. */
  lemma {:induction false} SectionsFromRanks(e: WordEntry, k: nat)
    requires k <= SectionKinds
    ensures forall s :: s in SectionsFrom(e, k) ==> k <= Rank(s)
    decreases SectionKinds - k
  {
    if k < SectionKinds {
      SectionsFromRanks(e, k + 1);
      assert SectionsFrom(e, k) == OptionSeq(SectionAt(e, k)) + SectionsFrom(e, k + 1);
    }
  }

  /** Every section listed from rank `k` on has a truthy field. */
  lemma {:induction false} SectionsFromTruthy(e: WordEntry, k: nat)
    requires k <= SectionKinds
    ensures forall s :: s in SectionsFrom(e, k) ==> FieldTruthy(e, Rank(s))
    decreases SectionKinds - k
  {
    if k < SectionKinds {
      SectionsFromTruthy(e, k + 1);
      assert SectionsFrom(e, k) == OptionSeq(SectionAt(e, k)) + SectionsFrom(e, k + 1);
    }
  }

  /** Sections in strictly increasing rank. */
  predicate Ascending(ss: seq<Section>) {
    forall i, j :: 0 <= i < j < |ss| ==> Rank(ss[i]) < Rank(ss[j])
  }

  /** At most one section of rank `k` before ascending sections of higher
      rank is still ascending. */
  lemma AscendingCons(head: seq<Section>, tail: seq<Section>, k: nat)
    requires |head| <= 1 && forall s :: s in head ==> Rank(s) == k
    requires forall s :: s in tail ==> k < Rank(s)
    requires Ascending(tail)
    ensures Ascending(head + tail)
  {
    var all := head + tail;
    forall i, j | 0 <= i < j < |all|
      ensures Rank(all[i]) < Rank(all[j])
    {
      assert all[j] == tail[j - |head|] && all[j] in tail;
      if |head| <= i {
        assert all[i] == tail[i - |head|];
      } else {
        assert all[i] in head;
      }
    }
  }

  /** The section of rank `k`, if present, is the only one it contributes. */
  lemma HeadRank(e: WordEntry, k: nat)
    requires k < SectionKinds
    ensures |OptionSeq(SectionAt(e, k))| <= 1
    ensures forall s :: s in OptionSeq(SectionAt(e, k)) ==> Rank(s) == k
  {
  }

  /** The sections listed from rank `k` on have strictly increasing ranks. */
  lemma {:induction false} SectionsFromOrdered(e: WordEntry, k: nat)
    requires k <= SectionKinds
    ensures Ascending(SectionsFrom(e, k))
    decreases SectionKinds - k
  {
    if k < SectionKinds {
      SectionsFromOrdered(e, k + 1);
      SectionsFromRanks(e, k + 1);
      HeadRank(e, k);
      AscendingCons(OptionSeq(SectionAt(e, k)), SectionsFrom(e, k + 1), k);
    }
  }

  /** Every truthy field of rank `k` or above has its section listed. */
  lemma {:induction false} SectionsFromComplete(e: WordEntry, k: nat, r: nat)
    requires k <= r < SectionKinds && FieldTruthy(e, r)
    ensures exists i :: 0 <= i < |SectionsFrom(e, k)| && Rank(SectionsFrom(e, k)[i]) == r
    decreases SectionKinds - k
  {
    var head := OptionSeq(SectionAt(e, k));
    var tail := SectionsFrom(e, k + 1);
    var all := SectionsFrom(e, k);
    assert all == head + tail;
    if r == k {
      assert Rank(all[0]) == r;
    } else {
      SectionsFromComplete(e, k + 1, r);
      var i :| 0 <= i < |tail| && Rank(tail[i]) == r;
      assert all[|head| + i] == tail[i];
    }
  }

  /** The reply lists the present sections in the fixed order part of speech,
      level, prefixes, suffixes, singular/plural, examples, synonyms, and a
      section is listed exactly when its field is truthy. */
  lemma SectionsInOrder(info: WordEntry)
    ensures Ascending(SectionsOf(Some(info)))
    ensures forall r :: 0 <= r < SectionKinds ==>
      (FieldTruthy(info, r) <==>
       exists i :: 0 <= i < |SectionsOf(Some(info))| && Rank(SectionsOf(Some(info))[i]) == r)
  {
    var ss := SectionsFrom(info, 0);
    assert SectionsOf(Some(info)) == ss;
    SectionsFromOrdered(info, 0);
    SectionsFromTruthy(info, 0);
    forall r | 0 <= r < SectionKinds
      ensures FieldTruthy(info, r) <==> exists i :: 0 <= i < |ss| && Rank(ss[i]) == r
    {
      if FieldTruthy(info, r) {
        SectionsFromComplete(info, 0, r);
      }
      if i :| 0 <= i < |ss| && Rank(ss[i]) == r {
        assert ss[i] in ss;
      }
    }
  }

  // ------------------------------------------------------------ rendering

  /** The bullet lines of the examples section. */
  function ExampleLines(xs: seq<string>): string {
    if xs == [] then [] else ExampleLines(xs[..|xs| - 1]) + " - " + xs[|xs| - 1] + "\n"
  }

  function Render(s: Section): string {
    match s
    case PartOfSpeech(t) => "\U{1F4DA} Part of Speech: " + t + "\n"
    case Level(t) => "\U{2B50} Level: " + t + "\n"
    case Prefixes(xs) => "\U{2795} Prefixes: " + Join(xs, ", ") + "\n"
    case Suffixes(xs) => "\U{2796} Suffixes: " + Join(xs, ", ") + "\n"
    case SingularPlural(t) => "\U{1F465} Singular/Plural: " + t + "\n"
    case Examples(xs) => "\U{1F4D6} Examples:\n" + ExampleLines(xs)
    case Synonyms(xs) => "\U{1F4A1} Synonyms: " + Join(xs, ", ") + "\n"
  }

  function RenderAll(ss: seq<Section>): string {
    if ss == [] then [] else RenderAll(ss[..|ss| - 1]) + Render(ss[|ss| - 1])
  }

  /** The first two lines of every reply, without the line break after them. */
  function HeaderLines(word: string, translation: string): string {
    "\U{1F4DD} Word: *" + word + "*\n\U{1F524} Translation: *" + translation + "*"
  }

  /** Stripping whitespace from the header followed by anything keeps the
      header whole, and leaves only the header when all that follows is
      whitespace. */
  lemma StripAfterHeader(head: string, tail: string)
    requires head != [] && !IsSpace(head[0]) && !IsSpace(head[|head| - 1])
    ensures head <= StripSpaces(head + tail)
    ensures (forall k :: 0 <= k < |tail| ==> IsSpace(tail[k])) ==> StripSpaces(head + tail) == head
  {
    var s := head + tail;
    assert s[0] == head[0];
    assert LeadingCount(s, IsSpace) == 0;
    TrailingCountAppend(head, tail);
    var n := TrailingCount(s, IsSpace);
    assert StripSpaces(s) == s[..|s| - n];
    assert forall k :: 0 <= k < |tail| ==> s[|head| + k] == tail[k];
  }

  /** The reply's header is never stripped away, and it is all that is left
      when no section follows. */
  lemma HeaderSurvivesStrip(word: string, translation: string, body: string)
    ensures HeaderLines(word, translation) <= StripSpaces(HeaderLines(word, translation) + "\n" + body)
    ensures body == [] ==> StripSpaces(HeaderLines(word, translation) + "\n" + body) == HeaderLines(word, translation)
  {
    var head := HeaderLines(word, translation);
    assert head[0] == '\U{1F4DD}' && head[|head| - 1] == '*';
    ConcatAssoc(head, "\n", body);
    StripAfterHeader(head, "\n" + body);
  }

  /** One step of the fixed sequence of optional sections. */
  lemma SectionsStep(e: WordEntry, shown: seq<Section>, k: nat)
    requires k < SectionKinds
    requires shown + SectionsFrom(e, k) == SectionsFrom(e, 0)
    ensures shown + OptionSeq(SectionAt(e, k)) + SectionsFrom(e, k + 1) == SectionsFrom(e, 0)
  {
    var x := OptionSeq(SectionAt(e, k));
    var y := SectionsFrom(e, k + 1);
    assert SectionsFrom(e, k) == x + y;
    ConcatAssoc(shown, x, y);
  }

  lemma ConcatAssoc<T>(a: seq<T>, b: seq<T>, c: seq<T>)
    ensures a + b + c == a + (b + c)
  {
  }

  lemma RenderAllSnoc(ss: seq<Section>, s: Section)
    ensures RenderAll(ss + [s]) == RenderAll(ss) + Render(s)
  {
    assert (ss + [s])[..|ss|] == ss;
  }

  /** The bullet lines for the examples, one `" - "` line per example. */
  method AppendExamples(response: string, xs: seq<string>) returns (response': string)
    ensures response' == response + ExampleLines(xs)
  {
    response' := response;
    var i := 0;
    while i < |xs|
      invariant 0 <= i <= |xs|
      invariant response' == response + ExampleLines(xs[..i])
    {
      response' := response' + " - " + xs[i] + "\n";
      assert xs[..i + 1][..i] == xs[..i];
      i := i + 1;
    }
    assert xs[..|xs|] == xs;
  }

  /** One `if info.get(...)` step of the reply: appends the section of rank
      `k` when its field is truthy. `response` is `prefix` followed by the
      sections `shown` so far, before and after. */
  method AppendSection(response: string, ghost prefix: string, ghost shown: seq<Section>, e: WordEntry, k: nat)
    returns (response': string, ghost shown': seq<Section>)
    requires k < SectionKinds
    requires response == prefix + RenderAll(shown)
    ensures shown' == shown + OptionSeq(SectionAt(e, k))
    ensures response' == prefix + RenderAll(shown')
  {
    response', shown' := response, shown;
    if !FieldTruthy(e, k) {
      assert shown + OptionSeq(SectionAt(e, k)) == shown;
      return;
    }
    var s := SectionAt(e, k).value;
    var piece: string;
    match s {
      case PartOfSpeech(t) => piece := "\U{1F4DA} Part of Speech: " + t + "\n";
      case Level(t) => piece := "\U{2B50} Level: " + t + "\n";
      case Prefixes(xs) => piece := "\U{2795} Prefixes: " + Join(xs, ", ") + "\n";
      case Suffixes(xs) => piece := "\U{2796} Suffixes: " + Join(xs, ", ") + "\n";
      case SingularPlural(t) => piece := "\U{1F465} Singular/Plural: " + t + "\n";
      case Examples(xs) => piece := AppendExamples("\U{1F4D6} Examples:\n", xs);
      case Synonyms(xs) => piece := "\U{1F4A1} Synonyms: " + Join(xs, ", ") + "\n";
    }
    assert piece == Render(s);
    RenderAllSnoc(shown, s);
    ConcatAssoc(prefix, RenderAll(shown), piece);
    response' := response + piece;
    shown' := shown + [s];
  }

  /** `format_word_response(word, translation, info)`: the header, then each
      optional section whose field is truthy, stripped of surrounding
      whitespace. */
  method FormatWordResponse(word: string, translation: string, info: Option<WordEntry>) returns (r: string)
    ensures r == StripSpaces(HeaderLines(word, translation) + "\n" + RenderAll(SectionsOf(info)))
    ensures HeaderLines(word, translation) <= r
    ensures SectionsOf(info) == [] ==> r == HeaderLines(word, translation)
  {
    var head := HeaderLines(word, translation);
    var response := head + "\n";
    ghost var shown: seq<Section> := [];
    if info.Some? {
      var e := info.value;
      assert shown + SectionsFrom(e, 0) == SectionsFrom(e, 0);
      SectionsStep(e, shown, 0);
      response, shown := AppendSection(response, head + "\n", shown, e, 0);
      SectionsStep(e, shown, 1);
      response, shown := AppendSection(response, head + "\n", shown, e, 1);
      SectionsStep(e, shown, 2);
      response, shown := AppendSection(response, head + "\n", shown, e, 2);
      SectionsStep(e, shown, 3);
      response, shown := AppendSection(response, head + "\n", shown, e, 3);
      SectionsStep(e, shown, 4);
      response, shown := AppendSection(response, head + "\n", shown, e, 4);
      SectionsStep(e, shown, 5);
      response, shown := AppendSection(response, head + "\n", shown, e, 5);
      SectionsStep(e, shown, 6);
      response, shown := AppendSection(response, head + "\n", shown, e, 6);
      assert shown + SectionsFrom(e, 7) == SectionsFrom(e, 0);
    } else {
      assert response == head + "\n" + RenderAll(shown);
    }
    assert shown == SectionsOf(info);
    HeaderSurvivesStrip(word, translation, RenderAll(shown));
    r := StripSpaces(response);
  }
}
