/** Turning the dictionary service's answer into the bot's word information
    (dictionary.py, `get_word_info`): the definitions of all meanings of the
    first entry, flattened in order and tagged with their part of speech.
    The HTTP request itself is outside the model; its answer is an input. */
module Dictionary {
  import opened Python
  import opened JsonData

  /** A definition as the service sends it; each key may be missing or null. */
  datatype ApiDefinition = ApiDefinition(definition: Field<string>, example: Field<string>)

  datatype ApiMeaning = ApiMeaning(partOfSpeech: Field<string>, definitions: Field<seq<ApiDefinition>>)

  datatype ApiEntry = ApiEntry(word: Field<string>, phonetics: Field<seq<Json>>, meanings: Field<seq<ApiMeaning>>)

  /** The service's answer: the HTTP status and the decoded body, an array
      of entries. */
  datatype HttpReply = HttpReply(status: int, entries: seq<ApiEntry>)

  /** One flattened definition, tagged with the part of speech of its
      meaning; `None` is Python's `None`, which a JSON null decodes to. */
  datatype Definition = Definition(partOfSpeech: Option<string>, definition: Option<string>, example: Option<string>)

  /** What `get_word_info` returns: an error object, or the word information. */
  datatype WordInfo =
    | NotFound(error: string)
    | Info(word: Option<string>, phonetics: Option<seq<Json>>, meanings: seq<Definition>)

  /** `d.get(key, default)`: the default only for a missing key; a null
      comes back as `None`. */
  function Value<T>(f: Field<T>, default: T): (r: Option<T>)
    ensures r == None <==> f.Null?
    ensures f.Absent? ==> r == Some(default)
    ensures f.Present? ==> r == Some(f.value)
  {
    match f
    case Absent => Some(default)
    case Null => None
    case Present(v) => Some(v)
  }

  /** `data.get("meanings", [])` once it is known not to be null. */
  function MeaningsOf(data: ApiEntry): seq<ApiMeaning> {
    if data.meanings.Present? then data.meanings.value else []
  }

  /** `meaning.get("definitions", [])` once it is known not to be null. */
  function DefinitionsOf(m: ApiMeaning): seq<ApiDefinition> {
    if m.definitions.Present? then m.definitions.value else []
  }

  /** No meaning has a null list of definitions, which `for` could not
      iterate. */
  predicate Iterable(ms: seq<ApiMeaning>) {
    forall i :: 0 <= i < |ms| ==> !ms[i].definitions.Null?
  }

  /** The flattened form of definition `d` of meaning `m`. */
  function Tag(m: ApiMeaning, d: ApiDefinition): Definition {
    Definition(Value(m.partOfSpeech, ""), Value(d.definition, ""), Value(d.example, ""))
  }

  /** The definitions of one meaning, each tagged with its part of speech. */
  function Tagged(m: ApiMeaning): (r: seq<Definition>)
    ensures |r| == |DefinitionsOf(m)|
  {
    seq(|DefinitionsOf(m)|, j requires 0 <= j < |DefinitionsOf(m)| => Tag(m, DefinitionsOf(m)[j]))
  }

  /** How many definitions the meanings hold in all. */
  function DefinitionCount(ms: seq<ApiMeaning>): nat {
    if ms == [] then 0 else DefinitionCount(ms[..|ms| - 1]) + |DefinitionsOf(ms[|ms| - 1])|
  }

  /** The tagged definitions of all meanings, meaning after meaning: as many
      as all meanings hold together. */
  function Flatten(ms: seq<ApiMeaning>): (r: seq<Definition>)
    ensures |r| == DefinitionCount(ms)
  {
    if ms == [] then [] else Flatten(ms[..|ms| - 1]) + Tagged(ms[|ms| - 1])
  }

  /** `get_word_info(word)` for the answer `reply`: an error object unless the
      status is 200; otherwise the first entry's word (default: the queried
      word), phonetics (default `[]`) and flattened definitions. An empty
      array raises `IndexError`; a null list of meanings or of definitions
      raises `TypeError` when the loop reaches it. */
  function WordInfoOf(word: string, reply: HttpReply): (r: Result<WordInfo>)
    ensures r.Raise? ==> reply.status == 200
    ensures r == Raise(IndexError) <==> reply.status == 200 && reply.entries == []
    ensures r == Raise(TypeError) <==>
      && reply.status == 200 && reply.entries != []
      && (reply.entries[0].meanings.Null? || !Iterable(MeaningsOf(reply.entries[0])))
  {
    if reply.status != 200 then Ok(NotFound("Word not found: " + word))
    else if reply.entries == [] then Raise(IndexError)
    else
      var data := reply.entries[0];
      if data.meanings.Null? || !Iterable(MeaningsOf(data)) then Raise(TypeError)
      else Ok(Info(Value(data.word, word), Value(data.phonetics, []), Flatten(MeaningsOf(data))))
  }

  /** Definition `j` of meaning `i` sits at position (definitions of the
      meanings before `i`) + `j`: meaning order first, then definition order. */
  lemma {:induction false} FlattenAt(ms: seq<ApiMeaning>, i: nat, j: nat)
    requires i < |ms| && j < |DefinitionsOf(ms[i])|
    ensures DefinitionCount(ms[..i]) + j < |Flatten(ms)|
    ensures Flatten(ms)[DefinitionCount(ms[..i]) + j] == Tag(ms[i], DefinitionsOf(ms[i])[j])
    decreases |ms|
  {
    var init := ms[..|ms| - 1];
    if i == |ms| - 1 {
      assert ms[..i] == init;
    } else {
      assert init[..i] == ms[..i];
      FlattenAt(init, i, j);
    }
  }

  /** The answer to any status but 200 is the error object, whatever the body. */
  lemma NotFoundUnlessOk(word: string, reply: HttpReply)
    requires reply.status != 200
    ensures WordInfoOf(word, reply) == Ok(NotFound("Word not found: " + word))
  {
  }

  /** Only the first entry of the array is used. */
  lemma OnlyFirstEntryUsed(word: string, reply: HttpReply, rest: seq<ApiEntry>)
    requires reply.entries != []
    ensures WordInfoOf(word, reply) == WordInfoOf(word, HttpReply(reply.status, [reply.entries[0]] + rest))
  {
  }

  /** `get_word_info(word)`, with the nested loops that build the list. */
  method GetWordInfo(word: string, reply: HttpReply) returns (r: Result<WordInfo>)
    ensures r == WordInfoOf(word, reply)
  {
    if reply.status != 200 {
      return Ok(NotFound("Word not found: " + word));
    }
    if reply.entries == [] {
      return Raise(IndexError);
    }
    var data := reply.entries[0];
    var meanings: seq<ApiMeaning>;
    match data.meanings {
      case Null => return Raise(TypeError);
      case Absent => meanings := [];
      case Present(ms) => meanings := ms;
    }
    var definitions: seq<Definition> := [];
    var i := 0;
    while i < |meanings|
      invariant 0 <= i <= |meanings|
      invariant Iterable(meanings[..i])
      invariant definitions == Flatten(meanings[..i])
    {
      var meaning := meanings[i];
      var partOfSpeech := Value(meaning.partOfSpeech, "");
      var ds: seq<ApiDefinition>;
      match meaning.definitions {
        case Null => return Raise(TypeError);
        case Absent => ds := [];
        case Present(xs) => ds := xs;
      }
      var j := 0;
      while j < |ds|
        invariant 0 <= j <= |ds|
        invariant definitions == Flatten(meanings[..i]) + Tagged(meaning)[..j]
      {
        var d := ds[j];
        definitions := definitions + [Definition(partOfSpeech, Value(d.definition, ""), Value(d.example, ""))];
        assert Tagged(meaning)[..j + 1] == Tagged(meaning)[..j] + [Tagged(meaning)[j]];
        j := j + 1;
      }
      assert meanings[..i + 1][..i] == meanings[..i];
      assert Tagged(meaning)[..j] == Tagged(meaning);
      i := i + 1;
    }
    assert meanings[..i] == meanings;
    r := Ok(Info(Value(data.word, word), Value(data.phonetics, []), definitions));
  }
}
