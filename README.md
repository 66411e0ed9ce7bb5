# Vocabulary bot: a verified model of its core rules

The bot is a Telegram vocabulary assistant for English and Uzbek learners.
Around its Telegram and HTTP plumbing sit a few sequential rules, and this
project models those rules in Dafny and proves what they promise:

- **Language classification and direction** (`BotTranslation`, `Utils`):
  - `detect_uzbek` says yes for any character in the Cyrillic block U+0400..U+04FF, or for any whitespace-separated
    word that is on a fixed list of Latin-script Uzbek words once it is lower-cased
    and has `.,!?;:` stripped from its ends.
  - `translate_dynamic` picks `uz → en` or `auto → uz` from that answer. Blank text
    gets `(None, "unknown", "unknown")`.
  - utils' `detect_language` is a separate guess: blank text gives `None`, a
    non-blank stripped text that is all ASCII is English, anything else is Uzbek.
- **The user registry** (`BotRegistry`). `track_user` appends the decimal id to the
  `users` list of `tracking.json` unless `in` already finds it there. Non-object data
  counts as `{}`. `load_all_users` lists what the dispatcher iterates over.
- **The query history** (`Tracking`). `Tracker.log_query` creates the sender's
  profile if it is missing. It then appends one record to that profile's
  `queries`: the word, stripped and lower-cased, with the direction and a
  timestamp. No other user is touched.
- **Replies**:
  - bot.py's `format_word_response` (`BotWords`) writes a two-line header, then the
    sections whose field is truthy in a fixed order, and strips the result.
  - utils' `format_word_response` (`Utils`) writes nine lines with `N/A` defaults.
  - `pick_random_phrase` (`Utils`) returns one phrase line.
  - `callback_handler` (`BotCallback`) reads a topic from a button's callback data.
- **Dictionary answers** (`Dictionary`). `get_word_info` turns the service's answer
  into the bot's word information. Status 200 is required. Then the meanings of the
  first entry are flattened into one ordered list of definitions, each tagged with its
  part of speech. A null list of meanings or definitions raises `TypeError`.

Supporting modules:

- `Python` holds Python's `Option`/`Result`/exception vocabulary.
- `PyText` models the string operations the code relies on:
  - `str.isspace`, `strip()`, `strip(chars)`, ASCII `lower()`;
  - `split()` and `split(sep)`, `sep.join`;
  - `str(int)` and `int(str)`.
- `JsonData` holds JSON values. Its `Field` type marks a looked-up key as missing,
  null or present.
- `WordData` is the typed word dataset.

Operations that change state keep the source's form:

- `TrackingFile.TrackUser` and `Tracker.LogQuery` are methods on classes whose
  field is the file's contents. Each is proved against a specification function
  (`Tracked`, `Logged`), and the lemmas state what those functions guarantee.
- `FormatWordResponse` and `GetWordInfo` build their results with the source's
  loops. Each is proved equal to a functional definition whose properties are
  proved separately.

Python's exceptions are modelled where the code can raise on data of the wrong
shape: a `Result` carries `TypeError`, `AttributeError`, `KeyError` or `IndexError`.

Two parts of the code write `tracking.json` with schemas that clash.
`track_user` in bot.py treats `users` as a list, and tracker.py treats it as an
object keyed by id. The model keeps them as two separate stores,
`BotRegistry.TrackingFile` and `Tracking.Tracker`.

## Model

| member | source | states |
|---|---|---|
| `BotTranslation.HasCyrillic` | bot.py:81-83 | true exactly when some character lies in U+0400..U+04FF |
| `BotTranslation.AnyUzToken` | bot.py:88-91 | true exactly when some token, with `.,!?;:` stripped from its ends, is one of the Uzbek words |
| `BotTranslation.DetectUzbek` | bot.py:78-91 | false on the empty string; true whenever a Cyrillic character occurs |
| `BotTranslation.DetectUzbekSpec` | bot.py:78-91 | the classifier holds iff some character is Cyrillic or some maximal non-whitespace run of the lower-cased text, stripped of `.,!?;:`, is an Uzbek word |
| `BotTranslation.TranslateDynamic` | bot.py:93-104 | blank text gives `(None, "unknown", "unknown")`; otherwise the direction is `uz→en` iff the text is classified Uzbek, else `auto→uz`, on success and failure alike, and the text is what the translator returned for that direction (`None` on failure) |
| `BotTranslation.CyrillicTranslatesFromUzbek` | bot.py:93-104 | text with a character in U+0400..U+04FF is always translated from Uzbek to English |
| `PyText.StripSpacesEmpty` | bot.py:94 | `text.strip()` is empty iff every character is whitespace |
| `PyText.SplitWords` | bot.py:88 | the words of `split()` are exactly the maximal runs of non-whitespace characters |
| `PyText.LowerIdempotent` | tracker.py:32 | lower-casing a lower-cased text changes nothing |
| `PyText.DecimalRoundTrip` | bot.py:65 | `int(str(n)) == n` for every integer id |
| `PyText.DecimalStringInjective` | bot.py:65 | distinct ids have distinct decimal strings |
| `PyText.StripSpanEdges` | bot.py:94 | when something survives `strip()`, a character is cut off the front iff it and all before it are whitespace, and off the back iff it and all after it are |
| `PyText.JoinEmpty` | utils.py:10-11 | a join is empty iff the list is empty or holds just the empty string |
| `PyText.SplitOnJoin` | utils.py:15-25 | splitting a join of parts free of the separator gives the parts back |
| `BotRegistry.LoadJson` | bot.py:46-53 | a missing or undecodable file loads as `{}` |
| `BotRegistry.Contains` | bot.py:66 | `in` raises `TypeError` exactly on a value that is not a list, string or object; it is true on a list iff some entry is the string, on a string iff it occurs as a substring, on an object iff it is a key |
| `BotRegistry.Tracked` | bot.py:60-69 | the file is unchanged unless the id was appended; after an append the file is an object whose `users` is a list |
| `BotRegistry.TrackedSpec` | bot.py:60-69 | the id is appended iff `users` is a list in which `in` does not find it; the call fails iff `in` raises or the id is missing from a `users` that is not a list; it is already listed iff `in` finds it; after a call that does not raise, `in` finds the id in `users`; the file is unchanged unless the id was appended; an append adds the id at the end of the list and leaves every other key as it was |
| `BotRegistry.TrackedRegistersOnMissingFile` | bot.py:60-69 | without a file, the first call appends the user and writes `{"users": [id]}` |
| `BotRegistry.TrackedReplacesNonObject` | bot.py:60-69 | data that is not an object is replaced by `{"users": [id]}` |
| `BotRegistry.TrackedIdempotent` | bot.py:60-69 | a second call with the same id changes nothing and appends nothing |
| `BotRegistry.TrackedKeepsNoDuplicates` | bot.py:64-67 | a duplicate-free `users` list stays duplicate-free |
| `BotRegistry.LoadAllUsers` | bot.py:71-75 | non-object data lists no users; a `users` list is listed as it is, a string gives one entry per character, in order, an object gives its keys, and a value that is not a list, string or object is rejected with `TypeError` |
| `BotRegistry.TrackedUserIsListed` | bot.py:60-75 | an id that `track_user` appended is among the listed users, and `int` of its string is the id |
| `BotRegistry.TrackedKeepsListed` | bot.py:60-75 | a call of `track_user` keeps every listed id, in order: the old list is a prefix of the new one |
| `BotRegistry.TrackedTwoUsers` | bot.py:60-69 | two different users tracked in turn, the second not yet listed, are both appended, in that order |
| `BotRegistry.TrackingFile.constructor` | bot.py:61 | the registry holds the file as loaded |
| `BotRegistry.TrackingFile.TrackUser` | bot.py:60-69 | the new file and the outcome are those of `Tracked` on the old file |
| `BotWords.FindWordInfo` | bot.py:107-111 | the lookup succeeds iff the dataset is an object holding the lower-cased word, and then gives that word's entry |
| `BotWords.FindWordInfoCaseInsensitive` | bot.py:107-111 | queries equal up to ASCII case find the same entry, the same as the lower-cased query |
| `BotWords.SectionAt` | bot.py:116-131 | the section of a rank is present iff its field is truthy, and it has that rank |
| `BotWords.SectionsFromRanks` | bot.py:115-131 | the sections listed from a rank on have at least that rank |
| `BotWords.SectionsFromTruthy` | bot.py:115-131 | every listed section has a truthy field |
| `BotWords.SectionsFromOrdered` | bot.py:115-131 | listed sections come in strictly increasing rank |
| `BotWords.SectionsFromComplete` | bot.py:115-131 | every section with a truthy field is listed |
| `BotWords.SectionsInOrder` | bot.py:115-131 | the reply's sections follow the fixed order part of speech, level, prefixes, suffixes, singular/plural, examples, synonyms, and a section appears iff its field is truthy |
| `BotWords.StripAfterHeader` | bot.py:132 | stripping keeps a header that starts and ends with non-whitespace, and leaves only it when all that follows is whitespace |
| `BotWords.HeaderSurvivesStrip` | bot.py:114-132 | the stripped reply starts with the Word and Translation lines, and is exactly them when no section follows |
| `BotWords.AppendExamples` | bot.py:126-129 | the loop appends one ` - ` line per example, in order |
| `BotWords.AppendSection` | bot.py:116-131 | one conditional step appends the section's rendering iff its field is truthy |
| `BotWords.FormatWordResponse` | bot.py:113-132 | the reply is the stripped header plus the rendered truthy sections in order; it starts with the header, and is the header alone when no section is present |
| `BotCallback.CallbackTopic` | bot.py:189-190 | a topic is read iff the data starts with `phrase_topic:`; it is the colon-free text after the prefix, ending at the next colon or the end |
| `BotCallback.CallbackRoundTrip` | bot.py:165-190 | a topic key written into a button comes back from the handler iff it holds no colon |
| `Tracking.QueryRecordNormalised` | tracker.py:31-35 | the recorded word is lower-case and neither begins nor ends with whitespace; it is empty iff the query was all whitespace |
| `Tracking.InitialStoreWellFormed` | tracker.py:15-18 | the initial store `{"users": {}}` is well formed and has no profile for any user |
| `Tracking.Logged` | tracker.py:28-51 | `log_query` succeeds iff the store is an object whose `users` (default `{}`) is an object and the sender's profile, if any, is an object with a `queries` list; afterwards `users` holds the sender's id |
| `Tracking.LoggedKeepsWellFormed` | tracker.py:28-51 | `log_query` cannot raise on a well-formed store and keeps it well formed |
| `Tracking.LoggedTouchesOnlySender` | tracker.py:40-50 | afterwards `users` exists and holds the sender's id; all other keys and every other user's profile are unchanged |
| `Tracking.LoggedAppendsOneRecord` | tracker.py:42-50 | exactly one record, with the normalised word, direction and time, is appended at the end of the sender's queries; other profile fields are those of the existing profile or of a new one |
| `Tracking.Tracker.constructor` | tracker.py:11-18 | without a file, the store starts as `{"users": {}}`; an existing file is kept |
| `Tracking.Tracker.LogQuery` | tracker.py:28-51 | the new store is `Logged` of the old one, or stays unchanged when the call raises, and the exception is reported |
| `Utils.AffixText` | utils.py:10-11 | the affix text raises iff the list is null, and is never empty |
| `Utils.ExamplePair` | utils.py:13-24 | a missing key gives `("N/A", "N/A")`; `TypeError` iff the examples are null, `IndexError` iff fewer than two, otherwise the first two |
| `Utils.FormatWordSummary` | utils.py:6-26 | the result is a string iff neither affix list is null and the examples are missing or at least two; too few examples raise `IndexError` |
| `Utils.SummaryLines` | utils.py:15-25 | the summary has nine lines |
| `Utils.AffixTextFallback` | utils.py:10-11 | a missing, empty or `[""]` affix list renders as `N/A`, any other list as its `, `-join |
| `Utils.SummaryLinesSplit` | utils.py:15-25 | nine lines free of line breaks, joined by `\n`, split back into exactly those lines |
| `Utils.SummaryHasNineLines` | utils.py:13-25 | with no line break in the values, the summary splits into exactly nine lines, the last two being `1.` and `2.` with the first two examples (`N/A` when missing) |
| `Utils.PhraseLine` | utils.py:40 | a phrase item renders iff both keys are present; otherwise the error is `KeyError` |
| `Utils.PickRandomPhrase` | utils.py:32-40 | an empty list gives the fixed notice; otherwise the line of some item of the list |
| `Utils.PhraseLineShape` | utils.py:37-40 | the line is the star, the phrase, the dash and the meaning, and never the empty-list notice |
| `Utils.AllAscii` | utils.py:54 | true iff every character's code is below 128 |
| `Utils.DetectLanguage` | utils.py:46-57 | nothing iff the text is blank; otherwise `english` or `uzbek` |
| `Utils.DetectLanguageSpec` | utils.py:46-57 | nothing iff the text is blank; a non-blank ASCII text is English; a non-ASCII non-whitespace character makes it Uzbek; an Uzbek guess implies some non-ASCII character |
| `Utils.DetectEnglishExactly` | utils.py:46-57 | the guess is English iff the text is not blank and every non-ASCII character lies in its leading or trailing whitespace |
| `Utils.EnglishWithinSpan` | utils.py:51-55 | for non-blank text the ASCII test applies exactly to the span `strip()` keeps |
| `Utils.CyrillicIsUzbek` | utils.py:46-57 | a text with a character in U+0400..U+04FF is Uzbek for both classifiers |
| `Dictionary.Tagged` | dictionary.py:38-46 | a meaning yields one tagged definition per definition it holds |
| `Dictionary.Value` | dictionary.py:34-50 | `get` gives `None` iff the key holds null, the default when the key is missing, and the stored value when it is present |
| `Dictionary.Flatten` | dictionary.py:34-46 | the flat list is as long as the meanings' definitions together |
| `Dictionary.WordInfoOf` | dictionary.py:25-52 | only status 200 can raise; `IndexError` iff the array is empty; `TypeError` iff the first entry's meanings, or one meaning's definitions, are null |
| `Dictionary.FlattenAt` | dictionary.py:37-46 | definition `j` of meaning `i` sits after all definitions of earlier meanings, tagged with meaning `i`'s part of speech, definition and example as `get` gives them (`""` when missing, `None` when null) |
| `Dictionary.NotFoundUnlessOk` | dictionary.py:30-31 | any status but 200 gives `{"error": "Word not found: " + word}`, whatever the body |
| `Dictionary.OnlyFirstEntryUsed` | dictionary.py:33 | entries after the first do not affect the result |
| `Dictionary.GetWordInfo` | dictionary.py:25-52 | the nested loops compute `WordInfoOf`: the error object, `IndexError` for an empty array, `TypeError` at a null list, or the first entry's word (default the query), phonetics (default `[]`) and flattened definitions |

## Left out

- HTTP and translation services are not modelled. The dictionary request, `GoogleTranslator` and `translator.py` are outside calls. The translator is a function parameter whose `None` stands for any failure, and the dictionary answer is an input.
- Telegram and Flask plumbing is not modelled: the handlers, keyboards, `send_message`, the webhook routes and the webhook set-up. This includes `send_main_menu`, `translate_word`, `cmd_start`, `main_handler`, the text of the phrase-topic reply and `send_quiz_to_user`.
- The handler appended to the end of dictionary.py refers to names it never defines, so it is not modelled.
- File I/O is not modelled. A file is its decoded JSON value. `None` stands for a file that is missing or, in bot.py's `load_json`, does not decode. `_load`/`_save` and the module-level loading of the data files are the identity on that value.
- `Tracking.Tracker.LogQuery`: a `tracking.json` that `Tracker._load` cannot decode, and so raises on, is not modelled.
- The lock and threads are not modelled: `_lock`, the quiz dispatcher thread and `time.sleep` concern concurrency and timing.
- Logging is not modelled: the `print` of a translation error in `translate_dynamic` writes to the console only, and `BotTranslation.TranslateDynamic` returns the same triple without it.
- `datetime.utcnow().isoformat()` is not modelled. Its two readings are string parameters.
- `random.choice` is modelled as an arbitrary member of the list, not as a distribution.
- `PyText.Lower`: folds ASCII letters only. Python's `str.lower` also maps non-ASCII letters, such as the Kelvin sign, and is not modelled.
- `PyText.ParseInt`: reads only canonical decimal strings, an optional `-` followed by digits. Python's `int()` also accepts whitespace, `+` and `_`, which are not modelled.
- JSON numbers are integers and object key order is not kept. So `BotRegistry.LoadAllUsers` on an object-valued `users` yields a set of keys, not an ordered list.
- Field types are fixed in the model: the word dataset, phrase items and dictionary answers are typed records. A field holding a value of another JSON type (a number where a string is expected, say) is not modelled, and neither is a non-dictionary item or answer. Null is kept apart from a missing key everywhere (`Field`): `get` returns `None` for a null and the default only for a missing key, and a null list raises `TypeError` where the code iterates, joins or indexes it.
- Telegram senders always carry an integer id and a first name. The username may be absent (`null`).
