/** The bot's registry of known users in `tracking.json` (bot.py,
    `track_user` and `load_all_users`): a JSON object whose `users` entry is
    a list of user ids written as decimal strings. */
module BotRegistry {
  import opened Python
  import opened PyText
  import opened JsonData

  /** `load_json(path)`: the decoded file, where `None` stands for a file
      that is missing or does not decode, both of which load as `{}`. */
  function LoadJson(file: Option<Json>): (data: Json)
    ensures file.None? ==> data == JObj(map[])
  {
    if file.Some? then file.value else JObj(map[])
  }

  /** Python's `x in container` for a string `x`: list membership, substring
      or dict key; any other value raises `TypeError`. */
  function Contains(container: Json, x: string): (r: Result<bool>)
    ensures r.Raise? <==> !(container.JArr? || container.JStr? || container.JObj?)
    ensures r.Raise? ==> r == Raise(TypeError)
    ensures container.JArr? ==>
      (r == Ok(true) <==> exists i :: 0 <= i < |container.items| && container.items[i] == JStr(x))
    ensures container.JStr? ==> (r == Ok(true) <==> IsSubstring(x, container.s))
    ensures container.JObj? ==> (r == Ok(true) <==> x in container.fields)
  {
    match container
    case JArr(items) => Ok(JStr(x) in items)
    case JStr(s) => Ok(IsSubstring(x, s))
    case JObj(fields) => Ok(x in fields)
    case _ => Raise(TypeError)
  }

  /** The fields `track_user` works on: non-object data counts as `{}`. */
  function FieldsOf(data: Json): map<string, Json> {
    if data.JObj? then data.fields else map[]
  }

  /** `data.get("users", [])` after that replacement. */
  function UsersOf(data: Json): Json {
    if "users" in FieldsOf(data) then FieldsOf(data)["users"] else JArr([])
  }

  datatype TrackOutcome = Added | AlreadyListed | Failed(exception: Exception)

  /** The file after one call of `track_user`, and what the call did. */
  datatype TrackStep = TrackStep(after: Option<Json>, outcome: TrackOutcome)

  /** `track_user(user_id)` on the file `file`: the id's decimal string is
      appended to the `users` list unless `in` already finds it there; the
      file is written only when something was appended. */
  function Tracked(file: Option<Json>, userId: int): (step: TrackStep)
    ensures step.outcome != Added ==> step.after == file
    ensures step.outcome == Added ==>
      step.after.Some? && step.after.value.JObj? && UsersOf(LoadJson(step.after)).JArr?
  {
    var sid := DecimalString(userId);
    var data := LoadJson(file);
    var users := UsersOf(data);
    match Contains(users, sid)
    case Raise(e) => TrackStep(file, Failed(e))
    case Ok(true) => TrackStep(file, AlreadyListed)
    case Ok(false) =>
      if users.JArr? then
        TrackStep(Some(JObj(FieldsOf(data)["users" := JArr(users.items + [JStr(sid)])])), Added)
      else
        TrackStep(file, Failed(AttributeError))
  }

  /** The id is appended exactly when `users` is a list in which `in` does
      not find it; the call fails exactly when `in` raises or the id is
      missing from a `users` that is not a list. After a call that does not
      raise, `in` finds the id in `users`, and an append changes only the
      `users` list, by one entry at the end. */
  lemma TrackedSpec(file: Option<Json>, userId: int)
    ensures var step := Tracked(file, userId);
      && (!step.outcome.Failed? ==> Contains(UsersOf(LoadJson(step.after)), DecimalString(userId)) == Ok(true))
      && (step.outcome == AlreadyListed <==> Contains(UsersOf(LoadJson(file)), DecimalString(userId)) == Ok(true))
      && (step.outcome == Added <==>
            UsersOf(LoadJson(file)).JArr? && Contains(UsersOf(LoadJson(file)), DecimalString(userId)) == Ok(false))
      && (step.outcome.Failed? <==>
            || Contains(UsersOf(LoadJson(file)), DecimalString(userId)).Raise?
            || (!UsersOf(LoadJson(file)).JArr? && Contains(UsersOf(LoadJson(file)), DecimalString(userId)) == Ok(false)))
      && (step.outcome == Added ==>
            && UsersOf(LoadJson(file)).JArr?
            && UsersOf(LoadJson(step.after)) == JArr(UsersOf(LoadJson(file)).items + [JStr(DecimalString(userId))])
            && FieldsOf(LoadJson(step.after)).Keys == FieldsOf(LoadJson(file)).Keys + {"users"}
            && forall k :: k in FieldsOf(LoadJson(file)) && k != "users" ==>
                 FieldsOf(LoadJson(step.after))[k] == FieldsOf(LoadJson(file))[k])
  {
    var sid := DecimalString(userId);
    var step := Tracked(file, userId);
    if step.outcome == Added {
      assert JStr(sid) in UsersOf(LoadJson(file)).items + [JStr(sid)];
    }
  }

  /** Without a file, the first call registers the user: the file becomes
      `{"users": [id]}`. */
  lemma TrackedRegistersOnMissingFile(userId: int)
    ensures Tracked(None, userId) == TrackStep(Some(JObj(map["users" := JArr([JStr(DecimalString(userId))])])), Added)
  {
    var sid := JStr(DecimalString(userId));
    assert [] + [sid] == [sid];
    assert map[]["users" := JArr([sid])] == map["users" := JArr([sid])];
  }

  /** Data that is not a JSON object is replaced by `{"users": [id]}`. */
  lemma TrackedReplacesNonObject(file: Option<Json>, userId: int)
    requires !LoadJson(file).JObj?
    ensures Tracked(file, userId) == TrackStep(Some(JObj(map["users" := JArr([JStr(DecimalString(userId))])])), Added)
  {
    var sid := JStr(DecimalString(userId));
    assert [] + [sid] == [sid];
    assert map[]["users" := JArr([sid])] == map["users" := JArr([sid])];
  }

  /** A second call with the same id changes nothing and appends nothing. */
  lemma TrackedIdempotent(file: Option<Json>, userId: int)
    ensures var once := Tracked(file, userId);
      && Tracked(once.after, userId).after == once.after
      && Tracked(once.after, userId).outcome != Added
  {
    TrackedSpec(file, userId);
  }

  /** No entry of the list occurs twice. */
  ghost predicate NoDuplicates(users: Json) {
    users.JArr? ==> forall i, j :: 0 <= i < j < |users.items| ==> users.items[i] != users.items[j]
  }

  /** `track_user` never writes a duplicate into a duplicate-free list. */
  lemma TrackedKeepsNoDuplicates(file: Option<Json>, userId: int)
    requires NoDuplicates(UsersOf(LoadJson(file)))
    ensures NoDuplicates(UsersOf(LoadJson(Tracked(file, userId).after)))
  {
    TrackedSpec(file, userId);
    var step := Tracked(file, userId);
    if step.outcome == Added {
      var before := UsersOf(LoadJson(file)).items;
      var after := UsersOf(LoadJson(step.after)).items;
      var sid := JStr(DecimalString(userId));
      assert sid !in before;
      assert after == before + [sid];
      forall i, j | 0 <= i < j < |after|
        ensures after[i] != after[j]
      {
        if j == |before| {
          assert after[i] == before[i] && before[i] in before;
        }
      }
    }
  }

  /** What `list(data.get("users", []))` yields: the list's entries (a
      string yields its characters), the keys of an object (whose order this
      model does not keep), or a `TypeError` for any other value. */
  datatype UserList = Listed(items: seq<Json>) | KeysOf(keys: set<string>) | Rejected(exception: Exception)

  /** `load_all_users()`: `[]` when the file is not a JSON object, otherwise
      the `users` entry (default `[]`) converted by `list`. */
  function LoadAllUsers(file: Option<Json>): (r: UserList)
    ensures !LoadJson(file).JObj? ==> r == Listed([])
    ensures LoadJson(file).JObj? && UsersOf(LoadJson(file)).JArr? ==> r == Listed(UsersOf(LoadJson(file)).items)
    ensures LoadJson(file).JObj? && UsersOf(LoadJson(file)).JStr? ==>
      && r.Listed? && |r.items| == |UsersOf(LoadJson(file)).s|
      && forall i :: 0 <= i < |r.items| ==> r.items[i] == JStr([UsersOf(LoadJson(file)).s[i]])
    ensures LoadJson(file).JObj? && UsersOf(LoadJson(file)).JObj? ==> r == KeysOf(UsersOf(LoadJson(file)).fields.Keys)
    ensures r.Rejected? <==>
      LoadJson(file).JObj? && !(UsersOf(LoadJson(file)).JArr? || UsersOf(LoadJson(file)).JStr? || UsersOf(LoadJson(file)).JObj?)
  {
    var data := LoadJson(file);
    if !data.JObj? then Listed([])
    else
      var users := if "users" in data.fields then data.fields["users"] else JArr([]);
      match users
      case JArr(items) => Listed(items)
      case JStr(s) => Listed(seq(|s|, i requires 0 <= i < |s| => JStr([s[i]])))
      case JObj(fields) => KeysOf(fields.Keys)
      case _ => Rejected(TypeError)
  }

  /** A user added by `track_user` is among the ids the quiz dispatcher
      lists, and `int(uid)` gives back the original id. */
  lemma TrackedUserIsListed(file: Option<Json>, userId: int)
    requires Tracked(file, userId).outcome == Added
    ensures var users := LoadAllUsers(Tracked(file, userId).after);
      && users.Listed?
      && JStr(DecimalString(userId)) in users.items
      && ParseInt(DecimalString(userId)) == Some(userId)
  {
    TrackedSpec(file, userId);
    DecimalRoundTrip(userId);
    var items := UsersOf(LoadJson(file)).items;
    assert JStr(DecimalString(userId)) in items + [JStr(DecimalString(userId))];
  }

  /** The ids the quiz dispatcher lists only grow: a call of `track_user`
      keeps every id that was listed before, in order. */
  lemma TrackedKeepsListed(file: Option<Json>, userId: int)
    requires LoadAllUsers(file).Listed?
    ensures LoadAllUsers(Tracked(file, userId).after).Listed?
    ensures LoadAllUsers(file).items <= LoadAllUsers(Tracked(file, userId).after).items
  {
    TrackedSpec(file, userId);
  }

  /** Two different users tracked one after the other, the second not yet
      listed, both end up listed, in that order: their decimal strings
      never coincide. */
  lemma TrackedTwoUsers(file: Option<Json>, first: int, second: int)
    requires first != second
    requires Tracked(file, first).outcome == Added
    requires Contains(UsersOf(LoadJson(file)), DecimalString(second)) == Ok(false)
    ensures var after := Tracked(Tracked(file, first).after, second);
      && after.outcome == Added
      && UsersOf(LoadJson(after.after)) ==
           JArr(UsersOf(LoadJson(file)).items + [JStr(DecimalString(first)), JStr(DecimalString(second))])
  {
    TrackedSpec(file, first);
    DecimalStringInjective(first, second);
    var once := Tracked(file, first).after;
    var items := UsersOf(LoadJson(file)).items;
    assert UsersOf(LoadJson(once)).items == items + [JStr(DecimalString(first))];
    assert JStr(DecimalString(second)) !in items + [JStr(DecimalString(first))];
    TrackedSpec(once, second);
  }

  /** The registry file, which `track_user` reads, updates in place and
      writes back. */
  class TrackingFile {
    /** The file's decoded contents; `None` when it is missing or does not decode. */
    var file: Option<Json>

    constructor (file: Option<Json>)
      ensures this.file == file
    {
      this.file := file;
    }

    /** `track_user(user_id)`. */
    method TrackUser(userId: int) returns (outcome: TrackOutcome)
      modifies this
      ensures TrackStep(file, outcome) == Tracked(old(file), userId)
    {
      var data := LoadJson(file);
      if !data.JObj? {
        data := JObj(map[]);
      }
      var users := if "users" in data.fields then data.fields["users"] else JArr([]);
      var sid := DecimalString(userId);
      var found := Contains(users, sid);
      if found.Raise? {
        outcome := Failed(found.exception);
      } else if found.value {
        outcome := AlreadyListed;
      } else if !users.JArr? {
        outcome := Failed(AttributeError);
      } else {
        users := JArr(users.items + [JStr(sid)]);
        data := JObj(data.fields["users" := users]);
        file := Some(data);
        outcome := Added;
      }
    }
  }
}
