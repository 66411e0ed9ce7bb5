/** Per-user query history in `tracking.json` (tracker.py, class `Tracker`):
    a JSON object whose `users` entry maps each user id, written as a
    decimal string, to a profile with a list of query records. */
module Tracking {
  import opened Python
  import opened PyText
  import opened JsonData

  /** What `_ensure_file` writes when there is no file yet: `{"users": {}}`. */
  const InitialStore: Json := JObj(map["users" := JObj(map[])])

  /** The sender of a message, as Telegram reports it. */
  datatype Sender = Sender(id: int, username: Option<string>, firstName: string)

  function OptionalText(s: Option<string>): Json {
    if s.Some? then JStr(s.value) else JNull
  }

  /** The record `log_query` appends: the normalised word, the direction and
      the time of the query. */
  function QueryRecord(word: string, direction: string, timestamp: string): Json {
    JObj(map["word" := JStr(Lower(StripSpaces(word))), "direction" := JStr(direction), "timestamp" := JStr(timestamp)])
  }

  /** The profile `log_query` creates for a user it has not seen. */
  function NewProfile(sender: Sender, createdAt: string): Json {
    JObj(map["username" := OptionalText(sender.username), "first_name" := JStr(sender.firstName),
             "created_at" := JStr(createdAt), "queries" := JArr([])])
  }

  /** `data.setdefault("users", {})` on an object. */
  function UsersEntry(fields: map<string, Json>): Json {
    if "users" in fields then fields["users"] else JObj(map[])
  }

  /** The store after `log_query(message, word, direction)`, the two
      timestamps given as parameters: the sender's profile (created if
      missing) gets the record appended to its `queries`. Data of the wrong
      shape makes the call raise, and then the file is not written. */
  function Logged(data: Json, sender: Sender, word: string, direction: string,
                  timestamp: string, createdAt: string): (r: Result<Json>)
    ensures r.Ok? <==>
      && data.JObj? && UsersEntry(data.fields).JObj?
      && (DecimalString(sender.id) in UsersEntry(data.fields).fields ==>
            ProfileOk(UsersEntry(data.fields).fields[DecimalString(sender.id)]))
    ensures r.Ok? ==>
      && r.value.JObj? && "users" in r.value.fields && r.value.fields["users"].JObj?
      && DecimalString(sender.id) in r.value.fields["users"].fields
  {
    if !data.JObj? then Raise(AttributeError)
    else
      var users := UsersEntry(data.fields);
      if !users.JObj? then Raise(TypeError)
      else
        var uid := DecimalString(sender.id);
        var profile := if uid in users.fields then users.fields[uid] else NewProfile(sender, createdAt);
        if !profile.JObj? then Raise(TypeError)
        else if "queries" !in profile.fields then Raise(KeyError)
        else if !profile.fields["queries"].JArr? then Raise(AttributeError)
        else
          var queries := profile.fields["queries"].items + [QueryRecord(word, direction, timestamp)];
          var profile' := JObj(profile.fields["queries" := JArr(queries)]);
          Ok(JObj(data.fields["users" := JObj(users.fields[uid := profile'])]))
  }

  /** The sender's profile in a store of the right shape. */
  function ProfileOf(data: Json, uid: string): Json {
    if data.JObj? && UsersEntry(data.fields).JObj? && uid in UsersEntry(data.fields).fields
    then UsersEntry(data.fields).fields[uid] else JNull
  }

  /** A store on which `log_query` cannot raise: an object whose `users`
      entry, if any, is an object of profiles that each hold a `queries` list. */
  ghost predicate WellFormed(data: Json) {
    && data.JObj?
    && UsersEntry(data.fields).JObj?
    && forall uid :: uid in UsersEntry(data.fields).fields ==> ProfileOk(UsersEntry(data.fields).fields[uid])
  }

  ghost predicate ProfileOk(profile: Json) {
    profile.JObj? && "queries" in profile.fields && profile.fields["queries"].JArr?
  }

  /** The store `_ensure_file` writes is well formed and knows no user. */
  lemma InitialStoreWellFormed(uid: string)
    ensures WellFormed(InitialStore)
    ensures ProfileOf(InitialStore, uid) == JNull
  {
  }

  /** `log_query` succeeds on every well-formed store, and it leaves the
      store well formed. */
  lemma LoggedKeepsWellFormed(data: Json, sender: Sender, word: string, direction: string,
                              timestamp: string, createdAt: string)
    requires WellFormed(data)
    ensures Logged(data, sender, word, direction, timestamp, createdAt).Ok?
    ensures WellFormed(Logged(data, sender, word, direction, timestamp, createdAt).value)
  {
    var after := Logged(data, sender, word, direction, timestamp, createdAt).value;
    var uid := DecimalString(sender.id);
    var users := UsersEntry(data.fields).fields;
    var users' := UsersEntry(after.fields).fields;
    forall u | u in users'
      ensures ProfileOk(users'[u])
    {
      if u != uid {
        assert users'[u] == users[u];
      }
    }
  }

  /** After `log_query` the sender's id is a key of `users`; the other keys of
      the store and of `users`, and every other user's profile, are as before. */
  lemma LoggedTouchesOnlySender(data: Json, sender: Sender, word: string, direction: string,
                                timestamp: string, createdAt: string)
    requires Logged(data, sender, word, direction, timestamp, createdAt).Ok?
    ensures var after := Logged(data, sender, word, direction, timestamp, createdAt).value;
      var uid := DecimalString(sender.id);
      && after.JObj? && data.JObj?
      && after.fields.Keys == data.fields.Keys + {"users"}
      && (forall k :: k in data.fields && k != "users" ==> after.fields[k] == data.fields[k])
      && after.fields["users"].JObj?
      && after.fields["users"].fields.Keys == UsersEntry(data.fields).fields.Keys + {uid}
      && (forall u :: u in UsersEntry(data.fields).fields && u != uid ==>
            after.fields["users"].fields[u] == UsersEntry(data.fields).fields[u])
  {
  }

  /** Exactly one record is appended at the end of the sender's queries: the
      stripped, lower-cased word with the given direction and time. The
      profile's other fields are those it had, or those of a new profile
      when the sender was not yet known. */
  lemma LoggedAppendsOneRecord(data: Json, sender: Sender, word: string, direction: string,
                               timestamp: string, createdAt: string)
    requires Logged(data, sender, word, direction, timestamp, createdAt).Ok?
    ensures var after := Logged(data, sender, word, direction, timestamp, createdAt).value;
      var uid := DecimalString(sender.id);
      var before := if uid in UsersEntry(data.fields).fields then ProfileOf(data, uid) else NewProfile(sender, createdAt);
      var profile := ProfileOf(after, uid);
      && profile.JObj? && before.JObj?
      && profile.fields.Keys == before.fields.Keys
      && (forall k :: k in before.fields && k != "queries" ==> profile.fields[k] == before.fields[k])
      && profile.fields["queries"] == JArr(before.fields["queries"].items + [QueryRecord(word, direction, timestamp)])
  {
  }

  /** The record holds `word.strip().lower()`, which is already lower-cased,
      neither begins nor ends with whitespace, and is empty only for a blank
      word. */
  lemma QueryRecordNormalised(word: string, direction: string, timestamp: string)
    ensures var w := QueryRecord(word, direction, timestamp).fields["word"].s;
      && Lower(w) == w
      && (w == [] || (!IsSpace(w[0]) && !IsSpace(w[|w| - 1])))
      && (w == [] <==> forall k :: 0 <= k < |word| ==> IsSpace(word[k]))
  {
    var t := StripSpaces(word);
    LowerIdempotent(t);
    StripSpacesEmpty(word);
    if t != [] {
      var span := StripSpan(word, IsSpace);
      assert t[0] == word[span.0] && t[|t| - 1] == word[span.1 - 1];
      LowerCharKeepsSpace(t[0]);
      LowerCharKeepsSpace(t[|t| - 1]);
    }
  }

  /** The tracker, which reads `tracking.json`, updates it and writes it back. */
  class Tracker {
    var data: Json

    /** `Tracker()`: `_ensure_file` writes the initial store when there is no
        file (`None`) and keeps an existing file as it is. */
    constructor (existing: Option<Json>)
      ensures data == (if existing.Some? then existing.value else InitialStore)
    {
      if existing.Some? {
        data := existing.value;
      } else {
        data := InitialStore;
      }
    }

    /** `log_query(message, word, direction)`; `timestamp` and `createdAt`
        are the two readings of the clock. Returns the exception it raises,
        if any; the file is written only when nothing was raised. */
    method LogQuery(sender: Sender, word: string, direction: string, timestamp: string, createdAt: string)
      returns (raised: Option<Exception>)
      modifies this
      ensures match Logged(old(data), sender, word, direction, timestamp, createdAt)
        case Ok(d) => data == d && raised == None
        case Raise(e) => data == old(data) && raised == Some(e)
    {
      var uid := DecimalString(sender.id);
      var record := QueryRecord(word, direction, timestamp);
      if !data.JObj? {
        return Some(AttributeError);
      }
      var users := UsersEntry(data.fields);
      if !users.JObj? {
        return Some(TypeError);
      }
      ghost var known := users;
      if uid !in users.fields {
        users := JObj(users.fields[uid := NewProfile(sender, createdAt)]);
      }
      var profile := users.fields[uid];
      if !profile.JObj? {
        return Some(TypeError);
      }
      if "queries" !in profile.fields {
        return Some(KeyError);
      }
      var queries := profile.fields["queries"];
      if !queries.JArr? {
        return Some(AttributeError);
      }
      queries := JArr(queries.items + [record]);
      profile := JObj(profile.fields["queries" := queries]);
      users := JObj(users.fields[uid := profile]);
      assert users.fields == known.fields[uid := profile];
      data := JObj(data.fields["users" := users]);
      raised := None;
    }
  }
}
