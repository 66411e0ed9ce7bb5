/** The topic carried by a phrase-topic button (bot.py, `callback_handler`),
    and how it relates to the callback data the topic menu writes. */
module BotCallback {
  import opened Python
  import opened PyText

  /** The prefix of the callback data of a phrase-topic button. */
  const TopicPrefix: string := "phrase_topic:"

  /** The topic `callback_handler` looks up: `data.split(":")[1]` when `data`
      starts with `phrase_topic:`, and nothing otherwise. The topic is the
      text between the first and the second colon, or to the end. */
  function CallbackTopic(data: string): (topic: Option<string>)
    ensures topic.Some? <==> StartsWith(data, TopicPrefix)
    ensures topic.Some? ==>
      && ':' !in topic.value
      && StartsWith(data, TopicPrefix + topic.value)
      && (|data| == |TopicPrefix| + |topic.value| || data[|TopicPrefix| + |topic.value|] == ':')
  {
    if !StartsWith(data, TopicPrefix) then None
    else
      var rest := data[|TopicPrefix|..];
      assert data == "phrase_topic" + [':'] + rest;
      SplitOnCons("phrase_topic", ':', rest);
      SplitOnHead(rest, ':');
      Some(SplitOn(data, ':')[1])
  }

  /** The menu writes `phrase_topic:` followed by the topic key; the handler
      gets that key back exactly when the key holds no colon. */
  lemma CallbackRoundTrip(key: string)
    ensures CallbackTopic(TopicPrefix + key) == Some(key) <==> ':' !in key
  {
    var data := TopicPrefix + key;
    assert data[|TopicPrefix|..] == key;
    assert data == "phrase_topic" + [':'] + key;
    SplitOnCons("phrase_topic", ':', key);
    SplitOnHead(key, ':');
    if ':' !in key {
      assert IndexOf(key, ':') == |key| by {
        assert forall i :: 0 <= i < |key| ==> key[i] in key;
      }
    }
  }
}
