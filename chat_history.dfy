/** `ChatHistory.getLatestMessages`: the newest `count` messages of the stored conversation. */
module ChatHistory {
  import opened Wrappers

  datatype ChatMessage = ChatMessage(content: string, isUserMessage: bool, timestamp: int)

  /** Ascending by timestamp, the order the fetch descriptor asks the store for. */
  predicate ByTimestamp(messages: seq<ChatMessage>) {
    forall i, j :: 0 <= i < j < |messages| ==> messages[i].timestamp <= messages[j].timestamp
  }

  /**
   * `fetchMessages`: `fetched` is the store's answer to the timestamp-sorted fetch, or
   * `None` when the fetch throws; a failed fetch reads as an empty history.
   */
  function FetchMessages(fetched: Option<seq<ChatMessage>>): (r: seq<ChatMessage>)
    ensures fetched.None? ==> r == []
    ensures fetched.Some? ==> r == fetched.value
  {
    if fetched.Some? then fetched.value else []
  }

  /**
   * `getLatestMessages`. A negative count makes the start index pass the end of the
   * list, which traps in Swift, so callers must pass `count >= 0`.
   */
  function GetLatestMessages(count: int, fetched: Option<seq<ChatMessage>>): (r: seq<ChatMessage>)
    requires count >= 0
    ensures var messages := FetchMessages(fetched);
      |r| == (if count < |messages| then count else |messages|) &&
      r == messages[|messages| - |r|..]
    ensures count == 0 ==> r == []
    ensures count >= |FetchMessages(fetched)| ==> r == FetchMessages(fetched)
    ensures fetched.None? ==> r == []
  {
    var messages := FetchMessages(fetched);
    var startIndex := if |messages| - count > 0 then |messages| - count else 0;
    messages[startIndex..|messages|]
  }

  /** The result keeps the store's timestamp order. */
  lemma LatestKeepsOrder(count: int, fetched: Option<seq<ChatMessage>>)
    requires count >= 0 && fetched.Some? && ByTimestamp(fetched.value)
    ensures ByTimestamp(GetLatestMessages(count, fetched))
  {
    var messages := fetched.value;
    var r := GetLatestMessages(count, fetched);
    var start := |messages| - |r|;
    forall i, j | 0 <= i < j < |r|
      ensures r[i].timestamp <= r[j].timestamp
    {
      assert r[i] == messages[start + i] && r[j] == messages[start + j];
    }
  }

  /** Every returned message is at least as new as every message left out. */
  lemma LatestAreNewest(count: int, fetched: Option<seq<ChatMessage>>)
    requires count >= 0 && fetched.Some? && ByTimestamp(fetched.value)
    ensures var messages := fetched.value; var r := GetLatestMessages(count, fetched);
      forall i, k :: 0 <= i < |messages| - |r| && 0 <= k < |r| ==> messages[i].timestamp <= r[k].timestamp
  {
    var messages := fetched.value;
    var r := GetLatestMessages(count, fetched);
    forall i, k | 0 <= i < |messages| - |r| && 0 <= k < |r|
      ensures messages[i].timestamp <= r[k].timestamp
    {
      assert r[k] == messages[|messages| - |r| + k];
    }
  }

  /** Asking for the latest `a` of the latest `b` is asking for the latest `min(a, b)`. */
  lemma LatestOfLatest(a: int, b: int, fetched: Option<seq<ChatMessage>>)
    requires a >= 0 && b >= 0
    ensures GetLatestMessages(a, Some(GetLatestMessages(b, fetched))) ==
            GetLatestMessages(if a < b then a else b, fetched)
  {
    var messages := FetchMessages(fetched);
    var inner := GetLatestMessages(b, fetched);
    var outer := GetLatestMessages(a, Some(inner));
    var direct := GetLatestMessages(if a < b then a else b, fetched);
    assert |outer| == |direct|;
    forall k | 0 <= k < |outer|
      ensures outer[k] == direct[k]
    {
      assert outer[k] == inner[|inner| - |outer| + k];
      assert inner[|inner| - |outer| + k] == messages[|messages| - |inner| + |inner| - |outer| + k];
    }
  }
}
