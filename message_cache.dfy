/**
 * The browser-local key/value store (`idb-keyval`'s `get` and `set`) holding
 * one message list per chat under the key `"chat_messages_" + chatId`.
 */
module MessageCache {
  import opened Wrappers
  import opened Schema

  const KeyPrefix := "chat_messages_"

  /** The template literal `` `chat_messages_${chatId}` ``. */
  function KeyFor(chatId: string): string {
    KeyPrefix + chatId
  }

  /** Distinct chats never share a cache entry. */
  lemma KeyForInjective(a: string, b: string)
    ensures KeyFor(a) == KeyFor(b) ==> a == b
  {
    if KeyFor(a) == KeyFor(b) {
      assert a == KeyFor(a)[|KeyPrefix|..];
      assert b == KeyFor(b)[|KeyPrefix|..];
    }
  }

  class Cache {
    var entries: map<string, seq<Message>>

    constructor ()
      ensures entries == map[]
    {
      entries := map[];
    }

    /** `get(key)`: the stored list, or nothing. */
    function Get(key: string): (r: Option<seq<Message>>)
      reads this
      ensures r.Some? <==> key in entries
      ensures r.Some? ==> r.value == entries[key]
    {
      if key in entries then Some(entries[key]) else None
    }

    /** `set(key, value)`. */
    method Set(key: string, value: seq<Message>)
      modifies this
      ensures entries == old(entries)[key := value]
    {
      entries := entries[key := value];
    }
  }
}
