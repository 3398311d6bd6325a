/**
 * The per-conversation cache (`useConversationCache`): one mutable `Map`
 * from a conversation key ("sms-SENDER", "wave-PACKAGE") to the state saved
 * when the user left that conversation. `save` copies the message map and
 * the order array but keeps the caller's message array itself; `load` hands
 * out the stored object, not a copy.
 *
 * JavaScript arrays are `array`s here and a JavaScript `Map` is an object of
 * class `MessageMap`, so that sharing and copying can be told apart.
 */
module ConversationCache {
  import opened Messages

  /** A mutable `Map<string, Message>`. */
  class MessageMap {
    var contents: map<string, Message>

    constructor (contents: map<string, Message>)
      ensures this.contents == contents
    {
      this.contents := contents;
    }

    /** `new Map(this)`: a fresh map with the same entries. */
    method Clone() returns (c: MessageMap)
      ensures fresh(c) && c.contents == contents
    {
      c := new MessageMap(contents);
    }
  }

  /** The object stored for one conversation. */
  class ConversationState {
    var messages: array<Message>
    var currentPage: int
    var hasNextPage: bool
    var scrollPosition: int
    var messageMap: MessageMap
    var orderArray: array<string>

    constructor (messages: array<Message>, currentPage: int, hasNextPage: bool, scrollPosition: int,
                 messageMap: MessageMap, orderArray: array<string>)
      ensures this.messages == messages && this.currentPage == currentPage
      ensures this.hasNextPage == hasNextPage && this.scrollPosition == scrollPosition
      ensures this.messageMap == messageMap && this.orderArray == orderArray
    {
      this.messages := messages;
      this.currentPage := currentPage;
      this.hasNextPage := hasNextPage;
      this.scrollPosition := scrollPosition;
      this.messageMap := messageMap;
      this.orderArray := orderArray;
    }
  }

  /** `[...a]`: a fresh array with the same elements. */
  method CopyArray(a: array<string>) returns (c: array<string>)
    ensures fresh(c) && c[..] == a[..]
  {
    c := new string[a.Length];
    var i := 0;
    while i < a.Length
      invariant 0 <= i <= a.Length
      invariant c[..i] == a[..i]
      modifies c
    {
      c[i] := a[i];
      i := i + 1;
    }
    assert c[..] == c[..a.Length];
    assert a[..] == a[..a.Length];
  }

  /** `cacheRef.current` */
  class Cache {
    var entries: map<string, ConversationState>

    constructor ()
      ensures entries == map[]
    {
      entries := map[];
    }

    /**
     * `saveConversation(key, messages, currentPage, hasNextPage,
     * scrollPosition, messageMap, orderArray)`: a new state object replaces
     * any entry for `key`; it shares `messages` with the caller and holds
     * fresh copies of `messageMap` and `orderArray`.
     */
    method SaveConversation(key: string, messages: array<Message>, currentPage: int, hasNextPage: bool,
                            scrollPosition: int, messageMap: MessageMap, orderArray: array<string>)
      modifies this`entries
      ensures key in entries && entries == old(entries)[key := entries[key]]
      ensures fresh(entries[key]) && fresh(entries[key].messageMap) && fresh(entries[key].orderArray)
      ensures entries[key].messages == messages
      ensures entries[key].currentPage == currentPage && entries[key].hasNextPage == hasNextPage
      ensures entries[key].scrollPosition == scrollPosition
      ensures entries[key].messageMap.contents == messageMap.contents
      ensures entries[key].orderArray[..] == orderArray[..]
    {
      var mapCopy := messageMap.Clone();
      var orderCopy := CopyArray(orderArray);
      var state := new ConversationState(messages, currentPage, hasNextPage, scrollPosition, mapCopy, orderCopy);
      entries := entries[key := state];
    }

    /** `loadConversation(key)`: the stored object itself, or null. */
    method LoadConversation(key: string) returns (r: ConversationState?)
      ensures key in entries ==> r == entries[key]
      ensures key !in entries ==> r == null
    {
      if key in entries {
        r := entries[key];
      } else {
        r := null;
      }
    }

    /** `clearConversation(key)` */
    method ClearConversation(key: string)
      modifies this`entries
      ensures entries == old(entries) - {key}
    {
      entries := entries - {key};
    }

    /** `hasConversation(key)` */
    method HasConversation(key: string) returns (b: bool)
      ensures b <==> key in entries
    {
      b := key in entries;
    }

    /** `clearAll()` */
    method ClearAll()
      modifies this`entries
      ensures entries == map[]
    {
      entries := map[];
    }
  }

  // ---------------------------------------------------------------------
  // What callers observe.

  /** Loading right after saving gives back every saved field. */
  method SaveThenLoad(cache: Cache, key: string, messages: array<Message>, currentPage: int, hasNextPage: bool,
                      scrollPosition: int, messageMap: MessageMap, orderArray: array<string>)
    returns (r: ConversationState?)
    modifies cache
    ensures r != null
    ensures r.messages == messages && r.currentPage == currentPage && r.hasNextPage == hasNextPage
    ensures r.scrollPosition == scrollPosition
    ensures r.messageMap.contents == messageMap.contents && r.orderArray[..] == orderArray[..]
    ensures forall k :: k != key ==> (k in cache.entries <==> k in old(cache.entries))
    ensures forall k :: k != key && k in old(cache.entries) ==> cache.entries[k] == old(cache.entries[k])
  {
    cache.SaveConversation(key, messages, currentPage, hasNextPage, scrollPosition, messageMap, orderArray);
    r := cache.LoadConversation(key);
  }

  /**
   * After a save, writing into the caller's order array or map leaves the
   * cached copies as they were, while writing into the caller's message
   * array shows through the cached state.
   */
  method CallerWritesAfterSave(cache: Cache, key: string, messages: array<Message>, messageMap: MessageMap,
                               orderArray: array<string>, i: nat, m: Message, u: string)
    requires i < messages.Length && i < orderArray.Length
    modifies cache, messages, orderArray, messageMap
    ensures key in cache.entries
    ensures cache.entries[key].messages == messages && cache.entries[key].messages[i] == m
    ensures cache.entries[key].orderArray[..] == old(orderArray[..])
    ensures cache.entries[key].messageMap.contents == old(messageMap.contents)
  {
    cache.SaveConversation(key, messages, 1, true, 0, messageMap, orderArray);
    var state := cache.entries[key];
    messages[i] := m;
    orderArray[i] := u;
    messageMap.contents := messageMap.contents[m.uid := m];
    assert state.orderArray != orderArray;
  }

  /** A write through the loaded object changes the cached entry: load does not copy. */
  method WriteThroughLoaded(cache: Cache, key: string, page: int)
    requires key in cache.entries
    modifies cache.entries[key]
    ensures cache.entries[key].currentPage == page
  {
    var r := cache.LoadConversation(key);
    r.currentPage := page;
  }

  /** Clearing one key drops it and keeps the others; clearing everything drops every key. */
  method ClearScenario(cache: Cache, key: string, other: string) returns (hasKey: bool, hasOther: bool, hasAny: bool)
    requires key != other && other in cache.entries
    modifies cache
    ensures !hasKey && hasOther && !hasAny
  {
    cache.ClearConversation(key);
    hasKey := cache.HasConversation(key);
    hasOther := cache.HasConversation(other);
    cache.ClearAll();
    hasAny := cache.HasConversation(other);
  }
}
