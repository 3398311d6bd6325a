/**
 * The global conversation store (`useConversationStore`): a record from
 * conversation key to saved state, replaced as a whole on every change.
 * `save` and `load` copy the message map, the order array and the message
 * list, so a stored state never shares anything with a caller; here every
 * state is a value, which is exactly that guarantee.
 */
module ConversationStore {
  import opened Wrappers
  import opened Messages

  datatype ConversationState = ConversationState(
    messages: seq<Message>,
    currentPage: int,
    hasNextPage: bool,
    scrollPosition: int,
    messageMap: map<string, Message>,
    orderArray: seq<string>)

  /** The `conversations` record. */
  type Store = map<string, ConversationState>

  /** `saveConversation(key, state)` */
  function Save(store: Store, key: string, state: ConversationState): Store {
    store[key := state]
  }

  /** `loadConversation(key)`: a copy of the stored state, or null. */
  function Load(store: Store, key: string): Option<ConversationState> {
    if key in store then Some(store[key]) else None
  }

  /** `hasConversation(key)`: a stored state is an object, so it is always truthy. */
  predicate Has(store: Store, key: string) {
    key in store
  }

  /** `clearConversation(key)` */
  function Clear(store: Store, key: string): Store {
    store - {key}
  }

  /** `clearAll()` */
  function ClearAll(): Store {
    map[]
  }

  /** Loading right after saving returns the saved state, field by field. */
  lemma LoadAfterSave(store: Store, key: string, state: ConversationState)
    ensures Load(Save(store, key, state), key) == Some(state)
    ensures Has(Save(store, key, state), key)
  {
  }

  /** Saving under one key leaves what every other key loads unchanged. */
  lemma SaveIsolated(store: Store, key: string, other: string, state: ConversationState)
    requires other != key
    ensures Load(Save(store, key, state), other) == Load(store, other)
  {
  }

  /** Clearing a key makes it absent and leaves every other key's state unchanged. */
  lemma ClearIsolated(store: Store, key: string, other: string)
    ensures Load(Clear(store, key), key) == None && !Has(Clear(store, key), key)
    ensures other != key ==> Load(Clear(store, key), other) == Load(store, other)
  {
  }

  /** After `clearAll` nothing is stored. */
  lemma ClearAllEmpty(key: string)
    ensures !Has(ClearAll(), key) && Load(ClearAll(), key) == None
  {
  }

  /** Loading an absent key gives null, and a present key exactly what `hasConversation` reports. */
  lemma LoadMatchesHas(store: Store, key: string)
    ensures Load(store, key).Some? <==> Has(store, key)
  {
  }

  // ---------------------------------------------------------------------
  // A sequence of store operations, run from the initial empty record.

  datatype Op = SaveOp(key: string, state: ConversationState) | ClearOp(key: string) | ClearAllOp

  function Apply(store: Store, op: Op): Store {
    match op
    case SaveOp(k, s) => Save(store, k, s)
    case ClearOp(k) => Clear(store, k)
    case ClearAllOp => ClearAll()
  }

  /** The record after running `ops` in order from `{}`. */
  function Run(ops: seq<Op>): Store {
    if ops == [] then map[] else Apply(Run(ops[..|ops| - 1]), ops[|ops| - 1])
  }

  /** Some save of `key` happens after the last clear of `key` and the last `clearAll`. */
  ghost predicate SavedSinceLastClear(ops: seq<Op>, key: string) {
    exists i :: 0 <= i < |ops| && ops[i].SaveOp? && ops[i].key == key &&
      forall j :: i < j < |ops| ==> ops[j] != ClearOp(key) && ops[j] != ClearAllOp
  }

  /** The state `key` holds: the one of its latest save, if not cleared since. */
  function Latest(ops: seq<Op>, key: string): Option<ConversationState> {
    if ops == [] then None
    else
      match ops[|ops| - 1]
      case SaveOp(k, s) => if k == key then Some(s) else Latest(ops[..|ops| - 1], key)
      case ClearOp(k) => if k == key then None else Latest(ops[..|ops| - 1], key)
      case ClearAllOp => None
  }

  /** `hasConversation(key)` holds exactly when `key` was saved and not cleared since. */
  lemma {:induction false} HasIffSavedSinceLastClear(ops: seq<Op>, key: string)
    ensures Has(Run(ops), key) <==> SavedSinceLastClear(ops, key)
  {
    if ops != [] {
      var n := |ops|;
      var front := ops[..n - 1];
      HasIffSavedSinceLastClear(front, key);
      var last := ops[n - 1];
      if SavedSinceLastClear(ops, key) {
        var i :| 0 <= i < n && ops[i].SaveOp? && ops[i].key == key &&
          forall j :: i < j < n ==> ops[j] != ClearOp(key) && ops[j] != ClearAllOp;
        if i < n - 1 {
          assert front[i] == ops[i];
          forall j | i < j < n - 1 ensures front[j] != ClearOp(key) && front[j] != ClearAllOp {
            assert front[j] == ops[j];
          }
          assert SavedSinceLastClear(front, key);
        }
      } else {
        match last
        case SaveOp(k, s) =>
          if k != key && SavedSinceLastClear(front, key) {
            var i :| 0 <= i < n - 1 && front[i].SaveOp? && front[i].key == key &&
              forall j :: i < j < n - 1 ==> front[j] != ClearOp(key) && front[j] != ClearAllOp;
            assert ops[i] == front[i];
            forall j | i < j < n ensures ops[j] != ClearOp(key) && ops[j] != ClearAllOp {
              if j < n - 1 { assert ops[j] == front[j]; }
            }
          }
        case ClearOp(k) =>
          if k != key && SavedSinceLastClear(front, key) {
            var i :| 0 <= i < n - 1 && front[i].SaveOp? && front[i].key == key &&
              forall j :: i < j < n - 1 ==> front[j] != ClearOp(key) && front[j] != ClearAllOp;
            assert ops[i] == front[i];
            forall j | i < j < n ensures ops[j] != ClearOp(key) && ops[j] != ClearAllOp {
              if j < n - 1 { assert ops[j] == front[j]; }
            }
          }
        case ClearAllOp =>
      }
    }
  }

  /** Loading after any run of operations returns the latest state saved for the key and not cleared since. */
  lemma {:induction false} LoadIsLatest(ops: seq<Op>, key: string)
    ensures Load(Run(ops), key) == Latest(ops, key)
  {
    if ops != [] {
      LoadIsLatest(ops[..|ops| - 1], key);
    }
  }
}
