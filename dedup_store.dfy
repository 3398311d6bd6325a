/**
 * The older message store (`useMessages`): every change re-runs
 * `deduplicateAndSort` over the whole list. Duplicates by uid collapse into
 * one message (a later copy wins only with a strictly newer date), and the
 * result is sorted with the shared comparator unless its uid sequence equals
 * the one sorted last time.
 *
 * The insertion-ordered `Map` that the hook builds is represented by the
 * sequence of its values: a key keeps the position of its first insertion
 * and `set` on a present key replaces the value in place.
 */
module DedupStore {
  import opened Wrappers
  import opened Messages
  import StableStore

  /** `list.findIndex(m => m.uid === uid)`, `None` standing for -1. */
  function FindIndex(list: seq<Message>, uid: string): (r: Option<nat>)
    ensures r.Some? ==>
      r.value < |list| && list[r.value].uid == uid && (forall j :: 0 <= j < r.value ==> list[j].uid != uid)
    ensures r.None? ==> forall j :: 0 <= j < |list| ==> list[j].uid != uid
  {
    if list == [] then None
    else if list[0].uid == uid then Some(0)
    else match FindIndex(list[1..], uid)
      case None => None
      case Some(k) => Some(k + 1)
  }

  /** One `forEach` step: insert an unseen uid at the end, replace a seen one only by a strictly newer copy. */
  function DedupStep(unique: seq<Message>, x: Message): seq<Message> {
    match FindIndex(unique, x.uid)
    case None => unique + [x]
    case Some(k) => if x.createdAt > unique[k].createdAt then unique[k := x] else unique
  }

  /** `Array.from(uniqueMap.values())` after the whole list has been folded in. */
  function Dedup(list: seq<Message>): seq<Message> {
    if list == [] then []
    else DedupStep(Dedup(list[..|list| - 1]), list[|list| - 1])
  }

  /**
   * `x` is the copy of its uid that the fold keeps: it occurs in the list at
   * some index `i`, no copy anywhere is newer, and every copy before `i` is
   * strictly older.
   */
  ghost predicate IsWinner(list: seq<Message>, x: Message) {
    exists i :: 0 <= i < |list| && list[i] == x &&
      (forall j :: 0 <= j < |list| && list[j].uid == x.uid ==> list[j].createdAt <= x.createdAt) &&
      (forall j :: 0 <= j < i && list[j].uid == x.uid ==> list[j].createdAt < x.createdAt)
  }

  /** The deduplicated list carries every uid of the input exactly once. */
  lemma {:induction false} DedupUids(list: seq<Message>)
    ensures NoDup(Uids(Dedup(list)))
    ensures UidSet(Dedup(list)) == UidSet(list)
  {
    if list != [] {
      var n := |list|;
      var front := list[..n - 1];
      var y := list[n - 1];
      DedupUids(front);
      UidSetLast(list);
      var d := Dedup(front);
      match FindIndex(d, y.uid)
      case None =>
        assert Dedup(list) == d + [y];
        StepUidsNew(d, y);
      case Some(k) =>
        if y.createdAt > d[k].createdAt {
          assert Dedup(list) == d[k := y];
          StepUidsReplace(d, k, y);
        }
    }
  }

  /** Appending a message whose uid is absent keeps the uids distinct and adds that uid. */
  lemma StepUidsNew(d: seq<Message>, y: Message)
    requires NoDup(Uids(d)) && FindIndex(d, y.uid).None?
    ensures NoDup(Uids(d + [y]))
    ensures UidSet(d + [y]) == UidSet(d) + {y.uid}
  {
    var r := d + [y];
    forall i, j | 0 <= i < j < |r| ensures Uids(r)[i] != Uids(r)[j] {
      if j < |d| {
        assert Uids(d)[i] == Uids(r)[i] && Uids(d)[j] == Uids(r)[j];
      }
    }
    forall u | u in UidSet(r) ensures u in UidSet(d) + {y.uid} {
      var m :| m in r && m.uid == u;
      if m != y { assert m in d; }
    }
  }

  /** Replacing a message by a copy with the same uid leaves the uids as they were. */
  lemma StepUidsReplace(d: seq<Message>, k: nat, y: Message)
    requires k < |d| && d[k].uid == y.uid
    ensures Uids(d[k := y]) == Uids(d)
    ensures UidSet(d[k := y]) == UidSet(d)
  {
    var r := d[k := y];
    assert d[k] in d;
    forall u | u in UidSet(r) ensures u in UidSet(d) {
      var m :| m in r && m.uid == u;
      var q :| 0 <= q < |r| && r[q] == m;
      assert d[q].uid == u;
    }
    forall u | u in UidSet(d) ensures u in UidSet(r) {
      var m :| m in d && m.uid == u;
      var q :| 0 <= q < |d| && d[q] == m;
      assert r[q].uid == u;
    }
  }

  /** Every message of the deduplicated list is the winning copy of its uid. */
  lemma {:induction false} DedupWinners(list: seq<Message>)
    ensures forall x :: x in Dedup(list) ==> IsWinner(list, x)
  {
    if list != [] {
      var n := |list|;
      var front := list[..n - 1];
      assert list == front + [list[n - 1]];
      DedupWinners(front);
      DedupUids(front);
      StepWinners(front, Dedup(front), list[n - 1]);
    }
  }

  /** One fold step keeps every kept message the winner of its uid. */
  lemma StepWinners(front: seq<Message>, d: seq<Message>, y: Message)
    requires forall x :: x in d ==> IsWinner(front, x)
    requires NoDup(Uids(d)) && UidSet(d) == UidSet(front)
    ensures forall x :: x in DedupStep(d, y) ==> IsWinner(front + [y], x)
  {
    match FindIndex(d, y.uid)
    case None => StepWinnersNew(front, d, y);
    case Some(k) =>
      if y.createdAt > d[k].createdAt {
        StepWinnersReplace(front, d, y, k);
      } else {
        StepWinnersKeep(front, d, y, k);
      }
  }

  lemma StepWinnersNew(front: seq<Message>, d: seq<Message>, y: Message)
    requires forall x :: x in d ==> IsWinner(front, x)
    requires UidSet(d) == UidSet(front)
    requires forall j :: 0 <= j < |d| ==> d[j].uid != y.uid
    ensures forall x :: x in d + [y] ==> IsWinner(front + [y], x)
  {
    var list := front + [y];
    forall m | m in d ensures m.uid != y.uid {
      var q :| 0 <= q < |d| && d[q] == m;
    }
    assert y.uid !in UidSet(front);
    forall x | x in d + [y] ensures IsWinner(list, x) {
      if x == y {
        forall j | 0 <= j < |front| ensures list[j].uid != y.uid {
          assert list[j] == front[j] && front[j] in front;
        }
        assert list[|front|] == x;
      } else {
        assert x in d;
        var q :| 0 <= q < |d| && d[q] == x;
        WinnerExtends(front, y, x);
      }
    }
  }

  lemma StepWinnersReplace(front: seq<Message>, d: seq<Message>, y: Message, k: nat)
    requires forall x :: x in d ==> IsWinner(front, x)
    requires NoDup(Uids(d))
    requires k < |d| && d[k].uid == y.uid && y.createdAt > d[k].createdAt
    ensures forall x :: x in d[k := y] ==> IsWinner(front + [y], x)
  {
    var list := front + [y];
    var r := d[k := y];
    forall x | x in r ensures IsWinner(list, x) {
      var q :| 0 <= q < |r| && r[q] == x;
      if q == k {
        assert d[k] in d;
        var i :| 0 <= i < |front| && front[i] == d[k] &&
          (forall j :: 0 <= j < |front| && front[j].uid == d[k].uid ==> front[j].createdAt <= d[k].createdAt);
        forall j | 0 <= j < |list| && list[j].uid == x.uid ensures list[j].createdAt <= x.createdAt {
          if j < |front| { assert list[j] == front[j]; }
        }
        forall j | 0 <= j < |front| && list[j].uid == x.uid ensures list[j].createdAt < x.createdAt {
          assert list[j] == front[j];
        }
        assert list[|front|] == x;
      } else {
        assert x == d[q] && d[q] in d;
        assert Uids(d)[q] != Uids(d)[k];
        WinnerExtends(front, y, x);
      }
    }
  }

  lemma StepWinnersKeep(front: seq<Message>, d: seq<Message>, y: Message, k: nat)
    requires forall x :: x in d ==> IsWinner(front, x)
    requires NoDup(Uids(d))
    requires k < |d| && d[k].uid == y.uid && y.createdAt <= d[k].createdAt
    ensures forall x :: x in d ==> IsWinner(front + [y], x)
  {
    forall x | x in d ensures IsWinner(front + [y], x) {
      var q :| 0 <= q < |d| && d[q] == x;
      if q == k {
        WinnerKeepsOnOlder(front, y, x);
      } else {
        assert Uids(d)[q] != Uids(d)[k];
        WinnerExtends(front, y, x);
      }
    }
  }

  /** Appending a copy of another uid keeps a winner the winner. */
  lemma WinnerExtends(front: seq<Message>, y: Message, x: Message)
    requires IsWinner(front, x) && y.uid != x.uid
    ensures IsWinner(front + [y], x)
  {
    var list := front + [y];
    var i :| 0 <= i < |front| && front[i] == x &&
      (forall j :: 0 <= j < |front| && front[j].uid == x.uid ==> front[j].createdAt <= x.createdAt) &&
      (forall j :: 0 <= j < i && front[j].uid == x.uid ==> front[j].createdAt < x.createdAt);
    assert list[i] == x;
    assert forall j :: 0 <= j < |front| ==> list[j] == front[j];
  }

  /** Appending a copy of the same uid that is not newer keeps the winner. */
  lemma WinnerKeepsOnOlder(front: seq<Message>, y: Message, x: Message)
    requires IsWinner(front, x) && y.uid == x.uid && y.createdAt <= x.createdAt
    ensures IsWinner(front + [y], x)
  {
    var list := front + [y];
    var i :| 0 <= i < |front| && front[i] == x &&
      (forall j :: 0 <= j < |front| && front[j].uid == x.uid ==> front[j].createdAt <= x.createdAt) &&
      (forall j :: 0 <= j < i && front[j].uid == x.uid ==> front[j].createdAt < x.createdAt);
    assert list[i] == x;
    assert forall j :: 0 <= j < |front| ==> list[j] == front[j];
  }

  /** The winner of a uid is unique: two winners with the same uid are the same message. */
  lemma WinnerUnique(list: seq<Message>, x: Message, z: Message)
    requires IsWinner(list, x) && IsWinner(list, z) && x.uid == z.uid
    ensures x == z
  {
    var i :| 0 <= i < |list| && list[i] == x &&
      (forall j :: 0 <= j < |list| && list[j].uid == x.uid ==> list[j].createdAt <= x.createdAt) &&
      (forall j :: 0 <= j < i && list[j].uid == x.uid ==> list[j].createdAt < x.createdAt);
    var k :| 0 <= k < |list| && list[k] == z &&
      (forall j :: 0 <= j < |list| && list[j].uid == z.uid ==> list[j].createdAt <= z.createdAt) &&
      (forall j :: 0 <= j < k && list[j].uid == z.uid ==> list[j].createdAt < z.createdAt);
    assert list[k].createdAt <= x.createdAt && list[i].createdAt <= z.createdAt;
    assert !(i < k) && !(k < i);
  }

  // ---------------------------------------------------------------------
  // deduplicateAndSort

  /**
   * `deduplicateAndSort` as written: when the deduplicated uid sequence
   * equals the last sorted one, the last sorted list itself is returned, so
   * the values just deduplicated are dropped.
   */
  function DedupAndSortAsWritten(list: seq<Message>, lastSorted: seq<Message>): seq<Message> {
    if list == [] then []
    else
      var unique := Dedup(list);
      if Uids(unique) != Uids(lastSorted) then SortNewestFirst(unique) else lastSorted
  }

  /**
   * `deduplicateAndSort` as evidently intended: the sort is skipped when the
   * uid sequence is unchanged, but the deduplicated values are returned.
   */
  function DedupAndSort(list: seq<Message>, lastSorted: seq<Message>): seq<Message> {
    if list == [] then []
    else
      var unique := Dedup(list);
      if Uids(unique) != Uids(lastSorted) then SortNewestFirst(unique) else unique
  }

  /**
   * The result holds exactly the winning copy of every uid of the input,
   * once each, and it is sorted newest first whenever the uid sequence
   * differs from the last sorted one.
   */
  lemma DedupAndSortContents(list: seq<Message>, lastSorted: seq<Message>)
    ensures var r := DedupAndSort(list, lastSorted);
      multiset(r) == multiset(Dedup(list)) &&
      NoDup(Uids(r)) &&
      UidSet(r) == UidSet(list) &&
      (forall x :: x in r ==> IsWinner(list, x)) &&
      (Uids(Dedup(list)) != Uids(lastSorted) ==> SortedNewestFirst(r))
  {
    var r := DedupAndSort(list, lastSorted);
    var u := Dedup(list);
    DedupUids(list);
    DedupWinners(list);
    if list != [] && Uids(u) != Uids(lastSorted) {
      SortNewestFirstSpec(u);
      assert multiset(Uids(r)) == multiset(Uids(u));
      NoDupMultiset(Uids(u));
      forall v | v in Uids(r) ensures multiset(Uids(r))[v] == 1 {
        assert v in multiset(Uids(u));
      }
      NoDupMultiset(Uids(r));
      forall x | x in r ensures x in u {
        assert x in multiset(r);
      }
      assert UidSet(r) == UidSet(u) by {
        forall v | v in UidSet(u) ensures v in UidSet(r) {
          var m :| m in u && m.uid == v;
          assert m in multiset(r);
        }
      }
    }
  }

  /** An empty list gives an empty result. */
  lemma DedupAndSortEmpty(lastSorted: seq<Message>)
    ensures DedupAndSort([], lastSorted) == [] && DedupAndSortAsWritten([], lastSorted) == []
  {
  }

  /** Both versions agree whenever the sort runs. */
  lemma AsWrittenAgreesWhenSorting(list: seq<Message>, lastSorted: seq<Message>)
    requires Uids(Dedup(list)) != Uids(lastSorted)
    ensures DedupAndSortAsWritten(list, lastSorted) == DedupAndSort(list, lastSorted)
  {
  }

  /**
   * The discrepancy: after `addMessages([a])` the list and the last sorted
   * list are `[a]`; `updateMessage(a.uid, patch)` then deduplicates
   * `[patched]`, whose uid sequence is unchanged, and the code returns `[a]`:
   * the update is lost.
   */
  lemma UpdateLostAsWritten(a: Message, patch: Patch)
    requires patch.uid.None?
    ensures DedupAndSortAsWritten([ApplyPatch(a, patch)], [a]) == [a]
    ensures DedupAndSort([ApplyPatch(a, patch)], [a]) == [ApplyPatch(a, patch)]
  {
    var p := ApplyPatch(a, patch);
    assert [p][..0] == [];
    assert Dedup([p]) == [p];
  }

  // ---------------------------------------------------------------------
  // The loops, on values.

  /** The `forEach` that fills `uniqueMap`. */
  method DedupLoop(list: seq<Message>) returns (unique: seq<Message>)
    ensures unique == Dedup(list)
  {
    unique := [];
    var i := 0;
    while i < |list|
      invariant 0 <= i <= |list|
      invariant unique == Dedup(list[..i])
    {
      assert list[..i + 1][..i] == list[..i];
      var x := list[i];
      match FindIndex(unique, x.uid) {
        case None =>
          unique := unique + [x];
        case Some(k) =>
          if x.createdAt > unique[k].createdAt {
            unique := unique[k := x];
          }
      }
      i := i + 1;
    }
    assert list[..i] == list;
  }

  /**
   * `deduplicateAndSort(list)` with the returned values fixed (see
   * `DedupAndSortAsWritten`): returns the result together with the new
   * values of `messagesMapRef` and `lastSortedRef`.
   */
  method DeduplicateAndSort(list: seq<Message>, lastSorted: seq<Message>)
    returns (sorted: seq<Message>, uniqueMap: map<string, Message>, lastSorted': seq<Message>)
    ensures sorted == DedupAndSort(list, lastSorted)
    ensures lastSorted' == sorted
    ensures uniqueMap == StableStore.StoreAll(map[], Dedup(list))
  {
    if |list| == 0 {
      return [], map[], [];
    }
    var unique := DedupLoop(list);
    uniqueMap := StableStore.StoreEach(map[], unique);
    var needsSorting := Uids(unique) != Uids(lastSorted);
    sorted := if needsSorting then SortNewestFirst(unique) else unique;
    lastSorted' := sorted;
  }

  /**
   * The body of the `setMessages` updater in `addMessages`, followed by the
   * effect that re-keys the map: returns the new list, map, last sorted list,
   * new-id set and scheduled notifications.
   */
  method MergeAndDedup(prev: seq<Message>, lastSorted: seq<Message>, ids: set<string>,
                       notes: seq<seq<Message>>, hasListener: bool, batch: seq<Message>, replace: bool)
    returns (processed: seq<Message>, synced: map<string, Message>, lastSorted': seq<Message>,
             ids': set<string>, notes': seq<seq<Message>>)
    ensures processed == DedupAndSort(if replace then batch else prev + batch, lastSorted)
    ensures synced == StableStore.StoreAll(map[], processed)
    ensures lastSorted' == processed
    ensures ids' == ids + UidSet(Unseen(batch, UidSet(prev)))
    ensures notes' ==
      if hasListener && Unseen(batch, UidSet(prev)) != [] then notes + [Unseen(batch, UidSet(prev))] else notes
  {
    var actuallyNew := Unseen(batch, UidSet(prev));
    var toProcess := if replace then batch else prev + batch;
    var uniqueMap;
    processed, uniqueMap, lastSorted' := DeduplicateAndSort(toProcess, lastSorted);
    ids', notes' := ids, notes;
    if |actuallyNew| > 0 {
      ids' := ids + UidSet(actuallyNew);
      if hasListener {
        notes' := notes + [actuallyNew];
      }
    }
    // the effect on `messages`: `messagesMapRef` is rebuilt from the new list
    synced := StableStore.StoreEach(map[], processed);
  }

  // ---------------------------------------------------------------------
  // The hook's state.

  class MessageStore {
    /** the published `messages` state */
    var messages: seq<Message>
    /** the `newMessageIds` state */
    var newMessageIds: set<string>
    /** `isUpdatingRef.current` */
    var isUpdating: bool
    /** `messagesMapRef.current` */
    var messagesMap: map<string, Message>
    /** `lastSortedRef.current` */
    var lastSorted: seq<Message>
    /** the `error` state */
    var error: Option<string>
    /** whether an `onNewMessages` callback was passed in the options */
    const hasListener: bool
    /** `onNewMessages` calls scheduled with `setTimeout(..., 0)`, oldest first */
    var scheduledNotifications: seq<seq<Message>>

    /** The effect on `messages` keeps the map equal to the list keyed by uid. */
    ghost predicate Valid()
      reads this
    {
      messagesMap == StableStore.StoreAll(map[], messages)
    }

    constructor (hasListener: bool)
      ensures Valid()
      ensures messages == [] && newMessageIds == {} && !isUpdating && lastSorted == []
      ensures error == None && scheduledNotifications == [] && this.hasListener == hasListener
    {
      messages := [];
      newMessageIds := {};
      isUpdating := false;
      messagesMap := map[];
      lastSorted := [];
      error := None;
      this.hasListener := hasListener;
      scheduledNotifications := [];
    }

    /**
     * `addMessages(newMessages, replace = false)`; the effect that re-keys
     * the map after `messages` changes runs at the end.
     */
    method AddMessages(batch: seq<Message>, replace: bool := false)
      modifies this
      ensures old(isUpdating) ==> unchanged(this)
      ensures !old(isUpdating) ==>
        Valid() && !isUpdating && error == None &&
        messages == DedupAndSort(if replace then batch else old(messages) + batch, old(lastSorted)) &&
        lastSorted == messages &&
        newMessageIds == old(newMessageIds) + UidSet(Unseen(batch, UidSet(old(messages)))) &&
        scheduledNotifications ==
          (if hasListener && Unseen(batch, UidSet(old(messages))) != []
           then old(scheduledNotifications) + [Unseen(batch, UidSet(old(messages)))]
           else old(scheduledNotifications))
    {
      if !isUpdating {
        // `isUpdatingRef` is raised for the duration of the merge and lowered
        // in `finally`; nothing can run in between, so only its final value shows.
        var processed, synced, sorted, ids, notes :=
          MergeAndDedup(messages, lastSorted, newMessageIds, scheduledNotifications, hasListener, batch, replace);
        messages, messagesMap, lastSorted, newMessageIds, scheduledNotifications, error, isUpdating :=
          processed, synced, sorted, ids, notes, None, false;
      }
    }

    /** `updateMessage(uid, updates)`: patch the first message with that uid and re-run the dedup. */
    method UpdateMessage(uid: string, patch: Patch)
      requires Valid()
      modifies this`messages, this`messagesMap, this`lastSorted
      ensures Valid()
      ensures FindIndex(old(messages), uid).None? ==> unchanged(this)
      ensures FindIndex(old(messages), uid).Some? ==>
        var k := FindIndex(old(messages), uid).value;
        messages == DedupAndSort(old(messages)[k := ApplyPatch(old(messages)[k], patch)], old(lastSorted)) &&
        lastSorted == messages
    {
      var index := FindIndex(messages, uid);
      if index.None? {
        return;
      }
      var k := index.value;
      var updated := messages[k := ApplyPatch(messages[k], patch)];
      var processed, uniqueMap, sorted := DeduplicateAndSort(updated, lastSorted);
      var synced := StableStore.StoreEach(map[], processed);
      messages, messagesMap, lastSorted := processed, uniqueMap, sorted;
      messagesMap := synced;
    }

    /** `removeMessage(uid)`: every message with that uid leaves the list. */
    method RemoveMessage(uid: string)
      requires Valid()
      modifies this`messages, this`messagesMap
      ensures Valid()
      ensures messages == WithoutUid(old(messages), uid)
    {
      messages := WithoutUid(messages, uid);
      messagesMap := messagesMap - {uid};
      messagesMap := StableStore.StoreEach(map[], messages);
    }

    /** `clearMessages()`: `newMessageIds` and the last sorted list are left as they are. */
    method ClearMessages()
      requires Valid()
      modifies this`messages, this`messagesMap
      ensures Valid()
      ensures messages == [] && messagesMap == map[]
    {
      messages := [];
      messagesMap := map[];
    }

    /** `getMessageById(uid)`: the map first, then a search of the list. */
    method GetMessageById(uid: string) returns (r: Option<Message>)
      requires Valid()
      ensures r.Some? <==> uid in UidSet(messages)
      ensures r.Some? ==> r.value in messages && r.value.uid == uid
    {
      if uid in messagesMap {
        r := Some(messagesMap[uid]);
        StableStore.StoreAllKeys(map[], messages);
        StableStore.StoreAllValues(map[], messages, uid);
      } else {
        StableStore.StoreAllKeys(map[], messages);
        r := None;
      }
    }

    /** `hasMessage(uid)` */
    method HasMessage(uid: string) returns (b: bool)
      requires Valid()
      ensures b <==> uid in UidSet(messages)
    {
      StableStore.StoreAllKeys(map[], messages);
      b := uid in messagesMap;
    }

    /** `markMessagesAsRead(uids)`: each listed uid leaves the new set; absent ones are ignored. */
    method MarkMessagesAsRead(uids: seq<string>)
      modifies this`newMessageIds
      ensures newMessageIds == old(newMessageIds) - Members(uids)
    {
      var next := newMessageIds;
      var i := 0;
      while i < |uids|
        invariant 0 <= i <= |uids|
        invariant next == old(newMessageIds) - Members(uids[..i])
      {
        assert uids[..i + 1] == uids[..i] + [uids[i]];
        next := next - {uids[i]};
        i := i + 1;
      }
      assert uids[..i] == uids;
      newMessageIds := next;
    }
  }

  /** `prev.filter(m => m.uid !== uid)` */
  function WithoutUid(list: seq<Message>, uid: string): (r: seq<Message>)
    ensures forall x :: x in r <==> x in list && x.uid != uid
    ensures |r| <= |list|
  {
    if list == [] then []
    else (if list[0].uid == uid then [] else [list[0]]) + WithoutUid(list[1..], uid)
  }
}
