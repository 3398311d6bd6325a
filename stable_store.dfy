/**
 * The stable message store (`useMessagesV2`): a map from uid to message plus
 * an explicit array of uids that is the display order. Known uids are updated
 * where they stand; unknown uids are sorted newest first and spliced in as one
 * block at the top (refresh) or at the bottom (pagination).
 *
 * The functions below specify each step of `addMessages`; the class
 * `MessageStore` holds the refs and state of the hook and its methods are
 * proved against those functions.
 */
module StableStore {
  import opened Wrappers
  import opened Messages

  /** Where `addMessages` splices the new block; `'top'` is the default. */
  datatype Position = Top | Bottom

  // ---------------------------------------------------------------------
  // The steps of addMessages as functions.

  /** The map after `newMessages.forEach(m => map.set(m.uid, m))`. */
  function StoreAll(m: map<string, Message>, batch: seq<Message>): map<string, Message> {
    if batch == [] then m
    else StoreAll(m, batch[..|batch| - 1])[batch[|batch| - 1].uid := batch[|batch| - 1]]
  }

  /** The index of the last message of `batch` that carries uid `u`. */
  function LastIndexWith(batch: seq<Message>, u: string): (i: nat)
    requires u in UidSet(batch)
    ensures i < |batch| && batch[i].uid == u
    ensures forall j :: i < j < |batch| ==> batch[j].uid != u
  {
    var n := |batch|;
    UidSetLast(batch);
    if batch[n - 1].uid == u then n - 1
    else LastIndexWith(batch[..n - 1], u)
  }

  /** The last message of `batch` that carries uid `u`. */
  function LastWith(batch: seq<Message>, u: string): (r: Message)
    requires u in UidSet(batch)
    ensures r in batch && r.uid == u
    ensures exists i :: 0 <= i < |batch| && batch[i] == r && forall j :: i < j < |batch| ==> batch[j].uid != u
  {
    var i := LastIndexWith(batch, u);
    assert batch[i] in batch;
    batch[i]
  }

  /**
   * `actuallyNew`: the batch messages whose uid is not in the map before the
   * call, in batch order. The map is not updated during this pass, so a new
   * uid that the batch repeats is kept once per occurrence.
   */
  function Unknown(m: map<string, Message>, batch: seq<Message>): (r: seq<Message>)
    ensures forall x :: x in r ==> x in batch && x.uid !in m
    ensures forall x :: x in batch && x.uid !in m ==> x in r
  {
    if batch == [] then []
    else
      var n := |batch|;
      var last := batch[n - 1];
      assert batch == batch[..n - 1] + [last];
      Unknown(m, batch[..n - 1]) + (if last.uid in m then [] else [last])
  }

  /** A batch with pairwise distinct uids yields new messages with pairwise distinct uids. */
  lemma {:induction false} UnknownNoDup(m: map<string, Message>, batch: seq<Message>)
    requires NoDup(Uids(batch))
    ensures NoDup(Uids(Unknown(m, batch)))
  {
    if batch != [] {
      var n := |batch|;
      var front := batch[..n - 1];
      var last := batch[n - 1];
      assert Uids(front) == Uids(batch)[..n - 1];
      UnknownNoDup(m, front);
      var f := Unknown(m, front);
      if last.uid !in m {
        LastUidFresh(batch);
        assert forall x :: x in f ==> x.uid in UidSet(front);
        assert Unknown(m, batch) == f + [last];
        UidsAppend(f, [last]);
        assert Uids([last]) == [last.uid];
        NoDupConcat(Uids(f), [last.uid]);
      }
    }
  }

  /** In a batch with distinct uids the last uid does not occur earlier. */
  lemma LastUidFresh(batch: seq<Message>)
    requires batch != [] && NoDup(Uids(batch))
    ensures batch[|batch| - 1].uid !in UidSet(batch[..|batch| - 1])
  {
    var n := |batch|;
    forall x | x in batch[..n - 1] ensures x.uid != batch[n - 1].uid {
      var q :| 0 <= q < n - 1 && batch[q] == x;
      assert Uids(batch)[q] == x.uid;
    }
  }

  /** The uids of the new block, in the order they are spliced in. */
  function NewBlock(m: map<string, Message>, batch: seq<Message>): seq<string> {
    Uids(SortNewestFirst(Unknown(m, batch)))
  }

  /** `[...newUids, ...order]` for the top, `[...order, ...newUids]` for the bottom. */
  function MergeOrder(order: seq<string>, block: seq<string>, position: Position): seq<string> {
    if position == Top then block + order else order + block
  }

  /** `rebuildMessagesArray`: the order mapped through the map, uids the map lacks skipped. */
  function Rebuild(order: seq<string>, m: map<string, Message>): (r: seq<Message>)
    ensures |r| <= |order|
  {
    if order == [] then []
    else (if order[0] in m then [m[order[0]]] else []) + Rebuild(order[1..], m)
  }

  /**
   * The published list holds only stored values reached through the order,
   * and when every uid of the order is stored it is the order mapped
   * through the map, position by position.
   */
  lemma {:induction false} RebuildContents(order: seq<string>, m: map<string, Message>)
    ensures forall x :: x in Rebuild(order, m) ==> exists u :: u in order && u in m && m[u] == x
    ensures (forall u :: u in order ==> u in m) ==>
      |Rebuild(order, m)| == |order| &&
      forall i :: 0 <= i < |order| ==> Rebuild(order, m)[i] == m[order[i]]
  {
    if order != [] {
      RebuildContents(order[1..], m);
      var rest := Rebuild(order[1..], m);
      var head := if order[0] in m then [m[order[0]]] else [];
      assert Rebuild(order, m) == head + rest;
      forall x | x in Rebuild(order, m) ensures exists u :: u in order && u in m && m[u] == x {
        if x in rest {
          var u :| u in order[1..] && u in m && m[u] == x;
          assert u in order;
        } else {
          assert order[0] in order;
        }
      }
      if forall u :: u in order ==> u in m {
        assert forall u :: u in order[1..] ==> u in order;
        forall i | 0 <= i < |order| ensures Rebuild(order, m)[i] == m[order[i]] {
          if i > 0 {
            assert Rebuild(order, m)[i] == rest[i - 1];
          }
        }
      }
    }
  }

  /** `order.filter(id => id !== uid)`. */
  function Without(order: seq<string>, uid: string): (r: seq<string>)
    ensures forall u :: u in r <==> u in order && u != uid
    ensures |r| <= |order|
  {
    if order == [] then []
    else (if order[0] == uid then [] else [order[0]]) + Without(order[1..], uid)
  }

  /** The map and the order describe the same uids, each once. */
  ghost predicate Consistent(m: map<string, Message>, order: seq<string>) {
    NoDup(order) && forall u :: u in order <==> u in m
  }

  // ---------------------------------------------------------------------
  // Properties of addMessages.

  /** After the map pass, the keys are the old keys plus the batch's uids. */
  lemma {:induction false} StoreAllKeys(m: map<string, Message>, batch: seq<Message>)
    ensures StoreAll(m, batch).Keys == m.Keys + UidSet(batch)
  {
    if batch != [] {
      StoreAllKeys(m, batch[..|batch| - 1]);
      UidSetLast(batch);
    }
  }

  /** A uid of the batch maps to the batch's last message with that uid; every other key keeps its value. */
  lemma {:induction false} StoreAllValues(m: map<string, Message>, batch: seq<Message>, u: string)
    ensures u in UidSet(batch) ==> u in StoreAll(m, batch) && StoreAll(m, batch)[u] == LastWith(batch, u)
    ensures u !in UidSet(batch) && u in m ==> u in StoreAll(m, batch) && StoreAll(m, batch)[u] == m[u]
  {
    StoreAllKeys(m, batch);
    if batch != [] {
      var n := |batch|;
      StoreAllValues(m, batch[..n - 1], u);
      UidSetLast(batch);
    }
  }

  /** The new block holds exactly the batch's uids that the map lacked, one entry per unknown message. */
  lemma NewBlockContents(m: map<string, Message>, batch: seq<Message>)
    ensures |NewBlock(m, batch)| == |Unknown(m, batch)|
    ensures forall u :: u in NewBlock(m, batch) <==> u in UidSet(batch) && u !in m
  {
    var f := Unknown(m, batch);
    var ms := SortNewestFirst(f);
    var block := NewBlock(m, batch);
    SortPermutes(f);
    forall u | u in block ensures u in UidSet(batch) && u !in m {
      var i :| 0 <= i < |block| && block[i] == u;
      assert ms[i] in multiset(f);
    }
    forall u | u in UidSet(batch) && u !in m ensures u in block {
      var x :| x in batch && x.uid == u;
      assert x in multiset(ms);
      var i :| 0 <= i < |ms| && ms[i] == x;
      assert block[i] == u;
    }
  }

  /** The block is ordered newest first, and equal timestamps by uid ascending. */
  lemma NewBlockOrdered(m: map<string, Message>, batch: seq<Message>)
    ensures var ms := SortNewestFirst(Unknown(m, batch));
      NewBlock(m, batch) == Uids(ms) &&
      forall i, j :: 0 <= i < j < |ms| ==>
        ms[i].createdAt >= ms[j].createdAt &&
        (ms[i].createdAt == ms[j].createdAt ==> UidCompare(ms[i].uid, ms[j].uid) <= 0)
  {
    var ms := SortNewestFirst(Unknown(m, batch));
    SortNewestFirstSpec(Unknown(m, batch));
    forall i, j | 0 <= i < j < |ms|
      ensures ms[i].createdAt >= ms[j].createdAt &&
        (ms[i].createdAt == ms[j].createdAt ==> UidCompare(ms[i].uid, ms[j].uid) <= 0)
    {
      assert NotAfter(ms[i], ms[j]);
      CompareMeaning(ms[i], ms[j]);
    }
  }

  /** The old order survives whole: after a top merge it is a suffix, after a bottom merge a prefix, so every known uid keeps its place relative to the others. */
  lemma MergeKeepsOldOrder(order: seq<string>, block: seq<string>, position: Position)
    ensures var r := MergeOrder(order, block, position);
      |r| == |order| + |block| &&
      (position == Top ==> r[|block|..] == order && r[..|block|] == block) &&
      (position == Bottom ==> r[..|order|] == order && r[|order|..] == block)
  {
  }

  /**
   * With a duplicate-free order that matches the map and a batch whose uids
   * are pairwise distinct, the merged order is again duplicate-free and holds
   * exactly the merged map's keys.
   */
  lemma MergeKeepsConsistent(m: map<string, Message>, order: seq<string>, batch: seq<Message>, position: Position)
    requires Consistent(m, order)
    requires NoDup(Uids(batch))
    ensures Consistent(StoreAll(m, batch), MergeOrder(order, NewBlock(m, batch), position))
  {
    var block := NewBlock(m, batch);
    NewBlockContents(m, batch);
    StoreAllKeys(m, batch);
    NewBlockNoDup(m, batch);
    if position == Top {
      NoDupConcat(block, order);
    } else {
      NoDupConcat(order, block);
    }
  }

  /** Distinct batch uids give a block without repeats. */
  lemma NewBlockNoDup(m: map<string, Message>, batch: seq<Message>)
    requires NoDup(Uids(batch))
    ensures NoDup(NewBlock(m, batch))
  {
    var u := Unknown(m, batch);
    var block := NewBlock(m, batch);
    UnknownNoDup(m, batch);
    NoDupMultiset(Uids(u));
    SortNewestFirstSpec(u);
    assert multiset(block) == multiset(Uids(u));
    forall x | x in block ensures multiset(block)[x] == 1 {
      assert x in multiset(Uids(u));
    }
    NoDupMultiset(block);
  }

  lemma UnknownOfTwo(m: map<string, Message>, x: Message, y: Message)
    requires x.uid !in m && y.uid !in m
    ensures Unknown(m, [x, y]) == [x, y]
  {
    assert [x, y][..1] == [x];
    assert [x][..0] == [];
    assert Unknown(m, []) == [];
    assert Unknown(m, [x]) == Unknown(m, []) + [x];
    assert Unknown(m, [x, y]) == Unknown(m, [x]) + [y];
  }

  /** The duplicate-free property needs distinct batch uids: a new uid given twice enters the order twice. */
  lemma RepeatedNewUidEntersTwice(x: Message, y: Message)
    requires x.uid == y.uid
    ensures NewBlock(map[], [x, y]) == [x.uid, x.uid]
    ensures !NoDup(MergeOrder([], NewBlock(map[], [x, y]), Top))
  {
    NewBlockOfRepeated(map[], x, y);
    var o := MergeOrder([], NewBlock(map[], [x, y]), Top);
    assert o == [x.uid, x.uid];
    assert o[0] == o[1];
  }

  lemma NewBlockOfRepeated(m: map<string, Message>, x: Message, y: Message)
    requires x.uid == y.uid && x.uid !in m
    ensures NewBlock(m, [x, y]) == [x.uid, x.uid]
  {
    UnknownOfTwo(m, x, y);
    SortPair(x, y);
    UidsPair(x, y);
    UidsPair(y, x);
  }

  /** A two-element list sorts to itself or to its swap. */
  lemma SortPair(x: Message, y: Message)
    ensures SortNewestFirst([x, y]) == [x, y] || SortNewestFirst([x, y]) == [y, x]
  {
    assert [x, y][1..] == [y];
    assert [y][1..] == [];
    assert SortNewestFirst([y]) == Insert(y, SortNewestFirst([])) == [y];
    assert SortNewestFirst([x, y]) == Insert(x, [y]);
    if NotAfter(x, y) {
      assert Insert(x, [y]) == [x, y];
    } else {
      assert Insert(x, [y]) == [y] + Insert(x, []);
    }
  }

  /** When every batch uid is already known nothing is new. */
  lemma {:induction false} AllKnownNothingNew(m: map<string, Message>, batch: seq<Message>)
    requires forall x :: x in batch ==> x.uid in m
    ensures Unknown(m, batch) == []
  {
    if batch != [] {
      var n := |batch|;
      assert forall x :: x in batch[..n - 1] ==> x in batch;
      AllKnownNothingNew(m, batch[..n - 1]);
    }
  }

  /** Merging the same page twice gives the same map and order as merging it once, and the second merge adds no new uid. */
  lemma MergeTwiceSameAsOnce(m: map<string, Message>, order: seq<string>, batch: seq<Message>, position: Position)
    ensures var m1 := StoreAll(m, batch);
      var o1 := MergeOrder(order, NewBlock(m, batch), position);
      NewBlock(m1, batch) == [] &&
      StoreAll(m1, batch) == m1 &&
      MergeOrder(o1, NewBlock(m1, batch), position) == o1
  {
    var m1 := StoreAll(m, batch);
    StoreAllAgain(m, batch);
    NothingNewAfterStore(m, batch);
    assert Unknown(m1, batch) == [];
    assert SortNewestFirst(Unknown(m1, batch)) == [];
  }

  /** Storing the same batch a second time changes no entry. */
  lemma StoreAllAgain(m: map<string, Message>, batch: seq<Message>)
    ensures StoreAll(StoreAll(m, batch), batch) == StoreAll(m, batch)
  {
    var m1 := StoreAll(m, batch);
    StoreAllKeys(m, batch);
    StoreAllKeys(m1, batch);
    forall u | u in m1 ensures StoreAll(m1, batch)[u] == m1[u] {
      StoreAllValues(m1, batch, u);
      StoreAllValues(m, batch, u);
    }
  }

  /** Once a batch is stored, none of its messages is unknown. */
  lemma NothingNewAfterStore(m: map<string, Message>, batch: seq<Message>)
    ensures Unknown(StoreAll(m, batch), batch) == []
  {
    var m1 := StoreAll(m, batch);
    StoreAllKeys(m, batch);
    forall x | x in batch ensures x.uid in m1 {
      assert x.uid in UidSet(batch);
    }
    AllKnownNothingNew(m1, batch);
  }

  /** Two new messages merged into an empty store at the top: the newer comes first. */
  lemma TopMergeScenario(a: Message, b: Message)
    requires a.createdAt < b.createdAt
    ensures MergeOrder([], NewBlock(map[], [a, b]), Top) == [b.uid, a.uid]
  {
    assert NewBlock(map[], [a, b]) == [b.uid, a.uid] by { NewBlockOfPair(map[], a, b); }
  }

  /** An unknown message merged at the bottom afterwards lands after both. */
  lemma BottomAfterTopScenario(a: Message, b: Message, c: Message)
    requires c.uid != a.uid && c.uid != b.uid
    ensures MergeOrder([b.uid, a.uid], NewBlock(StoreAll(map[], [a, b]), [c]), Bottom) == [b.uid, a.uid, c.uid]
  {
    var m1 := map[a.uid := a, b.uid := b];
    assert StoreAll(map[], [a, b]) == m1 by { StoreAllPair(map[], a, b); }
    assert NewBlock(m1, [c]) == [c.uid] by { NewBlockOfOne(m1, c); }
  }

  lemma StoreAllPair(m: map<string, Message>, a: Message, b: Message)
    ensures StoreAll(m, [a, b]) == m[a.uid := a][b.uid := b]
  {
    assert [a, b][..1] == [a];
    assert [a][..0] == [];
    assert StoreAll(m, []) == m;
    assert StoreAll(m, [a]) == StoreAll(m, [])[a.uid := a];
    assert StoreAll(m, [a, b]) == StoreAll(m, [a])[b.uid := b];
  }

  lemma NewBlockOfOne(m: map<string, Message>, c: Message)
    requires c.uid !in m
    ensures NewBlock(m, [c]) == [c.uid]
  {
    assert [c][..0] == [];
    assert Unknown(m, [c]) == Unknown(m, []) + [c];
    assert [c][1..] == [];
    assert SortNewestFirst([c]) == Insert(c, SortNewestFirst([]));
  }

  lemma NewBlockOfPair(m: map<string, Message>, a: Message, b: Message)
    requires a.uid !in m && b.uid !in m && a.createdAt < b.createdAt
    ensures NewBlock(m, [a, b]) == [b.uid, a.uid]
  {
    UnknownOfTwo(m, a, b);
    SortOlderFirstPair(a, b);
    UidsPair(b, a);
  }

  lemma UidsPair(x: Message, y: Message)
    ensures Uids([x, y]) == [x.uid, y.uid]
  {
  }

  /** Two messages given older first come out newer first. */
  lemma SortOlderFirstPair(a: Message, b: Message)
    requires a.createdAt < b.createdAt
    ensures SortNewestFirst([a, b]) == [b, a]
  {
    assert [a, b][1..] == [b];
    assert [b][1..] == [];
    assert SortNewestFirst([b]) == Insert(b, SortNewestFirst([]));
    assert SortNewestFirst([b]) == [b];
    assert !NotAfter(a, b);
    assert Insert(a, [b]) == [b] + Insert(a, [b][1..]);
  }

  // ---------------------------------------------------------------------
  // Properties of the other operations.

  /** `removeMessage` drops every occurrence and a second removal changes nothing. */
  lemma {:induction false} WithoutIdempotent(order: seq<string>, uid: string)
    ensures Without(Without(order, uid), uid) == Without(order, uid)
  {
    if order != [] {
      WithoutIdempotent(order[1..], uid);
      if order[0] != uid {
        var w := Without(order, uid);
        assert w == [order[0]] + Without(order[1..], uid);
        assert w != [] && w[0] == order[0];
        assert w[1..] == Without(order[1..], uid);
        assert Without(w, uid) == [w[0]] + Without(w[1..], uid);
      } else {
        assert Without(order, uid) == Without(order[1..], uid);
      }
    }
  }

  /** Removing from a consistent store keeps it consistent. */
  lemma {:induction false} WithoutKeepsConsistent(m: map<string, Message>, order: seq<string>, uid: string)
    requires Consistent(m, order)
    ensures Consistent(m - {uid}, Without(order, uid))
  {
    if order != [] {
      var t := order[1..];
      assert NoDup(t) by {
        forall i, j | 0 <= i < j < |t| ensures t[i] != t[j] {
          assert t[i] == order[i + 1] && t[j] == order[j + 1];
        }
      }
      assert order[0] !in t by {
        forall k | 0 <= k < |t| ensures t[k] != order[0] {
          assert t[k] == order[k + 1];
        }
      }
      var m' := map u | u in m && u != order[0] :: m[u];
      assert Consistent(m', t);
      WithoutKeepsConsistent(m', t, uid);
      assert m' - {uid} == (m - {uid}) - {order[0]};
      var w := Without(t, uid);
      var r := Without(order, uid);
      if order[0] != uid {
        assert r == [order[0]] + w;
        assert order[0] !in w;
        NoDupConcat([order[0]], w);
      }
    }
  }

  /** Rebuilding skips exactly the uids the map lacks. */
  lemma {:induction false} RebuildSkipsMissing(order: seq<string>, m: map<string, Message>)
    ensures Rebuild(order, m) == Rebuild(KnownOnly(order, m), m)
  {
    if order != [] {
      RebuildSkipsMissing(order[1..], m);
      if order[0] in m {
        var k := KnownOnly(order, m);
        assert k == [order[0]] + KnownOnly(order[1..], m);
        assert k[1..] == KnownOnly(order[1..], m);
        assert Rebuild(k, m) == [m[order[0]]] + Rebuild(k[1..], m);
      } else {
        assert KnownOnly(order, m) == KnownOnly(order[1..], m);
        assert Rebuild(order, m) == Rebuild(order[1..], m);
      }
    }
  }

  /** The uids of `order` that the map holds, in order. */
  function KnownOnly(order: seq<string>, m: map<string, Message>): (r: seq<string>)
    ensures forall u :: u in r ==> u in m
  {
    if order == [] then []
    else (if order[0] in m then [order[0]] else []) + KnownOnly(order[1..], m)
  }

  // ---------------------------------------------------------------------
  // The hook's state.

  /** Step 1 of `addMessages`: the batch messages whose uid the map lacks, in batch order. */
  method SplitNew(m: map<string, Message>, batch: seq<Message>) returns (actuallyNew: seq<Message>)
    ensures actuallyNew == Unknown(m, batch)
  {
    actuallyNew := [];
    var i := 0;
    while i < |batch|
      invariant 0 <= i <= |batch|
      invariant actuallyNew == Unknown(m, batch[..i])
    {
      assert batch[..i + 1][..i] == batch[..i];
      if batch[i].uid !in m {
        actuallyNew := actuallyNew + [batch[i]];
      }
      i := i + 1;
    }
    assert batch[..i] == batch;
  }

  /** Step 3 of `addMessages`: every batch message set into the map in batch order. */
  method StoreEach(m: map<string, Message>, batch: seq<Message>) returns (r: map<string, Message>)
    ensures r == StoreAll(m, batch)
  {
    r := m;
    var i := 0;
    while i < |batch|
      invariant 0 <= i <= |batch|
      invariant r == StoreAll(m, batch[..i])
    {
      assert batch[..i + 1][..i] == batch[..i];
      r := r[batch[i].uid := batch[i]];
      i := i + 1;
    }
    assert batch[..i] == batch;
  }

  /**
   * Steps 1 to 4 of `addMessages` on a non-empty batch: split, sort the new
   * messages, store every message, splice the new block and record it.
   */
  method MergeBatch(m: map<string, Message>, order: seq<string>, ids: set<string>,
                    notes: seq<seq<Message>>, hasListener: bool, batch: seq<Message>, position: Position)
    returns (m': map<string, Message>, order': seq<string>, ids': set<string>, notes': seq<seq<Message>>,
             published: seq<Message>)
    ensures m' == StoreAll(m, batch)
    ensures order' == MergeOrder(order, NewBlock(m, batch), position)
    ensures ids' == if position == Top then ids + Members(NewBlock(m, batch)) else ids
    ensures notes' ==
      if position == Top && hasListener && Unknown(m, batch) != []
      then notes + [SortNewestFirst(Unknown(m, batch))]
      else notes
    ensures published == Rebuild(order', m')
    ensures Consistent(m, order) && NoDup(Uids(batch)) ==> Consistent(m', order')
  {
    if Consistent(m, order) && NoDup(Uids(batch)) {
      MergeKeepsConsistent(m, order, batch, position);
    }
    // step 1: split the batch against the map as it is before the call
    var actuallyNew := SplitNew(m, batch);

    // step 2: sort only the new messages
    var sortedNew := if |actuallyNew| > 0 then SortNewestFirst(actuallyNew) else [];
    assert Uids(sortedNew) == NewBlock(m, batch);

    // step 3: every batch message goes into the map, the last one per uid winning
    m' := StoreEach(m, batch);

    // step 4: splice the new block at one end
    order', ids', notes' := order, ids, notes;
    if |sortedNew| > 0 {
      var newUids := Uids(sortedNew);
      if position == Top {
        order' := newUids + order;
        ids' := ids + Members(newUids);
        if hasListener {
          notes' := notes + [sortedNew];
        }
      } else {
        order' := order + newUids;
      }
    }

    // step 5: the list to publish
    published := Rebuild(order', m');
  }

  class MessageStore {
    /** `messagesMapRef.current` */
    var messagesMap: map<string, Message>
    /** `orderRef.current`, the display order */
    var order: seq<string>
    /** the `newMessageIds` state */
    var newMessageIds: set<string>
    /** the published `messages` state */
    var messages: seq<Message>
    /** the `error` state */
    var error: Option<string>
    /** whether an `onNewMessages` callback was passed in the options */
    const hasListener: bool
    /** `onNewMessages` calls scheduled with `setTimeout(..., 0)`, oldest first */
    var scheduledNotifications: seq<seq<Message>>

    /** The published list is always the order mapped through the map. */
    ghost predicate Valid()
      reads this
    {
      messages == Rebuild(order, messagesMap)
    }

    constructor (hasListener: bool)
      ensures Valid()
      ensures messagesMap == map[] && order == [] && newMessageIds == {} && messages == []
      ensures error == None && scheduledNotifications == [] && this.hasListener == hasListener
    {
      messagesMap := map[];
      order := [];
      newMessageIds := {};
      messages := [];
      error := None;
      this.hasListener := hasListener;
      scheduledNotifications := [];
    }

    /** `addMessages(newMessages, position = 'top')` */
    method AddMessages(batch: seq<Message>, position: Position := Top)
      requires Valid()
      modifies this
      ensures Valid()
      ensures batch == [] ==> unchanged(this)
      ensures batch != [] ==> messagesMap == StoreAll(old(messagesMap), batch)
      ensures batch != [] ==> order == MergeOrder(old(order), NewBlock(old(messagesMap), batch), position)
      ensures batch != [] ==> newMessageIds ==
                                (if position == Top then old(newMessageIds) + Members(NewBlock(old(messagesMap), batch))
                                 else old(newMessageIds))
      ensures batch != [] ==> scheduledNotifications ==
                                (if position == Top && hasListener && Unknown(old(messagesMap), batch) != []
                                 then old(scheduledNotifications) + [SortNewestFirst(Unknown(old(messagesMap), batch))]
                                 else old(scheduledNotifications))
      ensures batch != [] ==> error == None
      ensures batch != [] && Consistent(old(messagesMap), old(order)) && NoDup(Uids(batch)) ==>
                Consistent(messagesMap, order)
    {
      if batch != [] {
        var m', order', ids', notes', published :=
          MergeBatch(messagesMap, order, newMessageIds, scheduledNotifications, hasListener, batch, position);
        messagesMap, order, newMessageIds, scheduledNotifications, error, messages :=
          m', order', ids', notes', None, published;
      }
    }

    /** `updateMessage(uid, updates)`: the stored value is patched where it stands. */
    method UpdateMessage(uid: string, patch: Patch)
      requires Valid()
      modifies this
      ensures Valid()
      ensures uid !in old(messagesMap) ==> unchanged(this)
      ensures uid in old(messagesMap) ==>
        messagesMap == old(messagesMap)[uid := ApplyPatch(old(messagesMap)[uid], patch)]
      ensures order == old(order) && newMessageIds == old(newMessageIds)
      ensures error == old(error) && scheduledNotifications == old(scheduledNotifications)
    {
      if uid !in messagesMap {
        return;
      }
      messagesMap := messagesMap[uid := ApplyPatch(messagesMap[uid], patch)];
      messages := Rebuild(order, messagesMap);
    }

    /** `removeMessage(uid)` */
    method RemoveMessage(uid: string)
      requires Valid()
      modifies this
      ensures Valid()
      ensures messagesMap == old(messagesMap) - {uid}
      ensures order == Without(old(order), uid)
      ensures newMessageIds == old(newMessageIds)
      ensures error == old(error) && scheduledNotifications == old(scheduledNotifications)
    {
      messagesMap := messagesMap - {uid};
      order := Without(order, uid);
      messages := Rebuild(order, messagesMap);
    }

    /** `clearMessages()` */
    method ClearMessages()
      requires Valid()
      modifies this
      ensures Valid()
      ensures messagesMap == map[] && order == [] && messages == [] && newMessageIds == {}
      ensures error == old(error) && scheduledNotifications == old(scheduledNotifications)
    {
      messagesMap := map[];
      order := [];
      messages := [];
      newMessageIds := {};
    }

    /** `getMessageById(uid)` */
    method GetMessageById(uid: string) returns (r: Option<Message>)
      ensures r.Some? <==> uid in messagesMap
      ensures r.Some? ==> r.value == messagesMap[uid]
    {
      r := if uid in messagesMap then Some(messagesMap[uid]) else None;
    }

    /** `hasMessage(uid)` */
    method HasMessage(uid: string) returns (b: bool)
      ensures b <==> uid in messagesMap
    {
      b := uid in messagesMap;
    }

    /** `markMessagesAsRead(uids)`: each listed uid leaves the new set; absent ones are ignored. */
    method MarkMessagesAsRead(uids: seq<string>)
      modifies this`newMessageIds
      ensures newMessageIds == old(newMessageIds) - Members(uids)
    {
      var next := newMessageIds;
      var i := 0;
      while i < |uids|
        invariant 0 <= i <= |uids|
        invariant next == old(newMessageIds) - Members(uids[..i])
      {
        assert uids[..i + 1] == uids[..i] + [uids[i]];
        next := next - {uids[i]};
        i := i + 1;
      }
      assert uids[..i] == uids;
      newMessageIds := next;
    }

    /** `getMessagesMap()`: a copy of the map. */
    method GetMessagesMap() returns (m: map<string, Message>)
      ensures m == messagesMap
    {
      m := messagesMap;
    }

    /** `getOrderArray()`: a copy of the order. */
    method GetOrderArray() returns (o: seq<string>)
      ensures o == order
    {
      o := order;
    }

    /** `restoreState(messageMap, orderArray)`: the given order is taken verbatim, without sorting. */
    method RestoreState(m: map<string, Message>, o: seq<string>)
      modifies this
      ensures Valid()
      ensures messagesMap == m && order == o
      ensures newMessageIds == old(newMessageIds)
      ensures error == old(error) && scheduledNotifications == old(scheduledNotifications)
    {
      messagesMap := m;
      order := o;
      messages := Rebuild(order, messagesMap);
    }
  }

  /** Restoring a snapshot and reading it back returns the snapshot, and the published list is the order mapped through the map. */
  method RestoreRoundTrip(store: MessageStore, m: map<string, Message>, o: seq<string>)
    returns (m': map<string, Message>, o': seq<string>)
    modifies store
    ensures m' == m && o' == o
    ensures store.messages == Rebuild(KnownOnly(o, m), m)
  {
    store.RestoreState(m, o);
    m' := store.GetMessagesMap();
    o' := store.GetOrderArray();
    RebuildSkipsMissing(o, m);
  }
}
