/**
 * The message record shared by both message stores, the comparator both of
 * them sort with (`compareMessages` / `sortMessages`: newest first, ties by
 * uid ascending), and the sort itself.
 *
 * Timestamps are integers (milliseconds). Both the SMS and the push record
 * carry `created_at`, so the hooks' date accessor always reads `created_at`:
 * that is `createdAt` here. `localeCompare` on uids is modelled by the
 * code-point lexicographic order `UidCompare`.
 */
module Messages {
  import opened Wrappers

  datatype Status = Pending | Approved | NoOrder | Rejected

  /** SMS records carry their text in `content`, push records in `body`; `text` is whichever applies. */
  datatype Channel = Sms | Push(packageName: string)

  datatype Message = Message(
    uid: string,
    createdAt: int,
    text: Option<string>,
    status: Status,
    statusDisplay: string,
    amount: Option<string>,
    extractedAmount: Option<string>,
    channel: Channel)

  /** A `Partial<Message>`: each present field overrides the stored one. */
  datatype Patch = Patch(
    uid: Option<string>,
    createdAt: Option<int>,
    text: Option<Option<string>>,
    status: Option<Status>,
    statusDisplay: Option<string>,
    amount: Option<Option<string>>,
    extractedAmount: Option<Option<string>>,
    channel: Option<Channel>)

  /** `{ ...existing, ...updates }` */
  function ApplyPatch(m: Message, p: Patch): Message {
    m.(uid := p.uid.GetOr(m.uid),
       createdAt := p.createdAt.GetOr(m.createdAt),
       text := p.text.GetOr(m.text),
       status := p.status.GetOr(m.status),
       statusDisplay := p.statusDisplay.GetOr(m.statusDisplay),
       amount := p.amount.GetOr(m.amount),
       extractedAmount := p.extractedAmount.GetOr(m.extractedAmount),
       channel := p.channel.GetOr(m.channel))
  }

  /** JavaScript truthiness of a `string | null`: null and "" are falsy. */
  predicate Truthy(s: Option<string>) {
    s.Some? && s.value != ""
  }

  /** The uids of a message list, in list order. */
  function Uids(s: seq<Message>): (r: seq<string>)
    ensures |r| == |s|
    ensures forall i :: 0 <= i < |s| ==> r[i] == s[i].uid
  {
    seq(|s|, i requires 0 <= i < |s| => s[i].uid)
  }

  lemma UidsAppend(a: seq<Message>, b: seq<Message>)
    ensures Uids(a + b) == Uids(a) + Uids(b)
  {
    assert Uids(a + b) == Uids(a) + Uids(b);
  }

  /** The set of uids carried by a batch. */
  function UidSet(batch: seq<Message>): set<string> {
    set m | m in batch :: m.uid
  }

  lemma UidSetLast(batch: seq<Message>)
    requires batch != []
    ensures UidSet(batch) == UidSet(batch[..|batch| - 1]) + {batch[|batch| - 1].uid}
  {
    assert batch == batch[..|batch| - 1] + [batch[|batch| - 1]];
  }

  /** The elements of a list, as a set. */
  function Members(s: seq<string>): set<string> {
    set u | u in s
  }

  /** Every element occurs at most once. */
  ghost predicate NoDup<T>(s: seq<T>) {
    forall i, j :: 0 <= i < j < |s| ==> s[i] != s[j]
  }

  /** A list without duplicates has multiplicity one for each of its elements. */
  lemma {:induction false} NoDupMultiset<T>(s: seq<T>)
    ensures NoDup(s) <==> forall x :: x in s ==> multiset(s)[x] == 1
  {
    if s == [] {
    } else {
      var t := s[1..];
      assert s == [s[0]] + t;
      NoDupMultiset(t);
      if NoDup(s) {
        forall k | 0 <= k < |t| ensures t[k] != s[0] {
          assert t[k] == s[k + 1];
        }
        assert NoDup(t) by {
          forall i, j | 0 <= i < j < |t| ensures t[i] != t[j] {
            assert t[i] == s[i + 1] && t[j] == s[j + 1];
          }
        }
      } else {
        var i, j :| 0 <= i < j < |s| && s[i] == s[j];
        if i == 0 {
          assert s[j] == t[j - 1];
          assert multiset(s)[s[0]] == multiset(t)[s[0]] + 1;
        } else {
          assert t[i - 1] == t[j - 1];
          var x :| x in t && multiset(t)[x] != 1;
          assert multiset(s)[x] >= multiset(t)[x] >= 2;
          assert x in s;
        }
      }
    }
  }

  /** Two lists without repeats and without common elements concatenate to a list without repeats. */
  lemma NoDupConcat<T>(a: seq<T>, b: seq<T>)
    requires NoDup(a) && NoDup(b)
    requires forall x :: x in a ==> x !in b
    ensures NoDup(a + b)
  {
    var r := a + b;
    forall i, j | 0 <= i < j < |r| ensures r[i] != r[j] {
      if j < |a| {
        assert r[i] == a[i] && r[j] == a[j];
        assert a[i] != a[j];
      } else if i >= |a| {
        assert r[i] == b[i - |a|] && r[j] == b[j - |a|];
      } else {
        assert r[i] == a[i] && r[j] == b[j - |a|];
        assert a[i] in a;
      }
    }
  }

  // ---------------------------------------------------------------------
  // Uid order: lexicographic by code point, a three-way compare like
  // `localeCompare` (negative, zero, positive).

  function UidCompare(a: string, b: string): (r: int)
    ensures -1 <= r <= 1
  {
    if a == [] && b == [] then 0
    else if a == [] then -1
    else if b == [] then 1
    else if a[0] < b[0] then -1
    else if a[0] > b[0] then 1
    else UidCompare(a[1..], b[1..])
  }

  /** Zero exactly on equal uids. */
  lemma {:induction false} UidCompareZero(a: string, b: string)
    ensures UidCompare(a, b) == 0 <==> a == b
  {
    if a != [] && b != [] && a[0] == b[0] {
      UidCompareZero(a[1..], b[1..]);
      assert a == [a[0]] + a[1..] && b == [b[0]] + b[1..];
    }
  }

  /** Swapping the arguments flips the sign. */
  lemma {:induction false} UidCompareAntisymmetric(a: string, b: string)
    ensures UidCompare(b, a) == -UidCompare(a, b)
  {
    if a != [] && b != [] && a[0] == b[0] {
      UidCompareAntisymmetric(a[1..], b[1..]);
    }
  }

  /** "Not after" is transitive. */
  lemma {:induction false} UidCompareTransitive(a: string, b: string, c: string)
    requires UidCompare(a, b) <= 0 && UidCompare(b, c) <= 0
    ensures UidCompare(a, c) <= 0
  {
    if a != [] && b != [] && c != [] && a[0] == b[0] == c[0] {
      UidCompareTransitive(a[1..], b[1..], c[1..]);
    }
  }

  // ---------------------------------------------------------------------
  // compareMessages: newer first; equal timestamps by uid ascending.

  function Compare(a: Message, b: Message): int {
    if a.createdAt == b.createdAt then UidCompare(a.uid, b.uid)
    else b.createdAt - a.createdAt
  }

  /** `a` may stand before `b` in a list sorted with `Compare`. */
  predicate NotAfter(a: Message, b: Message) {
    Compare(a, b) <= 0
  }

  /** The comparator's meaning: negative exactly when `a` is newer, or as new with a smaller uid. */
  lemma CompareMeaning(a: Message, b: Message)
    ensures Compare(a, b) < 0 <==>
      a.createdAt > b.createdAt || (a.createdAt == b.createdAt && UidCompare(a.uid, b.uid) < 0)
    ensures Compare(a, b) == 0 <==> a.createdAt == b.createdAt && a.uid == b.uid
  {
    UidCompareZero(a.uid, b.uid);
  }

  lemma NotAfterTotal(a: Message, b: Message)
    ensures NotAfter(a, b) || NotAfter(b, a)
  {
    UidCompareAntisymmetric(a.uid, b.uid);
  }

  lemma NotAfterTransitive(a: Message, b: Message, c: Message)
    requires NotAfter(a, b) && NotAfter(b, c)
    ensures NotAfter(a, c)
  {
    if a.createdAt == b.createdAt == c.createdAt {
      UidCompareTransitive(a.uid, b.uid, c.uid);
    }
  }

  ghost predicate SortedNewestFirst(s: seq<Message>) {
    forall i, j :: 0 <= i < j < |s| ==> NotAfter(s[i], s[j])
  }

  /** Places `x` before the first element it is not after (so equal keys keep their input order). */
  function Insert(x: Message, s: seq<Message>): (r: seq<Message>)
    ensures |r| == |s| + 1
  {
    if s == [] then [x]
    else if NotAfter(x, s[0]) then [x] + s
    else [s[0]] + Insert(x, s[1..])
  }

  /** Insertion adds exactly `x`. */
  lemma {:induction false} InsertMultiset(x: Message, s: seq<Message>)
    ensures multiset(Insert(x, s)) == multiset(s) + multiset{x}
  {
    if s != [] && !NotAfter(x, s[0]) {
      var rest := Insert(x, s[1..]);
      assert Insert(x, s) == [s[0]] + rest;
      InsertMultiset(x, s[1..]);
      assert s == [s[0]] + s[1..];
    }
  }

  /** The uids of a concatenation, counted. */
  lemma UidsMultisetAppend(a: seq<Message>, b: seq<Message>)
    ensures multiset(Uids(a + b)) == multiset(Uids(a)) + multiset(Uids(b))
  {
    UidsAppend(a, b);
  }

  /** Insertion adds exactly `x`'s uid to the uids. */
  lemma {:induction false} InsertUids(x: Message, s: seq<Message>)
    ensures multiset(Uids(Insert(x, s))) == multiset(Uids(s)) + multiset{x.uid}
  {
    assert Uids([x]) == [x.uid];
    if s == [] {
    } else if NotAfter(x, s[0]) {
      UidsMultisetAppend([x], s);
    } else {
      var rest := Insert(x, s[1..]);
      assert Insert(x, s) == [s[0]] + rest;
      InsertUids(x, s[1..]);
      assert Uids([s[0]]) == [s[0].uid];
      UidsMultisetAppend([s[0]], rest);
      assert s == [s[0]] + s[1..];
      UidsMultisetAppend([s[0]], s[1..]);
    }
  }

  /** A sorted list stays sorted when an element not after any of its elements is put in front. */
  lemma SortedCons(h: Message, t: seq<Message>)
    requires SortedNewestFirst(t)
    requires forall k :: 0 <= k < |t| ==> NotAfter(h, t[k])
    ensures SortedNewestFirst([h] + t)
  {
    var r := [h] + t;
    forall i, j | 0 <= i < j < |r| ensures NotAfter(r[i], r[j]) {
      assert r[j] == t[j - 1];
      if i > 0 { assert r[i] == t[i - 1]; }
    }
  }

  /** A bound below every element and below `x` is below every element after inserting `x`. */
  lemma {:induction false} InsertBound(b: Message, x: Message, s: seq<Message>)
    requires NotAfter(b, x)
    requires forall k :: 0 <= k < |s| ==> NotAfter(b, s[k])
    ensures forall k :: 0 <= k < |Insert(x, s)| ==> NotAfter(b, Insert(x, s)[k])
  {
    if s != [] && !NotAfter(x, s[0]) {
      var rest := Insert(x, s[1..]);
      assert Insert(x, s) == [s[0]] + rest;
      InsertBound(b, x, s[1..]);
    }
  }

  /** Insertion into a sorted list gives a sorted list. */
  lemma {:induction false} InsertSorted(x: Message, s: seq<Message>)
    requires SortedNewestFirst(s)
    ensures SortedNewestFirst(Insert(x, s))
  {
    if s == [] {
    } else if NotAfter(x, s[0]) {
      forall j | 0 <= j < |s| ensures NotAfter(x, s[j]) {
        if j > 0 { NotAfterTransitive(x, s[0], s[j]); }
      }
      SortedCons(x, s);
    } else {
      var t := s[1..];
      var rest := Insert(x, t);
      assert Insert(x, s) == [s[0]] + rest;
      assert SortedNewestFirst(t) by {
        forall i, j | 0 <= i < j < |t| ensures NotAfter(t[i], t[j]) {
          assert t[i] == s[i + 1] && t[j] == s[j + 1];
        }
      }
      InsertSorted(x, t);
      assert NotAfter(s[0], x) by { NotAfterTotal(x, s[0]); }
      forall k | 0 <= k < |t| ensures NotAfter(s[0], t[k]) {
        assert t[k] == s[k + 1];
      }
      InsertBound(s[0], x, t);
      SortedCons(s[0], rest);
    }
  }

  /** `sortMessages`: the input reordered newest first, ties by uid (an insertion sort, so stable). */
  function SortNewestFirst(s: seq<Message>): (r: seq<Message>)
    ensures |r| == |s|
  {
    if s == [] then [] else Insert(s[0], SortNewestFirst(s[1..]))
  }

  /** The sort's result is ordered newest first and is a permutation of its input, uids included. */
  lemma SortNewestFirstSpec(s: seq<Message>)
    ensures SortedNewestFirst(SortNewestFirst(s))
    ensures multiset(SortNewestFirst(s)) == multiset(s)
    ensures multiset(Uids(SortNewestFirst(s))) == multiset(Uids(s))
  {
    SortSorted(s);
    SortPermutes(s);
    SortKeepsUids(s);
  }

  lemma {:induction false} SortSorted(s: seq<Message>)
    ensures SortedNewestFirst(SortNewestFirst(s))
  {
    if s != [] {
      SortSorted(s[1..]);
      InsertSorted(s[0], SortNewestFirst(s[1..]));
    }
  }

  lemma {:induction false} SortPermutes(s: seq<Message>)
    ensures multiset(SortNewestFirst(s)) == multiset(s)
  {
    if s != [] {
      var t := SortNewestFirst(s[1..]);
      assert SortNewestFirst(s) == Insert(s[0], t);
      SortPermutes(s[1..]);
      InsertMultiset(s[0], t);
      assert s == [s[0]] + s[1..];
    }
  }

  lemma {:induction false} SortKeepsUids(s: seq<Message>)
    ensures multiset(Uids(SortNewestFirst(s))) == multiset(Uids(s))
  {
    if s != [] {
      var t := SortNewestFirst(s[1..]);
      assert SortNewestFirst(s) == Insert(s[0], t);
      SortKeepsUids(s[1..]);
      InsertUids(s[0], t);
      assert s == [s[0]] + s[1..];
      UidsMultisetAppend([s[0]], s[1..]);
      assert Uids([s[0]]) == [s[0].uid];
    }
  }

  // ---------------------------------------------------------------------
  // Filtering a batch against the uids already held.

  /**
   * `batch.filter(m => !seen.has(m.uid))`: the messages of `batch` whose
   * uid is not in `seen`, in batch order.
   */
  function Unseen(batch: seq<Message>, seen: set<string>): (r: seq<Message>)
    ensures forall x :: x in r <==> x in batch && x.uid !in seen
    ensures |r| <= |batch|
  {
    if batch == [] then []
    else (if batch[0].uid in seen then [] else [batch[0]]) + Unseen(batch[1..], seen)
  }

  /** Nothing is dropped when nothing was seen before, and everything is dropped when every uid was. */
  lemma {:induction false} UnseenExtremes(batch: seq<Message>, seen: set<string>)
    ensures seen == {} ==> Unseen(batch, seen) == batch
    ensures UidSet(batch) <= seen ==> Unseen(batch, seen) == []
  {
    if batch != [] {
      UnseenExtremes(batch[1..], seen);
      assert batch == [batch[0]] + batch[1..];
      assert UidSet(batch[1..]) <= UidSet(batch) by {
        forall u | u in UidSet(batch[1..]) ensures u in UidSet(batch) {
          var m :| m in batch[1..] && m.uid == u;
          assert m in batch;
        }
      }
    }
  }

  /**
   * Filtering keeps the uids of a duplicate-free batch duplicate-free, and
   * appending the result to a duplicate-free list whose uids are `seen`
   * keeps that list duplicate-free.
   */
  lemma {:induction false} UnseenNoDup(batch: seq<Message>, seen: set<string>)
    requires NoDup(Uids(batch))
    ensures NoDup(Uids(Unseen(batch, seen)))
  {
    if batch != [] {
      var t := batch[1..];
      assert NoDup(Uids(t)) by {
        forall i, j | 0 <= i < j < |t| ensures Uids(t)[i] != Uids(t)[j] {
          assert Uids(t)[i] == Uids(batch)[i + 1] && Uids(t)[j] == Uids(batch)[j + 1];
        }
      }
      UnseenNoDup(t, seen);
      var head := if batch[0].uid in seen then [] else [batch[0]];
      UidsAppend(head, Unseen(t, seen));
      var u := Unseen(t, seen);
      forall k | 0 <= k < |u| ensures u[k].uid != batch[0].uid {
        assert u[k] in t;
        var j :| 0 <= j < |t| && t[j] == u[k];
        assert Uids(batch)[j + 1] == u[k].uid;
      }
      assert forall x :: x in Uids(head) ==> x !in Uids(u);
      NoDupConcat(Uids(head), Uids(Unseen(t, seen)));
    }
  }

  /** `[...prev, ...Unseen(batch, uids of prev)]` repeats no uid when neither part does. */
  lemma AppendUnseenNoDup(prev: seq<Message>, batch: seq<Message>)
    requires NoDup(Uids(prev)) && NoDup(Uids(batch))
    ensures NoDup(Uids(prev + Unseen(batch, UidSet(prev))))
  {
    var u := Unseen(batch, UidSet(prev));
    UnseenNoDup(batch, UidSet(prev));
    UidsAppend(prev, u);
    forall i | 0 <= i < |prev| ensures prev[i].uid !in Uids(u) {
      assert prev[i] in prev;
      forall k | 0 <= k < |u| ensures u[k].uid != prev[i].uid {
        assert u[k] in u;
      }
    }
    NoDupConcat(Uids(prev), Uids(u));
  }
}
