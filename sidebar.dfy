/**
 * The sender list (`SenderSidebar`): the avatar initials and the kind of
 * each sender, the pin button, and the pinned-first ordering of the SMS
 * senders.
 *
 * `senders.sort(cmp)` is a stable sort (ECMA-262, from the 2019 edition on)
 * and `cmp` only says "pinned before unpinned", so its result is the pinned
 * senders in their original order followed by the unpinned ones in theirs;
 * `SortPinnedFirst` reaches that result in place by a stable partition.
 */
module Sidebar {
  import opened Wrappers

  // ---------------------------------------------------------------------
  // Initials and sender kinds.

  predicate StartsWith(s: string, prefix: string) {
    |prefix| <= |s| && s[..|prefix|] == prefix
  }

  /** `sub` occurs in `s` starting at index `i`. */
  predicate OccursAt(s: string, sub: string, i: int) {
    0 <= i && i + |sub| <= |s| && s[i..i + |sub|] == sub
  }

  /** `s.includes(sub)`, scanning from the left. */
  function Contains(s: string, sub: string): (r: bool)
    ensures r <==> exists i :: OccursAt(s, sub, i)
    decreases |s|
  {
    if StartsWith(s, sub) then
      assert OccursAt(s, sub, 0);
      true
    else if s == [] then
      assert forall i :: !OccursAt(s, sub, i);
      false
    else
      var r := Contains(s[1..], sub);
      forall i | 0 <= i ensures OccursAt(s, sub, i + 1) <==> OccursAt(s[1..], sub, i) {
        if i + 1 + |sub| <= |s| {
          var x, y := s[i + 1..i + 1 + |sub|], s[1..][i..i + |sub|];
          assert |x| == |y| && forall t :: 0 <= t < |x| ==> x[t] == s[i + 1 + t] == y[t];
        }
      }
      assert !OccursAt(s, sub, 0);
      assert (exists i :: OccursAt(s, sub, i)) ==> exists i :: OccursAt(s[1..], sub, i) by {
        if exists i :: OccursAt(s, sub, i) {
          var i :| OccursAt(s, sub, i);
          assert OccursAt(s[1..], sub, i - 1);
        }
      }
      r
  }

  function Min(a: int, b: int): int {
    if a <= b then a else b
  }

  /** ASCII `toUpperCase` of one character. */
  function UpperChar(c: char): (r: char)
    ensures 'a' <= c <= 'z' ==> 'A' <= r <= 'Z' && r as int == c as int - 32
    ensures !('a' <= c <= 'z') ==> r == c
  {
    if 'a' <= c <= 'z' then (c as int - 32) as char else c
  }

  function ToUpper(s: string): (r: string)
    ensures |r| == |s|
    ensures forall i :: 0 <= i < |s| ==> r[i] == UpperChar(s[i])
  {
    seq(|s|, i requires 0 <= i < |s| => UpperChar(s[i]))
  }

  /** Upper-casing twice is upper-casing once, and leaves no lower-case ASCII letter. */
  lemma ToUpperIdempotent(s: string)
    ensures ToUpper(ToUpper(s)) == ToUpper(s)
    ensures forall i :: 0 <= i < |s| ==> !('a' <= ToUpper(s)[i] <= 'z')
  {
  }

  /**
   * `getInitials`: for a phone number, the (at most three) characters after
   * the "+", as written; otherwise the first two characters, upper-cased.
   */
  function GetInitials(sender: string): (r: string)
    ensures StartsWith(sender, "+") ==> |r| == Min(3, |sender| - 1) && r == sender[1..1 + |r|]
    ensures !StartsWith(sender, "+") ==>
              |r| == Min(2, |sender|) && forall i :: 0 <= i < |r| ==> r[i] == UpperChar(sender[i])
  {
    if StartsWith(sender, "+") then sender[1..Min(4, |sender|)]
    else ToUpper(sender[..Min(2, |sender|)])
  }

  /** The digits of a phone number are kept as they are. */
  lemma InitialsOfPhoneNumber()
    ensures GetInitials("+2250700") == "225"
    ensures GetInitials("+1") == "1"
    ensures GetInitials("wave") == "WA"
  {
    assert "wave"[0] == 'w';
    assert "+2250700"[..1] == "+" && "+1"[..1] == "+" && "wave"[..1] != "+";
    assert "+2250700"[1..4] == "225" && "+1"[1..2] == "1" && "wave"[..2] == "wa";
  }

  datatype SenderType = Phone | Service | Other

  /** `getSenderType`: "+" first, then the three service names, else other. */
  function GetSenderType(sender: string): (r: SenderType)
    ensures r == Phone <==> StartsWith(sender, "+")
    ensures r == Service <==>
              !StartsWith(sender, "+") && (Contains(sender, "Money") || Contains(sender, "MoMo") || Contains(sender, "Orange"))
  {
    if StartsWith(sender, "+") then Phone
    else if Contains(sender, "Money") || Contains(sender, "MoMo") || Contains(sender, "Orange") then Service
    else Other
  }

  /** A "+" number is a phone even when it also names a service. */
  lemma PhoneCheckedFirst()
    ensures GetSenderType("+Orange") == Phone
    ensures GetSenderType("OrangeMoney") == Service
    ensures GetSenderType("MTN") == Other
  {
    assert "OrangeMoney"[0] == 'O' && "MTN"[0] == 'M';
    assert "+Orange"[..1] == "+" && "OrangeMoney"[..1] != "+" && "MTN"[..1] != "+";
    assert OccursAt("OrangeMoney", "Orange", 0);
    assert !Contains("MTN", "Money") && !Contains("MTN", "MoMo") && !Contains("MTN", "Orange");
  }

  function SenderIcon(t: SenderType): string {
    match t
    case Phone => "📱"
    case Service => "🏦"
    case Other => "📧"
  }

  /** `getSenderIcon`: the icon tells the sender's type apart from the other two. */
  function GetSenderIcon(sender: string): (r: string)
    ensures forall t :: SenderIcon(t) == r <==> t == GetSenderType(sender)
  {
    var t := GetSenderType(sender);
    assert forall a :: SenderIcon(a) == SenderIcon(t) ==> a == t by {
      forall a | SenderIcon(a) == SenderIcon(t) ensures a == t {
        IconsDistinct(a, t);
      }
    }
    SenderIcon(t)
  }

  /** The three kinds are shown with three different icons. */
  lemma IconsDistinct(a: SenderType, b: SenderType)
    ensures a != b ==> SenderIcon(a) != SenderIcon(b)
  {
  }

  // ---------------------------------------------------------------------
  // The pin button.

  datatype PinCall = Pin(sender: string) | Unpin(sender: string)

  /**
   * A click on the pin button: no button without both callbacks, no click
   * while a pin request runs, otherwise unpin a pinned sender and pin any other.
   */
  function PinButtonClick(sender: string, pinnedSenders: set<string>, hasCallbacks: bool, isPinning: bool)
    : (r: Option<PinCall>)
    ensures r.Some? <==> hasCallbacks && !isPinning
    ensures r.Some? ==> r.value.sender == sender && (r.value.Unpin? <==> sender in pinnedSenders)
  {
    if !hasCallbacks || isPinning then None
    else if sender in pinnedSenders then Some(Unpin(sender))
    else Some(Pin(sender))
  }

  // ---------------------------------------------------------------------
  // Pinned-first ordering.

  datatype UniqueSender = UniqueSender(sender: string, count: int, unreadCount: int)

  predicate IsPinned(x: UniqueSender, pinned: set<string>) {
    x.sender in pinned
  }

  /** The pinned senders of `s`, in order. */
  function Pinned(s: seq<UniqueSender>, pinned: set<string>): seq<UniqueSender> {
    if s == [] then []
    else Pinned(s[..|s| - 1], pinned) + (if IsPinned(s[|s| - 1], pinned) then [s[|s| - 1]] else [])
  }

  /** The unpinned senders of `s`, in order. */
  function Unpinned(s: seq<UniqueSender>, pinned: set<string>): seq<UniqueSender> {
    if s == [] then []
    else Unpinned(s[..|s| - 1], pinned) + (if IsPinned(s[|s| - 1], pinned) then [] else [s[|s| - 1]])
  }

  /** What the stable sort with the pinned-first comparator produces. */
  function PinnedFirst(s: seq<UniqueSender>, pinned: set<string>): seq<UniqueSender> {
    Pinned(s, pinned) + Unpinned(s, pinned)
  }

  lemma {:induction false} PinnedArePinned(s: seq<UniqueSender>, pinned: set<string>)
    ensures forall x :: x in Pinned(s, pinned) ==> IsPinned(x, pinned)
  {
    if s != [] {
      PinnedArePinned(s[..|s| - 1], pinned);
    }
  }

  lemma {:induction false} UnpinnedAreUnpinned(s: seq<UniqueSender>, pinned: set<string>)
    ensures forall x :: x in Unpinned(s, pinned) ==> !IsPinned(x, pinned)
  {
    if s != [] {
      UnpinnedAreUnpinned(s[..|s| - 1], pinned);
    }
  }

  lemma {:induction false} GroupsMultiset(s: seq<UniqueSender>, pinned: set<string>)
    ensures multiset(Pinned(s, pinned)) + multiset(Unpinned(s, pinned)) == multiset(s)
  {
    if s != [] {
      var t, x := s[..|s| - 1], s[|s| - 1];
      GroupsMultiset(t, pinned);
      assert s == t + [x];
      assert multiset(s) == multiset(t) + multiset{x};
      if IsPinned(x, pinned) {
        assert Pinned(s, pinned) == Pinned(t, pinned) + [x] && Unpinned(s, pinned) == Unpinned(t, pinned);
      } else {
        assert Pinned(s, pinned) == Pinned(t, pinned) && Unpinned(s, pinned) == Unpinned(t, pinned) + [x];
      }
    }
  }

  /** After the sort every pinned sender comes before every unpinned one. */
  lemma PinnedBeforeUnpinned(s: seq<UniqueSender>, pinned: set<string>, i: int, j: int)
    requires 0 <= i < j < |PinnedFirst(s, pinned)|
    requires IsPinned(PinnedFirst(s, pinned)[j], pinned)
    ensures IsPinned(PinnedFirst(s, pinned)[i], pinned)
  {
    PinnedArePinned(s, pinned);
    UnpinnedAreUnpinned(s, pinned);
    var p := Pinned(s, pinned);
    var u := Unpinned(s, pinned);
    var r := PinnedFirst(s, pinned);
    forall t | |p| <= t < |r| ensures !IsPinned(r[t], pinned) {
      assert r[t] == u[t - |p|] && u[t - |p|] in u;
    }
    assert j < |p|;
    assert r[i] == p[i] && p[i] in p;
  }

  /** The sort is a permutation of the senders. */
  lemma PinnedFirstPermutation(s: seq<UniqueSender>, pinned: set<string>)
    ensures multiset(PinnedFirst(s, pinned)) == multiset(s)
  {
    GroupsMultiset(s, pinned);
  }

  lemma {:induction false} PinnedOfConcat(a: seq<UniqueSender>, b: seq<UniqueSender>, pinned: set<string>)
    ensures Pinned(a + b, pinned) == Pinned(a, pinned) + Pinned(b, pinned)
    ensures Unpinned(a + b, pinned) == Unpinned(a, pinned) + Unpinned(b, pinned)
  {
    if b != [] {
      var b' := b[..|b| - 1];
      PinnedOfConcat(a, b', pinned);
      assert (a + b)[..|a + b| - 1] == a + b';
    } else {
      assert a + b == a;
    }
  }

  lemma {:induction false} AllPinnedGroups(t: seq<UniqueSender>, pinned: set<string>)
    requires forall i :: 0 <= i < |t| ==> IsPinned(t[i], pinned)
    ensures Pinned(t, pinned) == t && Unpinned(t, pinned) == []
  {
    if t != [] {
      var front, x := t[..|t| - 1], t[|t| - 1];
      assert forall i :: 0 <= i < |front| ==> front[i] == t[i];
      AllPinnedGroups(front, pinned);
      assert IsPinned(x, pinned);
      assert Pinned(t, pinned) == Pinned(front, pinned) + [x];
      assert Unpinned(t, pinned) == Unpinned(front, pinned);
      assert t == front + [x];
    }
  }

  lemma {:induction false} AllUnpinnedGroups(t: seq<UniqueSender>, pinned: set<string>)
    requires forall i :: 0 <= i < |t| ==> !IsPinned(t[i], pinned)
    ensures Pinned(t, pinned) == [] && Unpinned(t, pinned) == t
  {
    if t != [] {
      var front, x := t[..|t| - 1], t[|t| - 1];
      assert forall i :: 0 <= i < |front| ==> front[i] == t[i];
      AllUnpinnedGroups(front, pinned);
      assert !IsPinned(x, pinned);
      assert Pinned(t, pinned) == Pinned(front, pinned);
      assert Unpinned(t, pinned) == Unpinned(front, pinned) + [x];
      assert t == front + [x];
    }
  }

  /**
   * Stability: inside each group the sort keeps the original order, so
   * listing only the pinned (or only the unpinned) senders gives the same
   * sequence before and after.
   */
  lemma PinnedFirstStable(s: seq<UniqueSender>, pinned: set<string>)
    ensures Pinned(PinnedFirst(s, pinned), pinned) == Pinned(s, pinned)
    ensures Unpinned(PinnedFirst(s, pinned), pinned) == Unpinned(s, pinned)
  {
    var p := Pinned(s, pinned);
    var u := Unpinned(s, pinned);
    PinnedArePinned(s, pinned);
    UnpinnedAreUnpinned(s, pinned);
    PinnedOfConcat(p, u, pinned);
    assert forall i :: 0 <= i < |p| ==> p[i] in p;
    assert forall i :: 0 <= i < |u| ==> u[i] in u;
    AllPinnedGroups(p, pinned);
    AllUnpinnedGroups(u, pinned);
  }

  /**
   * Any ordering that puts the pinned senders first and keeps each group in
   * its original order is `PinnedFirst`: the result does not depend on
   * which stable sort the engine uses.
   */
  lemma StableSortUnique(s: seq<UniqueSender>, r: seq<UniqueSender>, pinned: set<string>, k: nat)
    requires k <= |r|
    requires forall i :: 0 <= i < k ==> IsPinned(r[i], pinned)
    requires forall i :: k <= i < |r| ==> !IsPinned(r[i], pinned)
    requires Pinned(r, pinned) == Pinned(s, pinned) && Unpinned(r, pinned) == Unpinned(s, pinned)
    ensures r == PinnedFirst(s, pinned)
  {
    var front, back := r[..k], r[k..];
    assert r == front + back;
    PinnedOfConcat(front, back, pinned);
    AllPinnedGroups(front, pinned);
    AllUnpinnedGroups(back, pinned);
    assert Pinned(r, pinned) == front;
    assert Unpinned(r, pinned) == back;
  }

  /** Moves `a[i]` to index `k`, shifting `a[k..i]` one place right. */
  method MoveToFront(a: array<UniqueSender>, k: int, i: int)
    requires 0 <= k <= i < a.Length
    modifies a
    ensures forall t :: 0 <= t < k || i < t < a.Length ==> a[t] == old(a[t])
    ensures a[k] == old(a[i])
    ensures forall t :: k < t <= i ==> a[t] == old(a[t - 1])
  {
    var x := a[i];
    var j := i;
    while j > k
      invariant k <= j <= i
      invariant forall t :: 0 <= t <= j || i < t < a.Length ==> a[t] == old(a[t])
      invariant forall t :: j < t <= i ==> a[t] == old(a[t - 1])
    {
      a[j] := a[j - 1];
      j := j - 1;
    }
    a[k] := x;
  }

  /**
   * `senders.sort(pinned first)`: reorders the array in place into the
   * pinned senders in their original order followed by the unpinned ones
   * in theirs.
   */
  method SortPinnedFirst(a: array<UniqueSender>, pinned: set<string>)
    modifies a
    ensures a[..] == PinnedFirst(old(a[..]), pinned)
  {
    ghost var s := a[..];
    var k := 0;
    var i := 0;
    while i < a.Length
      invariant 0 <= k <= i <= a.Length
      invariant a[..k] == Pinned(s[..i], pinned)
      invariant a[k..i] == Unpinned(s[..i], pinned)
      invariant a[i..] == s[i..]
    {
      ghost var before := a[..];
      if IsPinned(a[i], pinned) {
        MoveToFront(a, k, i);
        StepPinned(before, a[..], s, k, i, pinned);
        k := k + 1;
      } else {
        StepUnpinned(a[..], s, k, i, pinned);
      }
      i := i + 1;
    }
    assert s[..i] == s;
    assert a[..] == a[..k] + a[k..i];
  }

  /** One step of the partition when `s[i]` is pinned and has just been moved to index `k`. */
  lemma StepPinned(b: seq<UniqueSender>, a: seq<UniqueSender>, s: seq<UniqueSender>, k: int, i: int, pinned: set<string>)
    requires 0 <= k <= i < |s| == |b| == |a|
    requires b[..k] == Pinned(s[..i], pinned) && b[k..i] == Unpinned(s[..i], pinned) && b[i..] == s[i..]
    requires IsPinned(b[i], pinned)
    requires forall t :: 0 <= t < k || i < t < |a| ==> a[t] == b[t]
    requires a[k] == b[i]
    requires forall t :: k < t <= i ==> a[t] == b[t - 1]
    ensures a[..k + 1] == Pinned(s[..i + 1], pinned)
    ensures a[k + 1..i + 1] == Unpinned(s[..i + 1], pinned)
    ensures a[i + 1..] == s[i + 1..]
  {
    assert s[..i + 1][..i] == s[..i];
    assert b[i] == b[i..][0] == s[i..][0] == s[i];
    assert b[i + 1..] == b[i..][1..] == s[i..][1..] == s[i + 1..];
    assert Pinned(s[..i + 1], pinned) == Pinned(s[..i], pinned) + [s[i]];
    assert Unpinned(s[..i + 1], pinned) == Unpinned(s[..i], pinned);
    assert a[..k + 1] == b[..k] + [b[i]];
    assert a[k + 1..i + 1] == b[k..i];
    assert a[i + 1..] == b[i + 1..];
  }

  /** One step of the partition when `s[i]` is unpinned and stays where it is. */
  lemma StepUnpinned(a: seq<UniqueSender>, s: seq<UniqueSender>, k: int, i: int, pinned: set<string>)
    requires 0 <= k <= i < |s| == |a|
    requires a[..k] == Pinned(s[..i], pinned) && a[k..i] == Unpinned(s[..i], pinned) && a[i..] == s[i..]
    requires !IsPinned(a[i], pinned)
    ensures a[..k] == Pinned(s[..i + 1], pinned)
    ensures a[k..i + 1] == Unpinned(s[..i + 1], pinned)
    ensures a[i + 1..] == s[i + 1..]
  {
    assert s[..i + 1][..i] == s[..i];
    assert a[i] == a[i..][0] == s[i..][0] == s[i];
    assert Pinned(s[..i + 1], pinned) == Pinned(s[..i], pinned);
    assert Unpinned(s[..i + 1], pinned) == Unpinned(s[..i], pinned) + [s[i]];
    assert a[k..i + 1] == a[k..i] + [a[i]];
    assert a[i + 1..] == a[i..][1..] == s[i..][1..] == s[i + 1..];
  }
}
