/**
 * The message thread view (`MessageThread`, version 2): the scroll gate
 * that asks the page for the next page, the mark-as-read selection, and
 * the expansion rules for long messages.
 *
 * The gate's refs are the fields of `ScrollGate`; each React effect is a
 * method the caller invokes when that effect's dependencies change, and
 * the deferred release of the restore suppression (an animation frame,
 * then 500 ms) is the event `ReleaseSuppression`. Scroll offsets are whole
 * pixels.
 */
module Thread {
  import opened Wrappers
  import opened Messages

  // ---------------------------------------------------------------------
  // The 70% threshold.

  /** `scrollHeight - scrollTop - clientHeight < scrollHeight * 0.7`, in integers. */
  predicate NearBottom(scrollTop: int, scrollHeight: int, clientHeight: int) {
    10 * (scrollHeight - scrollTop - clientHeight) < 7 * scrollHeight
  }

  /** The integer test is the source's test read over the reals. */
  lemma NearBottomIsSeventyPercent(scrollTop: int, scrollHeight: int, clientHeight: int)
    ensures NearBottom(scrollTop, scrollHeight, clientHeight) <==>
            ((scrollHeight - scrollTop - clientHeight) as real) < 0.7 * (scrollHeight as real)
  {
    var d := scrollHeight - scrollTop - clientHeight;
    assert (d as real) * 10.0 == (10 * d) as real;
    assert (scrollHeight as real) * 7.0 == (7 * scrollHeight) as real;
  }

  /** What the restore effect does to the scroll container. */
  datatype ScrollAction = NoScroll | ScrollToTop | RestoreTo(scrollTop: int)

  /** The refs behind `handleScroll`, and what it has reported to the parent and the page. */
  class ScrollGate {
    var isLoadingInternal: bool
    var suppressLoadMore: bool
    var lastRestored: Option<int>
    var lastMessageCount: int
    /** Every `scrollTop` passed to `onScrollPositionChange`, oldest first. */
    var reportedScrollTops: seq<int>
    /** How many times `onLoadMore` was called. */
    var loadMoreCalls: nat

    constructor ()
      ensures !isLoadingInternal && !suppressLoadMore && lastRestored.None? && lastMessageCount == 0
      ensures reportedScrollTops == [] && loadMoreCalls == 0
    {
      isLoadingInternal := false;
      suppressLoadMore := false;
      lastRestored := None;
      lastMessageCount := 0;
      reportedScrollTops := [];
      loadMoreCalls := 0;
    }

    /** `canLoad` together with the distance test. */
    predicate WouldFire(scrollTop: int, scrollHeight: int, clientHeight: int,
                        hasNextPage: bool, isLoadingMore: bool, hasOnLoadMore: bool)
      reads this
    {
      hasNextPage && !isLoadingMore && !isLoadingInternal && !suppressLoadMore && hasOnLoadMore &&
      NearBottom(scrollTop, scrollHeight, clientHeight)
    }

    /**
     * `handleScroll`: the position is reported to the parent first (when a
     * listener exists); then `onLoadMore` is called, and the lock taken,
     * exactly when there is a next page, nothing is loading, neither the
     * lock nor the suppression is on, a callback exists and less than 70%
     * of the content height remains below the viewport.
     */
    method HandleScroll(scrollTop: int, scrollHeight: int, clientHeight: int,
                        hasNextPage: bool, isLoadingMore: bool, hasOnLoadMore: bool, hasOnScrollPositionChange: bool)
      returns (fired: bool)
      modifies this`reportedScrollTops, this`isLoadingInternal, this`loadMoreCalls
      ensures reportedScrollTops == old(reportedScrollTops) + (if hasOnScrollPositionChange then [scrollTop] else [])
      ensures fired == old(WouldFire(scrollTop, scrollHeight, clientHeight, hasNextPage, isLoadingMore, hasOnLoadMore))
      ensures fired ==> isLoadingInternal && loadMoreCalls == old(loadMoreCalls) + 1
      ensures !fired ==> isLoadingInternal == old(isLoadingInternal) && loadMoreCalls == old(loadMoreCalls)
    {
      if hasOnScrollPositionChange {
        reportedScrollTops := reportedScrollTops + [scrollTop];
      }
      var distanceFromBottom := scrollHeight - scrollTop - clientHeight;
      var canLoad := hasNextPage && !isLoadingMore && !isLoadingInternal && !suppressLoadMore && hasOnLoadMore;
      fired := canLoad && 10 * distanceFromBottom < 7 * scrollHeight;
      if fired {
        isLoadingInternal := true;
        loadMoreCalls := loadMoreCalls + 1;
      }
    }

    /**
     * The restore-and-reset effect, run when the sender, the message count
     * or `restoreScrollTop` changes. With a mounted container it clears the
     * lock and the suppression; a positive target different from the last
     * one restored turns the suppression back on, is recorded, and is
     * scrolled to; otherwise a thread that just received its first messages
     * is scrolled to the top. The message count is recorded last.
     */
    method OnThreadChange(mounted: bool, restoreScrollTop: int, messageCount: nat) returns (action: ScrollAction)
      modifies this`isLoadingInternal, this`suppressLoadMore, this`lastRestored, this`lastMessageCount
      ensures !mounted ==> action == NoScroll && unchanged(this)
      ensures mounted ==> !isLoadingInternal && lastMessageCount == messageCount
      ensures mounted && restoreScrollTop > 0 && old(lastRestored) != Some(restoreScrollTop) ==>
        suppressLoadMore && lastRestored == Some(restoreScrollTop) && action == RestoreTo(restoreScrollTop)
      ensures mounted && !(restoreScrollTop > 0 && old(lastRestored) != Some(restoreScrollTop)) ==>
        !suppressLoadMore && lastRestored == old(lastRestored) &&
        action == (if restoreScrollTop == 0 && messageCount > 0 && old(lastMessageCount) == 0 then ScrollToTop else NoScroll)
    {
      if !mounted {
        return NoScroll;
      }
      isLoadingInternal := false;
      suppressLoadMore := false;
      if restoreScrollTop > 0 && lastRestored != Some(restoreScrollTop) {
        lastRestored := Some(restoreScrollTop);
        suppressLoadMore := true;
        action := RestoreTo(restoreScrollTop);
      } else if restoreScrollTop == 0 && messageCount > 0 && lastMessageCount == 0 {
        action := ScrollToTop;
      } else {
        action := NoScroll;
      }
      lastMessageCount := messageCount;
    }

    /** The deferred callback scheduled by a restore: the suppression ends. */
    method ReleaseSuppression()
      modifies this`suppressLoadMore
      ensures !suppressLoadMore
    {
      suppressLoadMore := false;
    }

    /** The unlock effect, run when `isLoadingMore` changes: the lock is released once nothing is loading. */
    method OnLoadingChange(isLoadingMore: bool)
      modifies this`isLoadingInternal
      ensures isLoadingInternal == (old(isLoadingInternal) && isLoadingMore)
    {
      if !isLoadingMore && isLoadingInternal {
        isLoadingInternal := false;
      }
    }
  }

  /**
   * Once a scroll event fires, no further scroll event fires, whatever its
   * geometry, until the lock is released; after the page reports that
   * loading ended, the next near-bottom scroll fires again.
   */
  method FiresOnceUntilUnlocked(g: ScrollGate, top: int, height: int, client: int, top2: int, height2: int, client2: int)
    returns (first: bool, second: bool, third: bool)
    requires !g.suppressLoadMore && !g.isLoadingInternal
    requires NearBottom(top, height, client) && NearBottom(top2, height2, client2)
    modifies g
    ensures first && !second && third
    ensures g.loadMoreCalls == old(g.loadMoreCalls) + 2
  {
    first := g.HandleScroll(top, height, client, true, false, true, true);
    second := g.HandleScroll(top2, height2, client2, true, false, true, true);
    g.OnLoadingChange(false);
    third := g.HandleScroll(top2, height2, client2, true, false, true, true);
  }

  /**
   * A restore to a new position suppresses loading until the suppression
   * is released, and restoring the same position again does not suppress.
   */
  method RestoreSuppresses(g: ScrollGate, target: int, count: nat, top: int, height: int, client: int)
    returns (during: bool, after: bool, again: ScrollAction)
    requires target > 0 && g.lastRestored != Some(target)
    requires NearBottom(top, height, client)
    modifies g
    ensures !during && after && again == NoScroll && !g.suppressLoadMore
  {
    var a := g.OnThreadChange(true, target, count);
    during := g.HandleScroll(top, height, client, true, false, true, false);
    g.ReleaseSuppression();
    after := g.HandleScroll(top, height, client, true, false, true, false);
    again := g.OnThreadChange(true, target, count + 1);
  }

  // ---------------------------------------------------------------------
  // Mark as read.

  /** `messages.filter(msg => ids.has(msg.uid))` */
  function WithUidIn(messages: seq<Message>, ids: set<string>): (r: seq<Message>)
    ensures forall x :: x in r <==> x in messages && x.uid in ids
    ensures |r| <= |messages|
  {
    if messages == [] then []
    else (if messages[0].uid in ids then [messages[0]] else []) + WithUidIn(messages[1..], ids)
  }

  function Min(a: int, b: int): int {
    if a <= b then a else b
  }

  /**
   * The uids the mark-as-read timer passes to `onMarkAsRead`: the first five
   * messages in display order whose uid is new, or no call when there is
   * no new id or no displayed message carries one.
   */
  function MarkReadSelection(messages: seq<Message>, newMessageIds: set<string>): (r: Option<seq<string>>)
    ensures r.None? <==> newMessageIds == {} || forall m :: m in messages ==> m.uid !in newMessageIds
    ensures r.Some? ==> 1 <= |r.value| <= 5
    ensures r.Some? ==> forall u :: u in r.value ==> u in newMessageIds && exists m :: m in messages && m.uid == u
    ensures r.Some? ==> |r.value| == Min(5, |WithUidIn(messages, newMessageIds)|)
    ensures r.Some? ==> r.value == Uids(WithUidIn(messages, newMessageIds))[..|r.value|]
  {
    if newMessageIds == {} then None
    else
      var visible := Uids(WithUidIn(messages, newMessageIds));
      var uids := visible[..Min(5, |visible|)];
      if |uids| > 0 then
        assert forall u :: u in uids ==> u in visible;
        assert forall i :: 0 <= i < |uids| ==> WithUidIn(messages, newMessageIds)[i] in WithUidIn(messages, newMessageIds);
        assert WithUidIn(messages, newMessageIds)[0] in messages;
        Some(uids)
      else
        assert WithUidIn(messages, newMessageIds) == [];
        None
  }

  /** Five or more new messages on screen: exactly five uids are passed. */
  lemma MarkReadTakesFive(messages: seq<Message>, newMessageIds: set<string>)
    requires |WithUidIn(messages, newMessageIds)| >= 5
    ensures MarkReadSelection(messages, newMessageIds).Some?
    ensures |MarkReadSelection(messages, newMessageIds).value| == 5
  {
    assert WithUidIn(messages, newMessageIds)[0] in WithUidIn(messages, newMessageIds);
  }

  // ---------------------------------------------------------------------
  // Expansion of long messages.

  /** `toggleMessageExpansion(uid)`: a copy of the set with `uid`'s membership flipped. */
  function ToggleExpansion(expanded: set<string>, uid: string): (r: set<string>)
    ensures uid in r <==> uid !in expanded
    ensures forall u :: u != uid ==> (u in r <==> u in expanded)
  {
    if uid in expanded then expanded - {uid} else expanded + {uid}
  }

  /** Toggling the same message twice restores the set. */
  lemma ToggleTwice(expanded: set<string>, uid: string)
    ensures ToggleExpansion(ToggleExpansion(expanded, uid), uid) == expanded
  {
    var once := ToggleExpansion(expanded, uid);
    var twice := ToggleExpansion(once, uid);
    assert forall u :: u in twice <==> u in expanded;
  }

  /** `shouldShowExpand`: the content is present and longer than 300 characters. */
  function ShouldShowExpand(content: Option<string>): (r: bool)
    ensures r ==> Truthy(content)
    ensures content.Some? ==> (r <==> |content.value| > 300)
  {
    content.Some? && |content.value| > 300
  }

  /** `getMessageAmount`: `amount`, else the extracted amount, else null, skipping empty strings. */
  function MessageAmount(m: Message): (r: Option<string>)
    ensures Truthy(m.amount) ==> r == m.amount
    ensures !Truthy(m.amount) && Truthy(m.extractedAmount) ==> r == m.extractedAmount
    ensures r.None? || Truthy(r)
    ensures r.None? <==> !Truthy(m.amount) && !Truthy(m.extractedAmount)
  {
    if Truthy(m.amount) then m.amount
    else if Truthy(m.extractedAmount) then m.extractedAmount
    else None
  }
}
