/**
 The feed as it runs: one object whose fields the responses update. Every method is proved to
 do to the fields what the functions of the model do to a view.
 */
module ChatFeedState {
  import opened Basics
  import opened ChatFeed

  class Feed {
    var messages: map<int, Dto>
    var marks: map<int, Watermark>
    var generation: Option<int>
    var cursor: int
    var latest: int
    var nextBeforeId: Option<int>
    var hasMore: bool
    var initialized: bool
    var loadingOlder: bool
    var resetBlocked: bool
    var resetStreak: int
    var revision: int
    var binding: Binding
    var blocked: bool
    var disposed: bool
    var historyRequestId: int
    var olderRequestId: int
    var syncCount: int
    var sync: Sync

    ghost function Snapshot(): View
      reads this
    {
      View(messages, marks, generation, cursor, latest, nextBeforeId, hasMore, initialized, loadingOlder, resetBlocked,
           resetStreak, revision, binding, blocked, disposed, historyRequestId, olderRequestId, syncCount, sync)
    }

    /** Every field is as in the view. */
    ghost predicate Shows(v: View)
      reads this
    {
      && messages == v.messages && marks == v.marks && generation == v.generation && cursor == v.cursor
      && latest == v.latest && nextBeforeId == v.nextBeforeId && hasMore == v.hasMore && initialized == v.initialized
      && loadingOlder == v.loadingOlder && resetBlocked == v.resetBlocked && resetStreak == v.resetStreak
      && revision == v.revision && binding == v.binding && blocked == v.blocked && disposed == v.disposed
      && historyRequestId == v.historyRequestId && olderRequestId == v.olderRequestId
      && syncCount == v.syncCount && sync == v.sync
    }

    constructor (binding: Binding)
      ensures Shows(FreshView(binding))
    {
      messages, marks, generation, cursor, latest := map[], map[], None, 0, 0;
      nextBeforeId, hasMore, initialized, loadingOlder, resetBlocked := None, false, false, false, false;
      resetStreak, revision, this.binding, blocked, disposed := 0, 0, binding, false, false;
      historyRequestId, olderRequestId, syncCount, sync := 0, 0, 0, Idle;
    }

    predicate RequestContextIsCurrent(c: Context)
      reads this
    {
      && !disposed && c.revision == revision && c.generation == generation && c.admin == binding.admin
      && c.subjectKey == binding.subjectKey && binding.active && !blocked
    }

    /** The merge: each item replaces the whole message if its mark is newer. */
    method ApplyVersionedMessages(incoming: seq<Versioned>, admin: bool)
      modifies this`messages, this`marks
      ensures Shows(ApplyAll(old(Snapshot()), incoming, admin))
    {
      ghost var before := Snapshot();
      var byId, watermarks := MergeVersioned(messages, marks, generation, incoming, admin, before);
      messages, marks := byId, watermarks;
      MergeTouchesMessagesOnly(before, incoming, admin);
    }

    static method MergeVersioned(messages: map<int, Dto>, marks: map<int, Watermark>, generation: Option<int>,
                                 incoming: seq<Versioned>, admin: bool, ghost before: View)
      returns (byId: map<int, Dto>, watermarks: map<int, Watermark>)
      requires before.messages == messages && before.marks == marks && before.generation == generation
      ensures byId == ApplyAll(before, incoming, admin).messages
      ensures watermarks == ApplyAll(before, incoming, admin).marks
    {
      byId, watermarks := messages, marks;
      for k := 0 to |incoming|
        invariant byId == ApplyAll(before, incoming[..k], admin).messages
        invariant watermarks == ApplyAll(before, incoming[..k], admin).marks
      {
        MergeStep(before, incoming, k, admin);
        var item := incoming[k];
        if generation != Some(item.mark.generation) {
          continue;
        }
        if item.dto.id in watermarks && !IsNewer(watermarks[item.dto.id], item.mark) {
          continue;
        }
        byId := byId[item.dto.id := Normalize(item.dto, admin)];
        watermarks := watermarks[item.dto.id := item.mark];
      }
      assert incoming[..|incoming|] == incoming;
    }

    method InvalidateProjectionState(block: bool)
      modifies this
      ensures Shows(Invalidate(old(Snapshot()), block))
    {
      AbandonRequests();
      ForgetProjection();
      ResetFlags(block);
    }

    method AbandonRequests()
      modifies this`revision, this`olderRequestId, this`historyRequestId, this`sync
      ensures revision == old(revision) + 1 && olderRequestId == old(olderRequestId) + 1
      ensures historyRequestId == old(historyRequestId) + 1 && sync == Idle
    {
      revision := revision + 1;
      olderRequestId := olderRequestId + 1;
      historyRequestId := historyRequestId + 1;
      sync := Idle;
    }

    method ForgetProjection()
      modifies this`messages, this`marks, this`nextBeforeId, this`hasMore, this`generation, this`cursor, this`latest
      ensures messages == map[] && marks == map[] && nextBeforeId.None? && !hasMore && generation.None?
      ensures cursor == 0 && latest == 0
    {
      messages, marks := map[], map[];
      nextBeforeId, hasMore, generation := None, false, None;
      cursor, latest := 0, 0;
    }

    method ResetFlags(block: bool)
      modifies this`initialized, this`loadingOlder, this`resetBlocked, this`blocked
      ensures !initialized && !loadingOlder && !resetBlocked && blocked == block
    {
      initialized, loadingOlder, resetBlocked, blocked := false, false, false, block;
    }

    method ClearForSubjectChange(block: bool)
      modifies this
      ensures Shows(ChatFeed.ClearForSubjectChange(old(Snapshot()), block))
    {
      InvalidateProjectionState(block);
      resetStreak := 0;
    }

    method HandleCursorReset()
      modifies this
      ensures Shows(ChatFeed.HandleCursorReset(old(Snapshot())))
    {
      if resetStreak >= MAX_CONSECUTIVE_RESETS {
        InvalidateProjectionState(false);
        resetBlocked := true;
      } else {
        resetStreak := resetStreak + 1;
        InvalidateProjectionState(false);
      }
    }

    method SetCursor(at: int)
      modifies this`cursor, this`latest
      ensures cursor == at && latest == at
    {
      cursor, latest := at, at;
    }

    method StartBlank(of: int)
      modifies this`generation, this`messages, this`marks
      ensures generation == Some(of) && messages == map[] && marks == map[]
    {
      generation, messages, marks := Some(of), map[], map[];
    }

    method NoteLatest(at: int)
      modifies this`latest
      ensures latest == Max(old(latest), at)
    {
      latest := Max(latest, at);
    }

    method SetBoundary(reply: HistoryReply)
      modifies this`nextBeforeId, this`hasMore
      ensures nextBeforeId == reply.nextBeforeId && hasMore == reply.hasMore
    {
      nextBeforeId, hasMore := reply.nextBeforeId, reply.hasMore;
    }

    /** The first snapshot of a projection sets generation and cursor. */
    method InitializeFromSnapshot(reply: HistoryReply, admin: bool)
      modifies this
      ensures Shows(ApplyAll(old(Snapshot()).(generation := Some(reply.generation), messages := map[], marks := map[]),
                             HistoryItems(reply.messages, reply.generation, reply.latest), admin)
                      .(cursor := reply.latest, latest := reply.latest))
    {
      ghost var blank := Snapshot().(generation := Some(reply.generation), messages := map[], marks := map[]);
      StartBlank(reply.generation);
      assert Snapshot() == blank;
      ApplyVersionedMessages(HistoryItems(reply.messages, reply.generation, reply.latest), admin);
      SetCursor(reply.latest);
    }

    /** A later page of history only adds to the projection. */
    method MergeHistory(reply: HistoryReply, admin: bool)
      modifies this
      ensures Shows(ApplyAll(old(Snapshot()), HistoryItems(reply.messages, reply.generation, reply.latest), admin)
                      .(latest := Max(old(latest), reply.latest)))
    {
      ApplyVersionedMessages(HistoryItems(reply.messages, reply.generation, reply.latest), admin);
      NoteLatest(reply.latest);
    }

    /** The answer to loadLatestHistory. */
    method HistoryArrived(c: Context, requestId: int, reply: HistoryReply)
      modifies this
      ensures Shows(DeliverHistory(old(Snapshot()), c, requestId, reply))
    {
      if requestId != historyRequestId || !RequestContextIsCurrent(c) {
        return;
      }
      if reply.generation < 1 || reply.generation > MAX_SAFE_INTEGER || !SafeSeq(reply.latest) {
        initialized := false;
        return;
      }
      if c.generation.Some? && reply.generation != c.generation.value {
        HandleCursorReset();
        return;
      }
      HistoryAccepted(c, reply);
    }

    method HistoryAccepted(c: Context, reply: HistoryReply)
      modifies this
      ensures var v := old(Snapshot());
              var items := HistoryItems(reply.messages, reply.generation, reply.latest);
              Shows((if c.generation.None?
                     then ApplyAll(v.(generation := Some(reply.generation), messages := map[], marks := map[]), items,
                         c.admin)
                            .(cursor := reply.latest, latest := reply.latest)
                     else ApplyAll(v, items, c.admin).(latest := Max(v.latest, reply.latest)))
                    .(nextBeforeId := reply.nextBeforeId, hasMore := reply.hasMore, initialized := true))
    {
      if c.generation.None? {
        InitializeFromSnapshot(reply, c.admin);
      } else {
        MergeHistory(reply, c.admin);
      }
      FinishHistory(reply);
    }

    method FinishHistory(reply: HistoryReply)
      modifies this`nextBeforeId, this`hasMore, this`initialized
      ensures nextBeforeId == reply.nextBeforeId && hasMore == reply.hasMore && initialized
    {
      nextBeforeId, hasMore, initialized := reply.nextBeforeId, reply.hasMore, true;
    }

    /** The answer to loadOlder. */
    method OlderArrived(c: Context, requestId: int, reply: HistoryReply)
      modifies this
      ensures Shows(DeliverOlder(old(Snapshot()), c, requestId, reply))
    {
      if requestId != olderRequestId {
        return;
      }
      if !RequestContextIsCurrent(c) {
        loadingOlder := false;
        return;
      }
      if c.generation != Some(reply.generation) || !SafeSeq(reply.latest) {
        HandleCursorReset();
        return;
      }
      OlderAccepted(c, reply);
    }

    method OlderAccepted(c: Context, reply: HistoryReply)
      modifies this
      ensures Shows(ApplyAll(old(Snapshot()), HistoryItems(reply.messages, reply.generation, reply.latest), c.admin)
                      .(latest := Max(old(latest), reply.latest),
                        nextBeforeId := reply.nextBeforeId, hasMore := reply.hasMore, loadingOlder := false))
    {
      MergeHistory(reply, c.admin);
      SetBoundary(reply);
      loadingOlder := false;
    }

    /** validatedChangePage: the page in order, or None if it cannot follow the cursor. */
    method ValidatedChangePage(
      c: Context, pageCursor: int, reply: ChangesReply)
      returns (ordered: Option<seq<ChangeDto>>)
      ensures ordered.Some? <==> PageAccepted(c, pageCursor, reply)
      ensures ordered.Some? ==> ordered.value == SortChanges(reply.changes)
    {
      if c.generation.None? || reply.generation != c.generation.value || !SafeSeq(reply.nextAfterSeq)
          || !SafeSeq(reply.latest)
        || reply.nextAfterSeq < pageCursor || reply.nextAfterSeq > reply.latest
        || (reply.hasMore && reply.nextAfterSeq == pageCursor) {
        return None;
      }
      var sorted := SortChanges(reply.changes);
      for k := 0 to |sorted|
        invariant forall j | 0 <= j < k ::
          SafeSeq(sorted[j].at) && pageCursor < sorted[j].at <= reply.nextAfterSeq
              && (j > 0 ==> sorted[j - 1].at < sorted[j].at)
      {
        if !SafeSeq(sorted[k].at) || sorted[k].at <= pageCursor || sorted[k].at > reply.nextAfterSeq
          || (k > 0 && sorted[k].at <= sorted[k - 1].at) {
          return None;
        }
      }
      return Some(sorted);
    }

    /** One page of the sync loop; the loop goes on while there is more and a page is left. */
    method ChangePageArrived(c: Context, syncId: int, pageCursor: int, reply: ChangesReply)
      modifies this
      ensures Shows(DeliverChanges(old(Snapshot()), c, syncId, pageCursor, reply))
    {
      if !sync.Reading? || sync.id != syncId || !sync.inFlight || !RequestContextIsCurrent(c) || c.generation.None? {
        return;
      }
      var ordered := ValidatedChangePage(c, pageCursor, reply);
      if ordered.None? {
        HandleCursorReset();
        return;
      }
      PageAcceptedWith(c, syncId, ordered.value, reply);
    }

    method PageAcceptedWith(c: Context, syncId: int, ordered: seq<ChangeDto>, reply: ChangesReply)
      requires c.generation.Some? && sync.Reading?
      modifies this
      ensures var v := old(Snapshot());
              var w := ApplyAll(v, ChangeItems(ordered, c.generation.value), c.admin)
                         .(cursor := reply.nextAfterSeq, latest := Max(v.latest, reply.latest));
              Shows(if reply.hasMore && v.sync.pagesLeft > 1
                    then w.(sync := Reading(syncId, v.sync.pagesLeft - 1, false))
                    else w.(sync := Idle, resetStreak := 0))
    {
      MergeTouchesMessagesOnly(Snapshot(), ChangeItems(ordered, c.generation.value), c.admin);
      MergePage(ordered, c.generation.value, c.admin, reply);
      EndPage(syncId, reply.hasMore);
    }

    method MergePage(ordered: seq<ChangeDto>, of: int, admin: bool, reply: ChangesReply)
      modifies this
      ensures Shows(ApplyAll(old(Snapshot()), ChangeItems(ordered, of), admin)
                      .(cursor := reply.nextAfterSeq, latest := Max(old(latest), reply.latest)))
    {
      ApplyVersionedMessages(ChangeItems(ordered, of), admin);
      AdvanceCursor(reply);
    }

    /** Only the number the server names moves the cursor. */
    method AdvanceCursor(reply: ChangesReply)
      modifies this`cursor, this`latest
      ensures cursor == reply.nextAfterSeq && latest == Max(old(latest), reply.latest)
    {
      cursor := reply.nextAfterSeq;
      latest := Max(latest, reply.latest);
    }

    method EndPage(syncId: int, more: bool)
      requires sync.Reading?
      modifies this`sync, this`resetStreak
      ensures if more && old(sync).pagesLeft > 1 then sync == Reading(syncId, old(sync).pagesLeft - 1, false)
              && resetStreak == old(resetStreak)
              else sync == Idle && resetStreak == 0
    {
      if more && sync.pagesLeft > 1 {
        sync := Reading(syncId, sync.pagesLeft - 1, false);
      } else {
        sync := Idle;
        resetStreak := 0;
      }
    }

    /** The answer to a mutation, or to a batch of them. */
    method MutationsArrived(c: Context, mutations: seq<MutationReply>)
      modifies this
      ensures Shows(DeliverMutations(old(Snapshot()), c, mutations))
    {
      if !RequestContextIsCurrent(c) || c.generation.None? {
        return;
      }
      for k := 0 to |mutations|
        invariant forall j | 0 <= j < k :: SafeSeq(mutations[j].eventSeq)
      {
        if !SafeSeq(mutations[k].eventSeq) {
          return;
        }
      }
      ApplyVersionedMessages(MutationItems(mutations, c.generation.value), c.admin);
      ghost var base := latest;
      for k := 0 to |mutations|
        invariant Shows(ApplyAll(old(Snapshot()), MutationItems(mutations, c.generation.value), c.admin)
                          .(latest := MaxEventSeq(base, mutations[..k])))
      {
        assert mutations[..k + 1][..k] == mutations[..k];
        latest := Max(latest, mutations[k].eventSeq);
      }
      assert mutations[..|mutations|] == mutations;
    }

    method Rebind(next: Binding)
      modifies this
      ensures Shows(ChatFeed.Rebind(old(Snapshot()), next))
    {
      if disposed || (binding == next && !blocked) {
        return;
      }
      ClearForSubjectChange(false);
      binding := next;
    }

    method Dispose()
      modifies this
      ensures Shows(ChatFeed.Dispose(old(Snapshot())))
    {
      if disposed {
        return;
      }
      CloseFeed();
    }

    method CloseFeed()
      modifies this`disposed, this`revision, this`sync, this`messages, this`marks, this`latest
      ensures disposed && revision == old(revision) + 1 && sync == Idle && messages == map[] && marks == map[]
      ensures latest == 0
    {
      disposed := true;
      revision := revision + 1;
      sync := Idle;
      messages, marks, latest := map[], map[], 0;
    }
  }

  lemma {:induction false} MergeTouchesMessagesOnly(v: View, items: seq<Versioned>, admin: bool)
    ensures OnlyMessages(v, ApplyAll(v, items, admin))
  {
    if items != [] {
      MergeTouchesMessagesOnly(v, items[..|items| - 1], admin);
    }
  }

  /** What one more item does to the messages and their marks. */
  lemma MergeStep(v: View, items: seq<Versioned>, k: nat, admin: bool)
    requires k < |items|
    ensures var u, w, item := ApplyAll(v, items[..k], admin), ApplyAll(v, items[..k + 1], admin), items[k];
            var accepted := v.generation == Some(item.mark.generation)
                && (item.dto.id in u.marks ==> IsNewer(u.marks[item.dto.id], item.mark));
            && w.messages == (if accepted then u.messages[item.dto.id := Normalize(item.dto, admin)] else u.messages)
            && w.marks == (if accepted then u.marks[item.dto.id := item.mark] else u.marks)
  {
    var u := ApplyAll(v, items[..k], admin);
    MergeTouchesMessagesOnly(v, items[..k], admin);
    LastItem(v, items, k, admin);
    hide ApplyAll, Normalize, IsNewer;
  }

  lemma LastItem(v: View, items: seq<Versioned>, k: nat, admin: bool)
    requires k < |items|
    ensures ApplyAll(v, items[..k + 1], admin) == ApplyOne(ApplyAll(v, items[..k], admin), items[k], admin)
  {
    assert items[..k + 1][..k] == items[..k];
    hide ApplyOne;
  }

}
