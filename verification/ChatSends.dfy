/**
 What the feed asks the server for and when, and that a closed or blocked feed asks for nothing.
 */
module ChatSends {
  import opened Basics
  import opened ChatHistory
  import opened ChatFeed
  import opened ChatProtocol

  /** Bound to an active page, not closed and not blocked by a lost subject. */
  ghost predicate IsOpen(v: View) {
    !v.disposed && !v.blocked && v.binding.active
  }

  /**
   When each request is sent: history under a new number by an open feed; older history from the
   boundary of an initialized feed with more to show, one at a time; the page after the cursor by a
   running sync that awaits none; a mutation by an open feed; and a clear of exactly what an open
   administrator's feed has seen.
   */
  lemma SendingMeans(v: View, op: Op)
    ensures MaySend(v, op) <==>
              match op
              case OpHistory(requestId, limit) => IsOpen(v) && requestId == v.historyRequestId + 1 && limit >= 1
              case OpOlder(requestId, beforeId, limit) =>
                && !v.disposed && v.initialized && v.hasMore && !v.loadingOlder && v.nextBeforeId == Some(beforeId)
                && requestId == v.olderRequestId + 1 && limit >= 1
              case OpChanges(syncId, afterSeq, limit) =>
                && v.sync.Reading? && v.sync.id == syncId && !v.sync.inFlight && v.generation.Some?
                && afterSeq == v.cursor && limit >= 1
              case OpMutate(tx) => IsOpen(v) && !tx.TxClear? && !tx.TxCleanup?
              case OpClear(generation, latest) =>
                IsOpen(v) && v.binding.admin && v.generation == Some(generation) && latest == v.latest
  {
  }

  /** What sending marks, so that no second request of its kind goes out beside it. */
  lemma SendingMarks(v: View, op: Op)
    requires MaySend(v, op)
    ensures Sent(v, op) ==
              match op
              case OpHistory(requestId, _) => v.(historyRequestId := requestId)
              case OpOlder(requestId, _, _) => v.(olderRequestId := requestId, loadingOlder := true)
              case OpChanges(syncId, _, _) => v.(sync := Reading(syncId, v.sync.pagesLeft, true))
              case _ => v
    ensures op.OpOlder? || op.OpChanges? ==>
              forall other: Op | (op.OpOlder? && other.OpOlder?) || (op.OpChanges? && other.OpChanges?) ::
                !MaySend(Sent(v, op), other)
  {
  }

  /**
   A sync starts in an open, initialized feed that is not stopped and runs no other, under a number of
   its own, for at most ten pages; giving up ends it.
   */
  lemma SyncStarts(v: View)
    ensures var w := StartSync(v);
            if IsOpen(v) && v.initialized && v.generation.Some? && !v.resetBlocked && v.sync.Idle?
            then w == v.(syncCount := v.syncCount + 1, sync := Reading(v.syncCount + 1, 10, false))
            else w == v
    ensures AbortSync(v).sync.Idle? && AbortSync(v).(sync := v.sync) == v
  {
  }

  /** Shown nothing, knows nothing, and whatever is still on its way is stale. */
  ghost predicate StartsOver(v: View, w: View) {
    && w.messages == map[] && w.marks == map[] && w.generation.None? && w.cursor == 0 && w.latest == 0
    && w.nextBeforeId.None? && !w.hasMore && !w.initialized && !w.loadingOlder && w.sync.Idle?
    && w.revision == v.revision + 1 && w.historyRequestId == v.historyRequestId + 1
    && w.olderRequestId == v.olderRequestId + 1 && w.disposed == v.disposed && w.syncCount == v.syncCount
  }

  /** What each way of starting over keeps: the streak of resets, the stop, the block and the binding. */
  lemma StartingOverMeans(v: View, next: Binding, c: Context)
    ensures var w := ReloadAfterSyncFailure(v);
            if IsOpen(v)
            then StartsOver(v, w) && w.resetStreak == 0 && !w.resetBlocked && !w.blocked && w.binding == v.binding
            else w == v
    ensures var w := Rebind(v, next);
            if v.disposed || (v.binding == next && !v.blocked) then w == v
            else StartsOver(v, w) && w.resetStreak == 0 && !w.resetBlocked && !w.blocked && w.binding == next
    ensures var w := DeliverSubjectLost(v, c);
            if IsOpen(v) && c == Context(v.revision, v.generation, v.binding.admin, v.binding.subjectKey)
            then StartsOver(v, w) && w.resetStreak == 0 && !w.resetBlocked && w.blocked && w.binding == v.binding
            else w == v
    ensures var w := DeliverCleared(v, c);
            if IsOpen(v) && c == Context(v.revision, v.generation, v.binding.admin, v.binding.subjectKey)
            then StartsOver(v, w) && w.resetStreak == v.resetStreak && !w.resetBlocked && !w.blocked
                && w.binding == v.binding
            else w == v
    ensures var w := HandleCursorReset(v);
            && StartsOver(v, w) && !w.blocked && w.binding == v.binding
            && (w.resetBlocked <==> v.resetStreak >= 2)
            && w.resetStreak == if v.resetStreak >= 2 then v.resetStreak else v.resetStreak + 1
  {
  }

  // ----- what an answer moves besides messages and watermarks -----

  ghost predicate IsCurrent(v: View, c: Context) {
    IsOpen(v) && c == Context(v.revision, v.generation, v.binding.admin, v.binding.subjectKey)
  }

  /** A merge moves messages and watermarks only. */
  lemma {:induction false} MergeLeaves(v: View, items: seq<Versioned>, admin: bool)
    ensures var w := ApplyAll(v, items, admin); w == v.(messages := w.messages, marks := w.marks)
  {
    if items == [] {
      assert ApplyAll(v, items, admin) == v;
    } else {
      var front, last := items[..|items| - 1], items[|items| - 1];
      MergeLeaves(v, front, admin);
      OneLeaves(ApplyAll(v, front, admin), last, admin);
      assert ApplyAll(v, items, admin) == ApplyOne(ApplyAll(v, front, admin), last, admin);
      hide ApplyAll, ApplyOne;
    }
  }

  lemma OneLeaves(v: View, item: Versioned, admin: bool)
    ensures var w := ApplyOne(v, item, admin); w == v.(messages := w.messages, marks := w.marks)
  {
    hide Accepts, Normalize;
    var w := ApplyOne(v, item, admin);
    if !Accepts(v, item) {
      assert v.(messages := v.messages, marks := v.marks) == v;
    }
  }

  /**
   The latest history: ignored unless it answers the last request in the present context, a failure
   if its numbers are out of range, a reset if it is of another generation than asked; otherwise it
   gives boundary and hasMore, and the first one also generation and cursor.
   */
  lemma HistoryMoves(v: View, c: Context, requestId: int, reply: HistoryReply)
    ensures var w := DeliverHistory(v, c, requestId, reply);
            if requestId != v.historyRequestId || !IsCurrent(v, c) then w == v
            else if !(1 <= reply.generation <= 9_007_199_254_740_991 && 0 <= reply.latest <= 9_007_199_254_740_991)
            then w == v.(initialized := false)
            else if c.generation.Some? && c.generation.value != reply.generation then w == HandleCursorReset(v)
            else
              var first := c.generation.None?;
              w == v.(messages := w.messages, marks := w.marks, generation := Some(reply.generation),
                      cursor := if first then reply.latest else v.cursor,
                      latest := if !first && v.latest > reply.latest then v.latest else reply.latest,
                      nextBeforeId := reply.nextBeforeId, hasMore := reply.hasMore, initialized := true)
  {
    var items := HistoryItems(reply.messages, reply.generation, reply.latest);
    MergeLeaves(v, items, c.admin);
    MergeLeaves(v.(generation := Some(reply.generation), messages := map[], marks := map[]), items, c.admin);
    hide ApplyAll;
  }

  /** Older history: its request is over, and if it is of the generation asked for it gives the boundary. */
  lemma OlderMoves(v: View, c: Context, requestId: int, reply: HistoryReply)
    ensures var w := DeliverOlder(v, c, requestId, reply);
            if requestId != v.olderRequestId then w == v
            else if !IsCurrent(v, c) then w == v.(loadingOlder := false)
            else if c.generation != Some(reply.generation) || !(0 <= reply.latest <= 9_007_199_254_740_991)
            then w == HandleCursorReset(v)
            else w == v.(messages := w.messages, marks := w.marks,
                         latest := if v.latest > reply.latest then v.latest else reply.latest,
                         nextBeforeId := reply.nextBeforeId, hasMore := reply.hasMore, loadingOlder := false)
  {
    MergeLeaves(v, HistoryItems(reply.messages, reply.generation, reply.latest), c.admin);
    hide ApplyAll;
  }

  /**
   A page the running sync awaits: rejected, it counts as a lost cursor; accepted, it moves the cursor to
   where it ends, and the sync goes on while there is more and pages are left, or else is over and
   with it the streak of resets.
   */
  lemma PageMoves(v: View, c: Context, syncId: int, pageCursor: int, reply: ChangesReply)
    ensures var w := DeliverChanges(v, c, syncId, pageCursor, reply);
            if !(v.sync.Reading? && v.sync.id == syncId && v.sync.inFlight && IsCurrent(v, c) && c.generation.Some?)
            then w == v && DeliverCursorLost(v, c, syncId) == v
            else if !PageAccepted(c, pageCursor, reply)
            then w == HandleCursorReset(v) == DeliverCursorLost(v, c, syncId)
            else
              var goesOn := reply.hasMore && v.sync.pagesLeft >= 2;
              w == v.(messages := w.messages, marks := w.marks, cursor := reply.nextAfterSeq,
                      latest := if v.latest > reply.latest then v.latest else reply.latest,
                      sync := if goesOn then Reading(syncId, v.sync.pagesLeft - 1, false) else Idle,
                      resetStreak := if goesOn then v.resetStreak else 0)
  {
    if c.generation.Some? {
      MergeLeaves(v, ChangeItems(SortChanges(reply.changes), c.generation.value), c.admin);
    }
    hide ApplyAll, PageAccepted;
  }

  /** The answer to a mutation never moves the cursor; an unsafe number spoils the whole of it. */
  lemma MutationMoves(v: View, c: Context, mutations: seq<MutationReply>)
    ensures var w := DeliverMutations(v, c, mutations);
            if IsCurrent(v, c) && c.generation.Some?
               && forall k | 0 <= k < |mutations| :: 0 <= mutations[k].eventSeq <= 9_007_199_254_740_991
            then w == v.(messages := w.messages, marks := w.marks, latest := w.latest)
                 && w.latest >= v.latest && (forall k | 0 <= k < |mutations| :: w.latest >= mutations[k].eventSeq)
                 && (w.latest == v.latest || exists k :: 0 <= k < |mutations| && w.latest == mutations[k].eventSeq)
            else w == v
  {
    if c.generation.Some? {
      MergeLeaves(v, MutationItems(mutations, c.generation.value), c.admin);
    }
    LargestEventSeq(v.latest, mutations);
    hide ApplyAll, MaxEventSeq;
    assert (exists k :: 0 <= k < |mutations| && !SafeSeq(mutations[k].eventSeq))
           <==> !(forall k | 0 <= k < |mutations| :: 0 <= mutations[k].eventSeq <= 9_007_199_254_740_991);
  }

  lemma {:induction false} LargestEventSeq(latest: int, mutations: seq<MutationReply>)
    ensures var m := MaxEventSeq(latest, mutations);
            && m >= latest && (forall k | 0 <= k < |mutations| :: m >= mutations[k].eventSeq)
            && (m == latest || exists k :: 0 <= k < |mutations| && m == mutations[k].eventSeq)
  {
    if mutations != [] {
      var front := mutations[..|mutations| - 1];
      LargestEventSeq(latest, front);
      var m := MaxEventSeq(latest, front);
      if m != latest {
        var k :| 0 <= k < |front| && m == front[k].eventSeq;
        assert m == mutations[k].eventSeq;
      }
      assert forall k | 0 <= k < |front| :: front[k] == mutations[k];
      assert mutations[|mutations| - 1].eventSeq <= MaxEventSeq(latest, mutations);
    }
  }

  // ----- feeds that ask for nothing -----

  /** Nothing shown, nothing running, and closed, blocked or not on an active page. */
  ghost predicate Silent(v: View) {
    && v.messages == map[] && v.marks == map[] && v.sync.Idle? && !IsOpen(v)
    && (v.disposed || !v.initialized)
  }

  /** Closing, a lost subject, and leaving for a page that is not active make the feed silent. */
  lemma BecomesSilent(v: View, next: Binding, c: Context)
    ensures !v.disposed ==> Silent(Dispose(v)) && Dispose(v).disposed && Dispose(v).revision == v.revision + 1
    ensures IsCurrent(v, c) ==> Silent(DeliverSubjectLost(v, c))
    ensures !v.disposed && v.binding != next && !next.active ==> Silent(Rebind(v, next))
  {
  }

  lemma SilentReceives(v: View, f: Flight)
    requires Silent(v) && f.Answered?
    ensures Receive(v, f) == v || Receive(v, f) == v.(loadingOlder := false)
  {
  }

  lemma SilentMoves(v: View, w: View)
    requires Silent(v) && LocalMove(v, w)
    ensures || (Silent(w) && (v.disposed ==> w.disposed))
            || (!v.disposed && exists next :: w == Rebind(v, next))
  {
    if next: Binding :| w == Rebind(v, next) {
      assert v.disposed ==> Rebind(v, next) == v;
    }
  }

  lemma SilentSendsNothing(v: View, op: Op)
    requires Silent(v)
    ensures !MaySend(v, op)
  {
  }

  /** A silent feed sends nothing, and whatever happens it stays silent unless it is bound anew. */
  lemma StepKeepsSilent(s: Sys, s': Sys)
    requires Silent(s.client) && Step(s, s')
    ensures || (Silent(s'.client) && (s.client.disposed ==> s'.client.disposed))
            || (!s.client.disposed && exists next :: s'.client == Rebind(s.client, next))
  {
    hide Apply, Executes, MaySend, Receive, LocalMove, Rebind;
    if StepSend(s, s') {
      var n: nat, op :| n !in s.flights && MaySend(s.client, op)
          && s' == s.(client := Sent(s.client, op), flights := s.flights[n := Pending(Capture(s.client), op)]);
      SilentSendsNothing(s.client, op);
    } else if StepReceive(s, s') {
      var n: nat :| n in s.flights && s.flights[n].Answered? && s' == Received(s, n);
      SilentReceives(s.client, s.flights[n]);
    } else if StepLocal(s, s') {
      SilentMoves(s.client, s'.client);
    }
  }

  /** Over every run: a closed feed shows nothing and asks for nothing ever again. */
  lemma {:induction false} ClosedForGood(run: seq<Sys>, i: nat, j: nat, op: Op)
    requires IsSysRun(run) && i <= j < |run| && run[i].client.disposed && Silent(run[i].client)
    ensures Silent(run[j].client) && run[j].client.disposed && !MaySend(run[j].client, op)
    decreases j
  {
    hide Step, Silent;
    if i < j {
      ClosedForGood(run, i, j - 1, op);
      assert Step(run[j - 1], run[(j - 1) + 1]);
      StepKeepsSilent(run[j - 1], run[j]);
    }
    SilentSendsNothing(run[j].client, op);
  }

  /** And a blocked or inactive one, until it is bound anew. */
  lemma {:induction false} SilentUntilRebound(run: seq<Sys>, i: nat, j: nat)
    requires IsSysRun(run) && i <= j < |run| && Silent(run[i].client)
    requires forall k, next | i <= k < j :: run[k + 1].client != Rebind(run[k].client, next)
    ensures Silent(run[j].client) && forall op :: !MaySend(run[j].client, op)
    decreases j
  {
    hide Step, Silent, Rebind;
    if i < j {
      SilentUntilRebound(run, i, j - 1);
      assert Step(run[j - 1], run[(j - 1) + 1]);
      StepKeepsSilent(run[j - 1], run[j]);
      assert run[(j - 1) + 1].client == run[j].client;
    }
    forall op
      ensures !MaySend(run[j].client, op)
    {
      SilentSendsNothing(run[j].client, op);
    }
  }
}
