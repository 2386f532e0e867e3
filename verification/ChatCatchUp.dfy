/**
 How far a replica is from the server: pages read from the server's present tables bring the
 cursor to the latest change in a bounded number of deliveries.
 */
module ChatCatchUp {
  import opened Basics
  import opened ChatTables
  import opened ChatHistory
  import opened ChatFeed
  import opened ChatProtocol
  import opened ChatReplica
  import opened ChatReplicaSteps
  import opened ChatReplicaAnswers
  import opened ChatTheorems

  // ----- what a page was read from -----

  /** A page on its way answers its request from the tables remembered with it. */
  ghost predicate AnswersItsTables(f: Flight) {
    f.Answered? && f.op.OpChanges? && f.reply.RChanges? ==>
      && f.ctx.generation.Some?
      && AnswersChanges(f.asOf, f.op.afterSeq, f.ctx.generation.value, f.op.limit, f.ctx.admin, f.reply)
  }

  ghost predicate AllAnswerTheirTables(s: Sys) {
    forall n | n in s.flights :: AnswersItsTables(s.flights[n])
  }

  lemma StepAnswersTables(s: Sys, s': Sys)
    requires AllAnswerTheirTables(s) && Step(s, s')
    ensures AllAnswerTheirTables(s')
  {
    hide AnswersChanges, StepServer, StepLocal, MaySend, Apply;
    if StepReceive(s, s') {
      hide Receive;
    } else if StepServer(s, s') || StepLocal(s, s') {
      OnlyFlightsMatter(s, s');
    }
  }

  lemma OnlyFlightsMatter(s: Sys, s': Sys)
    requires AllAnswerTheirTables(s) && (StepServer(s, s') || StepLocal(s, s'))
    ensures AllAnswerTheirTables(s')
  {
    hide AnswersItsTables, LocalMove, Apply;
  }

  lemma {:induction false} RunAnswersTables(run: seq<Sys>, i: nat)
    requires IsSysRun(run) && i < |run|
    ensures AllAnswerTheirTables(run[i])
  {
    hide Step;
    if i > 0 {
      RunAnswersTables(run, i - 1);
      assert Step(run[i - 1], run[(i - 1) + 1]);
      StepAnswersTables(run[i - 1], run[i]);
    }
  }

  // ----- one page -----

  /** The page the running sync waits for, read from the tables the server still has. */
  ghost predicate FreshPage(s: Sys, n: nat, limit: nat) {
    && n in s.flights && s.flights[n].Answered? && s.flights[n].op.OpChanges? && s.flights[n].reply.RChanges?
    && AwaitsPage(s.client, s.flights[n].ctx, s.flights[n].op.syncId)
    && s.flights[n].asOf == s.server && s.flights[n].op.limit >= limit
  }

  /** One page read from the present tables brings the cursor to min(cursor + limit, latest). */
  lemma FreshPageAdvances(run: seq<Sys>, i: nat, n: nat)
    requires IsSysRun(run) && i < |run| && Live(run[i]) && SafeSeq(run[i].server.lastSeq) && FreshPage(run[i], n, 0)
    ensures var s := run[i];
            Received(s, n).client.cursor == Min(s.client.cursor + s.flights[n].op.limit, s.server.lastSeq)
  {
    var s, f := run[i], run[i].flights[n];
    RunKeepsInv(run, i);
    RunAnswersTables(run, i);
    PageAdvancesCursor(run, i, n);
    hide Received, AnswersChanges, ChangesGood, TablesOk;
    assert AnswersItsTables(f) && FlightOk(s, f) && PageRequestOk(s, f.op.syncId, f.op.afterSeq) && BaseOk(s);
    ChangesReplyIsGood(s, f.op.afterSeq, f.op.limit, f.ctx.admin, f.reply);
  }

  // ----- the cursor never falls -----

  lemma CursorNeverFalls(run: seq<Sys>, i: nat)
    requires IsSysRun(run) && i + 1 < |run| && run[i].client.generation.Some?
    requires run[i + 1].client.revision == run[i].client.revision
    ensures run[i + 1].client.cursor >= run[i].client.cursor
  {
    var s, s' := run[i], run[i + 1];
    RunKeepsInv(run, i);
    assert Step(s, s');
    hide TablesOk, DataOk, OriginsOk, FlightOk;
    if StepReceive(s, s') {
      var n: nat :| n in s.flights && s.flights[n].Answered? && s' == Received(s, n);
      ReceiveKeepsCursor(s, n);
    } else {
      QuietStepKeepsCursor(s, s');
    }
  }

  lemma HistoryKeepsCursor(v: View, c: Context, requestId: int, reply: HistoryReply)
    requires WellFormed(v) && v.generation.Some?
    ensures var w := DeliverHistory(v, c, requestId, reply); w.revision == v.revision ==> w.cursor == v.cursor
  {
    ApplyAllEffect(v, HistoryItems(reply.messages, reply.generation, reply.latest), c.admin);
    hide HistoryItems, ApplyAll, Kept, Sourced, AllCovered, WellFormed;
  }

  lemma OlderKeepsCursor(v: View, c: Context, requestId: int, reply: HistoryReply)
    requires WellFormed(v)
    ensures var w := DeliverOlder(v, c, requestId, reply); w.revision == v.revision ==> w.cursor == v.cursor
  {
    ApplyAllEffect(v, HistoryItems(reply.messages, reply.generation, reply.latest), c.admin);
    hide HistoryItems, ApplyAll, Kept, Sourced, AllCovered, WellFormed;
  }

  lemma ChangesRaiseCursor(v: View, c: Context, syncId: int, pageCursor: int, reply: ChangesReply)
    requires v.sync.Reading? && v.sync.id == syncId ==> pageCursor == v.cursor
    ensures var w := DeliverChanges(v, c, syncId, pageCursor, reply); w.revision == v.revision ==> w.cursor >= v.cursor
  {
    hide ApplyAll, ChangeItems, SortChanges, PageEntriesOk;
  }

  lemma MutationsKeepCursor(v: View, c: Context, mutations: seq<MutationReply>)
    requires WellFormed(v)
    ensures DeliverMutations(v, c, mutations).cursor == v.cursor
  {
    if c.generation.Some? {
      ApplyAllEffect(v, MutationItems(mutations, c.generation.value), c.admin);
    }
    hide MutationItems, ApplyAll, Kept, Sourced, AllCovered, WellFormed;
  }

  lemma ReceiveKeepsCursor(s: Sys, n: nat)
    requires n in s.flights && s.flights[n].Answered? && s.client.generation.Some? && WellFormed(s.client) && SyncOk(s)
    ensures var v := Received(s, n).client; v.revision == s.client.revision ==> v.cursor >= s.client.cursor
  {
    var f, v := s.flights[n], s.client;
    hide DeliverHistory, DeliverOlder, DeliverChanges, DeliverMutations, WellFormed;
    assert f.op.OpChanges? ==> PageRequestOk(s, f.op.syncId, f.op.afterSeq);
    match f.reply
    case RHistory(reply) =>
      if f.op.OpHistory? {
        HistoryKeepsCursor(v, f.ctx, f.op.requestId, reply);
      } else if f.op.OpOlder? {
        OlderKeepsCursor(v, f.ctx, f.op.requestId, reply);
      }
    case RChanges(reply) =>
      if f.op.OpChanges? {
        ChangesRaiseCursor(v, f.ctx, f.op.syncId, f.op.afterSeq, reply);
      }
    case RMutations(mutations) => MutationsKeepCursor(v, f.ctx, mutations);
    case _ =>
  }

  lemma QuietStepKeepsCursor(s: Sys, s': Sys)
    requires Step(s, s') && !StepReceive(s, s')
    ensures s'.client.revision == s.client.revision ==> s'.client.cursor == s.client.cursor
  {
    hide StepServer, StepExecute, StepReceive, StepLose, LocalMove, MaySend;
    if StepLocal(s, s') {
      var w :| LocalMove(s.client, w) && s' == s.(client := w);
      LocalKeepsCursor(s.client, w);
    } else {
      OtherStepKeepsCursor(s, s');
    }
  }

  lemma LocalKeepsCursor(v: View, w: View)
    requires LocalMove(v, w)
    ensures w.revision == v.revision ==> w.cursor == v.cursor
  {
    if FlagMove(v, w) {
      FlagKinds(v, w);
    }
  }

  lemma OtherStepKeepsCursor(s: Sys, s': Sys)
    requires StepServer(s, s') || StepSend(s, s') || StepExecute(s, s') || StepLose(s, s')
    ensures s'.client.cursor == s.client.cursor
  {
    hide Apply, Executes, MaySend;
  }

  // ----- many pages -----

  ghost predicate DeliversFreshPage(s: Sys, s': Sys, limit: nat) {
    exists n: nat :: FreshPage(s, n, limit) && s' == Received(s, n)
  }

  /** How many of the steps from `i` to `j` deliver such a page. */
  ghost function PagesDelivered(run: seq<Sys>, i: nat, j: nat, limit: nat): nat
    requires i <= j < |run|
    decreases j
  {
    if i == j then 0
    else PagesDelivered(run, i, j - 1, limit) + if DeliversFreshPage(run[j - 1], run[j], limit) then 1 else 0
  }

  /** The feed stays on one live projection, and nobody changes the chat. */
  ghost predicate Undisturbed(run: seq<Sys>, i: nat, j: nat)
    requires i <= j < |run|
  {
    forall k | i <= k <= j ::
      Live(run[k]) && run[k].client.revision == run[i].client.revision && run[k].server == run[i].server
  }

  lemma CursorIsBounded(run: seq<Sys>, i: nat)
    requires IsSysRun(run) && i < |run| && Live(run[i])
    ensures run[i].client.cursor <= run[i].server.lastSeq
  {
    RunKeepsInv(run, i);
    assert BaseOk(run[i]);
  }

  /** Every delivery gains a full page or reaches the end, and nothing else that happens loses any of it. */
  lemma {:induction false} PagesAddUp(run: seq<Sys>, i: nat, j: nat, limit: nat)
    requires IsSysRun(run) && i <= j < |run| && Undisturbed(run, i, j) && SafeSeq(run[i].server.lastSeq)
    ensures run[i].client.cursor + limit * PagesDelivered(run, i, j, limit) <= run[j].client.cursor
            || run[j].client.cursor == run[i].server.lastSeq
    decreases j
  {
    hide IsSysRun, Received, AwaitsPage;
    if i < j {
      var s, s' := run[j - 1], run[j];
      PagesAddUp(run, i, j - 1, limit);
      CursorIsBounded(run, j);
      CursorNeverFalls(run, j - 1);
      OneMore(limit, PagesDelivered(run, i, j - 1, limit));
      if DeliversFreshPage(s, s', limit) {
        var n: nat :| FreshPage(s, n, limit) && s' == Received(s, n);
        FreshPageAdvances(run, j - 1, n);
      }
    }
  }

  lemma OneMore(limit: nat, n: nat)
    ensures limit * (n + 1) == limit * n + limit
  {
  }

  /**
   Catching up is bounded: while nobody changes the chat, as many pages of at least `limit` changes
   as it takes to cover the distance bring the feed to the latest change. By then it shows exactly
   what the server holds.
   */
  lemma CatchesUp(run: seq<Sys>, i: nat, j: nat, limit: nat)
    requires IsSysRun(run) && i <= j < |run| && Undisturbed(run, i, j) && SafeSeq(run[i].server.lastSeq)
    requires run[i].client.cursor + limit * PagesDelivered(run, i, j, limit) >= run[i].server.lastSeq
    ensures CaughtUp(run[j])
    ensures var s := run[j];
            forall id | id in s.server.messages
                && (s.client.nextBeforeId.Some? ==> id >= s.client.nextBeforeId.value) ::
              && id in s.client.messages
              && s.client.messages[id] == Project(id, s.server.messages[id], s.client.binding.admin)
  {
    PagesAddUp(run, i, j, limit);
    CursorIsBounded(run, j);
    ReplicaConverges(run, j);
    ReplicaIsComplete(run, j);
  }
}
