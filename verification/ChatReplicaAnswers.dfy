/** Executing a request produces an answer the invariant of the chat protocol can rely on. */
module ChatReplicaAnswers {
  import opened Basics
  import opened ChatTables
  import opened ChatPages
  import opened ChatHistory
  import opened ChatFeed
  import opened ChatProtocol
  import opened ChatReplica
  import opened ChatReplicaSteps

  /** A page of the message table as read is a good snapshot of the tables it was read from. */
  lemma HistoryReplyIsGood(t: Tables, before: int, limit: int, admin: bool, reply: HistoryReply)
    requires TablesOk(t) && limit >= 1 && before >= 0
    requires IsHistoryReply(t, before, limit, admin, reply)
    ensures reply.generation == t.generation && reply.latest == t.lastSeq
    ensures reply.nextBeforeId.Some? ==> reply.nextBeforeId.value >= 1
    ensures SnapshotGood(t, before, admin, reply, t.lastId)
  {
    var page :| IsHistoryPage(t, before, limit, page)
      && (forall k | 0 <= k < |page.ids| :: page.ids[k] in t.messages)
      && reply == HistoryReply(ProjectAll(t, page.ids, admin), NextBeforeId(page.ids, page.hasMore), page.hasMore,
                               page.sync.latestChangeSeq, page.sync.generation);
    PageReachesBoundary(t, before, limit, page);
    forall k | 0 <= k < |reply.messages|
      ensures SnapshotItem(t, admin, reply, reply.messages[k])
    {
      NormalizeProject(page.ids[k], t.messages[page.ids[k]], admin);
    }
    forall id | id in t.messages && (before == 0 || id < before)
                && (reply.nextBeforeId.Some? ==> id >= reply.nextBeforeId.value)
      ensures InReply(reply, id)
    {
      assert id in Below(t, before);
      var k :| 0 <= k < |page.ids| && page.ids[k] == id;
      assert reply.messages[k].id == id;
    }
  }

  /** A cursor of the current projection is served, and with exactly the changes that follow it. */
  lemma ChangesReplyIsGood(s: Sys, afterSeq: int, limit: int, admin: bool, reply: Reply)
    requires TablesOk(s.server) && Live(s) && BaseOk(s) && limit >= 1
    requires s.base <= afterSeq <= s.server.lastSeq
    requires AnswersChanges(s.server, afterSeq, s.server.generation, limit, admin, reply)
    ensures reply.RChanges? && ChangesGood(s.server, afterSeq, admin, reply.changes)
    ensures var r := reply.changes;
            && |r.changes| == Min(limit, s.server.lastSeq - afterSeq)
            && r.latest == s.server.lastSeq
            && (r.hasMore <==> afterSeq + limit < s.server.lastSeq)
  {
    var t := s.server;
    var page := AnsweredPage(t, afterSeq, limit, admin, reply);
    PageChangesGood(t, afterSeq, admin, page, reply.changes);
  }

  /** The page behind the answer to a cursor with nothing missing after it. */
  lemma AnsweredPage(t: Tables, afterSeq: int, limit: int, admin: bool, reply: Reply) returns (page: ChangesPage)
    requires TablesOk(t) && limit >= 1 && 0 <= afterSeq <= t.lastSeq && NoHole(t, afterSeq, t.lastSeq)
    requires AnswersChanges(t, afterSeq, t.generation, limit, admin, reply)
    ensures reply.RChanges? && IsChangesReply(t, afterSeq, page, admin, reply.changes)
    ensures |page.seqs| == Min(limit, t.lastSeq - afterSeq) && (page.hasMore <==> afterSeq + limit < t.lastSeq)
    ensures forall k | 0 <= k < |page.seqs| :: page.seqs[k] == afterSeq + 1 + k
    ensures NextAfterSeq(page.seqs, afterSeq) == afterSeq + |page.seqs|
    ensures page.sync == SyncState(t.generation, t.lastSeq)
  {
    hide TablesOk, IsChangesReply, IsChangesAnswer;
    var answer :| IsChangesAnswer(t, afterSeq, t.generation, limit, answer)
      && match answer
         case Success(page) => reply.RChanges? && IsChangesReply(t, afterSeq, page, admin, reply.changes)
         case Failure(CursorResetRequired) => reply == RCursorLost
         case Failure(_) => reply == RRefused;
    CursorIsServed(t, afterSeq, limit, answer);
    page := answer.value;
  }

  lemma PageChangesGood(t: Tables, afterSeq: int, admin: bool, page: ChangesPage, r: ChangesReply)
    requires TablesOk(t) && 0 <= afterSeq && IsChangesReply(t, afterSeq, page, admin, r)
    requires afterSeq + |page.seqs| <= t.lastSeq && (page.hasMore ==> page.seqs != [])
    requires forall k | 0 <= k < |page.seqs| :: page.seqs[k] == afterSeq + 1 + k
    requires NextAfterSeq(page.seqs, afterSeq) == afterSeq + |page.seqs|
    requires page.sync == SyncState(t.generation, t.lastSeq)
    ensures ChangesGood(t, afterSeq, admin, r)
  {
    forall k | 0 <= k < |r.changes|
      ensures ChangeItem(t, admin, r.changes[k])
    {
      var id := t.changes[page.seqs[k]].messageId;
      NormalizeProject(id, t.messages[id], admin);
    }
  }

  /** What a mutation reports is in the log of the tables it leaves. */
  ghost predicate Recorded(t: Tables, u: Tables, m: Mutation) {
    && t.lastSeq < m.eventSeq <= u.lastSeq
    && m.eventSeq in u.changes && u.changes[m.eventSeq].messageId == m.messageId
    && m.messageId in u.messages && u.messages[m.messageId] == m.row
  }

  lemma MutationsAreRecorded(t: Tables, tx: Tx)
    requires TablesOk(t) && MutationsOf(t, tx).Some?
    ensures var ms := MutationsOf(t, tx).value;
            Apply(t, tx).generation == t.generation && forall k | 0 <= k < |ms| :: Recorded(t, Apply(t, tx), ms[k])
  {
    hide TablesOk, Grows;
    match tx
    case TxBatchDelete(ids, overlaps, deletedBy, now) =>
      BatchIsRecorded(t, ids, overlaps, deletedBy, now);
    case _ =>
  }

  lemma BatchIsRecorded(t: Tables, ids: seq<int>, overlaps: seq<bool>, deletedBy: string, now: int)
    requires TablesOk(t) && BatchIdsOk(ids) && |overlaps| == |ids|
    requires BatchDelete(t, ids, overlaps, deletedBy, now).1.Success?
    ensures var (u, result) := BatchDelete(t, ids, overlaps, deletedBy, now);
            u.generation == t.generation && forall k | 0 <= k < |result.value| :: Recorded(t, u, result.value[k])
  {
    BatchDeleteIsAtomic(t, ids, overlaps, deletedBy, now);
    hide BatchDelete, Grows;
  }

  lemma MutationAnswerOk(s: Sys, s': Sys, f: Flight)
    requires Inv(s) && f.Pending? && FlightOk(s, f) && f.op.OpMutate? && MutationsOf(s.server, f.op.tx).Some?
    requires s'.server == Apply(s.server, f.op.tx) && s'.client == s.client && s'.base == s.base
    requires s'.baseId == s.baseId
    ensures var ms := MutationReplies(MutationsOf(s.server, f.op.tx).value, AdminEndpoint(f.op.tx));
            Relevant(s', f.ctx) ==> forall k | 0 <= k < |ms| :: MutationGood(s'.server, s.base, ms[k])
  {
    MutationsAreRecorded(s.server, f.op.tx);
    var ms := MutationsOf(s.server, f.op.tx).value;
    var replies := MutationReplies(ms, AdminEndpoint(f.op.tx));
    if Relevant(s', f.ctx) {
      assert Live(s) && BaseOk(s);
      forall k | 0 <= k < |replies|
        ensures MutationGood(s'.server, s.base, replies[k])
      {
        assert Recorded(s.server, s'.server, ms[k]);
      }
    }
  }

  lemma ExecutionMoves(s: Sys, u: Tables, ctx: Context, op: Op, reply: Reply)
    requires TablesOk(s.server) && Executes(s.server, u, ctx, op, reply)
    ensures TablesOk(u) && Moves(s.server, u)
  {
    hide TablesOk, Grows, Destroys;
    GrowsReflexive(s.server);
    match op
    case OpMutate(tx) =>
      if !reply.RSubjectLost? {
        TxKeepsTables(s.server, tx);
      }
    case OpClear(generation, latest) =>
      if !reply.RSubjectLost? {
        ClearKeepsTables(s.server, generation, latest);
      }
    case _ =>
  }

  lemma AnswerIsOk(s: Sys, s': Sys, f: Flight, reply: Reply)
    requires Inv(s) && f.Pending? && FlightOk(s, f)
    requires Executes(s.server, s'.server, f.ctx, f.op, reply)
    requires s'.client == s.client && s'.base == s.base && s'.baseId == s.baseId
    ensures AnswerOk(s', Answered(f.ctx, f.op, reply, s'.server))
  {
    if Live(s) {
      assert BaseOk(s);
    }
    if reply.RSubjectLost? {
    } else {
      match f.op
      case OpHistory(_, limit) => HistoryReplyIsGood(s.server, 0, limit, f.ctx.admin, reply.history);
      case OpOlder(_, beforeId, limit) => HistoryReplyIsGood(s.server, beforeId, limit, f.ctx.admin, reply.history);
      case OpChanges(_, afterSeq, limit) =>
        if Relevant(s, f.ctx) {
          ChangesReplyIsGood(s, afterSeq, limit, f.ctx.admin, reply);
        }
      case OpMutate(tx) =>
        if MutationsOf(s.server, tx).Some? {
          MutationAnswerOk(s, s', f);
        }
      case OpClear(_, _) =>
    }
  }

  lemma ExecuteKeepsInv(s: Sys, s': Sys)
    requires Inv(s) && StepExecute(s, s')
    ensures Inv(s')
  {
    var n: nat, u, reply :| n in s.flights && s.flights[n].Pending?
      && Executes(s.server, u, s.flights[n].ctx, s.flights[n].op, reply)
      && s' == s.(server := u,
                  flights := s.flights[n := Answered(s.flights[n].ctx, s.flights[n].op, reply, u)]);
    var f := s.flights[n];
    ExecutionMoves(s, u, f.ctx, f.op, reply);
    ServerMoves(s, u);
    AnswerIsOk(s, s', f, reply);
    var s1 := s.(server := u);
    DataElsewhere(s1, s');
    SyncSameOps(s1, s');
    hide TablesOk, DataOk, SyncOk, AnswerOk;
    forall m | m in s'.flights
      ensures FlightOk(s', s'.flights[m])
    {
      FlightElsewhere(s1, s', s1.flights[m]);
    }
  }

  lemma SyncSameOps(s: Sys, s': Sys)
    requires SyncOk(s) && s'.client == s.client && s'.flights.Keys == s.flights.Keys
    requires forall n | n in s.flights :: s'.flights[n].op == s.flights[n].op
    ensures SyncOk(s')
  {
    forall n | n in s'.flights && s'.flights[n].op.OpChanges?
      ensures PageRequestOk(s', s'.flights[n].op.syncId, s'.flights[n].op.afterSeq)
    {
      assert PageRequestOk(s, s.flights[n].op.syncId, s.flights[n].op.afterSeq);
    }
    forall m, k | m in s'.flights && k in s'.flights && OfRunningSync(s', m) && OfRunningSync(s', k)
      ensures m == k
    {
      assert OfRunningSync(s, m) && OfRunningSync(s, k);
    }
  }
}
