/**
 Server and replica together: one chat database, changed at any time by anybody, one feed,
 and requests that are executed and delivered at any later time, in any order, or never.

 `base` and `baseId` are auxiliary: the log position and the largest message id at the
 snapshot the current projection started from. `origins` remembers, for every message shown,
 the context of the request it came from and the tables its row was read from. No step of the
 system depends on them.
 */
module ChatProtocol {
  import opened Basics
  import opened ChatTables
  import opened ChatPages
  import opened ChatHistory
  import opened ChatFeed

  datatype Op =
    | OpHistory(requestId: int, limit: int)
    | OpOlder(requestId: int, beforeId: int, limit: int)
    | OpChanges(syncId: int, afterSeq: int, limit: int)
    | OpMutate(tx: Tx)
    | OpClear(expectedGeneration: int, expectedLatest: int)

  datatype Reply =
    | RHistory(history: HistoryReply)
    | RChanges(changes: ChangesReply)
    | RCursorLost
    | RMutations(mutations: seq<MutationReply>)
    | RCleared
    | RClearConflict
    | RSubjectLost
    | RRefused

  /** `asOf` is auxiliary: the tables right after the request was executed, whose rows the reply shows. */
  datatype Flight =
    | Pending(ctx: Context, op: Op)
    | Answered(ctx: Context, op: Op, reply: Reply, asOf: Tables)

  /** Where a message shown came from. */
  datatype Origin = Origin(ctx: Context, asOf: Tables)

  datatype Sys = Sys(
    server: Tables, client: View, flights: map<nat, Flight>, base: int, baseId: int, origins: map<int, Origin>)

  // ----- what the server answers -----

  function ProjectAll(t: Tables, ids: seq<int>, admin: bool): (r: seq<Dto>)
    requires forall k | 0 <= k < |ids| :: ids[k] in t.messages
    ensures |r| == |ids|
  {
    seq(|ids|, k requires 0 <= k < |ids| => Project(ids[k], t.messages[ids[k]], admin))
  }

  ghost predicate IsHistoryReply(t: Tables, before: int, limit: int, admin: bool, reply: HistoryReply) {
    exists page :: IsHistoryPage(t, before, limit, page)
      && (forall k | 0 <= k < |page.ids| :: page.ids[k] in t.messages)
      && reply == HistoryReply(ProjectAll(t, page.ids, admin), NextBeforeId(page.ids, page.hasMore), page.hasMore,
                               page.sync.latestChangeSeq, page.sync.generation)
  }

  ghost predicate IsChangesReply(t: Tables, after: int, page: ChangesPage, admin: bool, reply: ChangesReply) {
    && (forall k | 0 <= k < |page.seqs| :: page.seqs[k] in t.changes && t.changes[page.seqs[k]].messageId in t.messages)
    && |reply.changes| == |page.seqs|
    && (forall k | 0 <= k < |page.seqs| ::
          var id := t.changes[page.seqs[k]].messageId;
          reply.changes[k] == ChangeDto(page.seqs[k], Project(id, t.messages[id], admin)))
    && reply.nextAfterSeq == NextAfterSeq(page.seqs, after)
    && reply.hasMore == page.hasMore
    && reply.latest == page.sync.latestChangeSeq
    && reply.generation == page.sync.generation
  }

  ghost predicate AnswersChanges(t: Tables, after: int, generation: int, limit: int, admin: bool, reply: Reply) {
    exists answer :: IsChangesAnswer(t, after, generation, limit, answer)
      && match answer
         case Success(page) => reply.RChanges? && IsChangesReply(t, after, page, admin, reply.changes)
         case Failure(CursorResetRequired) => reply == RCursorLost
         case Failure(_) => reply == RRefused
  }

  /** The mutations a successful transaction reports, and the projection its endpoint uses. */
  ghost function MutationsOf(t: Tables, tx: Tx): Option<seq<Mutation>> {
    match tx
    case TxCreate(input) => One(CreateMessage(t, input).1)
    case TxWithdraw(id, authorKey, actorRole, now, window) =>
        One(WithdrawMessage(t, id, authorKey, actorRole, now, window).1)
    case TxDelete(id, deletedBy, now, overlapped) => One(DeleteMessage(t, id, deletedBy, now, overlapped).1)
    case TxBatchDelete(ids, overlaps, deletedBy, now) =>
      if BatchIdsOk(ids) && |overlaps| == |ids| && BatchDelete(t, ids, overlaps, deletedBy, now).1.Success?
      then Some(BatchDelete(t, ids, overlaps, deletedBy, now).1.value) else None
    case _ => None
  }

  function One(r: Result<Mutation, ChatError>): Option<seq<Mutation>> {
    if r.Success? then Some([r.value]) else None
  }

  predicate AdminEndpoint(tx: Tx) {
    tx.TxDelete? || tx.TxBatchDelete?
  }

  function MutationReplies(mutations: seq<Mutation>, admin: bool): (r: seq<MutationReply>)
    ensures |r| == |mutations|
  {
    seq(|mutations|, k requires 0 <= k < |mutations| =>
      MutationReply(Project(mutations[k].messageId, mutations[k].row, admin), mutations[k].eventSeq))
  }

  /** Executing a request at `t` may leave `u` and produce `reply`. The session may also turn out to be gone. */
  ghost predicate Executes(t: Tables, u: Tables, ctx: Context, op: Op, reply: Reply) {
    if reply.RSubjectLost? then u == t else
    match op
    case OpHistory(_, limit) => u == t && reply.RHistory? && IsHistoryReply(t, 0, limit, ctx.admin, reply.history)
    case OpOlder(_, beforeId, limit) =>
      u == t && reply.RHistory? && IsHistoryReply(t, beforeId, limit, ctx.admin, reply.history)
    case OpChanges(_, afterSeq, limit) =>
      u == t && ctx.generation.Some? && AnswersChanges(t, afterSeq, ctx.generation.value, limit, ctx.admin, reply)
    case OpMutate(tx) =>
      && u == Apply(t, tx)
      && reply == if MutationsOf(t, tx).Some?
                  then RMutations(MutationReplies(MutationsOf(t, tx).value, AdminEndpoint(tx))) else RRefused
    case OpClear(generation, latest) =>
      && u == ClearMessages(t, generation, latest).0
      && reply == match ClearMessages(t, generation, latest).1
                  case Success(_) => RCleared
                  case Failure(ClearConflict) => RClearConflict
                  case Failure(_) => RRefused
  }

  // ----- what the feed does with an answer -----

  ghost function Receive(v: View, f: Flight): View
    requires f.Answered?
  {
    match f.reply
    case RHistory(history) =>
      if f.op.OpHistory? then DeliverHistory(v, f.ctx, f.op.requestId, history)
      else if f.op.OpOlder? then DeliverOlder(v, f.ctx, f.op.requestId, history)
      else v
    case RChanges(changes) =>
      if f.op.OpChanges? then DeliverChanges(v, f.ctx, f.op.syncId, f.op.afterSeq, changes) else v
    case RCursorLost => if f.op.OpChanges? then DeliverCursorLost(v, f.ctx, f.op.syncId) else v
    case RMutations(mutations) => DeliverMutations(v, f.ctx, mutations)
    case RCleared => DeliverCleared(v, f.ctx)
    case RClearConflict => DeliverCleared(v, f.ctx)
    case RSubjectLost => DeliverSubjectLost(v, f.ctx)
    case RRefused => v
  }

  // ----- steps -----

  ghost predicate Init(s: Sys) {
    && s.server == EMPTY_TABLES
    && (exists binding :: s.client == FreshView(binding))
    && s.flights == map[] && s.origins == map[]
  }

  /** Another client, an administrator or the maintenance loop commits a transaction. */
  ghost predicate StepServer(s: Sys, s': Sys) {
    exists tx :: s' == s.(server := Apply(s.server, tx))
  }

  ghost predicate StepSend(s: Sys, s': Sys) {
    exists n: nat, op :: n !in s.flights && MaySend(s.client, op)
      && s' == s.(client := Sent(s.client, op), flights := s.flights[n := Pending(Capture(s.client), op)])
  }

  predicate MaySend(v: View, op: Op) {
    match op
    case OpHistory(requestId, limit) => Ready(v) && requestId == v.historyRequestId + 1 && limit >= 1
    case OpOlder(requestId, beforeId, limit) =>
      MayLoadOlder(v) && requestId == v.olderRequestId + 1 && v.nextBeforeId == Some(beforeId) && limit >= 1
    case OpChanges(syncId, afterSeq, limit) =>
      MayRequestPage(v) && syncId == v.sync.id && afterSeq == v.cursor && limit >= 1
    case OpMutate(tx) => Ready(v) && !tx.TxClear? && !tx.TxCleanup?
    case OpClear(generation, latest) =>
      Ready(v) && v.binding.admin && v.generation == Some(generation) && latest == v.latest
  }

  function Sent(v: View, op: Op): View {
    match op
    case OpHistory(_, _) => StartHistory(v)
    case OpOlder(_, _, _) => StartOlder(v)
    case OpChanges(_, _, _) => RequestPage(v)
    case _ => v
  }

  ghost predicate StepExecute(s: Sys, s': Sys) {
    exists n: nat, u, reply :: n in s.flights && s.flights[n].Pending?
      && Executes(s.server, u, s.flights[n].ctx, s.flights[n].op, reply)
      && s' == s.(server := u,
                  flights := s.flights[n := Answered(s.flights[n].ctx, s.flights[n].op, reply, u)])
  }

  ghost predicate StepReceive(s: Sys, s': Sys) {
    exists n: nat :: n in s.flights && s.flights[n].Answered? && s' == Received(s, n)
  }

  ghost function Received(s: Sys, n: nat): Sys
    requires n in s.flights && s.flights[n].Answered?
  {
    var f := s.flights[n];
    var v := Receive(s.client, f);
    var snapshot := s.client.generation.None? && v.generation.Some? && f.reply.RHistory?;
    Sys(s.server, v, s.flights - {n},
        if snapshot then f.reply.history.latest else s.base,
        if snapshot then f.asOf.lastId else s.baseId,
        map id | id in v.messages ::
          if id in s.client.marks && id in v.marks && v.marks[id] == s.client.marks[id] && id in s.origins
          then s.origins[id] else Origin(f.ctx, f.asOf))
  }

  /** A request or its answer is lost or aborted. */
  ghost predicate StepLose(s: Sys, s': Sys) {
    exists n: nat :: n in s.flights && s' == s.(flights := s.flights - {n})
  }

  /** What the feed does by itself: start or give up a sync, note a failure, reload, change subject, close. */
  ghost predicate StepLocal(s: Sys, s': Sys) {
    exists v :: LocalMove(s.client, v) && s' == s.(client := v)
  }

  ghost predicate LocalMove(v: View, w: View) {
    FlagMove(v, w) || RestartMove(v, w)
  }

  ghost predicate FlagMove(v: View, w: View) {
    w == StartSync(v) || w == AbortSync(v) || w == v.(loadingOlder := false) || w == v.(initialized := false)
  }

  ghost predicate RestartMove(v: View, w: View) {
    w == ReloadAfterSyncFailure(v) || w == Dispose(v) || exists next :: w == Rebind(v, next)
  }

  ghost predicate Step(s: Sys, s': Sys) {
    StepServer(s, s') || StepSend(s, s') || StepExecute(s, s') || StepReceive(s, s') || StepLose(s, s')
        || StepLocal(s, s')
  }

  ghost predicate IsSysRun(run: seq<Sys>) {
    |run| >= 1 && Init(run[0]) && forall i | 0 <= i < |run| - 1 :: Step(run[i], run[i + 1])
  }
}
