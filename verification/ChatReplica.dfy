/**
 The invariant of the chat protocol and what it gives: convergence and completeness of the
 replica, no spurious reset, and isolation of subjects.
 */
module ChatReplica {
  import opened Basics
  import opened ChatTables
  import opened ChatPages
  import opened ChatFeed
  import opened ChatProtocol

  /** The open feed shows a projection of the generation the server still has. */
  ghost predicate Live(s: Sys) {
    !s.client.disposed && s.client.generation == Some(s.server.generation)
  }

  // ----- single projections -----

  /** A later change of the message exists, which the replica will still have to read. */
  ghost predicate Superseded(t: Tables, id: int, mark: Watermark) {
    exists c :: c in t.changes && t.changes[c].messageId == id
      && (mark.at < c || (mark.at == c && mark.source == FromMutation))
  }

  /** A projection with its mark: either it is what the server would send now, or it is superseded. */
  ghost predicate Good(t: Tables, base: int, admin: bool, id: int, dto: Dto, mark: Watermark) {
    && id in t.messages
    && base <= mark.at <= t.lastSeq
    && (mark.source == FromMutation ==> base < mark.at)
    && (dto == Project(id, t.messages[id], admin) || Superseded(t, id, mark))
  }

  lemma GoodGrows(t: Tables, u: Tables, base: int, admin: bool, id: int, dto: Dto, mark: Watermark)
    requires Good(t, base, admin, id, dto, mark) && Grows(t, u)
    ensures Good(u, base, admin, id, dto, mark)
  {
    if Superseded(t, id, mark) {
      var c :| c in t.changes && t.changes[c].messageId == id
        && (mark.at < c || (mark.at == c && mark.source == FromMutation));
      assert c in u.changes;
    } else if u.messages[id] != t.messages[id] {
      assert Touched(t, u, id);
      var c :| t.lastSeq < c && c in u.changes && u.changes[c].messageId == id;
      assert mark.at < c;
    }
  }

  // ----- answers on their way -----

  ghost predicate SnapshotItem(t: Tables, admin: bool, reply: HistoryReply, dto: Dto) {
    Good(t, reply.latest, admin, dto.id, Normalize(dto, admin), Watermark(reply.generation, reply.latest, FromHistory))
  }

  ghost predicate InReply(reply: HistoryReply, id: int) {
    exists k :: 0 <= k < |reply.messages| && reply.messages[k].id == id
  }

  /** A history page against tables of its own generation, however much they have grown since. */
  ghost predicate SnapshotGood(t: Tables, before: int, admin: bool, reply: HistoryReply, asOfId: int) {
    && 0 <= reply.latest <= t.lastSeq && asOfId <= t.lastId
    && NoHole(t, reply.latest, t.lastSeq)
    && (forall c | c in t.changes && c <= reply.latest :: t.changes[c].messageId <= asOfId)
    && (forall k | 0 <= k < |reply.messages| :: SnapshotItem(t, admin, reply, reply.messages[k]))
    && (reply.hasMore <==> reply.nextBeforeId.Some?)
    && (forall id | id in t.messages && id <= asOfId && (before == 0 || id < before)
                    && (reply.nextBeforeId.Some? ==> id >= reply.nextBeforeId.value) :: InReply(reply, id))
  }

  lemma SnapshotGrows(t: Tables, u: Tables, before: int, admin: bool, reply: HistoryReply, asOfId: int)
    requires TablesOk(t) && SnapshotGood(t, before, admin, reply, asOfId) && Grows(t, u)
    ensures SnapshotGood(u, before, admin, reply, asOfId)
  {
    forall k | 0 <= k < |reply.messages|
      ensures SnapshotItem(u, admin, reply, reply.messages[k])
    {
      var dto := reply.messages[k];
      assert SnapshotItem(t, admin, reply, dto);
      GoodGrows(t, u, reply.latest, admin, dto.id, Normalize(dto, admin),
                Watermark(reply.generation, reply.latest, FromHistory));
    }
  }

  ghost predicate ChangeItem(t: Tables, admin: bool, c: ChangeDto) {
    && c.at in t.changes && t.changes[c.at].messageId == c.dto.id
    && Good(t, c.at, admin, c.dto.id, Normalize(c.dto, admin), Watermark(t.generation, c.at, FromChanges))
  }

  /** A page of changes against tables of its own generation: exactly the numbers after the cursor. */
  ghost predicate ChangesGood(t: Tables, after: int, admin: bool, reply: ChangesReply) {
    && reply.generation == t.generation
    && 0 <= after && reply.nextAfterSeq == after + |reply.changes|
    && reply.nextAfterSeq <= reply.latest <= t.lastSeq
    && (reply.hasMore ==> reply.changes != [])
    && (forall k | 0 <= k < |reply.changes| :: reply.changes[k].at == after + 1 + k)
    && (forall k | 0 <= k < |reply.changes| :: ChangeItem(t, admin, reply.changes[k]))
  }

  ghost predicate MutationGood(t: Tables, base: int, m: MutationReply) {
    base < m.eventSeq <= t.lastSeq && m.eventSeq in t.changes && t.changes[m.eventSeq].messageId == m.dto.id
  }

  // ----- the invariant -----

  /** Requests sent from the current projection, while the server still has its generation. */
  ghost predicate Relevant(s: Sys, ctx: Context) {
    Live(s) && ctx.revision == s.client.revision && ctx.generation == s.client.generation
  }

  ghost predicate ClientOk(s: Sys) {
    && WellFormed(s.client)
    && (s.client.generation.Some? ==> 1 <= s.client.generation.value <= s.server.generation)
    && (s.client.nextBeforeId.Some? ==> s.client.generation.Some? && s.client.nextBeforeId.value >= 1)
  }

  ghost predicate ContextOk(s: Sys, ctx: Context) {
    && ctx.revision <= s.client.revision
    && (ctx.revision == s.client.revision && !s.client.disposed ==>
          && ctx.admin == s.client.binding.admin && ctx.subjectKey == s.client.binding.subjectKey
          && (ctx.generation.Some? ==> ctx.generation == s.client.generation))
  }

  ghost predicate BaseOk(s: Sys) {
    && 0 <= s.base <= s.client.cursor <= s.server.lastSeq && s.baseId <= s.server.lastId
    && NoHole(s.server, s.base, s.server.lastSeq)
    && (forall c | c in s.server.changes && c <= s.base :: s.server.changes[c].messageId <= s.baseId)
    && (s.client.hasMore <==> s.client.nextBeforeId.Some?)
  }

  ghost predicate HeldOk(s: Sys) {
    forall id | id in s.client.messages && id in s.client.marks ::
      Good(s.server, s.base, s.client.binding.admin, id, s.client.messages[id], s.client.marks[id])
  }

  /** Every change the cursor has passed since the snapshot is reflected in the marks. */
  ghost predicate AppliedOk(s: Sys) {
    forall c | s.base < c <= s.client.cursor :: c in s.server.changes && Reflected(s.client, s.server, c)
  }

  ghost predicate Reflected(v: View, t: Tables, c: int)
    requires c in t.changes
  {
    var id := t.changes[c].messageId;
    id in v.marks && AtLeastAsNew(Watermark(t.generation, c, FromChanges), v.marks[id])
  }

  /** Messages that existed at the snapshot are shown down to the boundary. */
  ghost predicate CoverageOk(s: Sys) {
    forall id | id in s.server.messages && id <= s.baseId
                && (s.client.nextBeforeId.Some? ==> id >= s.client.nextBeforeId.value) :: id in s.client.messages
  }

  /** Everything an earlier page covered is still shown. */
  ghost predicate HeldFrom(s: Sys, beforeId: int) {
    forall id | id in s.server.messages && id <= s.baseId && id >= beforeId :: id in s.client.messages
  }

  ghost predicate PageRequestOk(s: Sys, syncId: int, afterSeq: int) {
    && syncId <= s.client.syncCount
    && (s.client.sync.Reading? && s.client.sync.id == syncId ==> s.client.sync.inFlight && afterSeq == s.client.cursor)
  }

  ghost predicate RequestOk(s: Sys, ctx: Context, op: Op) {
    match op
    case OpOlder(_, beforeId, limit) => beforeId >= 1 && limit >= 1 && (Relevant(s, ctx) ==> HeldFrom(s, beforeId))
    case OpChanges(syncId, afterSeq, limit) =>
      && ctx.generation.Some? && limit >= 1
      && (Relevant(s, ctx) ==> s.base <= afterSeq <= s.server.lastSeq)
    case OpHistory(_, limit) => limit >= 1
    case _ => true
  }

  ghost predicate HistoryAnswerOk(s: Sys, f: Flight, before: int)
    requires f.Answered? && f.reply.RHistory?
  {
    var reply := f.reply.history;
    && 1 <= reply.generation <= s.server.generation
    && (reply.nextBeforeId.Some? ==> reply.nextBeforeId.value >= 1)
    && (reply.generation == s.server.generation ==> SnapshotGood(s.server, before, f.ctx.admin, reply, f.asOf.lastId))
    && (Relevant(s, f.ctx) ==>
          reply.generation == s.server.generation && s.base <= reply.latest && s.baseId <= f.asOf.lastId)
  }

  ghost predicate AnswerOk(s: Sys, f: Flight)
    requires f.Answered?
  {
    match f.reply
    case RHistory(reply) =>
      if f.op.OpHistory? then HistoryAnswerOk(s, f, 0)
      else f.op.OpOlder? && HistoryAnswerOk(s, f, f.op.beforeId)
    case RChanges(reply) =>
      f.op.OpChanges? && (Relevant(s, f.ctx) ==> ChangesGood(s.server, f.op.afterSeq, f.ctx.admin, reply))
    case RCursorLost => f.op.OpChanges? && !Relevant(s, f.ctx)
    case RMutations(mutations) =>
      Relevant(s, f.ctx) ==> forall k | 0 <= k < |mutations| :: MutationGood(s.server, s.base, mutations[k])
    case _ => true
  }

  ghost predicate FlightOk(s: Sys, f: Flight) {
    && ContextOk(s, f.ctx)
    && RequestOk(s, f.ctx, f.op)
    && (f.Answered? ==> AnswerOk(s, f))
  }

  ghost predicate OriginsOk(s: Sys) {
    forall id | id in s.client.messages ::
      && id in s.origins
      && s.origins[id].ctx.revision == s.client.revision
      && s.origins[id].ctx.admin == s.client.binding.admin
      && s.origins[id].ctx.subjectKey == s.client.binding.subjectKey
  }

  ghost predicate DataOk(s: Sys) {
    Live(s) ==> BaseOk(s) && HeldOk(s) && AppliedOk(s) && CoverageOk(s)
  }

  /** The running sync has at most one page request out, and it asks for what follows the cursor. */
  ghost predicate SyncOk(s: Sys) {
    && (s.client.sync.Reading? ==> s.client.sync.id <= s.client.syncCount && s.client.generation.Some?)
    && (forall n | n in s.flights && s.flights[n].op.OpChanges? ::
          PageRequestOk(s, s.flights[n].op.syncId, s.flights[n].op.afterSeq))
    && (forall m, n | m in s.flights && n in s.flights && OfRunningSync(s, m) && OfRunningSync(s, n) :: m == n)
  }

  ghost predicate OfRunningSync(s: Sys, n: nat)
    requires n in s.flights
  {
    s.client.sync.Reading? && s.flights[n].op.OpChanges? && s.flights[n].op.syncId == s.client.sync.id
  }

  ghost predicate Inv(s: Sys) {
    && TablesOk(s.server)
    && ClientOk(s)
    && DataOk(s)
    && SyncOk(s)
    && OriginsOk(s)
    && (forall n | n in s.flights :: FlightOk(s, s.flights[n]))
  }
}
