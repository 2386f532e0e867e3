/** Delivering an answer, at any later time and in any order, keeps the invariant of the chat protocol. */
module ChatReplicaReceive {
  import opened Basics
  import opened ChatTables
  import opened ChatFeed
  import opened ChatProtocol
  import opened ChatReplica
  import opened ChatReplicaSteps

  // ----- merging good items -----

  ghost predicate GoodAsItem(t: Tables, base: int, admin: bool, item: Versioned) {
    Good(t, base, admin, item.dto.id, Normalize(item.dto, admin), item.mark)
  }

  ghost predicate AllGood(t: Tables, base: int, admin: bool, items: seq<Versioned>) {
    forall k | 0 <= k < |items| :: GoodAsItem(t, base, admin, items[k])
  }

  ghost predicate Held(t: Tables, base: int, admin: bool, v: View) {
    forall id | id in v.messages && id in v.marks :: Good(t, base, admin, id, v.messages[id], v.marks[id])
  }

  /** Merging good items into good messages gives good messages. */
  lemma MergeHeld(t: Tables, base: int, admin: bool, v: View, items: seq<Versioned>)
    requires WellFormed(v) && Held(t, base, admin, v) && AllGood(t, base, admin, items)
    ensures Held(t, base, admin, ApplyAll(v, items, admin))
  {
    var w := ApplyAll(v, items, admin);
    ApplyAllEffect(v, items, admin);
    forall id | id in w.messages && id in w.marks
      ensures Good(t, base, admin, id, w.messages[id], w.marks[id])
    {
      if id in v.marks && w.marks[id] == v.marks[id] {
        assert w.messages[id] == v.messages[id];
      } else {
        assert FromItem(w, items, admin, id);
        var k :| 0 <= k < |items| && items[k].dto.id == id && items[k].mark == w.marks[id]
              && w.messages[id] == Normalize(items[k].dto, admin);
        assert GoodAsItem(t, base, admin, items[k]);
      }
    }
  }

  /** Merging takes nothing back: what was reflected or shown stays so. */
  lemma MergeKeeps(t: Tables, v: View, items: seq<Versioned>, admin: bool)
    requires WellFormed(v) && v.generation == Some(t.generation)
    ensures var w := ApplyAll(v, items, admin);
            && v.messages.Keys <= w.messages.Keys
            && (forall c | c in t.changes && Reflected(v, t, c) :: Reflected(w, t, c))
  {
    ApplyAllEffect(v, items, admin);
    var w := ApplyAll(v, items, admin);
    forall c | c in t.changes && Reflected(v, t, c)
      ensures Reflected(w, t, c)
    {
      var id := t.changes[c].messageId;
      assert id in v.messages && MarkAdvances(v.marks[id], w.marks[id]);
    }
  }

  /**
   The view a merge leaves: the messages of the merge, the given cursor and boundary, and
   flags that do not matter to the data.
   */
  ghost predicate MergedInto(v: View, w: View, items: seq<Versioned>, admin: bool) {
    var m := ApplyAll(v, items, admin);
    && w.messages == m.messages && w.marks == m.marks
    && w.generation == v.generation && w.revision == v.revision && w.binding == v.binding && w.disposed == v.disposed
  }

  lemma MergeIsWellFormed(v: View, w: View, items: seq<Versioned>, admin: bool)
    requires WellFormed(v) && MergedInto(v, w, items, admin)
    ensures WellFormed(w) && v.messages.Keys <= w.messages.Keys
  {
    ApplyAllEffect(v, items, admin);
    var m := ApplyAll(v, items, admin);
    assert Kept(v, m);
    assert forall id | id in v.messages :: id in m.messages;
  }

  /** Other requests are none the worse for a merge. */
  lemma FlightAfterMerge(s: Sys, s': Sys, items: seq<Versioned>, admin: bool, f: Flight)
    requires WellFormed(s.client) && MergedInto(s.client, s'.client, items, admin)
    requires s'.server == s.server && s'.base == s.base && s'.baseId == s.baseId
    requires FlightOk(s, f)
    ensures FlightOk(s', f)
  {
    MergeIsWellFormed(s.client, s'.client, items, admin);
    assert Relevant(s', f.ctx) == Relevant(s, f.ctx);
    if f.op.OpOlder? && Relevant(s, f.ctx) {
      assert HeldFrom(s, f.op.beforeId);
    }
  }

  // ----- the sync loop -----

  ghost predicate SyncSettles(v: View, w: View) {
    || (w.sync == v.sync && w.cursor == v.cursor)
    || w.sync.Idle?
    || (v.sync.Reading? && w.sync.Reading? && !w.sync.inFlight && w.sync.id == v.sync.id)
  }

  // ----- answers the feed ignores or restarts on -----

  lemma FlightGone(s: Sys, s': Sys, n: nat)
    requires Inv(s) && n in s.flights
    requires s'.server == s.server && s'.client == s.client && s'.base == s.base && s'.baseId == s.baseId
    requires s'.flights == s.flights - {n}
    requires OriginsOk(s')
    ensures Inv(s')
  {
    DataElsewhere(s, s');
    hide TablesOk, DataOk, SyncOk, OriginsOk, ClientOk;
    forall m | m in s'.flights
      ensures FlightOk(s', s'.flights[m])
    {
      FlightElsewhere(s, s', s.flights[m]);
    }
  }

  /** Whether the answer changes nothing, only flags, or makes the feed start over, the invariant survives. */
  lemma QuietReceive(s: Sys, n: nat)
    requires Inv(s) && n in s.flights && s.flights[n].Answered?
    requires var v := Received(s, n).client;
             || StartsOver(s.client, v)
             || (SameProjection(s.client, v) && v.sync == s.client.sync && v.syncCount == s.client.syncCount)
    ensures Inv(Received(s, n))
  {
    var s' := Received(s, n);
    var v := s'.client;
    var s1 := s.(client := v);
    if StartsOver(s.client, v) {
      FeedStartsOver(s, v);
    } else {
      FlagsMove(s, v);
    }
    FlightGone(s1, s', n);
  }

  // ----- answers that are merged -----

  /** What a merged answer must bring along for the data of a live feed. */
  ghost predicate Brings(s: Sys, s': Sys, items: seq<Versioned>, admin: bool) {
    && AllGood(s.server, s.base, admin, items)
    && BaseOk(s')
    && (forall c | s.base < c <= s'.client.cursor && c > s.client.cursor ::
          c in s.server.changes && Reflected(s'.client, s.server, c))
    && CoverageOk(s')
  }

  lemma DataAfterMerge(s: Sys, s': Sys, items: seq<Versioned>, admin: bool)
    requires WellFormed(s.client) && DataOk(s) && Live(s) && admin == s.client.binding.admin
    requires s'.server == s.server && s'.base == s.base
    requires MergedInto(s.client, s'.client, items, admin)
    requires Brings(s, s', items, admin)
    ensures DataOk(s')
  {
    MergeHeld(s.server, s.base, admin, s.client, items);
    assert HeldOk(s');
    MergeKeeps(s.server, s.client, items, admin);
    forall c | s'.base < c <= s'.client.cursor
      ensures c in s'.server.changes && Reflected(s'.client, s'.server, c)
    {
      if c <= s.client.cursor {
        assert Reflected(s.client, s.server, c);
        assert Reflected(ApplyAll(s.client, items, admin), s.server, c);
      }
    }
  }

  /** New rows come from this answer, whose request belongs to the present revision and subject. */
  lemma MergedOrigins(s: Sys, n: nat)
    requires OriginsOk(s) && WellFormed(s.client) && n in s.flights && s.flights[n].Answered?
    requires ContextIsCurrent(s.client, s.flights[n].ctx)
    requires var v, w := s.client, Received(s, n).client;
             w.revision == v.revision && w.binding == v.binding
    ensures OriginsOk(Received(s, n))
  {
    hide Receive;
  }

  lemma MergedReceive(s: Sys, n: nat, items: seq<Versioned>)
    requires Inv(s) && n in s.flights && s.flights[n].Answered?
    requires ContextIsCurrent(s.client, s.flights[n].ctx) && s.flights[n].ctx.generation.Some?
    requires var s', f := Received(s, n), s.flights[n];
             && MergedInto(s.client, s'.client, items, f.ctx.admin)
             && s'.client.syncCount == s.client.syncCount && SyncSettles(s.client, s'.client)
             && (s'.client.sync != s.client.sync || s'.client.cursor != s.client.cursor ==>
                   s'.client.sync.Idle? || OfRunningSync(s, n))
             && (s'.client.nextBeforeId.Some? ==> s'.client.nextBeforeId.value >= 1)
             && (Live(s) ==> Brings(s, s', items, f.ctx.admin))
    ensures Inv(Received(s, n))
  {
    var s', f := Received(s, n), s.flights[n];
    assert FlightOk(s, f);
    MergeIsWellFormed(s.client, s'.client, items, f.ctx.admin);
    if Live(s) {
      DataAfterMerge(s, s', items, f.ctx.admin);
    }
    assert ClientOk(s');
    MergedOrigins(s, n);
    assert SyncOk(s');
    hide TablesOk, DataOk, SyncOk, OriginsOk, ClientOk, MergedInto;
    forall m | m in s'.flights
      ensures FlightOk(s', s'.flights[m])
    {
      FlightAfterMerge(s, s', items, f.ctx.admin, s.flights[m]);
    }
  }

  lemma HistoryItemsGood(t: Tables, before: int, admin: bool, reply: HistoryReply, asOfId: int, base: int)
    requires SnapshotGood(t, before, admin, reply, asOfId) && base <= reply.latest
    ensures AllGood(t, base, admin, HistoryItems(reply.messages, reply.generation, reply.latest))
  {
    var items := HistoryItems(reply.messages, reply.generation, reply.latest);
    forall k | 0 <= k < |items|
      ensures GoodAsItem(t, base, admin, items[k])
    {
      assert SnapshotItem(t, admin, reply, reply.messages[k]);
    }
  }

  /** Every message of a merged page is shown. */
  lemma PageIsShown(v: View, reply: HistoryReply, admin: bool, id: int)
    requires WellFormed(v) && v.generation == Some(reply.generation) && InReply(reply, id)
    ensures id in ApplyAll(v, HistoryItems(reply.messages, reply.generation, reply.latest), admin).messages
  {
    var items := HistoryItems(reply.messages, reply.generation, reply.latest);
    ApplyAllEffect(v, items, admin);
    var k :| 0 <= k < |reply.messages| && reply.messages[k].id == id;
    assert Covered(ApplyAll(v, items, admin), items[k]);
  }

  /** A refreshed latest page, or an older page. */
  lemma HistoryPageKeepsInv(s: Sys, n: nat)
    requires Inv(s) && n in s.flights && s.flights[n].Answered? && s.flights[n].reply.RHistory?
    requires var f := s.flights[n];
             && ContextIsCurrent(s.client, f.ctx) && f.ctx.generation == Some(f.reply.history.generation)
             && MergedInto(s.client, Received(s, n).client,
                  HistoryItems(f.reply.history.messages, f.reply.history.generation, f.reply.history.latest),
                      f.ctx.admin)
             && var v := Received(s, n).client;
             && v.sync == s.client.sync && v.syncCount == s.client.syncCount && v.cursor == s.client.cursor
             && v.nextBeforeId == f.reply.history.nextBeforeId && v.hasMore == f.reply.history.hasMore
    ensures Inv(Received(s, n))
  {
    var s', f := Received(s, n), s.flights[n];
    var reply := f.reply.history;
    var items := HistoryItems(reply.messages, reply.generation, reply.latest);
    assert FlightOk(s, f);
    if Live(s) {
      var before := if f.op.OpHistory? then 0 else f.op.beforeId;
      assert HistoryAnswerOk(s, f, before) && Relevant(s, f.ctx);
      HistoryItemsGood(s.server, before, f.ctx.admin, reply, f.asOf.lastId, s.base);
      assert BaseOk(s) && BaseOk(s');
      PageCoverage(s, s', f, before);
    }
    MergedReceive(s, n, items);
  }

  lemma PageCoverage(s: Sys, s': Sys, f: Flight, before: int)
    requires f.Answered? && f.reply.RHistory? && FlightOk(s, f) && Relevant(s, f.ctx) && WellFormed(s.client)
    requires before == if f.op.OpHistory? then 0 else f.op.beforeId
    requires f.op.OpHistory? || f.op.OpOlder?
    requires s'.server == s.server && s'.baseId == s.baseId
    requires HistoryAnswerOk(s, f, before) && s.client.generation == Some(f.reply.history.generation)
    requires MergedInto(s.client, s'.client,
               HistoryItems(f.reply.history.messages, f.reply.history.generation, f.reply.history.latest), f.ctx.admin)
    requires s'.client.nextBeforeId == f.reply.history.nextBeforeId
    ensures CoverageOk(s')
  {
    var reply := f.reply.history;
    MergeIsWellFormed(s.client, s'.client, HistoryItems(reply.messages, reply.generation, reply.latest), f.ctx.admin);
    forall id | id in s'.server.messages && id <= s'.baseId
                && (s'.client.nextBeforeId.Some? ==> id >= s'.client.nextBeforeId.value)
      ensures id in s'.client.messages
    {
      if before != 0 && id >= before {
        assert HeldFrom(s, before);
        assert id in s.client.messages;
      } else {
        PageIsShown(s.client, reply, f.ctx.admin, id);
      }
    }
  }

  // ----- the first snapshot of a projection -----

  lemma SnapshotKeepsInv(s: Sys, n: nat)
    requires Inv(s) && n in s.flights && s.flights[n].Answered? && s.flights[n].reply.RHistory?
    requires s.flights[n].op.OpHistory?
    requires var f := s.flights[n];
             && ContextIsCurrent(s.client, f.ctx) && f.ctx.generation.None?
             && f.op.requestId == s.client.historyRequestId
             && f.reply.history.generation <= MAX_SAFE_INTEGER && SafeSeq(f.reply.history.latest)
    ensures Inv(Received(s, n))
  {
    var s', f := Received(s, n), s.flights[n];
    var reply := f.reply.history;
    assert FlightOk(s, f) && HistoryAnswerOk(s, f, 0);
    var items := HistoryItems(reply.messages, reply.generation, reply.latest);
    var blank := s.client.(generation := Some(reply.generation), messages := map[], marks := map[]);
    ApplyAllEffect(blank, items, f.ctx.admin);
    assert s'.client == ApplyAll(blank, items, f.ctx.admin).(cursor := reply.latest, latest := reply.latest,
      nextBeforeId := reply.nextBeforeId, hasMore := reply.hasMore, initialized := true);
    SnapshotData(s', blank, items, f.ctx.admin, reply, f.asOf.lastId);
    assert forall id :: id !in s.client.marks;
    assert OriginsOk(s');
    assert ClientOk(s');
    hide TablesOk, DataOk, SyncOk, OriginsOk, ClientOk;
    forall m | m in s'.flights
      ensures FlightOk(s', s'.flights[m])
    {
      FlightBeforeSnapshot(s, s', s.flights[m]);
    }
  }

  /** Requests sent before the feed had a generation do not concern the projection it now has. */
  lemma FlightBeforeSnapshot(s: Sys, s': Sys, f: Flight)
    requires FlightOk(s, f) && s.client.generation.None? && s'.client.generation.Some?
    requires s'.server == s.server && s'.client.revision == s.client.revision
    requires s'.client.binding == s.client.binding && s'.client.disposed == s.client.disposed && !s.client.disposed
    ensures FlightOk(s', f)
  {
    assert !Relevant(s', f.ctx);
  }

  lemma SnapshotData(s: Sys, blank: View, items: seq<Versioned>, admin: bool, reply: HistoryReply, asOfId: int)
    requires blank.messages == map[] && blank.marks == map[] && blank.generation == Some(reply.generation)
    requires items == HistoryItems(reply.messages, reply.generation, reply.latest)
    requires s.client.generation == blank.generation && admin == s.client.binding.admin
    requires s.client.messages == ApplyAll(blank, items, admin).messages
    requires s.client.marks == ApplyAll(blank, items, admin).marks
    requires s.client.cursor == s.base == reply.latest && s.baseId == asOfId
    requires s.client.nextBeforeId == reply.nextBeforeId && s.client.hasMore == reply.hasMore
    requires reply.generation == s.server.generation ==> SnapshotGood(s.server, 0, admin, reply, asOfId)
    ensures DataOk(s)
  {
    if Live(s) {
      HistoryItemsGood(s.server, 0, admin, reply, asOfId, s.base);
      MergeHeld(s.server, s.base, admin, blank, items);
      assert HeldOk(s);
      forall id | id in s.server.messages && id <= s.baseId
                  && (s.client.nextBeforeId.Some? ==> id >= s.client.nextBeforeId.value)
        ensures id in s.client.messages
      {
        PageIsShown(blank, reply, admin, id);
      }
    }
  }

  // ----- a page of changes -----

  lemma ChangeItemsGood(t: Tables, base: int, after: int, admin: bool, reply: ChangesReply)
    requires ChangesGood(t, after, admin, reply) && base <= after
    ensures AllGood(t, base, admin, ChangeItems(reply.changes, t.generation))
    ensures SortChanges(reply.changes) == reply.changes
  {
    var items := ChangeItems(reply.changes, t.generation);
    forall k | 0 <= k < |items|
      ensures GoodAsItem(t, base, admin, items[k])
    {
      assert ChangeItem(t, admin, reply.changes[k]);
    }
    SortedStays(reply.changes);
  }

  /** Every change of a merged page is reflected. */
  lemma PageIsReflected(t: Tables, v: View, after: int, admin: bool, reply: ChangesReply, c: int)
    requires WellFormed(v) && v.generation == Some(t.generation)
    requires ChangesGood(t, after, admin, reply) && after < c <= reply.nextAfterSeq
    ensures c in t.changes && Reflected(ApplyAll(v, ChangeItems(reply.changes, t.generation), admin), t, c)
  {
    var items := ChangeItems(reply.changes, t.generation);
    var k := c - after - 1;
    assert ChangeItem(t, admin, reply.changes[k]);
    ApplyAllEffect(v, items, admin);
    assert Covered(ApplyAll(v, items, admin), items[k]);
  }

  lemma ChangesPageKeepsInv(s: Sys, n: nat)
    requires Inv(s) && n in s.flights && s.flights[n].Answered? && s.flights[n].reply.RChanges?
    requires s.flights[n].op.OpChanges?
    requires var f := s.flights[n];
             AwaitsPage(s.client, f.ctx, f.op.syncId) && PageAccepted(f.ctx, f.op.afterSeq, f.reply.changes)
    ensures Inv(Received(s, n))
  {
    var s', f := Received(s, n), s.flights[n];
    var reply := f.reply.changes;
    var items := ChangeItems(SortChanges(reply.changes), f.ctx.generation.value);
    assert FlightOk(s, f);
    assert OfRunningSync(s, n) && PageRequestOk(s, f.op.syncId, f.op.afterSeq);
    hide TablesOk, DataOk, SyncOk, OriginsOk, FlightOk, PageAccepted;
    ApplyAllEffect(s.client, items, f.ctx.admin);
    hide Kept, Sourced, AllCovered, WellFormed;
    assert MergedInto(s.client, s'.client, items, f.ctx.admin);
    if Live(s) {
      ChangesPageBrings(s, s', f, items);
    }
    MergedReceive(s, n, items);
  }

  lemma ChangesPageBrings(s: Sys, s': Sys, f: Flight, items: seq<Versioned>)
    requires Inv(s) && Live(s) && f.Answered? && f.reply.RChanges? && f.op.OpChanges? && FlightOk(s, f)
    requires ContextIsCurrent(s.client, f.ctx) && f.ctx.generation.Some? && f.op.afterSeq == s.client.cursor
    requires items == ChangeItems(SortChanges(f.reply.changes.changes), f.ctx.generation.value)
    requires MergedInto(s.client, s'.client, items, f.ctx.admin)
    requires s'.server == s.server && s'.base == s.base && s'.baseId == s.baseId
    requires s'.client.cursor == f.reply.changes.nextAfterSeq
    requires s'.client.nextBeforeId == s.client.nextBeforeId && s'.client.hasMore == s.client.hasMore
    ensures Brings(s, s', items, f.ctx.admin)
  {
    var reply := f.reply.changes;
    assert Relevant(s, f.ctx) && BaseOk(s) && ChangesGood(s.server, f.op.afterSeq, f.ctx.admin, reply);
    ChangeItemsGood(s.server, s.base, f.op.afterSeq, f.ctx.admin, reply);
    forall c | s.client.cursor < c <= s'.client.cursor
      ensures c in s.server.changes && Reflected(s'.client, s.server, c)
    {
      PageIsReflected(s.server, s.client, f.op.afterSeq, f.ctx.admin, reply, c);
    }
    CoverageAfterMerge(s, s', items, f.ctx.admin);
    assert BaseOk(s');
  }

  lemma CoverageAfterMerge(s: Sys, s': Sys, items: seq<Versioned>, admin: bool)
    requires WellFormed(s.client) && CoverageOk(s) && MergedInto(s.client, s'.client, items, admin)
    requires s'.server == s.server && s'.baseId == s.baseId && s'.client.nextBeforeId == s.client.nextBeforeId
    ensures CoverageOk(s')
  {
    MergeIsWellFormed(s.client, s'.client, items, admin);
  }

  // ----- mutation responses -----

  lemma MutationsKeepInv(s: Sys, n: nat)
    requires Inv(s) && n in s.flights && s.flights[n].Answered? && s.flights[n].reply.RMutations?
    requires var f := s.flights[n];
             && ContextIsCurrent(s.client, f.ctx) && f.ctx.generation.Some?
             && forall k | 0 <= k < |f.reply.mutations| :: SafeSeq(f.reply.mutations[k].eventSeq)
    ensures Inv(Received(s, n))
  {
    var s', f := Received(s, n), s.flights[n];
    var items := MutationItems(f.reply.mutations, f.ctx.generation.value);
    assert FlightOk(s, f);
    ApplyAllEffect(s.client, items, f.ctx.admin);
    if Live(s) {
      assert Relevant(s, f.ctx) && BaseOk(s) && BaseOk(s');
      CoverageAfterMerge(s, s', items, f.ctx.admin);
    }
    MergedReceive(s, n, items);
  }

  // ----- all answers -----

  lemma LatestAnswerKeepsInv(s: Sys, n: nat)
    requires Inv(s) && n in s.flights && s.flights[n].Answered? && s.flights[n].reply.RHistory?
    requires s.flights[n].op.OpHistory?
    ensures Inv(Received(s, n))
  {
    hide TablesOk, DataOk, SyncOk, OriginsOk, FlightOk;
    var f, v := s.flights[n], s.client;
    var reply := f.reply.history;
    InvalidateStartsOver(v, false);
    ApplyAllEffect(v, HistoryItems(reply.messages, reply.generation, reply.latest), f.ctx.admin);
    hide Kept, Sourced, AllCovered, WellFormed, StartsOver, Invalidate;
    if f.op.requestId != v.historyRequestId || !ContextIsCurrent(v, f.ctx)
      || !(1 <= reply.generation <= MAX_SAFE_INTEGER) || !SafeSeq(reply.latest)
      || (f.ctx.generation.Some? && reply.generation != f.ctx.generation.value) {
      QuietReceive(s, n);
    } else if f.ctx.generation.None? {
      SnapshotKeepsInv(s, n);
    } else {
      HistoryPageKeepsInv(s, n);
    }
  }

  lemma OlderAnswerKeepsInv(s: Sys, n: nat)
    requires Inv(s) && n in s.flights && s.flights[n].Answered? && s.flights[n].reply.RHistory?
    requires s.flights[n].op.OpOlder?
    ensures Inv(Received(s, n))
  {
    hide TablesOk, DataOk, SyncOk, OriginsOk, FlightOk;
    var f, v := s.flights[n], s.client;
    var reply := f.reply.history;
    InvalidateStartsOver(v, false);
    ApplyAllEffect(v, HistoryItems(reply.messages, reply.generation, reply.latest), f.ctx.admin);
    hide Kept, Sourced, AllCovered, WellFormed, StartsOver, Invalidate;
    if f.op.requestId != v.olderRequestId || !ContextIsCurrent(v, f.ctx)
      || f.ctx.generation != Some(reply.generation) || !SafeSeq(reply.latest) {
      QuietReceive(s, n);
    } else {
      HistoryPageKeepsInv(s, n);
    }
  }

  lemma ReceiveKeepsInv(s: Sys, n: nat)
    requires Inv(s) && n in s.flights && s.flights[n].Answered?
    ensures Inv(Received(s, n))
  {
    var f, v := s.flights[n], s.client;
    assert FlightOk(s, f);
    InvalidateStartsOver(v, false);
    InvalidateStartsOver(v, true);
    match f.reply
    case RHistory(_) =>
      if f.op.OpHistory? {
        LatestAnswerKeepsInv(s, n);
      } else {
        OlderAnswerKeepsInv(s, n);
      }
    case RChanges(reply) =>
      if AwaitsPage(v, f.ctx, f.op.syncId) && PageAccepted(f.ctx, f.op.afterSeq, reply) {
        ChangesPageKeepsInv(s, n);
      } else {
        QuietReceive(s, n);
      }
    case RMutations(mutations) =>
      if ContextIsCurrent(v, f.ctx) && f.ctx.generation.Some?
        && forall k | 0 <= k < |mutations| :: SafeSeq(mutations[k].eventSeq) {
        MutationsKeepInv(s, n);
      } else {
        QuietReceive(s, n);
      }
    case _ => QuietReceive(s, n);
  }
}
