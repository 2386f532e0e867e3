/** What every run of the chat protocol guarantees to the person looking at the feed. */
module ChatTheorems {
  import opened Basics
  import opened ChatTables
  import opened ChatHistory
  import opened ChatFeed
  import opened ChatProtocol
  import opened ChatReplica
  import opened ChatReplicaSteps
  import opened ChatReplicaAnswers
  import opened ChatReplicaReceive

  lemma InitKeepsInv(s: Sys)
    requires Init(s)
    ensures Inv(s)
  {
  }

  lemma StepKeepsInv(s: Sys, s': Sys)
    requires Inv(s) && Step(s, s')
    ensures Inv(s')
  {
    hide Inv;
    if StepServer(s, s') {
      ServerStepKeepsInv(s, s');
    } else if StepSend(s, s') {
      SendKeepsInv(s, s');
    } else if StepExecute(s, s') {
      ExecuteKeepsInv(s, s');
    } else if StepReceive(s, s') {
      var n: nat :| n in s.flights && s.flights[n].Answered? && s' == Received(s, n);
      ReceiveKeepsInv(s, n);
    } else if StepLose(s, s') {
      LoseKeepsInv(s, s');
    } else {
      LocalStepKeepsInv(s, s');
    }
  }

  lemma ServerStepKeepsInv(s: Sys, s': Sys)
    requires Inv(s) && StepServer(s, s')
    ensures Inv(s')
  {
    var tx :| s' == s.(server := Apply(s.server, tx));
    TxKeepsTables(s.server, tx);
    ServerMoves(s, Apply(s.server, tx));
  }

  lemma {:induction false} RunKeepsInv(run: seq<Sys>, i: nat)
    requires IsSysRun(run) && i < |run|
    ensures Inv(run[i])
  {
    hide Inv, Step;
    if i == 0 {
      InitKeepsInv(run[0]);
    } else {
      RunKeepsInv(run, i - 1);
      assert Step(run[i - 1], run[(i - 1) + 1]);
      StepKeepsInv(run[i - 1], run[i]);
    }
  }

  // ----- convergence and completeness -----

  ghost predicate CaughtUp(s: Sys) {
    Live(s) && s.client.cursor == s.server.lastSeq
  }

  /**
   Whenever the open feed has the server's generation and its cursor has reached the latest
   change, everything it shows is exactly the server's projection of the current row,
   whatever was delivered late, twice overtaken or lost on the way.
   */
  lemma ReplicaConverges(run: seq<Sys>, i: nat)
    requires IsSysRun(run) && i < |run| && CaughtUp(run[i])
    ensures var s := run[i];
            forall id | id in s.client.messages ::
              && id in s.server.messages
              && s.client.messages[id] == Project(id, s.server.messages[id], s.client.binding.admin)
  {
    var s := run[i];
    RunKeepsInv(run, i);
    assert BaseOk(s) && HeldOk(s) && AppliedOk(s);
    forall id | id in s.client.messages
      ensures id in s.server.messages
      ensures s.client.messages[id] == Project(id, s.server.messages[id], s.client.binding.admin)
    {
    }
  }

  /**
   In the same situation nothing is missing: the feed shows every message of the server with
   an id at or above the boundary, and every message at all when there is no boundary left.
   */
  lemma ReplicaIsComplete(run: seq<Sys>, i: nat)
    requires IsSysRun(run) && i < |run| && CaughtUp(run[i])
    ensures var s := run[i];
            && (s.client.hasMore <==> s.client.nextBeforeId.Some?)
            && forall id | id in s.server.messages ::
                 (s.client.nextBeforeId.Some? ==> id >= s.client.nextBeforeId.value) ==> id in s.client.messages
  {
    var s := run[i];
    RunKeepsInv(run, i);
    assert BaseOk(s) && AppliedOk(s) && CoverageOk(s);
    forall id | id in s.server.messages && (s.client.nextBeforeId.Some? ==> id >= s.client.nextBeforeId.value)
      ensures id in s.client.messages
    {
      if id > s.baseId {
        var c := CreationIsLogged(s.server, id);
        assert c > s.base;
        assert Reflected(s.client, s.server, c);
      }
    }
  }

  // ----- no spurious reset -----

  /**
   The server serves the cursor of every live projection with exactly the next
   min(limit, latest - cursor) consecutive changes, and announces more exactly if more remain.
   */
  lemma LiveCursorIsServed(run: seq<Sys>, i: nat, n: nat, reply: Reply)
    requires IsSysRun(run) && i < |run|
    requires var s := run[i];
             && n in s.flights && s.flights[n].Pending? && s.flights[n].op.OpChanges? && Relevant(s, s.flights[n].ctx)
             && AnswersChanges(s.server, s.flights[n].op.afterSeq, s.server.generation, s.flights[n].op.limit,
                               s.flights[n].ctx.admin, reply)
    ensures var s, op := run[i], run[i].flights[n].op;
            && reply.RChanges?
            && var r := reply.changes;
            && |r.changes| == Min(op.limit, s.server.lastSeq - op.afterSeq)
            && (forall k | 0 <= k < |r.changes| :: r.changes[k].at == op.afterSeq + 1 + k)
            && r.nextAfterSeq == op.afterSeq + |r.changes|
            && (r.hasMore <==> r.nextAfterSeq < s.server.lastSeq)
  {
    var s := run[i];
    RunKeepsInv(run, i);
    assert FlightOk(s, s.flights[n]) && BaseOk(s);
    ChangesReplyIsGood(s, s.flights[n].op.afterSeq, s.flights[n].op.limit, s.flights[n].ctx.admin, reply);
  }

  /**
   A live feed merges the page it waits for exactly when its high-water mark is a safe integer;
   the client rejects nothing else about a page the server really sent.
   */
  lemma LivePageIsAccepted(run: seq<Sys>, i: nat, n: nat)
    requires IsSysRun(run) && i < |run|
    requires var s := run[i];
             && n in s.flights && s.flights[n].Answered? && s.flights[n].reply.RChanges?
             && s.flights[n].op.OpChanges? && Live(s) && AwaitsPage(s.client, s.flights[n].ctx, s.flights[n].op.syncId)
    ensures var f := run[i].flights[n];
            PageAccepted(f.ctx, f.op.afterSeq, f.reply.changes) <==> SafeSeq(f.reply.changes.latest)
  {
    var s := run[i];
    RunKeepsInv(run, i);
    var f := s.flights[n];
    assert FlightOk(s, f) && Relevant(s, f.ctx);
    SortedStays(f.reply.changes.changes);
  }

  /** An answered read makes a live feed start over only once sequence numbers have left the safe range. */
  lemma NoSpuriousReset(run: seq<Sys>, i: nat, n: nat)
    requires IsSysRun(run) && i < |run|
    requires n in run[i].flights && run[i].flights[n].Answered?
    requires var reply := run[i].flights[n].reply; reply.RHistory? || reply.RChanges? || reply.RCursorLost?
    requires Live(run[i]) && SafeSeq(run[i].server.lastSeq)
    ensures Received(run[i], n).client.revision == run[i].client.revision
  {
    var s := run[i];
    RunKeepsInv(run, i);
    var f := s.flights[n];
    assert FlightOk(s, f);
    hide Inv, SnapshotGood, HandleCursorReset;
    match f.reply
    case RHistory(reply) => HistoryDoesNotReset(s.client, f);
    case RChanges(reply) =>
      if AwaitsPage(s.client, f.ctx, f.op.syncId) {
        LivePageIsAccepted(run, i, n);
        hide PageAccepted, FlightOk;
        ApplyAllEffect(s.client, ChangeItems(SortChanges(reply.changes), f.ctx.generation.value), f.ctx.admin);
      }
    case RCursorLost =>
  }

  lemma HistoryDoesNotReset(v: View, f: Flight)
    requires f.Answered? && f.reply.RHistory? && WellFormed(v) && v.generation.Some?
    requires var reply := f.reply.history;
             ContextIsCurrent(v, f.ctx) ==> f.ctx.generation == Some(reply.generation) && SafeSeq(reply.latest)
    ensures Receive(v, f).revision == v.revision
  {
    hide HandleCursorReset;
    var reply := f.reply.history;
    ApplyAllEffect(v, HistoryItems(reply.messages, reply.generation, reply.latest), f.ctx.admin);
    hide HistoryItems, ApplyAll, Kept, Sourced, AllCovered;
  }

  /** The awaited page moves the cursor of a live feed past every change it brings, and the feed stays live. */
  lemma PageAdvancesCursor(run: seq<Sys>, i: nat, n: nat)
    requires IsSysRun(run) && i < |run| && Live(run[i]) && SafeSeq(run[i].server.lastSeq)
    requires var s := run[i];
             && n in s.flights && s.flights[n].Answered? && s.flights[n].op.OpChanges? && s.flights[n].reply.RChanges?
             && AwaitsPage(s.client, s.flights[n].ctx, s.flights[n].op.syncId)
    ensures var s, reply := run[i], run[i].flights[n].reply.changes;
            && Received(s, n).client.cursor == s.client.cursor + |reply.changes|
            && Live(Received(s, n))
  {
    var s := run[i];
    RunKeepsInv(run, i);
    LivePageIsAccepted(run, i, n);
    var f := s.flights[n];
    assert FlightOk(s, f) && Relevant(s, f.ctx) && PageRequestOk(s, f.op.syncId, f.op.afterSeq);
    hide Inv, DataOk, SyncOk, OriginsOk, TablesOk, ContextOk, PageAccepted;
    ApplyAllEffect(s.client, ChangeItems(SortChanges(f.reply.changes.changes), f.ctx.generation.value), f.ctx.admin);
  }

  // ----- isolation -----

  /**
   Every message shown came from a request sent under the current revision, by the current
   subject, in the current role.
   */
  lemma ShownMessagesBelongToSubject(run: seq<Sys>, i: nat, id: int)
    requires IsSysRun(run) && i < |run| && id in run[i].client.messages
    ensures var s := run[i];
            && id in s.origins
            && s.origins[id].ctx.revision == s.client.revision
            && s.origins[id].ctx.admin == s.client.binding.admin
            && s.origins[id].ctx.subjectKey == s.client.binding.subjectKey
  {
    RunKeepsInv(run, i);
    assert OriginsOk(run[i]);
  }

  /** The part of a view that shows data or decides what is read next. */
  ghost predicate SameData(v: View, w: View) {
    SameProjection(v, w) && w.latest == v.latest && w.binding == v.binding
  }

  /** Nothing requested before a reset or a change of subject can reappear: its answer is inert. */
  lemma StaleAnswerIsInert(s: Sys, n: nat)
    requires n in s.flights && s.flights[n].Answered?
    requires s.flights[n].ctx.revision != s.client.revision
    ensures SameData(s.client, Received(s, n).client)
  {
  }

  /** A change of subject or role empties the feed and makes every earlier request stale, in one step. */
  lemma RebindForgets(v: View, next: Binding)
    requires !v.disposed && v.binding != next
    ensures var w := Rebind(v, next);
            && w.binding == next && w.messages == map[] && w.marks == map[] && w.generation.None?
            && w.revision > v.revision
            && forall c: Context | c.revision <= v.revision :: !ContextIsCurrent(w, c)
  {
  }

  // ----- watermarks -----

  /** While the revision lasts, no message disappears and no mark moves backwards. */
  lemma MarksNeverRegress(run: seq<Sys>, i: nat)
    requires IsSysRun(run) && i + 1 < |run|
    requires run[i + 1].client.revision == run[i].client.revision
    requires run[i].client.generation.Some?
    ensures Kept(run[i].client, run[i + 1].client)
  {
    var s, s' := run[i], run[i + 1];
    RunKeepsInv(run, i);
    assert Step(s, s');
    hide ApplyAll, TablesOk, DataOk, SyncOk, OriginsOk, FlightOk, Kept;
    if StepReceive(s, s') {
      var n: nat :| n in s.flights && s.flights[n].Answered? && s' == Received(s, n);
      ReceiveKeepsMarks(s.client, s.flights[n]);
    } else {
      QuietStepKeepsMarks(s, s');
    }
  }

  lemma SameIsKept(v: View, w: View)
    requires WellFormed(v) && w.messages == v.messages && w.marks == v.marks
    ensures Kept(v, w)
  {
  }

  lemma QuietStepKeepsMarks(s: Sys, s': Sys)
    requires WellFormed(s.client) && ClientOk(s) && Step(s, s') && !StepReceive(s, s')
    ensures s'.client.revision == s.client.revision ==> Kept(s.client, s'.client)
  {
    hide Kept, WellFormed, StepServer, StepSend, StepExecute, StepReceive, StepLose, LocalMove;
    if StepLocal(s, s') {
      var w :| LocalMove(s.client, w) && s' == s.(client := w);
      LocalKeepsMarks(s.client, w);
    } else {
      OtherStepKeepsMarks(s, s');
    }
  }

  lemma OtherStepKeepsMarks(s: Sys, s': Sys)
    requires WellFormed(s.client)
    requires StepServer(s, s') || StepSend(s, s') || StepExecute(s, s') || StepLose(s, s')
    ensures Kept(s.client, s'.client)
  {
    hide Kept, Apply, Executes, WellFormed;
    if StepSend(s, s') {
      var n: nat, op :| n !in s.flights && MaySend(s.client, op)
        && s' == s.(client := Sent(s.client, op), flights := s.flights[n := Pending(Capture(s.client), op)]);
      SameIsKept(s.client, Sent(s.client, op));
    } else {
      SameIsKept(s.client, s.client);
    }
  }

  lemma LocalKeepsMarks(v: View, w: View)
    requires WellFormed(v) && LocalMove(v, w) && (v.nextBeforeId.Some? ==> v.generation.Some?)
    ensures w.revision == v.revision ==> Kept(v, w)
  {
    hide Kept, WellFormed, StartsOver;
    if FlagMove(v, w) {
      FlagKinds(v, w);
      SameIsKept(v, w);
    } else if next :| w == Rebind(v, next) {
    } else {
    }
  }

  lemma HistoryKeepsMarks(v: View, c: Context, requestId: int, reply: HistoryReply)
    requires WellFormed(v) && v.generation.Some?
    ensures var w := DeliverHistory(v, c, requestId, reply); w.revision == v.revision ==> Kept(v, w)
  {
    ApplyAllEffect(v, HistoryItems(reply.messages, reply.generation, reply.latest), c.admin);
    hide HistoryItems, ApplyAll;
  }

  lemma OlderKeepsMarks(v: View, c: Context, requestId: int, reply: HistoryReply)
    requires WellFormed(v) && v.generation.Some?
    ensures var w := DeliverOlder(v, c, requestId, reply); w.revision == v.revision ==> Kept(v, w)
  {
    ApplyAllEffect(v, HistoryItems(reply.messages, reply.generation, reply.latest), c.admin);
    hide HistoryItems, ApplyAll;
  }

  lemma ChangesKeepMarks(v: View, c: Context, syncId: int, pageCursor: int, reply: ChangesReply)
    requires WellFormed(v)
    ensures var w := DeliverChanges(v, c, syncId, pageCursor, reply); w.revision == v.revision ==> Kept(v, w)
  {
    if c.generation.Some? {
      ApplyAllEffect(v, ChangeItems(SortChanges(reply.changes), c.generation.value), c.admin);
    }
  }

  lemma MutationsKeepMarks(v: View, c: Context, mutations: seq<MutationReply>)
    requires WellFormed(v)
    ensures Kept(v, DeliverMutations(v, c, mutations))
  {
    if c.generation.Some? {
      ApplyAllEffect(v, MutationItems(mutations, c.generation.value), c.admin);
    }
  }

  lemma ReceiveKeepsMarks(v: View, f: Flight)
    requires WellFormed(v) && f.Answered? && v.generation.Some?
    ensures Receive(v, f).revision == v.revision ==> Kept(v, Receive(v, f))
  {
    hide Kept, ApplyAll, WellFormed, DeliverHistory, DeliverOlder, DeliverChanges, DeliverMutations;
    SameIsKept(v, v);
    match f.reply
    case RHistory(reply) =>
      if f.op.OpHistory? {
        HistoryKeepsMarks(v, f.ctx, f.op.requestId, reply);
      } else if f.op.OpOlder? {
        OlderKeepsMarks(v, f.ctx, f.op.requestId, reply);
      }
    case RChanges(reply) =>
      if f.op.OpChanges? {
        ChangesKeepMarks(v, f.ctx, f.op.syncId, f.op.afterSeq, reply);
      }
    case RMutations(mutations) => MutationsKeepMarks(v, f.ctx, mutations);
    case _ =>
  }
}
