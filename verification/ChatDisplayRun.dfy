/**
 A run in which the display steps back, for every page limit: a page shows a deletion early, at
 the position of the message's creation, and the late answer to the withdrawal is accepted after it.
 */
module ChatDisplayRun {
  import opened Basics
  import opened ChatTables
  import opened ChatPages
  import opened ChatHistory
  import opened ChatFeed
  import opened ChatProtocol

  // ----- runs whose reads all use one page limit -----

  predicate ReadsUpTo(op: Op, limit: int) {
    match op
    case OpHistory(_, n) => n == limit
    case OpOlder(_, _, n) => n == limit
    case OpChanges(_, _, n) => n == limit
    case _ => true
  }

  ghost predicate AllReadsUpTo(s: Sys, limit: int) {
    forall n | n in s.flights :: ReadsUpTo(s.flights[n].op, limit)
  }

  ghost predicate IsRunWithLimit(run: seq<Sys>, limit: int) {
    |run| >= 1 && IsSysRun(run) && forall i | 0 <= i < |run| :: AllReadsUpTo(run[i], limit)
  }

  ghost predicate Reachable(s: Sys, limit: int) {
    exists run :: |run| >= 1 && IsRunWithLimit(run, limit) && run[|run| - 1] == s
  }

  lemma ExtendRun(run: seq<Sys>, s': Sys, limit: int)
    requires |run| >= 1 && IsRunWithLimit(run, limit) && Step(run[|run| - 1], s') && AllReadsUpTo(s', limit)
    ensures IsRunWithLimit(run + [s'], limit)
  {
    hide Step;
    var longer := run + [s'];
    forall i | 0 <= i < |longer| - 1
      ensures Step(longer[i], longer[i + 1])
    {
      if i < |run| - 1 {
        assert Step(run[i], run[i + 1]);
      }
    }
  }

  lemma Extend(s: Sys, s': Sys, limit: int)
    requires Reachable(s, limit) && Step(s, s') && AllReadsUpTo(s', limit)
    ensures Reachable(s', limit)
  {
    hide Step, IsRunWithLimit;
    var run :| |run| >= 1 && IsRunWithLimit(run, limit) && run[|run| - 1] == s;
    ExtendRun(run, s', limit);
    assert (run + [s'])[|run + [s']| - 1] == s';
  }

  lemma Send(s: Sys, n: nat, op: Op, limit: int) returns (s': Sys)
    requires Reachable(s, limit) && n !in s.flights && MaySend(s.client, op)
    requires AllReadsUpTo(s, limit) && ReadsUpTo(op, limit)
    ensures s' == s.(client := Sent(s.client, op), flights := s.flights[n := Pending(Capture(s.client), op)])
    ensures Reachable(s', limit) && AllReadsUpTo(s', limit)
  {
    s' := s.(client := Sent(s.client, op), flights := s.flights[n := Pending(Capture(s.client), op)]);
    assert StepSend(s, s');
    Extend(s, s', limit);
  }

  lemma Execute(s: Sys, n: nat, u: Tables, reply: Reply, limit: int) returns (s': Sys)
    requires Reachable(s, limit) && AllReadsUpTo(s, limit) && n in s.flights && s.flights[n].Pending?
    requires Executes(s.server, u, s.flights[n].ctx, s.flights[n].op, reply)
    ensures s' == s.(server := u, flights := s.flights[n := Answered(s.flights[n].ctx, s.flights[n].op, reply, u)])
    ensures Reachable(s', limit) && AllReadsUpTo(s', limit)
  {
    hide Executes;
    s' := s.(server := u, flights := s.flights[n := Answered(s.flights[n].ctx, s.flights[n].op, reply, u)]);
    assert StepExecute(s, s');
    Extend(s, s', limit);
  }

  lemma Deliver(s: Sys, n: nat, limit: int) returns (s': Sys)
    requires Reachable(s, limit) && AllReadsUpTo(s, limit) && n in s.flights && s.flights[n].Answered?
    ensures s' == Received(s, n) && Step(s, s') && Reachable(s', limit) && AllReadsUpTo(s', limit)
  {
    hide Receive;
    s' := Received(s, n);
    assert StepReceive(s, s');
    Extend(s, s', limit);
  }

  lemma Serve(s: Sys, tx: Tx, limit: int) returns (s': Sys)
    requires Reachable(s, limit) && AllReadsUpTo(s, limit)
    ensures s' == s.(server := Apply(s.server, tx)) && Reachable(s', limit) && AllReadsUpTo(s', limit)
  {
    hide Apply;
    s' := s.(server := Apply(s.server, tx));
    assert StepServer(s, s');
    Extend(s, s', limit);
  }

  // ----- the run -----

  /** The feed after an empty first snapshot. */
  function OpenedView(binding: Binding): View {
    FreshView(binding).(generation := Some(1), initialized := true, historyRequestId := 1)
  }

  lemma OpenEmpty(binding: Binding, limit: int) returns (s: Sys)
    requires binding.active && limit >= 1
    ensures Reachable(s, limit) && s.server == EMPTY_TABLES && s.client == OpenedView(binding) && s.flights == map[]
  {
    var start := Sys(EMPTY_TABLES, FreshView(binding), map[], 0, 0, map[]);
    assert IsRunWithLimit([start], limit) && [start][|[start]| - 1] == start;
    var asked := Send(start, 0, OpHistory(1, limit), limit);
    var page := HistoryPage([], false, SyncState(1, 0));
    assert IsHistoryPage(EMPTY_TABLES, 0, limit, page);
    var reply := HistoryReply([], None, false, 0, 1);
    assert reply.messages == ProjectAll(EMPTY_TABLES, page.ids, binding.admin);
    assert IsHistoryReply(EMPTY_TABLES, 0, limit, binding.admin, reply);
    var answered := Execute(asked, 0, EMPTY_TABLES, RHistory(reply), limit);
    s := Deliver(answered, 0, limit);
    assert HistoryItems(reply.messages, 1, 0) == [];
    assert s.flights == map[];
  }

  /** The feed after its user has also created the first message and read the answer. */
  function CreatedView(binding: Binding, input: CreateInput): View {
    OpenedView(binding).(messages := map[1 := Project(1, NewRow(input), false)],
                         marks := map[1 := Watermark(1, 1, FromMutation)], latest := 1)
  }

  lemma CreateFirst(binding: Binding, input: CreateInput, limit: int) returns (s: Sys)
    requires binding.active && !binding.admin && limit >= 1 && ValidCreate(input)
    ensures Reachable(s, limit) && s.server == CreateMessage(EMPTY_TABLES, input).0
    ensures s.client == CreatedView(binding, input) && s.flights == map[]
  {
    var empty := OpenEmpty(binding, limit);
    var op := OpMutate(TxCreate(input));
    var asked := Send(empty, 0, op, limit);
    var u, created := CreateMessage(EMPTY_TABLES, input).0, [Mutation(1, NewRow(input), 1)];
    assert MutationsOf(EMPTY_TABLES, op.tx) == Some(created);
    var replies := MutationReplies(created, false);
    var answered := Execute(asked, 0, u, RMutations(replies), limit);
    s := Deliver(answered, 0, limit);
    FirstShown(empty.client, replies, NewRow(input), answered.flights[0].ctx);
    assert s.flights == map[];
  }

  lemma FirstShown(v: View, replies: seq<MutationReply>, row: Row, c: Context)
    requires replies == [MutationReply(Project(1, row, false), 1)]
    requires ContextIsCurrent(v, c) && v.generation == Some(1) && !c.admin && v.marks == map[] && v.messages == map[]
    requires v.latest == 0
    ensures DeliverMutations(v, c, replies)
            == v.(messages := map[1 := Project(1, row, false)], marks := map[1 := Watermark(1, 1, FromMutation)],
                latest := 1)
  {
    var items := MutationItems(replies, 1);
    assert items[..0] == [];
    assert ApplyAll(v, items[..0], false) == v;
    assert ApplyAll(v, items, false) == ApplyOne(v, items[0], false);
    NormalizeProject(1, row, false);
    assert MaxEventSeq(0, replies[..0]) == 0;
  }

  /** `n` messages exist, the first one as created, and nothing has happened but creations. */
  ghost predicate Filled(t: Tables, input: CreateInput, n: nat) {
    && TablesOk(t) && t.generation == 1 && t.lastSeq == n && t.lastId == n
    && 1 in t.messages && t.messages[1] == NewRow(input)
    && forall c | 1 <= c <= n :: c in t.changes && t.changes[c].messageId == c && c in t.messages
  }

  lemma {:induction false} CreateMore(s: Sys, input: CreateInput, n: nat, limit: int) returns (s': Sys)
    requires ValidCreate(input) && n >= 1
    requires Reachable(s, limit) && AllReadsUpTo(s, limit) && s.server == CreateMessage(EMPTY_TABLES, input).0
    ensures Reachable(s', limit) && s' == s.(server := s'.server) && Filled(s'.server, input, n)
    decreases n
  {
    if n == 1 {
      s' := s;
      CreateKeepsTables(EMPTY_TABLES, input);
    } else {
      var shorter := CreateMore(s, input, n - 1, limit);
      s' := Serve(shorter, TxCreate(input), limit);
      hide TablesOk;
      CreateKeepsTables(shorter.server, input);
    }
  }

  /** The tables once the first message has been withdrawn and then deleted, after `n` creations. */
  ghost predicate Gone(t: Tables, n: nat, row: Row) {
    && TablesOk(t) && t.generation == 1 && t.lastSeq == n + 2 && t.lastId == n
    && 1 in t.messages && t.messages[1] == row && StatusOf(row) == Deleted
    && (forall c | 1 <= c <= n :: c in t.changes && t.changes[c].messageId == c && c in t.messages)
    && (forall c | 1 <= c <= n + 2 :: c in t.changes && t.changes[c].messageId in t.messages)
  }

  lemma WithdrawAndDelete(t: Tables, input: CreateInput, n: nat) returns (u: Tables, w: Tables, row: Row, gone: Row)
    requires Filled(t, input, n) && n >= 1 && input.authorRole == "user"
    ensures var tx := TxWithdraw(1, input.authorKey, "user", input.createdAt, 1);
            && u == Apply(t, tx) && MutationsOf(t, tx) == Some([Mutation(1, row, n + 1)])
    ensures w == Apply(u, TxDelete(1, "admin", input.createdAt, false))
    ensures StatusOf(row) == Withdrawn && Gone(w, n, gone)
  {
    WithdrawKeepsTables(t, 1, input.authorKey, "user", input.createdAt, 1);
    u := WithdrawMessage(t, 1, input.authorKey, "user", input.createdAt, 1).0;
    row := u.messages[1];
    DeleteKeepsTables(u, 1, "admin", input.createdAt, false);
    hide TablesOk, Grows;
    w := DeleteMessage(u, 1, "admin", input.createdAt, false).0;
    gone := w.messages[1];
  }

  /** The page the server answers: the creations, each with the row as it is now. */
  lemma FirstPage(t: Tables, n: nat, row: Row, admin: bool) returns (reply: ChangesReply)
    requires Gone(t, n, row) && n >= 1
    ensures AnswersChanges(t, 0, 1, n, admin, RChanges(reply))
    ensures |reply.changes| == n && reply.nextAfterSeq == n && reply.hasMore && reply.latest == n + 2
    ensures reply.generation == 1
    ensures reply.changes[0].dto == Project(1, row, admin)
    ensures forall k | 0 <= k < n :: reply.changes[k].at == k + 1 && reply.changes[k].dto.id == k + 1
  {
    hide TablesOk;
    var fetched := seq(n + 1, k requires 0 <= k => k + 1);
    FirstFetch(t, n, fetched);
    var page := ChangesPage(fetched[..n], true, SyncState(1, n + 2));
    FirstAnswer(t, n, fetched, page);
    hide IsChangesAnswer, Gone;
    reply := CreationsPage(t, n, row, page, admin);
    var answer: Result<ChangesPage, ChatError> := Success(page);
    assert IsChangesReply(t, 0, answer.value, admin, reply);
  }

  lemma FirstAnswer(t: Tables, n: nat, fetched: seq<int>, page: ChangesPage)
    requires n >= 1 && t.lastSeq == n + 2 && t.generation == 1
    requires |fetched| == n + 1 && page == ChangesPage(fetched[..n], true, SyncState(1, n + 2))
    requires IsHead(After(t, 0), n + 1, fetched) && Continuous(fetched, 0, n + 2, n)
    ensures IsChangesAnswer(t, 0, 1, n, Success(page))
  {
    hide IsHead, Continuous;
  }

  /** The reply made of such a page: the creations, each with the row as it is now. */
  lemma CreationsPage(t: Tables, n: nat, row: Row, page: ChangesPage, admin: bool) returns (reply: ChangesReply)
    requires n >= 1 && |page.seqs| == n && page.hasMore && page.sync == SyncState(1, n + 2)
    requires forall k | 0 <= k < n :: page.seqs[k] == k + 1
    requires forall c | 1 <= c <= n :: c in t.changes && t.changes[c].messageId == c && c in t.messages
    requires t.messages[1] == row
    ensures IsChangesReply(t, 0, page, admin, reply)
    ensures |reply.changes| == n && reply.nextAfterSeq == n && reply.hasMore && reply.latest == n + 2
    ensures reply.generation == 1
    ensures reply.changes[0].dto == Project(1, row, admin)
    ensures forall k | 0 <= k < n :: reply.changes[k].at == k + 1 && reply.changes[k].dto.id == k + 1
  {
    var changes := seq(n, k requires 0 <= k < n => ChangeDto(k + 1, Project(k + 1, t.messages[k + 1], admin)));
    reply := ChangesReply(changes, n, true, n + 2, 1);
  }

  lemma FirstFetch(t: Tables, n: nat, fetched: seq<int>)
    requires n >= 1 && t.lastSeq == n + 2 && |fetched| == n + 1 && forall k | 0 <= k <= n :: fetched[k] == k + 1
    requires forall c | 1 <= c <= n + 2 :: c in t.changes && t.changes[c].messageId in t.messages
    ensures IsHead(After(t, 0), n + 1, fetched) && Continuous(fetched, 0, n + 2, n)
  {
    forall c | 1 <= c <= n + 1
      ensures c in fetched
    {
      assert fetched[c - 1] == c;
    }
  }

  /** Merging that page shows the first message deleted, at the position of its creation. */
  lemma PageShowsDeletion(v: View, c: Context, reply: ChangesReply, row: Row, n: nat)
    requires WellFormed(v) && AwaitsPage(v, c, 1) && c.generation == Some(1) && !c.admin && v.cursor == 0
    requires 1 in v.marks && v.marks[1] == Watermark(1, 1, FromMutation)
    requires 1 <= n && n + 2 <= MAX_SAFE_INTEGER && StatusOf(row) == Deleted
    requires |reply.changes| == n && reply.nextAfterSeq == n && reply.hasMore && reply.latest == n + 2
    requires reply.generation == 1
    requires reply.changes[0].dto == Project(1, row, false)
    requires forall k | 0 <= k < n :: reply.changes[k].at == k + 1 && reply.changes[k].dto.id == k + 1
    ensures var w := DeliverChanges(v, c, 1, 0, reply);
            && WellFormed(w) && ContextIsCurrent(w, c) && w.revision == v.revision
            && 1 in w.messages && 1 in w.marks && w.messages[1].status == Deleted
                && w.marks[1] == Watermark(1, 1, FromChanges)
  {
    FirstPageAccepted(c, reply, n);
    hide PageAccepted, SortChanges, ApplyAll, HandleCursorReset, ChangeItems, WellFormed, Project;
    MergedPageShowsDeletion(v, reply, row, n);
    var m := ApplyAll(v, ChangeItems(reply.changes, 1), false);
    SameRows(m, DeliverChanges(v, c, 1, 0, reply));
  }

  lemma SameRows(v: View, w: View)
    requires WellFormed(v) && w.messages == v.messages && w.marks == v.marks && w.generation == v.generation
    ensures WellFormed(w)
  {
  }

  lemma FirstPageAccepted(c: Context, reply: ChangesReply, n: nat)
    requires c.generation == Some(1) && 1 <= n && n + 2 <= MAX_SAFE_INTEGER
    requires |reply.changes| == n && reply.nextAfterSeq == n && reply.hasMore && reply.latest == n + 2
    requires reply.generation == 1
    requires forall k | 0 <= k < n :: reply.changes[k].at == k + 1 && reply.changes[k].dto.id == k + 1
    ensures SortChanges(reply.changes) == reply.changes && PageAccepted(c, 0, reply)
  {
    SortedStays(reply.changes);
    hide SortChanges;
  }

  lemma MergedPageShowsDeletion(v: View, reply: ChangesReply, row: Row, n: nat)
    requires WellFormed(v) && v.generation == Some(1)
    requires 1 in v.marks && v.marks[1] == Watermark(1, 1, FromMutation)
    requires 1 <= n && StatusOf(row) == Deleted && |reply.changes| == n
    requires reply.changes[0].dto == Project(1, row, false)
    requires forall k | 0 <= k < n :: reply.changes[k].at == k + 1 && reply.changes[k].dto.id == k + 1
    ensures var w := ApplyAll(v, ChangeItems(reply.changes, 1), false);
            && WellFormed(w) && OnlyMessages(v, w)
            && 1 in w.messages && 1 in w.marks && w.messages[1].status == Deleted
                && w.marks[1] == Watermark(1, 1, FromChanges)
  {
    var items := ChangeItems(reply.changes, 1);
    ApplyAllEffect(v, items, false);
    hide ApplyAll, Kept;
    var w := ApplyAll(v, items, false);
    assert Covered(w, items[0]);
    assert FromItem(w, items, false, 1);
  }

  lemma LateAnswerShows(v: View, c: Context, replies: seq<MutationReply>, row: Row, n: nat)
    requires WellFormed(v) && ContextIsCurrent(v, c) && c.generation == Some(1) && !c.admin
    requires 1 in v.marks && v.marks[1] == Watermark(1, 1, FromChanges)
    requires 1 <= n && n + 2 <= MAX_SAFE_INTEGER && StatusOf(row) == Withdrawn
    requires replies == [MutationReply(Project(1, row, false), n + 1)]
    ensures var w := DeliverMutations(v, c, replies);
            w.revision == v.revision && 1 in w.messages && w.messages[1].status == Withdrawn
  {
    var items := MutationItems(replies, 1);
    assert items[..0] == [];
    assert ApplyAll(v, items, false) == ApplyOne(ApplyAll(v, items[..0], false), items[0], false);
  }

  lemma CreatedViewIsReady(binding: Binding, input: CreateInput)
    requires binding.active && !binding.admin
    ensures Ready(CreatedView(binding, input))
    ensures Capture(CreatedView(binding, input)) == Context(0, Some(1), false, binding.subjectKey)
  {
  }

  /** The withdrawal is sent and executed, and its answer is on the way while the message is deleted. */
  lemma WithdrawalPending(binding: Binding, input: CreateInput, n: nat) returns (s: Sys, row: Row, gone: Row)
    requires binding.active && !binding.admin && n >= 1 && ValidCreate(input) && input.authorRole == "user"
    ensures Reachable(s, n) && AllReadsUpTo(s, n) && s.client == CreatedView(binding, input)
    ensures s.flights.Keys == {0} && WithdrawalAnswer(s.flights[0], binding, row, n)
    ensures StatusOf(row) == Withdrawn && Gone(s.server, n, gone)
  {
    var created := CreateFirst(binding, input, n);
    var filled := CreateMore(created, input, n, n);
    var u, w;
    u, w, row, gone := WithdrawAndDelete(filled.server, input, n);
    hide Apply, MutationsOf, Filled, Gone, Project, Reachable, AllReadsUpTo, CreatedView;
    CreatedViewIsReady(binding, input);
    s := WithdrawExecuted(filled, u, binding, input, row, n);
    s := Serve(s, TxDelete(1, "admin", input.createdAt, false), n);
  }

  lemma WithdrawExecuted(s: Sys, u: Tables, binding: Binding, input: CreateInput, row: Row, n: nat) returns (s': Sys)
    requires Reachable(s, n) && AllReadsUpTo(s, n) && s.flights == map[] && Ready(s.client)
    requires Capture(s.client) == Context(0, Some(1), false, binding.subjectKey)
    requires var tx := TxWithdraw(1, input.authorKey, "user", input.createdAt, 1);
             u == Apply(s.server, tx) && MutationsOf(s.server, tx) == Some([Mutation(1, row, n + 1)])
    ensures Reachable(s', n) && AllReadsUpTo(s', n) && s'.server == u && s'.client == s.client
    ensures s'.flights.Keys == {0} && WithdrawalAnswer(s'.flights[0], binding, row, n)
  {
    hide Apply, MutationsOf, Project, Reachable, AllReadsUpTo, Ready, Capture;
    var op := OpMutate(TxWithdraw(1, input.authorKey, "user", input.createdAt, 1));
    var asked := Send(s, 0, op, n);
    var answer := [MutationReply(Project(1, row, false), n + 1)];
    assert answer == MutationReplies([Mutation(1, row, n + 1)], false);
    s' := Execute(asked, 0, u, RMutations(answer), n);
  }

  ghost predicate WithdrawalAnswer(f: Flight, binding: Binding, row: Row, n: nat) {
    && f.Answered? && f.ctx == Context(0, Some(1), false, binding.subjectKey) && f.op.OpMutate?
    && f.reply == RMutations([MutationReply(Project(1, row, false), n + 1)])
  }

  /** The feed starts a sync and asks for the page after its cursor. */
  lemma AskForPage(s: Sys, binding: Binding, input: CreateInput, n: nat) returns (s': Sys)
    requires binding.active && !binding.admin && n >= 1
    requires Reachable(s, n) && AllReadsUpTo(s, n) && s.client == CreatedView(binding, input) && 1 !in s.flights
    ensures Reachable(s', n) && AllReadsUpTo(s', n) && s'.server == s.server
    ensures s'.client == s.client.(sync := Reading(1, MAX_CHANGE_PAGES, true), syncCount := 1)
    ensures s'.flights == s.flights[1 := Pending(Context(0, Some(1), false, binding.subjectKey), OpChanges(1, 0, n))]
  {
    hide Reachable, Project;
    var syncing := s.(client := StartSync(s.client));
    assert FlagMove(s.client, syncing.client);
    assert StepLocal(s, syncing);
    Extend(s, syncing, n);
    s' := Send(syncing, 1, OpChanges(1, 0, n), n);
  }

  /** One answer arrives, and a message shown as deleted is shown as withdrawn. */
  ghost predicate StepsBackAt(s: Sys, s': Sys, id: int) {
    && StepReceive(s, s') && s'.client.revision == s.client.revision
    && id in s.client.messages && s.client.messages[id].status == Deleted
    && id in s'.client.messages && s'.client.messages[id].status == Withdrawn
  }

  lemma PageExecutes(t: Tables, ctx: Context, op: Op, reply: ChangesReply)
    requires op.OpChanges? && ctx.generation.Some?
    requires AnswersChanges(t, op.afterSeq, ctx.generation.value, op.limit, ctx.admin, RChanges(reply))
    ensures Executes(t, t, ctx, op, RChanges(reply))
  {
  }

  lemma ReceivedChanges(s: Sys, n: nat)
    requires n in s.flights && s.flights[n].Answered? && s.flights[n].reply.RChanges? && s.flights[n].op.OpChanges?
    ensures var f, s' := s.flights[n], Received(s, n);
            && s'.client == DeliverChanges(s.client, f.ctx, f.op.syncId, f.op.afterSeq, f.reply.changes)
            && s'.flights == s.flights - {n}
  {
  }

  lemma ReceivedMutations(s: Sys, n: nat)
    requires n in s.flights && s.flights[n].Answered? && s.flights[n].reply.RMutations?
    ensures StepReceive(s, Received(s, n))
    ensures var f := s.flights[n]; Received(s, n).client == DeliverMutations(s.client, f.ctx, f.reply.mutations)
  {
  }

  ghost predicate PageAnswer(f: Flight, binding: Binding, page: ChangesReply, gone: Row, n: nat) {
    && f.Answered? && f.ctx == Context(0, Some(1), false, binding.subjectKey) && f.op == OpChanges(1, 0, n)
    && f.reply == RChanges(page)
    && |page.changes| == n && page.nextAfterSeq == n && page.hasMore && page.latest == n + 2 && page.generation == 1
    && n >= 1 && page.changes[0].dto == Project(1, gone, false)
    && forall k | 0 <= k < n :: page.changes[k].at == k + 1 && page.changes[k].dto.id == k + 1
  }

  lemma PageRead(sent: Sys, binding: Binding, gone: Row, n: nat) returns (s: Sys, page: ChangesReply)
    requires Reachable(sent, n) && AllReadsUpTo(sent, n) && Gone(sent.server, n, gone) && n >= 1
    requires sent.flights.Keys == {0, 1}
    requires sent.flights[1] == Pending(Context(0, Some(1), false, binding.subjectKey), OpChanges(1, 0, n))
    ensures Reachable(s, n) && AllReadsUpTo(s, n) && s.client == sent.client
    ensures s.flights.Keys == {0, 1} && s.flights[0] == sent.flights[0]
    ensures PageAnswer(s.flights[1], binding, page, gone, n)
  {
    hide Gone, AnswersChanges, AllReadsUpTo, Reachable, Executes, Project;
    page := FirstPage(sent.server, n, gone, false);
    PageExecutes(sent.server, sent.flights[1].ctx, sent.flights[1].op, page);
    s := Execute(sent, 1, sent.server, RChanges(page), n);
  }

  /** The page is read after the deletion, and arrives before the answer to the withdrawal. */
  lemma PageArrives(sent: Sys, binding: Binding, input: CreateInput, row: Row, gone: Row, n: nat) returns (s: Sys)
    requires binding.active && !binding.admin && 1 <= n && n + 2 <= MAX_SAFE_INTEGER
    requires Reachable(sent, n) && AllReadsUpTo(sent, n) && Gone(sent.server, n, gone)
    requires sent.client == CreatedView(binding, input).(sync := Reading(1, MAX_CHANGE_PAGES, true), syncCount := 1)
    requires sent.flights.Keys == {0, 1} && WithdrawalAnswer(sent.flights[0], binding, row, n)
    requires sent.flights[1] == Pending(Context(0, Some(1), false, binding.subjectKey), OpChanges(1, 0, n))
    ensures Reachable(s, n) && AllReadsUpTo(s, n) && s.flights == map[0 := sent.flights[0]]
    ensures WellFormed(s.client) && ContextIsCurrent(s.client, sent.flights[0].ctx)
    ensures 1 in s.client.messages && 1 in s.client.marks
    ensures s.client.messages[1].status == Deleted && s.client.marks[1] == Watermark(1, 1, FromChanges)
  {
    PageAwaited(sent.client, binding, input);
    GoneIsDeleted(sent.server, n, gone);
    hide Gone, AllReadsUpTo, Reachable, DeliverChanges, Step, Received, Project, WellFormed, CreatedView, AwaitsPage,
        ContextIsCurrent;
    var read, page := PageRead(sent, binding, gone, n);
    s := Deliver(read, 1, n);
    ReceivedChanges(read, 1);
    PageShowsDeletion(read.client, read.flights[1].ctx, page, gone, n);
  }

  lemma GoneIsDeleted(t: Tables, n: nat, row: Row)
    requires Gone(t, n, row)
    ensures StatusOf(row) == Deleted
  {
  }

  lemma PageAwaited(v: View, binding: Binding, input: CreateInput)
    requires binding.active && !binding.admin
    requires v == CreatedView(binding, input).(sync := Reading(1, MAX_CHANGE_PAGES, true), syncCount := 1)
    ensures WellFormed(v) && v.cursor == 0 && 1 in v.marks && v.marks[1] == Watermark(1, 1, FromMutation)
    ensures AwaitsPage(v, Context(0, Some(1), false, binding.subjectKey), 1)
  {
  }

  /**
   For every page limit there is a run, all of whose reads ask for exactly that limit, whose last
   step receives an answer and shows as withdrawn a message shown as deleted just before.
   */
  lemma DisplayMayStepBack(binding: Binding, input: CreateInput, limit: nat)
    requires binding.active && !binding.admin && ValidCreate(input) && input.authorRole == "user"
    requires 1 <= limit && limit + 2 <= MAX_SAFE_INTEGER
    ensures exists run ::
              && |run| >= 2 && IsRunWithLimit(run, limit)
              && StepsBackAt(run[|run| - 2], run[|run| - 1], 1)
  {
    var pending, row, gone := WithdrawalPending(binding, input, limit);
    hide Gone, Reachable, WithdrawalAnswer, CreatedView, AllReadsUpTo, WellFormed;
    var sent := AskForPage(pending, binding, input, limit);
    var s := PageArrives(sent, binding, input, row, gone, limit);
    LastStep(s, pending.flights[0], binding, row, limit);
  }

  /** The answer to the withdrawal arrives last. */
  lemma LastStep(s: Sys, f: Flight, binding: Binding, row: Row, n: nat)
    requires Reachable(s, n) && AllReadsUpTo(s, n) && s.flights == map[0 := f] && WithdrawalAnswer(f, binding, row, n)
    requires WellFormed(s.client) && ContextIsCurrent(s.client, f.ctx) && 1 in s.client.messages && 1 in s.client.marks
    requires s.client.messages[1].status == Deleted && s.client.marks[1] == Watermark(1, 1, FromChanges)
    requires 1 <= n && n + 2 <= MAX_SAFE_INTEGER && StatusOf(row) == Withdrawn
    ensures exists run ::
              && |run| >= 2 && IsRunWithLimit(run, n)
              && StepsBackAt(run[|run| - 2], run[|run| - 1], 1)
  {
    var run :| |run| >= 1 && IsRunWithLimit(run, n) && run[|run| - 1] == s;
    hide Reachable, Project, DeliverMutations, IsRunWithLimit, Step, Received, StepReceive, WellFormed, AllReadsUpTo;
    var s' := Deliver(s, 0, n);
    ReceivedMutations(s, 0);
    LateAnswerShows(s.client, f.ctx, f.reply.mutations, row, n);
    ExtendRun(run, s', n);
    var longer := run + [s'];
    assert longer[|longer| - 2] == s && longer[|longer| - 1] == s';
    assert StepsBackAt(s, s', 1);
  }
}
