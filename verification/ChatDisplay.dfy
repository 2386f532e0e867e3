/**
 What the person sees of one message over time: when the status on display can step back. Every
 row on display was read from the server's tables at one definite point of the run, and two rows
 compare exactly as the change log lies between the two reads.
 */
module ChatDisplay {
  import opened Basics
  import opened ChatTables
  import opened ChatHistory
  import opened ChatFeed
  import opened ChatProtocol
  import opened ChatReplica
  import opened ChatReplicaSteps
  import opened ChatReplicaAnswers
  import opened ChatTheorems

  // ----- a status and the log -----

  function Rank(status: Status): nat {
    match status
    case Active => 0
    case Withdrawn => 1
    case Deleted => 2
  }

  /** A withdrawal or deletion of the message is in the log of `u` after everything in the log of `t`. */
  ghost predicate MovedOn(t: Tables, u: Tables, id: int) {
    exists c :: t.lastSeq < c && c in u.changes && u.changes[c].messageId == id && u.changes[c].kind != Create
  }

  ghost predicate ChangeIn(changes: map<int, Change>, id: int, lo: int, c: int, hi: int) {
    lo < c <= hi && c in changes && changes[c].messageId == id
  }

  /** The log of a message up to a later point extends its log up to an earlier one, by the changes between. */
  lemma {:induction false} LogExtends(changes: map<int, Change>, id: int, lo: int, hi: int)
    requires 0 <= lo <= hi
    ensures var a, b := LogOf(changes, id, lo), LogOf(changes, id, hi);
            && |a| <= |b| && b[..|a|] == a
            && (|a| < |b| ==> exists c :: ChangeIn(changes, id, lo, c, hi))
    decreases hi
  {
    if lo < hi {
      LogExtends(changes, id, lo, hi - 1);
      var a, m, b := LogOf(changes, id, lo), LogOf(changes, id, hi - 1), LogOf(changes, id, hi);
      assert b[..|m|] == m;
      assert b[..|a|] == m[..|a|];
      if |a| < |m| {
        var c :| ChangeIn(changes, id, lo, c, hi - 1);
        assert ChangeIn(changes, id, lo, c, hi);
      } else if |m| < |b| {
        assert ChangeIn(changes, id, lo, hi, hi);
      }
    }
  }

  /** A change after `lo` is an entry of the log beyond the part up to `lo`. */
  lemma {:induction false} ChangeIsEntry(changes: map<int, Change>, id: int, lo: int, c: int, hi: int) returns (k: nat)
    requires 0 <= lo && ChangeIn(changes, id, lo, c, hi)
    ensures |LogOf(changes, id, lo)| <= k < |LogOf(changes, id, hi)|
    ensures LogOf(changes, id, hi)[k] == changes[c].kind
    decreases hi
  {
    if c == hi {
      LogExtends(changes, id, lo, hi - 1);
      k := |LogOf(changes, id, hi - 1)|;
    } else {
      k := ChangeIsEntry(changes, id, lo, c, hi - 1);
    }
  }

  /** Between two points of a run a status only rises, and rises exactly if the log says so. */
  lemma StatusMovesWithLog(t: Tables, u: Tables, id: int)
    requires TablesOk(t) && TablesOk(u) && Succeeds(t, u) && id in t.messages && id in u.messages
    ensures Rank(StatusOf(t.messages[id])) <= Rank(StatusOf(u.messages[id]))
    ensures Rank(StatusOf(t.messages[id])) < Rank(StatusOf(u.messages[id])) <==> MovedOn(t, u, id)
  {
    LogUnchanged(t.changes, u.changes, id, t.lastSeq);
    LogExtends(u.changes, id, t.lastSeq, u.lastSeq);
    var before, after := Lifecycle(t.messages[id]), Lifecycle(u.messages[id]);
    assert before == LogOf(u.changes, id, t.lastSeq) && after == LogOf(u.changes, id, u.lastSeq);
    assert SameMessage(t.messages[id], u.messages[id]);
    if |before| < |after| {
      var c :| ChangeIn(u.changes, id, t.lastSeq, c, u.lastSeq);
      var k := ChangeIsEntry(u.changes, id, t.lastSeq, c, u.lastSeq);
      assert u.changes[c].kind != Create;
    }
    if c :| t.lastSeq < c && c in u.changes && u.changes[c].messageId == id {
      var k := ChangeIsEntry(u.changes, id, t.lastSeq, c, u.lastSeq);
    }
  }

  // ----- the server over a run -----

  lemma StepSucceeds(s: Sys, s': Sys)
    requires TablesOk(s.server) && Step(s, s')
    ensures Succeeds(s.server, s'.server)
  {
    hide Succeeds, TablesOk, Apply;
    ClearAndCleanupSucceed(s.server, TxClear(0, 0));
    if StepServer(s, s') {
      var tx :| s' == s.(server := Apply(s.server, tx));
      TxSucceeds(s.server, tx);
    } else if StepExecute(s, s') {
      var n: nat, u, reply :| n in s.flights && s.flights[n].Pending?
        && Executes(s.server, u, s.flights[n].ctx, s.flights[n].op, reply)
        && s' == s.(server := u,
                    flights := s.flights[n := Answered(s.flights[n].ctx, s.flights[n].op, reply, u)]);
      ExecutionSucceeds(s.server, u, s.flights[n].ctx, s.flights[n].op, reply);
    }
  }

  lemma ExecutionSucceeds(t: Tables, u: Tables, ctx: Context, op: Op, reply: Reply)
    requires TablesOk(t) && Executes(t, u, ctx, op, reply)
    ensures Succeeds(t, u)
  {
    hide Succeeds, TablesOk, ClearMessages;
    ClearAndCleanupSucceed(t, TxClear(0, 0));
    match op
    case OpMutate(tx) => TxSucceeds(t, tx);
    case OpClear(generation, latest) => TxSucceeds(t, TxClear(generation, latest));
    case _ =>
  }

  lemma {:induction false} ServersSucceed(run: seq<Sys>, i: nat, j: nat)
    requires IsSysRun(run) && i <= j < |run|
    ensures TablesOk(run[i].server) && TablesOk(run[j].server) && Succeeds(run[i].server, run[j].server)
    decreases j
  {
    RunKeepsInv(run, i);
    RunKeepsInv(run, j);
    hide Step, Succeeds, TablesOk;
    if i < j {
      ServersSucceed(run, i, j - 1);
      assert Step(run[j - 1], run[(j - 1) + 1]);
      StepSucceeds(run[j - 1], run[j]);
      SucceedsTransitive(run[i].server, run[j - 1].server, run[j].server);
    } else {
      ClearAndCleanupSucceed(run[i].server, TxClear(0, 0));
    }
  }

  // ----- where rows on display were read -----

  ghost predicate ReadFrom(dto: Dto, t: Tables) {
    dto.id in t.messages && dto.status == StatusOf(t.messages[dto.id])
  }

  ghost predicate Carries(reply: Reply, dto: Dto) {
    match reply
    case RHistory(history) => dto in history.messages
    case RChanges(changes) => exists k :: 0 <= k < |changes.changes| && changes.changes[k].dto == dto
    case RMutations(mutations) => exists k :: 0 <= k < |mutations| && mutations[k].dto == dto
    case _ => false
  }

  ghost predicate AnswerReadFrom(reply: Reply, t: Tables) {
    forall dto | Carries(reply, dto) :: ReadFrom(dto, t)
  }

  /** The tables are those of the server at this point of the run or an earlier one. */
  ghost predicate ServerOnce(run: seq<Sys>, i: nat, t: Tables) {
    exists k :: 0 <= k <= i && k < |run| && run[k].server == t
  }

  ghost predicate FlightSourced(run: seq<Sys>, i: nat, f: Flight) {
    f.Answered? ==> ServerOnce(run, i, f.asOf) && AnswerReadFrom(f.reply, f.asOf)
  }

  ghost predicate ShownSourced(run: seq<Sys>, i: nat, s: Sys, id: int)
    requires id in s.client.messages
  {
    id in s.origins && ServerOnce(run, i, s.origins[id].asOf)
    && s.client.messages[id].id == id && ReadFrom(s.client.messages[id], s.origins[id].asOf)
  }

  ghost predicate FlightsSourced(run: seq<Sys>, i: nat, s: Sys) {
    forall n | n in s.flights :: FlightSourced(run, i, s.flights[n])
  }

  ghost predicate RowsAreSourced(run: seq<Sys>, i: nat)
    requires i < |run|
  {
    && FlightsSourced(run, i, run[i])
    && (forall id | id in run[i].client.messages :: ShownSourced(run, i, run[i], id))
  }

  lemma ExecutedAnswer(t: Tables, u: Tables, ctx: Context, op: Op, reply: Reply)
    requires TablesOk(t) && Executes(t, u, ctx, op, reply)
    ensures AnswerReadFrom(reply, u)
  {
    hide TablesOk, Apply;
    if op.OpMutate? && reply.RMutations? {
      MutationsAreRecorded(t, op.tx);
      var ms := MutationsOf(t, op.tx).value;
      forall dto | Carries(reply, dto)
        ensures ReadFrom(dto, u)
      {
        var k :| 0 <= k < |reply.mutations| && reply.mutations[k].dto == dto;
        assert Recorded(t, u, ms[k]);
      }
    }
  }

  lemma {:induction false} InsertKeepsElements(x: ChangeDto, s: seq<ChangeDto>, c: ChangeDto)
    requires c in InsertChange(x, s)
    ensures c == x || c in s
  {
    if !(s == [] || x.at <= s[0].at) && c != s[0] {
      InsertKeepsElements(x, s[1..], c);
    }
  }

  lemma {:induction false} SortKeepsElements(s: seq<ChangeDto>, c: ChangeDto)
    requires c in SortChanges(s)
    ensures c in s
  {
    if s != [] {
      InsertKeepsElements(s[0], SortChanges(s[1..]), c);
      if c != s[0] {
        SortKeepsElements(s[1..], c);
      }
    }
  }

  /** Whatever an answer puts on display is one of the rows it carries. */
  ghost predicate NewRowsCarried(v: View, w: View, f: Flight)
    requires f.Answered?
  {
    forall id | id in w.messages && id in w.marks ::
      || (id in v.messages && id in v.marks && w.marks[id] == v.marks[id] && w.messages[id] == v.messages[id])
      || ((id in v.marks ==> w.marks[id] != v.marks[id]) && ShowsCarried(w, f, id))
  }

  ghost predicate ShowsCarried(w: View, f: Flight, id: int)
    requires f.Answered? && id in w.messages
  {
    exists dto :: Carries(f.reply, dto) && dto.id == id && w.messages[id] == Normalize(dto, f.ctx.admin)
  }

  ghost predicate ItemsCarried(items: seq<Versioned>, reply: Reply) {
    forall k | 0 <= k < |items| :: Carries(reply, items[k].dto)
  }

  lemma MergeShowsCarried(v: View, w: View, f: Flight, items: seq<Versioned>)
    requires f.Answered? && WellFormed(v) && ItemsCarried(items, f.reply)
    requires w.messages == ApplyAll(v, items, f.ctx.admin).messages && w.marks == ApplyAll(v, items, f.ctx.admin).marks
    ensures NewRowsCarried(v, w, f)
  {
    ApplyAllEffect(v, items, f.ctx.admin);
    var m := ApplyAll(v, items, f.ctx.admin);
    forall id | id in w.messages && id in w.marks && (id !in v.marks || w.marks[id] != v.marks[id])
      ensures ShowsCarried(w, f, id)
    {
      assert FromItem(m, items, f.ctx.admin, id);
      var k :| 0 <= k < |items| && Shows(m, items[k], f.ctx.admin, id);
      assert Carries(f.reply, items[k].dto);
    }
  }

  lemma AsShown(v: View, m: View, w: View, f: Flight)
    requires f.Answered? && NewRowsCarried(v, m, f) && w.messages == m.messages && w.marks == m.marks
    ensures NewRowsCarried(v, w, f)
  {
  }

  lemma NothingNew(v: View, w: View, f: Flight)
    requires WellFormed(v) && f.Answered?
    requires w.messages == map[] || (w.messages == v.messages && w.marks == v.marks)
    ensures NewRowsCarried(v, w, f)
  {
  }

  lemma HistoryItemsCarried(f: Flight)
    requires f.Answered? && f.reply.RHistory?
    ensures var reply := f.reply.history;
            ItemsCarried(HistoryItems(reply.messages, reply.generation, reply.latest), f.reply)
  {
  }

  lemma HistoryShowsCarried(v: View, f: Flight, requestId: int)
    requires WellFormed(v) && f.Answered? && f.reply.RHistory?
    ensures NewRowsCarried(v, DeliverHistory(v, f.ctx, requestId, f.reply.history), f)
  {
    HistoryItemsCarried(f);
    hide ApplyAll, NewRowsCarried, ItemsCarried, HistoryItems, WellFormed;
    var reply, w := f.reply.history, DeliverHistory(v, f.ctx, requestId, f.reply.history);
    var items := HistoryItems(reply.messages, reply.generation, reply.latest);
    if w.messages == map[] || (w.messages == v.messages && w.marks == v.marks) {
      NothingNew(v, w, f);
    } else if f.ctx.generation.None? {
      var blank := v.(generation := Some(reply.generation), messages := map[], marks := map[]);
      BlankIsWellFormed(v, reply.generation);
      var m := ApplyAll(blank, items, f.ctx.admin);
      MergeShowsCarried(blank, m, f, items);
      FromBlank(v, blank, m, f);
      AsShown(v, m, w, f);
    } else {
      var m := ApplyAll(v, items, f.ctx.admin);
      MergeShowsCarried(v, m, f, items);
      AsShown(v, m, w, f);
    }
  }

  lemma BlankIsWellFormed(v: View, generation: int)
    requires WellFormed(v)
    ensures WellFormed(v.(generation := Some(generation), messages := map[], marks := map[]))
  {
  }

  /** A feed without a generation shows nothing, so every row of its first snapshot is new. */
  lemma FromBlank(v: View, blank: View, m: View, f: Flight)
    requires WellFormed(v) && v.generation.None? && blank.messages == map[] && f.Answered?
    requires NewRowsCarried(blank, m, f)
    ensures NewRowsCarried(v, m, f)
  {
    assert forall id :: id !in v.marks;
  }

  lemma OlderShowsCarried(v: View, f: Flight, requestId: int)
    requires WellFormed(v) && f.Answered? && f.reply.RHistory?
    ensures NewRowsCarried(v, DeliverOlder(v, f.ctx, requestId, f.reply.history), f)
  {
    HistoryItemsCarried(f);
    hide ApplyAll, NewRowsCarried, ItemsCarried, HistoryItems, WellFormed;
    var reply, w := f.reply.history, DeliverOlder(v, f.ctx, requestId, f.reply.history);
    var items := HistoryItems(reply.messages, reply.generation, reply.latest);
    if w.messages == map[] || (w.messages == v.messages && w.marks == v.marks) {
      NothingNew(v, w, f);
    } else {
      MergeShowsCarried(v, ApplyAll(v, items, f.ctx.admin), f, items);
      AsShown(v, ApplyAll(v, items, f.ctx.admin), w, f);
    }
  }

  lemma ChangesShowCarried(v: View, f: Flight, syncId: int, pageCursor: int)
    requires WellFormed(v) && f.Answered? && f.reply.RChanges?
    ensures NewRowsCarried(v, DeliverChanges(v, f.ctx, syncId, pageCursor, f.reply.changes), f)
  {
    hide ApplyAll, NewRowsCarried, WellFormed;
    var reply, w := f.reply.changes, DeliverChanges(v, f.ctx, syncId, pageCursor, f.reply.changes);
    if w.messages == map[] || (w.messages == v.messages && w.marks == v.marks) {
      NothingNew(v, w, f);
    } else {
      var items := ChangeItems(SortChanges(reply.changes), f.ctx.generation.value);
      forall k | 0 <= k < |items|
        ensures Carries(f.reply, items[k].dto)
      {
        SortKeepsElements(reply.changes, SortChanges(reply.changes)[k]);
      }
      MergeShowsCarried(v, ApplyAll(v, items, f.ctx.admin), f, items);
      AsShown(v, ApplyAll(v, items, f.ctx.admin), w, f);
    }
  }

  lemma MutationsShowCarried(v: View, f: Flight)
    requires WellFormed(v) && f.Answered? && f.reply.RMutations?
    ensures NewRowsCarried(v, DeliverMutations(v, f.ctx, f.reply.mutations), f)
  {
    hide ApplyAll, NewRowsCarried, WellFormed;
    var w := DeliverMutations(v, f.ctx, f.reply.mutations);
    if w.messages == v.messages && w.marks == v.marks {
      NothingNew(v, w, f);
    } else {
      var items := MutationItems(f.reply.mutations, f.ctx.generation.value);
      MergeShowsCarried(v, ApplyAll(v, items, f.ctx.admin), f, items);
      AsShown(v, ApplyAll(v, items, f.ctx.admin), w, f);
    }
  }

  lemma ReceiveShowsCarried(v: View, f: Flight)
    requires WellFormed(v) && f.Answered?
    ensures NewRowsCarried(v, Receive(v, f), f)
  {
    hide NewRowsCarried, DeliverHistory, DeliverOlder, DeliverChanges, DeliverMutations, WellFormed;
    match f.reply
    case RHistory(reply) =>
      if f.op.OpHistory? {
        HistoryShowsCarried(v, f, f.op.requestId);
      } else if f.op.OpOlder? {
        OlderShowsCarried(v, f, f.op.requestId);
      } else {
        NothingNew(v, v, f);
      }
    case RChanges(reply) =>
      if f.op.OpChanges? {
        ChangesShowCarried(v, f, f.op.syncId, f.op.afterSeq);
      } else {
        NothingNew(v, v, f);
      }
    case RMutations(mutations) => MutationsShowCarried(v, f);
    case _ => NothingNew(v, Receive(v, f), f);
  }

  lemma SourcedLater(run: seq<Sys>, i: nat)
    requires i + 1 < |run|
    ensures forall t | ServerOnce(run, i, t) :: ServerOnce(run, i + 1, t)
  {
  }

  lemma ReceivedIsSourced(run: seq<Sys>, i: nat, n: nat)
    requires i + 1 < |run| && RowsAreSourced(run, i) && WellFormed(run[i].client) && WellFormed(run[i + 1].client)
    requires n in run[i].flights && run[i].flights[n].Answered? && run[i + 1] == Received(run[i], n)
    ensures RowsAreSourced(run, i + 1)
  {
    var s, s', f := run[i], run[i + 1], run[i].flights[n];
    SourcedLater(run, i);
    ReceiveShowsCarried(s.client, f);
    hide Receive, Carries, ServerOnce;
    assert FlightSourced(run, i, f);
    forall id | id in s'.client.messages
      ensures ShownSourced(run, i + 1, s', id)
    {
      if id in s.client.marks && s'.client.marks[id] == s.client.marks[id] {
        assert ShownSourced(run, i, s, id);
      } else {
        assert ShowsCarried(s'.client, f, id);
      }
    }
    forall m | m in s'.flights
      ensures FlightSourced(run, i + 1, s'.flights[m])
    {
      assert FlightSourced(run, i, s.flights[m]);
    }
  }

  lemma LocalKeepsRows(v: View, w: View)
    requires LocalMove(v, w)
    ensures w.messages == map[] || w.messages == v.messages
  {
    if FlagMove(v, w) {
      FlagKinds(v, w);
    }
  }

  /** Steps that receive nothing leave what is on display, or empty it, and keep its origins. */
  lemma QuietStepKeepsRows(s: Sys, s': Sys)
    requires Step(s, s') && !StepReceive(s, s')
    ensures s'.origins == s.origins
    ensures s'.client.messages == map[] || s'.client.messages == s.client.messages
  {
    hide StepServer, StepExecute, StepReceive, StepLose, LocalMove, MaySend;
    if StepLocal(s, s') {
      var w :| LocalMove(s.client, w) && s' == s.(client := w);
      LocalKeepsRows(s.client, w);
    } else {
      OtherStepKeepsRows(s, s');
    }
  }

  lemma OtherStepKeepsRows(s: Sys, s': Sys)
    requires StepServer(s, s') || StepSend(s, s') || StepExecute(s, s') || StepLose(s, s')
    ensures s'.origins == s.origins && s'.client.messages == s.client.messages
  {
    hide Apply, Executes, MaySend;
  }

  lemma QuietStepIsSourced(run: seq<Sys>, i: nat)
    requires i + 1 < |run| && RowsAreSourced(run, i) && TablesOk(run[i].server)
    requires Step(run[i], run[i + 1]) && !StepReceive(run[i], run[i + 1])
    ensures RowsAreSourced(run, i + 1)
  {
    var s, s' := run[i], run[i + 1];
    SourcedLater(run, i);
    QuietStepKeepsRows(s, s');
    forall id | id in s'.client.messages
      ensures ShownSourced(run, i + 1, s', id)
    {
      assert ShownSourced(run, i, s, id);
    }
    QuietStepFlights(run, i);
  }

  lemma QuietStepFlights(run: seq<Sys>, i: nat)
    requires i + 1 < |run| && RowsAreSourced(run, i) && TablesOk(run[i].server)
    requires Step(run[i], run[i + 1]) && !StepReceive(run[i], run[i + 1])
    ensures FlightsSourced(run, i + 1, run[i + 1])
  {
    var s, s' := run[i], run[i + 1];
    SourcedLater(run, i);
    hide StepReceive, Apply, MaySend, TablesOk, LocalMove, Carries, ServerOnce;
    forall n | n in s'.flights
      ensures FlightSourced(run, i + 1, s'.flights[n])
    {
      if n in s.flights {
        assert FlightSourced(run, i, s.flights[n]);
        if s'.flights[n] != s.flights[n] {
          var m: nat, u, reply :| m in s.flights && s.flights[m].Pending?
            && Executes(s.server, u, s.flights[m].ctx, s.flights[m].op, reply)
            && s' == s.(server := u,
                        flights := s.flights[m := Answered(s.flights[m].ctx, s.flights[m].op, reply, u)]);
          ExecutedAnswer(s.server, u, s.flights[m].ctx, s.flights[m].op, reply);
          ServerNow(run, i + 1);
        }
      }
    }
  }

  lemma ServerNow(run: seq<Sys>, i: nat)
    requires i < |run|
    ensures ServerOnce(run, i, run[i].server)
  {
  }

  lemma {:induction false} RowsStaySourced(run: seq<Sys>, i: nat)
    requires IsSysRun(run) && i < |run|
    ensures RowsAreSourced(run, i)
  {
    if i > 0 {
      RowsStaySourced(run, i - 1);
      RunKeepsInv(run, i - 1);
      RunKeepsInv(run, i);
      assert Step(run[i - 1], run[(i - 1) + 1]);
      hide Step, RowsAreSourced, DataOk, SyncOk, OriginsOk, FlightOk, TablesOk;
      if StepReceive(run[i - 1], run[i]) {
        var n: nat :| n in run[i - 1].flights && run[i - 1].flights[n].Answered? && run[i] == Received(run[i - 1], n);
        ReceivedIsSourced(run, i - 1, n);
      } else {
        QuietStepIsSourced(run, i - 1);
      }
    }
  }

  // ----- when the display steps back -----

  /** What a feed shows of a message is an earlier stage of its life than `held`. */
  predicate StepsBack(held: Dto, shown: Dto) {
    Rank(shown.status) < Rank(held.status)
  }

  lemma ReadsCompare(run: seq<Sys>, i: nat, t: Tables, u: Tables, held: Dto, shown: Dto)
    requires IsSysRun(run) && i < |run| && ServerOnce(run, i, t) && ServerOnce(run, i, u)
    requires ReadFrom(held, u) && ReadFrom(shown, t) && held.id == shown.id
    ensures StepsBack(held, shown) <==> MovedOn(t, u, held.id)
  {
    var a: nat :| a <= i && run[a].server == t;
    var b: nat :| b <= i && run[b].server == u;
    if a <= b {
      ServersSucceed(run, a, b);
      StatusMovesWithLog(t, u, held.id);
    } else {
      ServersSucceed(run, b, a);
      StatusMovesWithLog(u, t, held.id);
    }
  }

  lemma ShownLater(run: seq<Sys>, i: nat, j: nat, id: int)
    requires IsSysRun(run) && i <= j < |run| && id in run[i].client.messages
    ensures ShownSourced(run, j, run[i], id)
  {
    RowsStaySourced(run, i);
    assert ShownSourced(run, i, run[i], id);
  }

  /**
   At any two points of a run the display of one message is behind at the later point exactly if
   the log holds a withdrawal or deletion of it between the point where the row now shown was read
   and the point where the row shown before was read.
   */
  lemma DisplayStepsBackIff(run: seq<Sys>, i: nat, j: nat, id: int)
    requires IsSysRun(run) && i <= j < |run| && id in run[i].client.messages && id in run[j].client.messages
    ensures var s, s' := run[i], run[j];
            && id in s.origins && id in s'.origins
            && (StepsBack(s.client.messages[id], s'.client.messages[id])
                <==> MovedOn(s'.origins[id].asOf, s.origins[id].asOf, id))
  {
    ShownLater(run, i, j, id);
    ShownLater(run, j, j, id);
    var s, s' := run[i], run[j];
    ReadsCompare(run, j, s'.origins[id].asOf, s.origins[id].asOf, s.client.messages[id], s'.client.messages[id]);
  }

  // ----- one answer -----

  /**
   The rows an answer puts up for merging when it arrives: none if it is stale, not expected, or
   does not pass the checks of the feed.
   */
  ghost function RowsOffered(v: View, f: Flight): seq<Versioned>
    requires f.Answered?
  {
    match f.reply
    case RHistory(reply) =>
      if ContextIsCurrent(v, f.ctx) && f.ctx.generation == Some(reply.generation) && SafeSeq(reply.latest)
         && ((f.op.OpHistory? && f.op.requestId == v.historyRequestId && 1 <= reply.generation <= MAX_SAFE_INTEGER)
             || (f.op.OpOlder? && f.op.requestId == v.olderRequestId))
      then HistoryItems(reply.messages, reply.generation, reply.latest) else []
    case RChanges(reply) =>
      if f.op.OpChanges? && AwaitsPage(v, f.ctx, f.op.syncId) && PageAccepted(f.ctx, f.op.afterSeq, reply)
      then ChangeItems(SortChanges(reply.changes), f.ctx.generation.value) else []
    case RMutations(mutations) =>
      if ContextIsCurrent(v, f.ctx) && f.ctx.generation.Some? && forall k | 0 <= k < |mutations| ::
          SafeSeq(mutations[k].eventSeq)
      then MutationItems(mutations, f.ctx.generation.value) else []
    case _ => []
  }

  /** One of the rows is of this message and newer than the mark it is held under. */
  ghost predicate OffersNewer(v: View, f: Flight, id: int)
    requires f.Answered?
  {
    exists k :: 0 <= k < |RowsOffered(v, f)| && RowsOffered(v, f)[k].dto.id == id && Accepts(v, RowsOffered(v, f)[k])
  }

  /** A view whose rows are those of a merge, or that has started over. */
  ghost predicate ShowsMerge(v: View, w: View, items: seq<Versioned>, admin: bool) {
    w.messages == map[] || (w.messages == ApplyAll(v, items, admin).messages
        && w.marks == ApplyAll(v, items, admin).marks)
  }

  lemma HistoryMerges(v: View, f: Flight)
    requires WellFormed(v) && v.generation.Some? && f.Answered? && f.reply.RHistory?
    ensures ShowsMerge(v, Receive(v, f), RowsOffered(v, f), f.ctx.admin)
  {
    assert ApplyAll(v, [], f.ctx.admin) == v;
    hide ApplyAll, HistoryItems, WellFormed;
  }

  lemma ChangesMerge(v: View, f: Flight)
    requires f.Answered? && f.reply.RChanges?
    ensures ShowsMerge(v, Receive(v, f), RowsOffered(v, f), f.ctx.admin)
  {
    assert ApplyAll(v, [], f.ctx.admin) == v;
    hide ApplyAll, ChangeItems, SortChanges, PageAccepted;
  }

  lemma MutationsMerge(v: View, f: Flight)
    requires f.Answered? && f.reply.RMutations?
    ensures ShowsMerge(v, Receive(v, f), RowsOffered(v, f), f.ctx.admin)
  {
    assert ApplyAll(v, [], f.ctx.admin) == v;
    hide ApplyAll, MutationItems;
  }

  lemma ReceiveMerges(v: View, f: Flight)
    requires WellFormed(v) && v.generation.Some? && f.Answered?
    ensures ShowsMerge(v, Receive(v, f), RowsOffered(v, f), f.ctx.admin)
  {
    match f.reply
    case RHistory(_) => HistoryMerges(v, f);
    case RChanges(_) => ChangesMerge(v, f);
    case RMutations(_) => MutationsMerge(v, f);
    case _ =>
      assert ApplyAll(v, [], f.ctx.admin) == v;
      hide ApplyAll;
  }

  /** A merge moves the mark of a message exactly if it is offered a newer row of it. */
  lemma MarkMovesIff(v: View, items: seq<Versioned>, admin: bool, id: int)
    requires WellFormed(v) && id in v.marks
    ensures var w := ApplyAll(v, items, admin);
            && id in w.marks
            && (w.marks[id] != v.marks[id]
                <==> exists k :: 0 <= k < |items| && items[k].dto.id == id && Accepts(v, items[k]))
  {
    var w := ApplyAll(v, items, admin);
    ApplyAllEffect(v, items, admin);
    hide ApplyAll;
    assert id in v.messages;
    if w.marks[id] != v.marks[id] {
      assert FromItem(w, items, admin, id);
      var k :| 0 <= k < |items| && Shows(w, items[k], admin, id);
      assert Accepts(v, items[k]);
    }
    if k :| 0 <= k < |items| && items[k].dto.id == id && Accepts(v, items[k]) {
      assert Covered(w, items[k]);
    }
  }

  lemma HeldHasMark(run: seq<Sys>, i: nat, id: int)
    requires IsSysRun(run) && i < |run| && id in run[i].client.messages
    ensures WellFormed(run[i].client) && id in run[i].client.marks && run[i].client.generation.Some?
  {
    RunKeepsInv(run, i);
  }

  /**
   A single answer steps the display of a message back exactly if it offers a newer row of the
   message, and a withdrawal or deletion came after the tables the answer was read from and is
   already in the row that is held. It makes no difference whether the answer is a late mutation
   response or an older history page.
   */
  lemma AcceptedRowStepsBackIff(run: seq<Sys>, i: nat, n: nat, id: int)
    requires IsSysRun(run) && i + 1 < |run|
    requires n in run[i].flights && run[i].flights[n].Answered? && run[i + 1] == Received(run[i], n)
    requires id in run[i].client.messages && id in run[i + 1].client.messages
    ensures var s, s', f := run[i], run[i + 1], run[i].flights[n];
            && id in s.client.marks && id in s'.client.marks && id in s.origins
            && (s'.client.marks[id] != s.client.marks[id] <==> OffersNewer(s.client, f, id))
            && (StepsBack(s.client.messages[id], s'.client.messages[id])
                <==> OffersNewer(s.client, f, id) && MovedOn(f.asOf, s.origins[id].asOf, id))
  {
    HeldHasMark(run, i, id);
    HeldHasMark(run, i + 1, id);
    DisplayStepsBackIff(run, i, i + 1, id);
    var s, s', f := run[i], run[i + 1], run[i].flights[n];
    ReceiveShowsCarried(s.client, f);
    ReceiveMerges(s.client, f);
    hide IsSysRun, RowsOffered, ApplyAll, Receive, WellFormed, MovedOn, Accepts;
    MarkMovesIff(s.client, RowsOffered(s.client, f), f.ctx.admin, id);
  }
}
