/**
 Whole runs of the chat database: every transaction keeps the log and the table in agreement,
 numbers are never used twice, and (generation, latest sequence) is a version stamp of the data.
 */
module ChatHistory {
  import opened Basics
  import opened ChatTables
  import opened ChatRetention

  datatype Tx =
    | TxCreate(input: CreateInput)
    | TxWithdraw(id: int, authorKey: string, actorRole: string, now: int, window: int)
    | TxDelete(id: int, deletedBy: string, now: int, overlapped: bool)
    | TxBatchDelete(ids: seq<int>, overlaps: seq<bool>, deletedBy: string, now: int)
    | TxClear(expectedGeneration: int, expectedLatest: int)
    | TxCleanup(now: int, retentionDays: int, maxMessages: int, batch: int)

  predicate BatchIdsOk(ids: seq<int>) {
    1 <= |ids| <= 100 && Ascending(ids) && forall k | 0 <= k < |ids| :: ids[k] >= 1
  }

  ghost function Apply(t: Tables, tx: Tx): Tables {
    match tx
    case TxCreate(input) => CreateMessage(t, input).0
    case TxWithdraw(id, authorKey, actorRole, now, window) =>
        WithdrawMessage(t, id, authorKey, actorRole, now, window).0
    case TxDelete(id, deletedBy, now, overlapped) => DeleteMessage(t, id, deletedBy, now, overlapped).0
    case TxBatchDelete(ids, overlaps, deletedBy, now) =>
      if BatchIdsOk(ids) && |overlaps| == |ids| then BatchDelete(t, ids, overlaps, deletedBy, now).0 else t
    case TxClear(expectedGeneration, expectedLatest) => ClearMessages(t, expectedGeneration, expectedLatest).0
    case TxCleanup(now, retentionDays, maxMessages, batch) =>
      if retentionDays < 1 || maxMessages < 1 || batch < 1 then t
      else CleanupStep(t, now - retentionDays * DAY, maxMessages, batch).0
  }

  // ----- single transactions -----

  /**
   The effect of deleting the first `n` ids of a batch: consecutive delete changes in
   ascending id order, and nothing else.
   */
  ghost predicate BatchEffect(t: Tables, u: Tables, ids: seq<int>, n: nat, deletedBy: string, now: int)
    requires n <= |ids|
  {
    && u.lastSeq == t.lastSeq + n && u.lastId == t.lastId && u.generation == t.generation
    && RowsDeleted(t.messages, u.messages, ids[..n], deletedBy, now)
    && ChangesAppended(t, u, ids, n, now)
  }

  ghost predicate RowsDeleted(rows: map<int, Row>, after: map<int, Row>, ids: seq<int>, deletedBy: string, now: int) {
    && after.Keys == rows.Keys
    && forall id | id in rows ::
         after[id] == if id in ids then DeletedRow(rows[id], deletedBy, now) else rows[id]
  }

  ghost predicate ChangesAppended(t: Tables, u: Tables, ids: seq<int>, n: nat, now: int)
    requires n <= |ids|
  {
    && (forall s :: s in u.changes <==> (s in t.changes && s <= t.lastSeq) || t.lastSeq < s <= t.lastSeq + n)
    && (forall s | s in u.changes ::
          u.changes[s] == if t.lastSeq < s <= t.lastSeq + n then Change(ids[s - t.lastSeq - 1], Delete, now)
                          else if s in t.changes then t.changes[s] else u.changes[s])
  }

  lemma BatchEffectStep(t: Tables, u: Tables, v: Tables, ids: seq<int>, n: nat, deletedBy: string, now: int)
    requires 0 < n <= |ids| && Ascending(ids) && ids[n - 1] in t.messages && ids[n - 1] in u.messages
    requires BatchEffect(t, u, ids, n - 1, deletedBy, now)
    requires v == Append(u, ids[n - 1], DeletedRow(u.messages[ids[n - 1]], deletedBy, now), Delete, now)
    ensures BatchEffect(t, v, ids, n, deletedBy, now)
  {
    assert ids[..n] == ids[..n - 1] + [ids[n - 1]];
    assert ids[n - 1] !in ids[..n - 1];
    assert ChangesAppended(t, v, ids, n, now);
    hide ChangesAppended, DeletedRow;
  }

  lemma {:induction false} DeletePrefixEffect(t: Tables, ids: seq<int>, n: nat, deletedBy: string, now: int)
    requires n <= |ids| && Ascending(ids)
    requires forall k | 0 <= k < |ids| :: ids[k] in t.messages
    requires forall s | s in t.changes :: s <= t.lastSeq
    ensures BatchEffect(t, DeletePrefix(t, ids, n, deletedBy, now), ids, n, deletedBy, now)
  {
    if n > 0 {
      var u := DeletePrefix(t, ids, n - 1, deletedBy, now);
      DeletePrefixEffect(t, ids, n - 1, deletedBy, now);
      BatchEffectStep(t, u, DeletePrefix(t, ids, n, deletedBy, now), ids, n, deletedBy, now);
    }
  }

  lemma {:induction false} DeletePrefixOk(t: Tables, ids: seq<int>, n: nat, deletedBy: string, now: int)
    requires TablesOk(t) && n <= |ids| && Ascending(ids)
    requires forall k | 0 <= k < |ids| :: ids[k] in t.messages && t.messages[ids[k]].deletedAt.None?
    ensures TablesOk(DeletePrefix(t, ids, n, deletedBy, now))
  {
    if n > 0 {
      var u, id := DeletePrefix(t, ids, n - 1, deletedBy, now), ids[n - 1];
      DeletePrefixOk(t, ids, n - 1, deletedBy, now);
      assert id in u.messages && u.messages[id] == t.messages[id] by {
        DeletePrefixEffect(t, ids, n - 1, deletedBy, now);
        assert id !in ids[..n - 1];
      }
      DeleteStep(u, DeletePrefix(t, ids, n, deletedBy, now), id, deletedBy, now);
    }
  }

  lemma BatchGrows(t: Tables, u: Tables, ids: seq<int>, deletedBy: string, now: int)
    requires TablesOk(t) && ids != []
    requires forall k | 0 <= k < |ids| :: ids[k] in t.messages
    requires BatchEffect(t, u, ids, |ids|, deletedBy, now)
    ensures Grows(t, u)
  {
    assert ids[..|ids|] == ids;
    forall id | id in t.messages && u.messages[id] != t.messages[id]
      ensures Touched(t, u, id)
    {
      var k :| 0 <= k < |ids| && ids[k] == id;
      assert u.changes[t.lastSeq + 1 + k].messageId == id;
    }
  }

  lemma DeleteStep(t: Tables, u: Tables, id: int, deletedBy: string, now: int)
    requires TablesOk(t) && id in t.messages && t.messages[id].deletedAt.None?
    requires u == Append(t, id, DeletedRow(t.messages[id], deletedBy, now), Delete, now)
    ensures TablesOk(u) && Grows(t, u)
  {
    var row := DeletedRow(t.messages[id], deletedBy, now);
    assert t.(lastId := u.lastId) == t;
    assert Lifecycle(row) == Lifecycle(t.messages[id]) + [Delete];
    AppendOk(t, u, id, row, Delete, now);
    AppendGrows(t, u, id, row, Delete, now);
  }

  lemma BatchDeleted(t: Tables, ids: seq<int>, deletedBy: string, now: int)
    requires TablesOk(t) && Ascending(ids) && ids != []
    requires forall k | 0 <= k < |ids| :: ids[k] in t.messages && t.messages[ids[k]].deletedAt.None?
    ensures var u := DeletePrefix(t, ids, |ids|, deletedBy, now);
            && TablesOk(u) && Grows(t, u)
            && BatchEffect(t, u, ids, |ids|, deletedBy, now)
            && forall k | 0 <= k < |ids| :: u.messages[ids[k]] == DeletedRow(t.messages[ids[k]], deletedBy, now)
  {
    var u := DeletePrefix(t, ids, |ids|, deletedBy, now);
    DeletePrefixOk(t, ids, |ids|, deletedBy, now);
    DeletePrefixEffect(t, ids, |ids|, deletedBy, now);
    BatchGrows(t, u, ids, deletedBy, now);
    assert ids[..|ids|] == ids;
  }

  /**
   All or nothing: a batch that succeeds deletes every id with consecutive sequence numbers
   in ascending id order, and one that fails leaves the tables as they were. It succeeds
   exactly when no gate was contended and every id is present and not yet deleted.
   */
  lemma BatchDeleteIsAtomic(t: Tables, ids: seq<int>, overlaps: seq<bool>, deletedBy: string, now: int)
    requires TablesOk(t) && BatchIdsOk(ids) && |overlaps| == |ids|
    ensures var (u, result) := BatchDelete(t, ids, overlaps, deletedBy, now);
            && (result.Failure? ==> u == t)
            && (result.Success? <==>
                  && ValidDeleter(deletedBy)
                  && true !in overlaps
                  && forall k | 0 <= k < |ids| :: ids[k] in t.messages && t.messages[ids[k]].deletedAt.None?)
            && (result.Success? ==>
                  && BatchEffect(t, u, ids, |ids|, deletedBy, now)
                  && |result.value| == |ids|
                  && forall k | 0 <= k < |ids| ::
                       result.value[k] == Mutation(ids[k], u.messages[ids[k]], t.lastSeq + 1 + k))
            && TablesOk(u) && Grows(t, u)
  {
    hide BatchEffect, TablesOk, Grows, DeletePrefix;
    BatchObstacleNone(t, ids);
    ContendedNone(ids, overlaps);
    GrowsReflexive(t);
    if BatchObstacle(t, ids).None? {
      BatchDeleted(t, ids, deletedBy, now);
    }
  }

  lemma {:induction false} ContendedNone(ids: seq<int>, overlaps: seq<bool>)
    requires |overlaps| == |ids|
    ensures FirstContended(ids, overlaps).None? <==> true !in overlaps
  {
    if ids != [] {
      ContendedNone(ids[1..], overlaps[1..]);
      assert overlaps == [overlaps[0]] + overlaps[1..];
    }
  }

  lemma CreateKeepsTables(t: Tables, input: CreateInput)
    requires TablesOk(t)
    ensures TablesOk(CreateMessage(t, input).0) && Grows(t, CreateMessage(t, input).0)
  {
    var u := CreateMessage(t, input).0;
    if ValidCreate(input) {
      assert Lifecycle(NewRow(input)) == [Create];
      AppendOk(t, u, t.lastId + 1, NewRow(input), Create, input.createdAt);
      AppendGrows(t, u, t.lastId + 1, NewRow(input), Create, input.createdAt);
    }
  }

  lemma WithdrawKeepsTables(t: Tables, id: int, authorKey: string, actorRole: string, now: int, window: int)
    requires TablesOk(t)
    ensures var u := WithdrawMessage(t, id, authorKey, actorRole, now, window).0;
            TablesOk(u) && Grows(t, u)
  {
    var (u, result) := WithdrawMessage(t, id, authorKey, actorRole, now, window);
    if result.Success? {
      var row := t.messages[id].(withdrawnAt := Some(now));
      assert t.(lastId := u.lastId) == t;
      assert Lifecycle(row) == Lifecycle(t.messages[id]) + [Withdraw];
      AppendOk(t, u, id, row, Withdraw, now);
      AppendGrows(t, u, id, row, Withdraw, now);
    }
  }

  lemma DeleteKeepsTables(t: Tables, id: int, deletedBy: string, now: int, overlapped: bool)
    requires TablesOk(t)
    ensures var u := DeleteMessage(t, id, deletedBy, now, overlapped).0;
            TablesOk(u) && Grows(t, u)
  {
    var (u, result) := DeleteMessage(t, id, deletedBy, now, overlapped);
    if result.Success? {
      DeleteStep(t, u, id, deletedBy, now);
    }
  }

  lemma ClearKeepsTables(t: Tables, expectedGeneration: int, expectedLatest: int)
    requires TablesOk(t)
    ensures var u := ClearMessages(t, expectedGeneration, expectedLatest).0;
            TablesOk(u) && (u == t || Destroys(t, u))
  {
  }

  lemma CleanupKeepsTables(t: Tables, cutoff: int, maxMessages: int, batch: nat)
    requires TablesOk(t)
    ensures var u := CleanupStep(t, cutoff, maxMessages, batch).0;
            TablesOk(u) && (u == t || Destroys(t, u))
  {
    DestroyOk(t, Selection(t.messages, cutoff, maxMessages, batch));
  }

  lemma GrowsReflexive(t: Tables)
    requires TablesOk(t)
    ensures Grows(t, t)
  {
  }

  /** Every transaction keeps the tables well formed, and either only grows the log or raises the generation. */
  lemma TxKeepsTables(t: Tables, tx: Tx)
    requires TablesOk(t)
    ensures TablesOk(Apply(t, tx)) && Moves(t, Apply(t, tx))
  {
    hide TablesOk, Grows, Destroys;
    GrowsReflexive(t);
    match tx
    case TxCreate(input) => CreateKeepsTables(t, input);
    case TxWithdraw(id, authorKey, actorRole, now, window) =>
      WithdrawKeepsTables(t, id, authorKey, actorRole, now, window);
    case TxDelete(id, deletedBy, now, overlapped) => DeleteKeepsTables(t, id, deletedBy, now, overlapped);
    case TxBatchDelete(ids, overlaps, deletedBy, now) =>
      if BatchIdsOk(ids) && |overlaps| == |ids| {
        BatchDeleteIsAtomic(t, ids, overlaps, deletedBy, now);
      }
    case TxClear(expectedGeneration, expectedLatest) => ClearKeepsTables(t, expectedGeneration, expectedLatest);
    case TxCleanup(now, retentionDays, maxMessages, batch) =>
      if retentionDays >= 1 && maxMessages >= 1 && batch >= 1 {
        CleanupKeepsTables(t, now - retentionDays * DAY, maxMessages, batch);
      }
  }

  // ----- agreement of log and table -----

  function StatusAfter(kind: Kind): Status {
    match kind
    case Create => Active
    case Withdraw => Withdrawn
    case Delete => Deleted
  }

  /**
   A message's surviving changes read create, then optionally withdraw, then optionally
   delete; its status is the last of them; it has a body exactly while it is not deleted.
   */
  lemma LogAgreesWithTable(t: Tables, id: int)
    requires TablesOk(t) && id in t.messages
    ensures var log := LogOf(t.changes, id, t.lastSeq);
            && log in {[Create], [Create, Withdraw], [Create, Delete], [Create, Withdraw, Delete]}
            && StatusOf(t.messages[id]) == StatusAfter(log[|log| - 1])
            && (t.messages[id].body.None? <==> StatusOf(t.messages[id]) == Deleted)
  {
    var row := t.messages[id];
    assert LogOf(t.changes, id, t.lastSeq) == Lifecycle(row);
    assert Lifecycle(row) ==
      if row.withdrawnAt.Some? then (if row.deletedAt.Some? then [Create, Withdraw, Delete] else [Create, Withdraw])
      else (if row.deletedAt.Some? then [Create, Delete] else [Create]);
  }

  /**
   A delete that overlapped a withdrawal which won must see a conflict; one that came later still
   deletes the withdrawn message, and after it nothing more can happen to the message.
   */
  lemma DeleteAgainstWithdraw(
    t: Tables, id: int, authorKey: string, now: int, window: int, deletedBy: string, later: int)
    requires TablesOk(t) && ValidDeleter(deletedBy)
    requires WithdrawMessage(t, id, authorKey, "user", now, window).1.Success?
    ensures var u := WithdrawMessage(t, id, authorKey, "user", now, window).0;
            var (v, deleted) := DeleteMessage(u, id, deletedBy, later, false);
            && DeleteMessage(u, id, deletedBy, later, true) == (u, Failure(StateConflict))
            && deleted.Success?
            && LogOf(v.changes, id, v.lastSeq) == [Create, Withdraw, Delete]
            && DeleteMessage(v, id, deletedBy, later, false) == (v, Failure(StateConflict))
            && WithdrawMessage(v, id, authorKey, "user", later, window) == (v, Failure(StateConflict))
  {
    WithdrawKeepsTables(t, id, authorKey, "user", now, window);
    var u := WithdrawMessage(t, id, authorKey, "user", now, window).0;
    DeleteKeepsTables(u, id, deletedBy, later, false);
    var v := DeleteMessage(u, id, deletedBy, later, false).0;
    assert LogOf(v.changes, id, v.lastSeq) == Lifecycle(v.messages[id]);
    hide LogOf, Grows;
  }

  predicate OwnMessage(t: Tables, id: int, authorKey: string, actorRole: string) {
    id in t.messages && actorRole == "user" && t.messages[id].authorRole == "user"
        && t.messages[id].authorKey == authorKey
  }

  /**
   What the answer to a withdrawal means, whatever order the reasons are looked at in: exactly one
   of the five cases holds, and a conflict always means that the message has been withdrawn or
   deleted. The source's last resort, a conflict nothing else explains, does not occur.
   */
  lemma WithdrawReasons(t: Tables, id: int, authorKey: string, actorRole: string, now: int, window: int)
    requires id >= 1 && window > 0
    ensures var answer := WithdrawMessage(t, id, authorKey, actorRole, now, window).1;
            var own := OwnMessage(t, id, authorKey, actorRole);
            && (answer == Failure(MessageNotFound) <==> id !in t.messages)
            && (answer == Failure(WithdrawForbidden) <==> id in t.messages && !own)
            && (answer == Failure(StateConflict) <==> own && StatusOf(t.messages[id]) != Active)
            && (answer == Failure(WithdrawExpired) <==>
                  own && StatusOf(t.messages[id]) == Active && !(now - window <= t.messages[id].createdAt <= now))
            && (answer.Success? <==>
                  own && StatusOf(t.messages[id]) == Active && now - window <= t.messages[id].createdAt <= now)
  {
  }

  /**
   A refusal is final: asked again later, at any later point of a run, the same withdrawal can only
   succeed if the message did not exist yet, or if its creation still lay in the future.
   */
  lemma WithdrawRefusalIsFinal(
    t: Tables, u: Tables, id: int, authorKey: string, actorRole: string, now: int, later: int, window: int)
    requires TablesOk(t) && Succeeds(t, u) && now <= later
    requires WithdrawMessage(t, id, authorKey, actorRole, now, window).1.Failure?
    requires WithdrawMessage(u, id, authorKey, actorRole, later, window).1.Success?
    ensures var reason := WithdrawMessage(t, id, authorKey, actorRole, now, window).1.error;
            || (reason == MessageNotFound && id > t.lastId)
            || (reason == WithdrawExpired && id in t.messages && now < t.messages[id].createdAt)
  {
    WithdrawReasons(t, id, authorKey, actorRole, now, window);
    WithdrawReasons(u, id, authorKey, actorRole, later, window);
    assert id in t.messages ==> SameMessage(t.messages[id], u.messages[id]);
  }

  /** Every message has the change that created it. */
  lemma CreationIsLogged(t: Tables, id: int) returns (s: int)
    requires TablesOk(t) && id in t.messages
    ensures 1 <= s <= t.lastSeq && s in t.changes && t.changes[s].messageId == id && t.changes[s].kind == Create
  {
    assert Lifecycle(t.messages[id])[0] == Create;
    s := LogHead(t.changes, id, t.lastSeq);
  }

  // ----- runs -----

  ghost predicate IsRun(run: seq<Tables>, txs: seq<Tx>) {
    && |run| == |txs| + 1
    && run[0] == EMPTY_TABLES
    && forall i | 0 <= i < |txs| :: run[i + 1] == Apply(run[i], txs[i])
  }

  /** What later tables owe earlier ones, whatever ran in between. */
  ghost predicate Succeeds(t: Tables, u: Tables) {
    && t.lastId <= u.lastId && t.lastSeq <= u.lastSeq && t.generation <= u.generation
    && (forall id | id in u.messages && id !in t.messages :: t.lastId < id)
    && (forall s | s in u.changes && s !in t.changes :: t.lastSeq < s)
    && (forall s | s in t.changes && s in u.changes :: u.changes[s] == t.changes[s])
    && (forall s | s in t.changes && s !in u.changes :: t.generation < u.generation)
    && (forall s | s in t.changes && t.changes[s].messageId in u.messages :: s in u.changes)
    && (forall id | id in t.messages && id !in u.messages :: t.generation < u.generation)
    && (forall id | id in t.messages && id in u.messages :: SameMessage(t.messages[id], u.messages[id]))
  }

  /** Identity never changes, a withdrawal or deletion is final, and a body can only go away. */
  ghost predicate SameMessage(a: Row, b: Row) {
    && b.authorKey == a.authorKey && b.authorTag == a.authorTag && b.authorRole == a.authorRole
    && b.sourceIP == a.sourceIP && b.createdAt == a.createdAt
    && (a.withdrawnAt.Some? ==> b.withdrawnAt == a.withdrawnAt)
    && (a.deletedAt.Some? ==> b == a)
    && (b.body == a.body || b.body == None)
  }

  lemma BatchSucceeds(t: Tables, u: Tables, ids: seq<int>, deletedBy: string, now: int)
    requires TablesOk(t)
    requires forall k | 0 <= k < |ids| :: ids[k] in t.messages && t.messages[ids[k]].deletedAt.None?
    requires BatchEffect(t, u, ids, |ids|, deletedBy, now)
    ensures Succeeds(t, u)
  {
    assert ids[..|ids|] == ids;
    forall id | id in t.messages
      ensures SameMessage(t.messages[id], u.messages[id])
    {
      if id in ids {
        var k :| 0 <= k < |ids| && ids[k] == id;
      }
    }
  }

  lemma BatchDeleteSucceeds(t: Tables, ids: seq<int>, overlaps: seq<bool>, deletedBy: string, now: int)
    requires TablesOk(t) && BatchIdsOk(ids) && |overlaps| == |ids|
    ensures Succeeds(t, BatchDelete(t, ids, overlaps, deletedBy, now).0)
  {
    BatchDeleteIsAtomic(t, ids, overlaps, deletedBy, now);
    if BatchDelete(t, ids, overlaps, deletedBy, now).1.Success? {
      BatchSucceeds(t, BatchDelete(t, ids, overlaps, deletedBy, now).0, ids, deletedBy, now);
    }
  }

  lemma ClearAndCleanupSucceed(t: Tables, tx: Tx)
    requires TablesOk(t)
    ensures tx.TxClear? || tx.TxCleanup? ==> Succeeds(t, Apply(t, tx))
    ensures Succeeds(t, t)
  {
  }

  lemma TxSucceeds(t: Tables, tx: Tx)
    requires TablesOk(t)
    ensures Succeeds(t, Apply(t, tx))
  {
    ClearAndCleanupSucceed(t, tx);
    hide Succeeds, TablesOk, CleanupStep;
    match tx
    case TxCreate(input) =>
    case TxWithdraw(id, authorKey, actorRole, now, window) =>
    case TxDelete(id, deletedBy, now, overlapped) =>
    case TxBatchDelete(ids, overlaps, deletedBy, now) =>
      if BatchIdsOk(ids) && |overlaps| == |ids| {
        BatchDeleteSucceeds(t, ids, overlaps, deletedBy, now);
      }
    case TxClear(expectedGeneration, expectedLatest) =>
    case TxCleanup(now, retentionDays, maxMessages, batch) =>
  }

  lemma SucceedsTransitive(t: Tables, u: Tables, v: Tables)
    requires Succeeds(t, u) && Succeeds(u, v)
    requires TablesOk(t)
    ensures Succeeds(t, v)
  {
  }

  lemma {:induction false} RunKeepsTables(run: seq<Tables>, txs: seq<Tx>, i: nat, j: nat)
    requires IsRun(run, txs) && i <= j < |run|
    ensures TablesOk(run[i]) && TablesOk(run[j]) && Moves(run[i], run[j])
    decreases j
  {
    if j > 0 {
      RunKeepsTables(run, txs, if i < j then i else i - 1, j - 1);
      TxKeepsTables(run[j - 1], txs[j - 1]);
      if i < j {
        MovesTransitive(run[i], run[j - 1], run[j]);
      }
    }
  }

  /**
   Message ids and change sequence numbers are never reused over a run, rows and changes
   keep their identity, and a row or a change disappears only if the generation rises.
   */
  lemma {:induction false} NumbersNeverRepeat(run: seq<Tables>, txs: seq<Tx>, i: nat, j: nat)
    requires IsRun(run, txs) && i <= j < |run|
    ensures Succeeds(run[i], run[j])
    decreases j
  {
    if i < j {
      NumbersNeverRepeat(run, txs, i, j - 1);
      RunKeepsTables(run, txs, i, j - 1);
      TxSucceeds(run[j - 1], txs[j - 1]);
      SucceedsTransitive(run[i], run[j - 1], run[j]);
    }
  }

  /** The stamp the client echoes back identifies the data: equal stamps, equal tables. */
  lemma StampIdentifiesTables(run: seq<Tables>, txs: seq<Tx>, i: nat, j: nat)
    requires IsRun(run, txs) && i <= j < |run|
    ensures run[i].generation == run[j].generation && run[i].lastSeq == run[j].lastSeq ==> run[i] == run[j]
  {
    RunKeepsTables(run, txs, i, j);
  }

  lemma NoMessagesNoChanges(t: Tables)
    requires TablesOk(t)
    ensures t.messages == map[] ==> t.changes == map[]
  {
    if t.messages == map[] {
      assert forall s :: s !in t.changes;
    }
  }

  /**
   A clear conditioned on the stamp observed at `i` and executed at `j` succeeds exactly when
   nothing was committed in between; it then removes everything that was observed, and raises
   the generation exactly when there was something to remove.
   */
  lemma ClearIsConditional(run: seq<Tables>, txs: seq<Tx>, i: nat, j: nat)
    requires IsRun(run, txs) && i <= j < |run|
    ensures var (u, result) := ClearMessages(run[j], run[i].generation, run[i].lastSeq);
            && (result.Success? <==> run[j] == run[i])
            && (result.Failure? ==> u == run[j] && result.error == ClearConflict)
            && (result.Success? ==>
                  && u.messages == map[] && u.changes == map[] && u.lastSeq == run[i].lastSeq
                  && result.value == ClearResult(|run[i].messages|, u.generation, u.lastSeq)
                  && u.generation == run[i].generation + (if run[i].messages == map[] then 0 else 1))
  {
    RunKeepsTables(run, txs, i, j);
    StampIdentifiesTables(run, txs, i, j);
    if run[i].messages == map[] {
      NoMessagesNoChanges(run[i]);
    }
  }
}
