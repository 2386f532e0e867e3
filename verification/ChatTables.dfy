/**
 The chat database: message table, append-only change log and sync metadata, with
 one function per transaction of the store.

 Each function maps the committed tables before a transaction to the committed
 tables after it. A transaction that fails leaves the three chat tables alone
 (it may still write an audit row, which is not part of this model).
 */
module ChatTables {
  import opened Basics

  datatype Status = Active | Withdrawn | Deleted

  datatype Kind = Create | Withdraw | Delete

  datatype Row = Row(
    authorKey: string,
    authorTag: string,
    authorRole: string,
    sourceIP: string,
    body: Option<string>,
    createdAt: int,
    withdrawnAt: Option<int>,
    deletedAt: Option<int>,
    deletedBy: Option<string>)

  datatype Change = Change(messageId: int, kind: Kind, createdAt: int)

  /** `lastId` and `lastSeq` are the AUTOINCREMENT high-water marks SQLite keeps for the two tables. */
  datatype Tables = Tables(
    messages: map<int, Row>,
    changes: map<int, Change>,
    lastId: int,
    lastSeq: int,
    generation: int)

  datatype SyncState = SyncState(generation: int, latestChangeSeq: int)

  datatype CreateInput = CreateInput(
    authorKey: string, authorTag: string, authorRole: string, sourceIP: string, body: string, createdAt: int)

  datatype ConflictReason = ConcurrentConflict | Missing | AlreadyDeleted

  datatype ChatError =
    | InvalidInput
    | MessageNotFound
    | WithdrawForbidden
    | WithdrawExpired
    | StateConflict
    | CursorResetRequired
    | BatchDeleteConflict(messageId: int, reason: ConflictReason)
    | ClearConflict

  datatype Mutation = Mutation(messageId: int, row: Row, eventSeq: int)

  datatype ClearResult = ClearResult(clearedCount: int, generation: int, latestChangeSeq: int)

  const EMPTY_TABLES := Tables(map[], map[], 0, 0, 1)

  function StatusOf(row: Row): Status {
    if row.deletedAt.Some? then Deleted
    else if row.withdrawnAt.Some? then Withdrawn
    else Active
  }

  // ----- transactions -----

  /** Inserting a change row: AUTOINCREMENT gives the next sequence number. */
  function Append(t: Tables, id: int, row: Row, kind: Kind, now: int): Tables {
    t.(messages := t.messages[id := row],
       changes := t.changes[t.lastSeq + 1 := Change(id, kind, now)],
       lastSeq := t.lastSeq + 1)
  }

  predicate ValidCreate(input: CreateInput) {
    && input.authorKey != "" && input.authorTag != ""
    && (input.authorRole == "user" || input.authorRole == "admin")
    && input.body != ""
  }

  function NewRow(input: CreateInput): Row {
    Row(input.authorKey, input.authorTag, input.authorRole, input.sourceIP,
        Some(input.body), input.createdAt, None, None, None)
  }

  function CreateMessage(t: Tables, input: CreateInput): (Tables, Result<Mutation, ChatError>) {
    if !ValidCreate(input) then (t, Failure(InvalidInput)) else
    var id := t.lastId + 1;
    (Append(t.(lastId := id), id, NewRow(input), Create, input.createdAt),
     Success(Mutation(id, NewRow(input), t.lastSeq + 1)))
  }

  predicate MayWithdraw(t: Tables, id: int, authorKey: string, actorRole: string, cutoff: int, now: int) {
    && id in t.messages
    && var row := t.messages[id];
    && row.authorKey == authorKey && row.authorRole == "user" && actorRole == "user"
    && row.withdrawnAt.None? && row.deletedAt.None?
    && cutoff <= row.createdAt <= now
  }

  /** The reason reported for a withdraw whose UPDATE matched no row. */
  function ClassifyWithdraw(
    t: Tables, id: int, authorKey: string, actorRole: string, cutoff: int, now: int)
    : ChatError
  {
    if id !in t.messages then MessageNotFound else
    var row := t.messages[id];
    if actorRole != "user" || row.authorRole != "user" || row.authorKey != authorKey then WithdrawForbidden
    else if row.deletedAt.Some? || row.withdrawnAt.Some? then StateConflict
    else if row.createdAt < cutoff || row.createdAt > now then WithdrawExpired
    else StateConflict
  }

  function WithdrawMessage(t: Tables, id: int, authorKey: string, actorRole: string, now: int, window: int)
    : (Tables, Result<Mutation, ChatError>)
  {
    if id < 1 || window <= 0 then (t, Failure(WithdrawForbidden)) else
    var cutoff := now - window;
    if MayWithdraw(t, id, authorKey, actorRole, cutoff, now) then
      var row := t.messages[id].(withdrawnAt := Some(now));
      (Append(t, id, row, Withdraw, now), Success(Mutation(id, row, t.lastSeq + 1)))
    else
      (t, Failure(ClassifyWithdraw(t, id, authorKey, actorRole, cutoff, now)))
  }

  predicate ValidDeleter(deletedBy: string) {
    deletedBy != "" && |deletedBy| <= 256
  }

  function DeletedRow(row: Row, deletedBy: string, now: int): Row {
    row.(body := None, deletedAt := Some(now), deletedBy := Some(deletedBy))
  }

  predicate MayDelete(t: Tables, id: int, overlapped: bool) {
    && id in t.messages
    && t.messages[id].deletedAt.None?
    && (t.messages[id].withdrawnAt.None? || !overlapped)
  }

  function DeleteMessage(t: Tables, id: int, deletedBy: string, now: int, overlapped: bool)
    : (Tables, Result<Mutation, ChatError>)
  {
    if id < 1 then (t, Failure(MessageNotFound))
    else if !ValidDeleter(deletedBy) then (t, Failure(InvalidInput))
    else if MayDelete(t, id, overlapped) then
      var row := DeletedRow(t.messages[id], deletedBy, now);
      (Append(t, id, row, Delete, now), Success(Mutation(id, row, t.lastSeq + 1)))
    else
      (t, Failure(if id !in t.messages then MessageNotFound else StateConflict))
  }

  /** The first id, in request order, that the batch may not delete. */
  function BatchObstacle(t: Tables, ids: seq<int>): Option<ChatError> {
    if ids == [] then None
    else if ids[0] !in t.messages then Some(BatchDeleteConflict(ids[0], Missing))
    else if t.messages[ids[0]].deletedAt.Some? then Some(BatchDeleteConflict(ids[0], AlreadyDeleted))
    else BatchObstacle(t, ids[1..])
  }

  /** Deleting the first `n` ids of the batch, one change each. */
  function DeletePrefix(t: Tables, ids: seq<int>, n: nat, deletedBy: string, now: int): Tables
    requires n <= |ids|
  {
    if n == 0 then t else
    var u := DeletePrefix(t, ids, n - 1, deletedBy, now);
    var id := ids[n - 1];
    if id in u.messages then Append(u, id, DeletedRow(u.messages[id], deletedBy, now), Delete, now) else u
  }

  function BatchMutations(t: Tables, ids: seq<int>, deletedBy: string, now: int): (r: seq<Mutation>)
    requires forall k | 0 <= k < |ids| :: ids[k] in t.messages
    ensures |r| == |ids|
  {
    seq(|ids|, k requires 0 <= k < |ids| =>
      Mutation(ids[k], DeletedRow(t.messages[ids[k]], deletedBy, now), t.lastSeq + 1 + k))
  }

  predicate Ascending(ids: seq<int>) {
    forall i, j | 0 <= i < j < |ids| :: ids[i] < ids[j]
  }

  /**
   A batch delete over ids already put in ascending order; `overlaps[k]` tells whether the
   gate of `ids[k]` was contended when the batch took it.
   */
  function BatchDelete(t: Tables, ids: seq<int>, overlaps: seq<bool>, deletedBy: string, now: int)
    : (Tables, Result<seq<Mutation>, ChatError>)
    requires |overlaps| == |ids|
  {
    if !ValidDeleter(deletedBy) then (t, Failure(InvalidInput)) else
    var contended := FirstContended(ids, overlaps);
    if contended.Some? then (t, Failure(BatchDeleteConflict(contended.value, ConcurrentConflict))) else
    var obstacle := BatchObstacle(t, ids);
    if obstacle.Some? then (t, Failure(obstacle.value)) else
    BatchObstacleNone(t, ids);
    (DeletePrefix(t, ids, |ids|, deletedBy, now), Success(BatchMutations(t, ids, deletedBy, now)))
  }

  function FirstContended(ids: seq<int>, overlaps: seq<bool>): Option<int>
    requires |overlaps| == |ids|
  {
    if ids == [] then None
    else if overlaps[0] then Some(ids[0])
    else FirstContended(ids[1..], overlaps[1..])
  }

  lemma {:induction false} BatchObstacleNone(t: Tables, ids: seq<int>)
    ensures BatchObstacle(t, ids).None? <==>
            forall k | 0 <= k < |ids| :: ids[k] in t.messages && t.messages[ids[k]].deletedAt.None?
  {
    if ids != [] {
      BatchObstacleNone(t, ids[1..]);
      assert forall k | 1 <= k < |ids| :: ids[k] == ids[1..][k - 1];
    }
  }

  /** The tables without the selected messages; destroying any row raises the generation. */
  function Destroy(t: Tables, sel: set<int>): Tables {
    t.(messages := t.messages - sel,
       changes := map s | s in t.changes && t.changes[s].messageId !in sel :: t.changes[s],
       generation := t.generation + 1)
  }

  /** What chatSyncState reads: the durable high-water mark, or the largest row should that be ahead of it. */
  ghost predicate IsLatestSeq(t: Tables, latest: int) {
    && t.lastSeq <= latest
    && (forall s | s in t.changes :: s <= latest)
    && (latest == t.lastSeq || latest in t.changes)
  }

  function ClearMessages(
    t: Tables, expectedGeneration: int, expectedLatest: int)
    : (Tables, Result<ClearResult, ChatError>)
  {
    if expectedGeneration < 1 || expectedLatest < 0 then (t, Failure(InvalidInput))
    else if t.generation != expectedGeneration || t.lastSeq != expectedLatest then (t, Failure(ClearConflict))
    else if t.messages == map[] && t.changes == map[] then (t, Success(ClearResult(0, t.generation, t.lastSeq)))
    else (t.(messages := map[], changes := map[], generation := t.generation + 1),
          Success(ClearResult(|t.messages|, t.generation + 1, t.lastSeq)))
  }

  // ----- the invariant of the committed tables -----

  /** The kinds of the surviving changes of one message, in sequence order. */
  ghost function LogOf(changes: map<int, Change>, id: int, upto: int): seq<Kind>
    decreases upto
  {
    if upto <= 0 then []
    else LogOf(changes, id, upto - 1) +
         (if upto in changes && changes[upto].messageId == id then [changes[upto].kind] else [])
  }

  /** create, then optionally withdraw, then optionally delete. */
  ghost function Lifecycle(row: Row): seq<Kind> {
    [Create] + (if row.withdrawnAt.Some? then [Withdraw] else []) + (if row.deletedAt.Some? then [Delete] else [])
  }

  ghost predicate RowOk(row: Row) {
    && (row.authorRole == "user" || row.authorRole == "admin")
    && (row.withdrawnAt.Some? ==> row.authorRole == "user")
    && (row.body.None? <==> row.deletedAt.Some?)
    && (row.deletedBy.Some? <==> row.deletedAt.Some?)
  }

  ghost predicate TablesOk(t: Tables) {
    && 0 <= t.lastId && 0 <= t.lastSeq && 1 <= t.generation
    && (forall id | id in t.messages :: 1 <= id <= t.lastId && RowOk(t.messages[id]))
    && (forall s | s in t.changes :: 1 <= s <= t.lastSeq && t.changes[s].messageId in t.messages)
    && (forall id | id in t.messages :: LogOf(t.changes, id, t.lastSeq) == Lifecycle(t.messages[id]))
  }

  lemma {:induction false} LogUnchanged(c: map<int, Change>, d: map<int, Change>, id: int, upto: int)
    requires forall s | 1 <= s <= upto ::
               (s in c && c[s].messageId == id) == (s in d && d[s].messageId == id)
    requires forall s | 1 <= s <= upto && s in c && c[s].messageId == id :: c[s] == d[s]
    ensures LogOf(c, id, upto) == LogOf(d, id, upto)
    decreases upto
  {
    if upto > 0 {
      LogUnchanged(c, d, id, upto - 1);
    }
  }

  lemma {:induction false} LogEmpty(c: map<int, Change>, id: int, upto: int)
    requires forall s | s in c :: c[s].messageId != id
    ensures LogOf(c, id, upto) == []
    decreases upto
  {
    if upto > 0 {
      LogEmpty(c, id, upto - 1);
    }
  }

  /** A non-empty log has a change behind its first entry. */
  lemma {:induction false} LogHead(c: map<int, Change>, id: int, upto: int) returns (s: int)
    requires LogOf(c, id, upto) != []
    ensures 1 <= s <= upto && s in c && c[s].messageId == id && c[s].kind == LogOf(c, id, upto)[0]
    decreases upto
  {
    if LogOf(c, id, upto - 1) == [] {
      s := upto;
    } else {
      s := LogHead(c, id, upto - 1);
    }
  }

  lemma AppendOk(t: Tables, u: Tables, id: int, row: Row, kind: Kind, now: int)
    requires TablesOk(t)
    requires u == Append(t.(lastId := u.lastId), id, row, kind, now)
    requires t.lastId <= u.lastId && 1 <= id <= u.lastId && RowOk(row)
    requires id in t.messages ==> Lifecycle(row) == Lifecycle(t.messages[id]) + [kind]
    requires id !in t.messages ==> Lifecycle(row) == [kind]
    ensures TablesOk(u)
  {
    forall x | x in u.messages
      ensures LogOf(u.changes, x, u.lastSeq) == Lifecycle(u.messages[x])
    {
      LogUnchanged(t.changes, u.changes, x, t.lastSeq);
      if x == id && id !in t.messages {
        LogEmpty(t.changes, id, t.lastSeq);
      }
    }
  }

  lemma DestroyOk(t: Tables, sel: set<int>)
    requires TablesOk(t)
    ensures TablesOk(Destroy(t, sel))
  {
    var u := Destroy(t, sel);
    forall x | x in u.messages
      ensures LogOf(u.changes, x, u.lastSeq) == Lifecycle(u.messages[x])
    {
      LogUnchanged(t.changes, u.changes, x, t.lastSeq);
    }
  }

  // ----- the two ways a transaction may move the tables -----

  ghost predicate Touched(t: Tables, u: Tables, id: int) {
    exists s :: t.lastSeq < s && s in u.changes && u.changes[s].messageId == id
  }

  /** The log only grew, without holes, and every row that differs has a change that says so. */
  ghost predicate Grows(t: Tables, u: Tables) {
    && u.generation == t.generation && t.lastSeq <= u.lastSeq && t.lastId <= u.lastId
    && (forall s | s in t.changes :: s in u.changes && u.changes[s] == t.changes[s])
    && (forall s | t.lastSeq < s <= u.lastSeq :: s in u.changes)
    && (forall s | s in u.changes && s !in t.changes :: t.lastSeq < s)
    && (forall id | id in t.messages :: id in u.messages)
    && (forall id | id in t.messages && u.messages[id] != t.messages[id] :: Touched(t, u, id))
    && (forall id | id in u.messages && id !in t.messages :: t.lastId < id && Touched(t, u, id))
    && (u.lastSeq == t.lastSeq ==> u == t)
  }

  ghost predicate Destroys(t: Tables, u: Tables) {
    && t.generation < u.generation && t.lastSeq <= u.lastSeq && t.lastId <= u.lastId
  }

  ghost predicate Moves(t: Tables, u: Tables) {
    Grows(t, u) || Destroys(t, u)
  }

  lemma MovesTransitive(t: Tables, u: Tables, v: Tables)
    requires TablesOk(t) && TablesOk(u) && TablesOk(v)
    requires Moves(t, u) && Moves(u, v)
    ensures Moves(t, v)
  {
    if Grows(t, u) && Grows(u, v) {
    }
  }

  lemma AppendGrows(t: Tables, u: Tables, id: int, row: Row, kind: Kind, now: int)
    requires TablesOk(t) && t.lastId <= u.lastId
    requires u == Append(t.(lastId := u.lastId), id, row, kind, now)
    requires id !in t.messages ==> t.lastId < id
    ensures Grows(t, u)
  {
    assert u.changes[t.lastSeq + 1].messageId == id;
    assert Touched(t, u, id);
  }
}
