/**
 What each chat transaction stores, row by row and change by change, and when it is refused: said of
 the tables before and after it alone.
 */
module ChatRows {
  import opened Basics
  import opened ChatTables
  import opened ChatRetention
  import opened ChatHistory

  /** One change is appended under the next number, and no message but this one is touched. */
  ghost predicate OneChange(t: Tables, u: Tables, id: int, kind: Kind, now: int) {
    && u.lastSeq == t.lastSeq + 1 && u.generation == t.generation
    && u.changes == t.changes[t.lastSeq + 1 := Change(id, kind, now)]
    && id in u.messages && u.messages - {id} == t.messages - {id}
  }

  /**
   A message is created exactly if author, tag and text are given and the role is one of the two; it
   gets the next id and is stored as given, neither withdrawn nor deleted.
   */
  lemma CreateStores(t: Tables, input: CreateInput)
    ensures var (u, r) := CreateMessage(t, input);
            && (r.Success? <==>
                  && input.authorKey != "" && input.authorTag != "" && input.body != ""
                  && (input.authorRole == "user" || input.authorRole == "admin"))
            && (r.Failure? ==> u == t && r.error == InvalidInput)
            && (r.Success? ==>
                  && u.lastId == t.lastId + 1 && OneChange(t, u, u.lastId, Create, input.createdAt)
                  && r.value == Mutation(u.lastId, u.messages[u.lastId], u.lastSeq)
                  && var row := u.messages[u.lastId];
                     && row.authorKey == input.authorKey && row.authorTag == input.authorTag
                     && row.authorRole == input.authorRole && row.sourceIP == input.sourceIP
                     && row.body == Some(input.body) && row.createdAt == input.createdAt
                     && row.withdrawnAt == None && row.deletedAt == None && row.deletedBy == None)
  {
  }

  /** A withdrawal that succeeds notes its time and leaves everything else of the message, its text included. */
  lemma WithdrawStores(t: Tables, id: int, authorKey: string, actorRole: string, now: int, window: int)
    ensures var (u, r) := WithdrawMessage(t, id, authorKey, actorRole, now, window);
            && (id < 1 || window <= 0 ==> r == Failure(WithdrawForbidden))
            && (r.Failure? ==> u == t)
            && (r.Success? ==>
                  && id in t.messages && u.lastId == t.lastId && OneChange(t, u, id, Withdraw, now)
                  && r.value == Mutation(id, u.messages[id], u.lastSeq)
                  && u.messages[id] == t.messages[id].(withdrawnAt := Some(now)))
  {
  }

  /**
   A deletion by somebody with a name of at most 256 characters succeeds exactly if the message is
   there, not deleted, and, should the deletion have overlapped another change of it, not withdrawn.
   It takes the text away and notes when and by whom.
   */
  lemma DeleteStores(t: Tables, id: int, deletedBy: string, now: int, overlapped: bool)
    ensures var (u, r) := DeleteMessage(t, id, deletedBy, now, overlapped);
            var named := deletedBy != "" && |deletedBy| <= 256;
            && (r.Success? <==>
                  && id >= 1 && named && id in t.messages && t.messages[id].deletedAt == None
                  && (overlapped ==> t.messages[id].withdrawnAt == None))
            && (r == Failure(MessageNotFound) <==> id < 1 || (named && id !in t.messages))
            && (r == Failure(InvalidInput) <==> id >= 1 && !named)
            && (r.Failure? ==> u == t && r.error in {MessageNotFound, InvalidInput, StateConflict})
            && (r.Success? ==>
                  && u.lastId == t.lastId && OneChange(t, u, id, Delete, now)
                  && r.value == Mutation(id, u.messages[id], u.lastSeq)
                  && u.messages[id] == t.messages[id].(body := None, deletedAt := Some(now),
                      deletedBy := Some(deletedBy)))
  {
  }

  lemma {:induction false} FirstContendedAt(ids: seq<int>, overlaps: seq<bool>, k: nat)
    requires |overlaps| == |ids| && k < |ids| && overlaps[k] && forall j | 0 <= j < k :: !overlaps[j]
    ensures FirstContended(ids, overlaps) == Some(ids[k])
  {
    if k > 0 {
      FirstContendedAt(ids[1..], overlaps[1..], k - 1);
    }
  }

  lemma {:induction false} FirstObstacleAt(t: Tables, ids: seq<int>, k: nat)
    requires k < |ids| && forall j | 0 <= j < k :: ids[j] in t.messages && t.messages[ids[j]].deletedAt.None?
    requires ids[k] !in t.messages || t.messages[ids[k]].deletedAt.Some?
    ensures BatchObstacle(t, ids)
            == Some(BatchDeleteConflict(ids[k], if ids[k] in t.messages then AlreadyDeleted else Missing))
  {
    if k > 0 {
      assert forall j | 0 <= j < k - 1 :: ids[1..][j] == ids[j + 1];
      FirstObstacleAt(t, ids[1..], k - 1);
    }
  }

  /**
   The reason a batch is refused for: its deleter has no proper name, or else the first id whose gate
   was contended, or else the first one that is missing or already deleted.
   */
  lemma BatchReasons(t: Tables, ids: seq<int>, overlaps: seq<bool>, deletedBy: string, now: int, k: nat)
    requires |overlaps| == |ids| && k < |ids|
    ensures var r := BatchDelete(t, ids, overlaps, deletedBy, now).1;
            var named := deletedBy != "" && |deletedBy| <= 256;
            && (r == Failure(InvalidInput) <==> !named)
            && (named && overlaps[k] && (forall j | 0 <= j < k :: !overlaps[j]) ==>
                  r == Failure(BatchDeleteConflict(ids[k], ConcurrentConflict)))
            && (named && true !in overlaps && (ids[k] !in t.messages || t.messages[ids[k]].deletedAt.Some?)
                && (forall j | 0 <= j < k :: ids[j] in t.messages && t.messages[ids[j]].deletedAt.None?) ==>
                  r == Failure(BatchDeleteConflict(ids[k], if ids[k] in t.messages then AlreadyDeleted else Missing)))
  {
    ContendedNone(ids, overlaps);
    if overlaps[k] && forall j | 0 <= j < k :: !overlaps[j] {
      FirstContendedAt(ids, overlaps, k);
    }
    if (ids[k] !in t.messages || t.messages[ids[k]].deletedAt.Some?)
       && forall j | 0 <= j < k :: ids[j] in t.messages && t.messages[ids[j]].deletedAt.None? {
      FirstObstacleAt(t, ids, k);
    }
    BatchErrors(t, ids);
  }

  lemma {:induction false} BatchErrors(t: Tables, ids: seq<int>)
    ensures BatchObstacle(t, ids).Some? ==> BatchObstacle(t, ids).value.BatchDeleteConflict?
  {
    if ids != [] {
      BatchErrors(t, ids[1..]);
    }
  }

  /** A batch that succeeds deletes each of its messages as a single deletion would, and no other. */
  lemma BatchStores(t: Tables, ids: seq<int>, overlaps: seq<bool>, deletedBy: string, now: int)
    requires TablesOk(t) && BatchIdsOk(ids) && |overlaps| == |ids|
    requires BatchDelete(t, ids, overlaps, deletedBy, now).1.Success?
    ensures var (u, r) := BatchDelete(t, ids, overlaps, deletedBy, now);
            && u.messages.Keys == t.messages.Keys && u.lastId == t.lastId && u.generation == t.generation
            && u.lastSeq == t.lastSeq + |ids|
            && (forall x | x in t.messages && x !in ids :: u.messages[x] == t.messages[x])
            && (forall k | 0 <= k < |ids| ::
                  && ids[k] in t.messages
                  && u.messages[ids[k]] == t.messages[ids[k]].(body := None, deletedAt := Some(now),
                      deletedBy := Some(deletedBy))
                  && t.lastSeq + 1 + k in u.changes && u.changes[t.lastSeq + 1 + k] == Change(ids[k], Delete, now))
            && (forall c | c in t.changes :: c in u.changes && u.changes[c] == t.changes[c])
  {
    BatchDeleteIsAtomic(t, ids, overlaps, deletedBy, now);
    var u := BatchDelete(t, ids, overlaps, deletedBy, now).0;
    assert ids[..|ids|] == ids;
    forall k | 0 <= k < |ids|
      ensures u.messages[ids[k]] == t.messages[ids[k]].(body := None, deletedAt := Some(now),
              deletedBy := Some(deletedBy))
      ensures t.lastSeq + 1 + k in u.changes && u.changes[t.lastSeq + 1 + k] == Change(ids[k], Delete, now)
    {
    }
  }

  /** A clear is for the data it names exactly, empties both tables, and keeps all numbers. */
  lemma ClearStores(t: Tables, generation: int, latest: int)
    requires TablesOk(t)
    ensures var (u, r) := ClearMessages(t, generation, latest);
            && (r.Success? <==> generation == t.generation && latest == t.lastSeq)
            && (r == Failure(InvalidInput) <==> generation < 1 || latest < 0)
            && (r.Failure? ==> u == t && r.error in {InvalidInput, ClearConflict})
            && (r.Success? ==>
                  && u.messages == map[] && u.changes == map[] && u.lastId == t.lastId && u.lastSeq == t.lastSeq
                  && u.generation == (if t.messages == map[] then t.generation else t.generation + 1)
                  && r.value == ClearResult(|t.messages|, u.generation, u.lastSeq))
  {
    NoMessagesNoChanges(t);
  }

  /** Created before the cutoff, or with as many younger messages as may stay. */
  ghost predicate Removable(rows: map<int, Row>, x: int, cutoff: int, maxMessages: int)
    requires x in rows
  {
    rows[x].createdAt < cutoff || |set y | y in rows && Younger(rows, y, x)| >= maxMessages
  }

  /**
   One transaction of the maintenance loop removes at most a batch of messages, each of them older
   than the days it is kept or with as many younger ones as may stay; their changes go with them, and
   the generation is raised exactly if there were any.
   */
  lemma CleanupStores(t: Tables, now: int, days: int, maxMessages: int, batch: int)
    requires days >= 1 && maxMessages >= 1 && batch >= 1
    ensures var u := Apply(t, TxCleanup(now, days, maxMessages, batch));
            var gone := t.messages.Keys - u.messages.Keys;
            && u.messages.Keys <= t.messages.Keys && |gone| <= batch
            && (forall x | x in u.messages :: u.messages[x] == t.messages[x])
            && (forall x | x in gone :: Removable(t.messages, x, now - days * 24 * 3600 * 1_000_000_000, maxMessages))
            && (forall c | c in t.changes && t.changes[c].messageId in t.messages ::
                  c in u.changes <==> t.changes[c].messageId in u.messages)
            && u.lastId == t.lastId && u.lastSeq == t.lastSeq
            && u.generation == t.generation + (if gone == {} then 0 else 1)
  {
    var cutoff := now - days * DAY;
    assert cutoff == now - days * 24 * 3600 * 1_000_000_000;
    var sel := Selection(t.messages, cutoff, maxMessages, batch);
    SelectedFor(t.messages, cutoff, maxMessages, batch, sel);
    hide Selection, Doomed, IsOldest, Removable;
    RemovesSelection(t, if sel == {} then t else Destroy(t, sel), sel);
  }

  lemma RemovesSelection(t: Tables, u: Tables, sel: set<int>)
    requires sel <= t.messages.Keys && u == if sel == {} then t else Destroy(t, sel)
    ensures u.messages.Keys <= t.messages.Keys && t.messages.Keys - u.messages.Keys == sel
    ensures forall x | x in u.messages :: u.messages[x] == t.messages[x]
    ensures forall c | c in t.changes && t.changes[c].messageId in t.messages ::
              c in u.changes <==> t.changes[c].messageId in u.messages
    ensures u.lastId == t.lastId && u.lastSeq == t.lastSeq
    ensures u.generation == t.generation + (if sel == {} then 0 else 1)
  {
  }

  lemma SelectedFor(rows: map<int, Row>, cutoff: int, maxMessages: int, batch: nat, sel: set<int>)
    requires IsOldest(rows, Doomed(rows, cutoff, maxMessages), batch, sel)
    ensures sel <= rows.Keys && |sel| <= batch
    ensures forall x | x in sel :: Removable(rows, x, cutoff, maxMessages)
  {
    forall x | x in sel
      ensures Removable(rows, x, cutoff, maxMessages)
    {
      assert Newer(rows, x) == set y | y in rows && Younger(rows, y, x);
    }
  }
}
