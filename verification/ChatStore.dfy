/**
 The chat store as an object: each method is one transaction over the tables it keeps, and is
 proved to leave the tables, and to answer, exactly as the functions of the model say.
 */
module ChatStore {
  import opened Basics
  import opened ChatTables
  import opened ChatPages
  import opened ChatRetention
  import opened ChatHistory

  datatype Entry = Entry(id: int, row: Row)

  datatype CleanupOutcome = CaughtUp | OutOfTime | Cancelled | Failed

  // ----- ordering ids -----

  /** Ascending, duplicates kept. */
  ghost predicate Sorted(s: seq<int>) {
    forall i, j | 0 <= i < j < |s| :: s[i] <= s[j]
  }

  function InsertId(x: int, s: seq<int>): seq<int> {
    if s == [] || x <= s[0] then [x] + s else [s[0]] + InsertId(x, s[1..])
  }

  /** What sort.Slice does. */
  function SortIds(ids: seq<int>): seq<int> {
    if ids == [] then [] else InsertId(ids[0], SortIds(ids[1..]))
  }

  lemma {:induction false} InsertKeepsIds(x: int, s: seq<int>)
    ensures multiset(InsertId(x, s)) == multiset(s) + multiset{x}
  {
    if s != [] {
      assert s == [s[0]] + s[1..];
      InsertKeepsIds(x, s[1..]);
    }
  }

  lemma {:induction false} InsertKeepsOrder(x: int, s: seq<int>)
    requires Sorted(s)
    ensures Sorted(InsertId(x, s))
  {
    if s != [] && x > s[0] {
      var rest := InsertId(x, s[1..]);
      InsertKeepsOrder(x, s[1..]);
      InsertKeepsIds(x, s[1..]);
      forall y | y in multiset(rest)
        ensures s[0] <= y
      {
        assert y != x ==> y in s[1..];
      }
      ElementsOf(rest);
      assert forall k | 0 <= k < |rest| :: s[0] <= rest[k];
    }
  }

  lemma ElementsOf(s: seq<int>)
    ensures forall k | 0 <= k < |s| :: s[k] in multiset(s)
  {
  }

  lemma {:induction false} SortIdsSorts(ids: seq<int>)
    ensures Sorted(SortIds(ids)) && multiset(SortIds(ids)) == multiset(ids) && |SortIds(ids)| == |ids|
  {
    if ids != [] {
      assert ids == [ids[0]] + ids[1..];
      SortIdsSorts(ids[1..]);
      InsertKeepsOrder(ids[0], SortIds(ids[1..]));
      InsertKeepsIds(ids[0], SortIds(ids[1..]));
    }
    assert |multiset(SortIds(ids))| == |multiset(ids)|;
  }

  ghost predicate Distinct(ids: seq<int>) {
    forall i, j | 0 <= i < j < |ids| :: ids[i] != ids[j]
  }

  ghost predicate ValidBatch(ids: seq<int>) {
    1 <= |ids| <= 100 && (forall k | 0 <= k < |ids| :: ids[k] >= 1) && Distinct(ids)
  }

  /** No element occurs twice. */
  lemma {:induction false} DistinctIsMultiplicity(ids: seq<int>)
    ensures Distinct(ids) <==> forall x | x in multiset(ids) :: multiset(ids)[x] == 1
  {
    if ids != [] {
      var head, tail := ids[0], ids[1..];
      DistinctIsMultiplicity(tail);
      assert ids == [head] + tail;
      assert multiset(ids) == multiset{head} + multiset(tail);
      DistinctTail(ids);
      ElementsOf(tail);
      if head in multiset(tail) {
        assert multiset(ids)[head] >= 2;
      } else {
        assert forall x | x in multiset(tail) :: multiset(ids)[x] == multiset(tail)[x];
        assert multiset(ids)[head] == 1;
      }
    }
  }

  lemma DistinctTail(ids: seq<int>)
    requires ids != []
    ensures Distinct(ids) <==> ids[0] !in ids[1..] && Distinct(ids[1..])
  {
    var tail := ids[1..];
    assert forall k | 1 <= k < |ids| :: tail[k - 1] == ids[k];
    if ids[0] !in tail && Distinct(tail) {
      forall i, j | 0 <= i < j < |ids|
        ensures ids[i] != ids[j]
      {
        assert ids[j] == tail[j - 1];
      }
    }
  }

  /** Sorting shows a duplicate as two equal neighbours, and nothing else does. */
  lemma NeighboursTellDuplicates(ids: seq<int>, s: seq<int>)
    requires Sorted(s) && multiset(s) == multiset(ids)
    ensures Distinct(ids) <==> forall k | 1 <= k < |s| :: s[k] != s[k - 1]
    ensures Distinct(ids) ==> Ascending(s)
  {
    DistinctIsMultiplicity(ids);
    DistinctIsMultiplicity(s);
    if forall k | 1 <= k < |s| :: s[k] != s[k - 1] {
      forall i, j | 0 <= i < j < |s|
        ensures s[i] < s[j]
      {
        assert s[i] <= s[i + 1] <= s[j];
      }
    }
  }

  /** The one ascending arrangement of a batch: no other sequence has the same ids in ascending order. */
  lemma {:induction false} AscendingIsUnique(a: seq<int>, b: seq<int>)
    requires Ascending(a) && Ascending(b) && multiset(a) == multiset(b)
    ensures a == b
  {
    assert |multiset(a)| == |multiset(b)|;
    if a != [] {
      assert a[0] in multiset(a) && b[0] in multiset(b);
      assert a == [a[0]] + a[1..] && b == [b[0]] + b[1..];
      assert multiset(a[1..]) == multiset(a) - multiset{a[0]};
      assert multiset(b[1..]) == multiset(b) - multiset{b[0]};
      AscendingIsUnique(a[1..], b[1..]);
    }
  }

  /**
   A batch is accepted exactly if it has 1 to 100 positive ids without a repetition; then its
   ids come back in ascending order.
   */
  method NormalizeChatBatchIDs(ids: seq<int>) returns (r: Result<seq<int>, ChatError>)
    ensures r.Success? <==> ValidBatch(ids)
    ensures r.Failure? ==> r.error == InvalidInput
    ensures r.Success? ==> BatchIdsOk(r.value) && multiset(r.value) == multiset(ids) && r.value == SortIds(ids)
  {
    if |ids| < 1 || |ids| > 100 {
      return Failure(InvalidInput);
    }
    for k := 0 to |ids|
      invariant forall j | 0 <= j < k :: ids[j] >= 1
    {
      if ids[k] < 1 {
        return Failure(InvalidInput);
      }
    }
    var normalized := SortIds(ids);
    SortIdsSorts(ids);
    NeighboursTellDuplicates(ids, normalized);
    for k := 1 to |normalized|
      invariant forall j | 1 <= j < k :: normalized[j] != normalized[j - 1]
    {
      if normalized[k] == normalized[k - 1] {
        return Failure(InvalidInput);
      }
    }
    ElementsOf(normalized);
    assert forall x | x in multiset(ids) :: x in ids;
    return Success(normalized);
  }

  /** Whether each gate of the batch was contended when it was taken. */
  function Overlaps(ids: seq<int>, contended: set<int>): (r: seq<bool>)
    ensures |r| == |ids|
  {
    seq(|ids|, k requires 0 <= k < |ids| => ids[k] in contended)
  }

  // ----- reading the tables in key order -----

  /** ORDER BY key DESC LIMIT n */
  method LargestFirst(keys: set<int>, n: nat) returns (f: seq<int>)
    ensures |f| <= n && (forall x | x in f :: x in keys)
    ensures forall i, j | 0 <= i < j < |f| :: f[i] > f[j]
    ensures forall x | x in keys && x !in f :: |f| == n && forall y | y in f :: x < y
  {
    f := [];
    var rest := keys;
    while |f| < n && rest != {}
      invariant |f| <= n && rest <= keys
      invariant forall x | x in keys :: x in rest <==> x !in f
      invariant forall x | x in f :: x in keys
      invariant forall i, j | 0 <= i < j < |f| :: f[i] > f[j]
      invariant forall x, y | x in rest && y in f :: x < y
      decreases rest
    {
      LargestExists(rest);
      var x :| x in rest && forall y | y in rest && y != x :: y < x;
      assert forall y | y in f :: x < y;
      assert forall k | 0 <= k < |f| :: f[k] in f;
      f := f + [x];
      rest := rest - {x};
    }
  }

  lemma {:induction false} LargestExists(s: set<int>)
    requires s != {}
    ensures exists x :: x in s && forall y | y in s && y != x :: y < x
  {
    Inhabited(s);
    var a :| a in s;
    var t := s - {a};
    if t == {} {
      assert s == {a};
    } else {
      LargestExists(t);
      var b :| b in t && forall y | y in t && y != b :: y < b;
      var x := if b > a then b else a;
      assert forall y | y in s && y != x :: y == a || y in t;
      assert x in s;
    }
  }

  /** ORDER BY key ASC LIMIT n */
  method SmallestFirst(keys: set<int>, n: nat) returns (f: seq<int>)
    ensures IsHead(keys, n, f)
  {
    f := [];
    var rest := keys;
    while |f| < n && rest != {}
      invariant |f| <= n && rest <= keys
      invariant forall x | x in keys :: x in rest <==> x !in f
      invariant forall x | x in f :: x in keys
      invariant Ascending(f)
      invariant forall x, y | x in rest && y in f :: y < x
      decreases rest
    {
      SmallestExists(rest);
      var x :| x in rest && forall y | y in rest && y != x :: x < y;
      assert forall k | 0 <= k < |f| :: f[k] in f;
      f := f + [x];
      rest := rest - {x};
    }
  }

  lemma {:induction false} SmallestExists(s: set<int>)
    requires s != {}
    ensures exists x :: x in s && forall y | y in s && y != x :: x < y
  {
    Inhabited(s);
    var a :| a in s;
    var t := s - {a};
    if t == {} {
      assert s == {a};
    } else {
      SmallestExists(t);
      var b :| b in t && forall y | y in t && y != b :: b < y;
      var x := if b < a then b else a;
      assert forall y | y in s && y != x :: y == a || y in t;
      assert x in s;
    }
  }

  /** The swap loop over the first `n` rows. */
  method ReversePrefix(a: array<Entry>, n: nat)
    requires n <= a.Length
    modifies a
    ensures forall k | 0 <= k < n :: a[k] == old(a[n - 1 - k])
    ensures forall k | n <= k < a.Length :: a[k] == old(a[k])
  {
    var left, right := 0, n - 1;
    while left < right
      invariant 0 <= left && right == n - 1 - left && left <= right + 2
      invariant forall k | 0 <= k < left :: a[k] == old(a[n - 1 - k]) && a[n - 1 - k] == old(a[k])
      invariant forall k | left <= k <= right :: a[k] == old(a[k])
      invariant forall k | n <= k < a.Length :: a[k] == old(a[k])
    {
      a[left], a[right] := a[right], a[left];
      left, right := left + 1, right - 1;
    }
  }

  method ChatChangesAreContinuous(seqs: seq<int>, after: int, latest: int, limit: int) returns (r: bool)
    ensures r == Continuous(seqs, after, latest, limit)
  {
    if after == latest {
      return |seqs| == 0;
    }
    if |seqs| == 0 || seqs[0] != after + 1 {
      return false;
    }
    for k := 1 to |seqs|
      invariant forall j | 1 <= j < k :: seqs[j] == seqs[j - 1] + 1
    {
      if seqs[k] != seqs[k - 1] + 1 {
        return false;
      }
    }
    return |seqs| > limit || seqs[|seqs| - 1] == latest;
  }

  // ----- the store -----

  class Store {
    var messages: map<int, Row>
    var changes: map<int, Change>
    var lastId: int
    var lastSeq: int
    var generation: int

    function State(): Tables
      reads this
    {
      Tables(messages, changes, lastId, lastSeq, generation)
    }

    ghost predicate Valid()
      reads this
    {
      TablesOk(State())
    }

    constructor ()
      ensures State() == EMPTY_TABLES && Valid()
    {
      messages, changes, lastId, lastSeq, generation := map[], map[], 0, 0, 1;
    }

    method InsertChange(id: int, kind: Kind, now: int) returns (eventSeq: int)
      modifies this`changes, this`lastSeq
      ensures eventSeq == lastSeq == old(lastSeq) + 1
      ensures changes == old(changes)[eventSeq := Change(id, kind, now)]
    {
      lastSeq := lastSeq + 1;
      eventSeq := lastSeq;
      changes := changes[eventSeq := Change(id, kind, now)];
    }

    method CreateChatMessage(input: CreateInput) returns (r: Result<Mutation, ChatError>)
      requires Valid()
      modifies this
      ensures (State(), r) == CreateMessage(old(State()), input)
      ensures Valid() && Grows(old(State()), State())
    {
      CreateKeepsTables(State(), input);
      if input.authorKey == "" || input.authorTag == ""
        || (input.authorRole != "user" && input.authorRole != "admin") || input.body == "" {
        return Failure(InvalidInput);
      }
      lastId := lastId + 1;
      var id := lastId;
      var row := Row(input.authorKey, input.authorTag, input.authorRole, input.sourceIP,
                     Some(input.body), input.createdAt, None, None, None);
      messages := messages[id := row];
      var eventSeq := InsertChange(id, Create, input.createdAt);
      return Success(Mutation(id, row, eventSeq));
    }

    method WithdrawChatMessage(id: int, authorKey: string, actorRole: string, now: int, window: int)
      returns (r: Result<Mutation, ChatError>)
      requires Valid()
      modifies this
      ensures (State(), r) == WithdrawMessage(old(State()), id, authorKey, actorRole, now, window)
      ensures Valid() && Grows(old(State()), State())
    {
      WithdrawKeepsTables(State(), id, authorKey, actorRole, now, window);
      if id < 1 || window <= 0 {
        return Failure(WithdrawForbidden);
      }
      var cutoff := now - window;
      if id in messages && messages[id].authorKey == authorKey && messages[id].authorRole == "user"
          && actorRole == "user"
        && messages[id].withdrawnAt.None? && messages[id].deletedAt.None?
        && messages[id].createdAt >= cutoff && messages[id].createdAt <= now {
        messages := messages[id := messages[id].(withdrawnAt := Some(now))];
        var eventSeq := InsertChange(id, Withdraw, now);
        return Success(Mutation(id, messages[id], eventSeq));
      }
      var reason := ClassifyChatWithdraw(id, authorKey, actorRole, cutoff, now);
      return Failure(reason);
    }

    /** Why an update matched no row. */
    method ClassifyChatWithdraw(
      id: int, authorKey: string, actorRole: string, cutoff: int, now: int)
      returns (reason: ChatError)
      ensures reason == ClassifyWithdraw(State(), id, authorKey, actorRole, cutoff, now)
    {
      if id !in messages {
        return MessageNotFound;
      }
      var stored := messages[id];
      if actorRole != "user" || stored.authorRole != "user" || stored.authorKey != authorKey {
        return WithdrawForbidden;
      }
      if stored.deletedAt.Some? || stored.withdrawnAt.Some? {
        return StateConflict;
      }
      if stored.createdAt < cutoff || stored.createdAt > now {
        return WithdrawExpired;
      }
      return StateConflict;
    }

    method DeleteChatMessage(id: int, deletedBy: string, now: int, overlapped: bool)
      returns (r: Result<Mutation, ChatError>)
      requires Valid()
      modifies this
      ensures (State(), r) == DeleteMessage(old(State()), id, deletedBy, now, overlapped)
      ensures Valid() && Grows(old(State()), State())
    {
      DeleteKeepsTables(State(), id, deletedBy, now, overlapped);
      if id < 1 {
        return Failure(MessageNotFound);
      }
      if deletedBy == "" || |deletedBy| > 256 {
        return Failure(InvalidInput);
      }
      var allowWithdrawn := !overlapped;
      if id in messages && messages[id].deletedAt.None? && (messages[id].withdrawnAt.None? || allowWithdrawn) {
        messages := messages[id := messages[id].(body := None, deletedAt := Some(now), deletedBy := Some(deletedBy))];
        var eventSeq := InsertChange(id, Delete, now);
        return Success(Mutation(id, messages[id], eventSeq));
      }
      return Failure(if id !in messages then MessageNotFound else StateConflict);
    }

    /**
     One transaction for the whole batch. Every id is checked before the first row is written, so
     an update that matches no row, which would roll the batch back, cannot happen.
     */
    method BatchDeleteChatMessages(ids: seq<int>, contended: set<int>, deletedBy: string, now: int)
      returns (r: Result<seq<Mutation>, ChatError>)
      requires Valid()
      modifies this
      ensures !ValidBatch(ids) ==> r == Failure(InvalidInput) && State() == old(State())
      ensures ValidBatch(ids) ==>
                (State(), r) == BatchDelete(old(State()), SortIds(ids), Overlaps(SortIds(ids), contended), deletedBy,
                    now)
      ensures Valid() && Grows(old(State()), State())
    {
      GrowsReflexive(State());
      var normalized := NormalizeChatBatchIDs(ids);
      if normalized.Failure? {
        return Failure(normalized.error);
      }
      var sorted := normalized.value;
      ghost var t, overlaps := State(), Overlaps(sorted, contended);
      BatchDeleteIsAtomic(t, sorted, overlaps, deletedBy, now);
      if deletedBy == "" || |deletedBy| > 256 {
        return Failure(InvalidInput);
      }
      var obstacle := CheckBatch(sorted, contended);
      if obstacle.Some? {
        return Failure(obstacle.value);
      }
      BatchObstacleNone(t, sorted);
      var mutations := DeleteAll(sorted, deletedBy, now);
      return Success(mutations);
    }

    /** The reason, if any, why the batch may not run: a contended gate first, then a missing or deleted message. */
    method CheckBatch(sorted: seq<int>, contended: set<int>) returns (obstacle: Option<ChatError>)
      ensures var first := FirstContended(sorted, Overlaps(sorted, contended));
              obstacle == if first.Some? then Some(BatchDeleteConflict(first.value, ConcurrentConflict))
                          else BatchObstacle(State(), sorted)
    {
      ghost var t, overlaps := State(), Overlaps(sorted, contended);
      for k := 0 to |sorted|
        invariant FirstContended(sorted[k..], overlaps[k..]) == FirstContended(sorted, overlaps)
      {
        if sorted[k] in contended {
          return Some(BatchDeleteConflict(sorted[k], ConcurrentConflict));
        }
      }
      for k := 0 to |sorted|
        invariant BatchObstacle(t, sorted[k..]) == BatchObstacle(t, sorted)
      {
        if sorted[k] !in messages {
          return Some(BatchDeleteConflict(sorted[k], Missing));
        }
        if messages[sorted[k]].deletedAt.Some? {
          return Some(BatchDeleteConflict(sorted[k], AlreadyDeleted));
        }
      }
      return None;
    }

    method DeleteAll(sorted: seq<int>, deletedBy: string, now: int) returns (mutations: seq<Mutation>)
      requires Valid() && Ascending(sorted)
      requires forall k | 0 <= k < |sorted| :: sorted[k] in messages && messages[sorted[k]].deletedAt.None?
      modifies this
      ensures State() == DeletePrefix(old(State()), sorted, |sorted|, deletedBy, now)
      ensures mutations == BatchMutations(old(State()), sorted, deletedBy, now)
    {
      ghost var t := State();
      mutations := [];
      for k := 0 to |sorted|
        invariant State() == DeletePrefix(t, sorted, k, deletedBy, now)
        invariant mutations == BatchMutations(t, sorted, deletedBy, now)[..k]
      {
        var id := sorted[k];
        NotYetDeleted(t, sorted, k, deletedBy, now);
        if id !in messages || messages[id].deletedAt.Some? {
          assert false;
        }
        messages := messages[id := messages[id].(body := None, deletedAt := Some(now), deletedBy := Some(deletedBy))];
        var eventSeq := InsertChange(id, Delete, now);
        mutations := mutations + [Mutation(id, messages[id], eventSeq)];
      }
    }

    /** chatSyncState: the stored high-water mark, or the largest surviving row should that be ahead of it. */
    method CurrentSyncState() returns (sync: SyncState)
      ensures sync.generation == generation && IsLatestSeq(State(), sync.latestChangeSeq)
      ensures Valid() ==> sync == SyncState(generation, lastSeq)
    {
      var latest := lastSeq;
      var rest := changes.Keys;
      while rest != {}
        invariant rest <= changes.Keys && lastSeq <= latest
        invariant forall s | s in changes && s !in rest :: s <= latest
        invariant latest == lastSeq || latest in changes
        decreases rest
      {
        Inhabited(rest);
        var s :| s in rest;
        latest := Max(latest, s);
        rest := rest - {s};
      }
      sync := SyncState(generation, latest);
    }

    method ClearChatMessages(expectedGeneration: int, expectedLatest: int) returns (r: Result<ClearResult, ChatError>)
      requires Valid()
      modifies this
      ensures (State(), r) == ClearMessages(old(State()), expectedGeneration, expectedLatest)
      ensures Valid()
    {
      if expectedGeneration < 1 || expectedLatest < 0 {
        return Failure(InvalidInput);
      }
      ClearKeepsTables(State(), expectedGeneration, expectedLatest);
      var sync := CurrentSyncState();
      if sync.generation != expectedGeneration || sync.latestChangeSeq != expectedLatest {
        return Failure(ClearConflict);
      }
      var deletedMessages, deletedChanges := |messages|, |changes|;
      messages, changes := map[], map[];
      if deletedMessages > 0 || deletedChanges > 0 {
        generation := generation + 1;
      }
      return Success(ClearResult(deletedMessages, generation, sync.latestChangeSeq));
    }

    /** A page and its rows, read in one transaction; the rows come newest first and are reversed in place. */
    method ChatMessagesPage(before: int, limit: int)
      returns (r: Result<HistoryPage, ChatError>, rows: array<Entry>)
      requires Valid()
      ensures fresh(rows)
      ensures r.Failure? <==> before < 0 || limit < 1
      ensures r.Failure? ==> r.error == InvalidInput
      ensures r.Success? ==> IsHistoryPage(State(), before, limit, r.value)
      ensures r.Success? ==> |r.value.ids| <= rows.Length && forall k | 0 <= k < |r.value.ids| ::
                r.value.ids[k] in messages && rows[k] == Entry(r.value.ids[k], messages[r.value.ids[k]])
    {
      if before < 0 || limit < 1 {
        rows := new Entry[0];
        return Failure(InvalidInput), rows;
      }
      var sync := CurrentSyncState();
      var page;
      page, rows := ReadPage(before, limit, sync);
      r := Success(page);
    }

    method ReadPage(before: int, limit: int, sync: SyncState) returns (page: HistoryPage, rows: array<Entry>)
      requires Valid() && limit >= 1 && sync == SyncState(generation, lastSeq)
      ensures fresh(rows)
      ensures IsHistoryPage(State(), before, limit, page)
      ensures |page.ids| <= rows.Length && forall k | 0 <= k < |page.ids| ::
                page.ids[k] in messages && rows[k] == Entry(page.ids[k], messages[page.ids[k]])
    {
      var fetched;
      fetched, rows := FetchNewest(before, limit + 1);
      var hasMore := |fetched| > limit;
      var count := if hasMore then limit else |fetched|;
      ReversePrefix(rows, count);
      var ids := seq(count, k requires 0 <= k < count => fetched[count - 1 - k]);
      page := HistoryPage(ids, hasMore, sync);
      PageFromFetch(State(), before, limit, fetched, page);
    }

    /** SELECT ... WHERE id < before ORDER BY id DESC LIMIT n, scanned into a slice. */
    method FetchNewest(before: int, n: nat) returns (fetched: seq<int>, rows: array<Entry>)
      ensures fresh(rows) && rows.Length == |fetched| <= n
      ensures forall k | 0 <= k < |fetched| ::
                fetched[k] in messages && rows[k] == Entry(fetched[k], messages[fetched[k]])
      ensures forall x | x in fetched :: x in Below(State(), before)
      ensures forall i, j | 0 <= i < j < |fetched| :: fetched[i] > fetched[j]
      ensures forall x | x in Below(State(), before) && x !in fetched ::
              |fetched| == n && forall y | y in fetched :: x < y
    {
      var table := messages;
      var keys := set id | id in table && (before == 0 || id < before);
      assert keys == Below(State(), before);
      fetched := LargestFirst(keys, n);
      assert forall k | 0 <= k < |fetched| :: fetched[k] in fetched;
      var found := seq(|fetched|, k requires 0 <= k < |fetched| => Entry(fetched[k], table[fetched[k]]));
      rows := new Entry[|found|](k requires 0 <= k < |found| => found[k]);
    }

    /** The page of changes after a cursor; the cursor is refused if a change behind it is missing. */
    method ChatChangesPage(after: int, cursorGeneration: int, limit: int) returns (r: Result<ChangesPage, ChatError>)
      requires Valid()
      ensures IsChangesAnswer(State(), after, cursorGeneration, limit, r)
    {
      if after < 0 || cursorGeneration < 1 || limit < 1 {
        return Failure(InvalidInput);
      }
      var sync := CurrentSyncState();
      if cursorGeneration != sync.generation || after > sync.latestChangeSeq {
        return Failure(CursorResetRequired);
      }
      var keys := set s | s in changes && s > after && changes[s].messageId in messages;
      assert keys == After(State(), after);
      var fetched := SmallestFirst(keys, limit + 1);
      var continuous := ChatChangesAreContinuous(fetched, after, sync.latestChangeSeq, limit);
      if !continuous {
        return Failure(CursorResetRequired);
      }
      if |fetched| > limit {
        return Success(ChangesPage(fetched[..limit], true, sync));
      }
      return Success(ChangesPage(fetched, false, sync));
    }

    /** One retention transaction: the oldest `batch` of the messages the policy no longer keeps. */
    method CleanupChat(now: int, retentionDays: int, maxMessages: int, batch: int)
      returns (r: Result<nat, ChatError>)
      requires Valid()
      modifies this
      ensures r.Failure? <==> retentionDays < 1 || maxMessages < 1 || batch < 1
      ensures r.Failure? ==> State() == old(State())
      ensures r.Success? ==>
                (State(), r.value) == CleanupStep(old(State()), now - retentionDays * DAY, maxMessages, batch)
      ensures Valid()
    {
      if retentionDays < 1 || maxMessages < 1 || batch < 1 {
        return Failure(InvalidInput);
      }
      var cutoff := now - retentionDays * DAY;
      ghost var t := State();
      var doomed := Doomed(messages, cutoff, maxMessages);
      var selection := OldestOf(doomed, batch);
      OldestUnique(messages, doomed, batch, selection, Selection(messages, cutoff, maxMessages, batch));
      CleanupKeepsTables(t, cutoff, maxMessages, batch);
      Remove(selection);
      return Success(|selection|);
    }

    /** The two DELETE statements and, if they removed anything, the new generation. */
    method Remove(selection: set<int>)
      modifies this
      ensures State() == if selection == {} then old(State()) else Destroy(old(State()), selection)
    {
      ghost var t := State();
      changes := map s | s in changes && changes[s].messageId !in selection :: changes[s];
      messages := messages - selection;
      if |selection| > 0 {
        generation := generation + 1;
      } else {
        assert messages == t.messages && changes == t.changes;
      }
    }

    /** ORDER BY created_at ASC, id ASC LIMIT n over the candidates. */
    method OldestOf(candidates: set<int>, n: nat) returns (selection: set<int>)
      requires candidates <= messages.Keys
      ensures IsOldest(messages, candidates, n, selection)
    {
      selection := {};
      while |selection| < n && candidates - selection != {}
        invariant selection <= candidates && |selection| <= n
        invariant forall x, y | x in selection && y in candidates - selection :: Before(messages, x, y)
        decreases candidates - selection
      {
        ghost var first := FirstExists(messages, candidates - selection);
        assert IsFirst(messages, candidates - selection, first);
        var x :| x in candidates - selection && forall y | y in candidates - selection && y != x ::
            Before(messages, x, y);
        selection := selection + {x};
      }
      SubsetCardinality(selection, candidates);
      assert candidates - selection == {} ==> selection == candidates;
    }

    /**
     The maintenance loop. `cancelAt` and `deadlineAt` are the rounds at which the context is found
     cancelled and the time budget used up. When it reports to have caught up, the tables are those
     of the full cleanup; when it stops early, finishing later still leads to the same tables.
     */
    method CleanupChatBatches(now: int, retentionDays: int, maxMessages: int, batch: int,
                              cancelAt: Option<nat>, deadlineAt: Option<nat>)
      returns (outcome: CleanupOutcome)
      requires Valid()
      modifies this
      ensures Valid()
      ensures retentionDays < 1 || maxMessages < 1 || batch < 1 ==>
                State() == old(State()) && outcome == if cancelAt == Some(0) then Cancelled else Failed
      ensures retentionDays >= 1 && maxMessages >= 1 && batch >= 1 ==>
                var cutoff := now - retentionDays * DAY;
                && CleanupAll(State(), cutoff, maxMessages, batch)
                    == CleanupAll(old(State()), cutoff, maxMessages, batch)
                && (outcome == CaughtUp ==> State() == CleanupAll(old(State()), cutoff, maxMessages, batch))
                && outcome != Failed
                && (cancelAt.None? && deadlineAt.None? ==> outcome == CaughtUp)
    {
      ghost var cutoff := now - retentionDays * DAY;
      var round := 0;
      while true
        invariant Valid() && round >= 0
        invariant round > 0 ==> retentionDays >= 1 && maxMessages >= 1 && batch >= 1
        invariant round == 0 ==> State() == old(State())
        invariant batch >= 1 ==>
          CleanupAll(State(), cutoff, maxMessages, batch) == CleanupAll(old(State()), cutoff, maxMessages, batch)
        decreases |messages|
      {
        if cancelAt == Some(round) {
          return Cancelled;
        }
        ghost var before := State();
        var removed := CleanupChat(now, retentionDays, maxMessages, batch);
        if removed.Failure? {
          return Failed;
        }
        if removed.value < batch {
          CaughtUpStays(before, State(), cutoff, maxMessages, batch);
          return CaughtUp;
        }
        StepShrinks(before, cutoff, maxMessages, batch);
        if deadlineAt == Some(round) {
          return OutOfTime;
        }
        round := round + 1;
      }
    }
  }

  /** Deleting the ids before it leaves the next id of the batch alone. */
  lemma NotYetDeleted(t: Tables, sorted: seq<int>, k: nat, deletedBy: string, now: int)
    requires TablesOk(t) && Ascending(sorted) && k < |sorted|
    requires forall j | 0 <= j < |sorted| :: sorted[j] in t.messages
    ensures var u := DeletePrefix(t, sorted, k, deletedBy, now);
            && sorted[k] in u.messages && u.messages[sorted[k]] == t.messages[sorted[k]]
            && u.lastSeq == t.lastSeq + k
  {
    DeletePrefixEffect(t, sorted, k, deletedBy, now);
    assert sorted[k] !in sorted[..k];
  }

  /** Cutting the extra row off a descending fetch leaves the newest page. */
  lemma PageFromFetch(t: Tables, before: int, limit: int, fetched: seq<int>, page: HistoryPage)
    requires TablesOk(t) && limit >= 1 && |fetched| <= limit + 1
    requires forall x | x in fetched :: x in Below(t, before)
    requires forall i, j | 0 <= i < j < |fetched| :: fetched[i] > fetched[j]
    requires forall x | x in Below(t, before) && x !in fetched ::
             |fetched| == limit + 1 && forall y | y in fetched :: x < y
    requires var count := if |fetched| > limit then limit else |fetched|;
             page == HistoryPage(seq(count, k requires 0 <= k < count => fetched[count - 1 - k]), |fetched| > limit,
                                 SyncState(t.generation, t.lastSeq))
    ensures IsHistoryPage(t, before, limit, page)
  {
    var count := if |fetched| > limit then limit else |fetched|;
    hide TablesOk, Below;
    forall x | x in page.ids
      ensures x in fetched
    {
      var k :| 0 <= k < count && page.ids[k] == x;
    }
    forall k | 0 <= k < count
      ensures fetched[k] in page.ids
    {
      assert page.ids[count - 1 - k] == fetched[k];
    }
    forall x | x in Below(t, before) && x !in page.ids
      ensures |page.ids| == limit && forall y | y in page.ids :: x < y
    {
      if x in fetched {
        var k :| 0 <= k < |fetched| && fetched[k] == x;
        assert k == limit;
      }
    }
    if |fetched| > limit {
      assert fetched[limit] in fetched && fetched[limit] !in page.ids;
    }
  }

  /** A round that removed less than a batch left nothing to remove. */
  lemma CaughtUpStays(t: Tables, u: Tables, cutoff: int, maxMessages: int, batch: nat)
    requires batch >= 1 && CleanupStep(t, cutoff, maxMessages, batch).0 == u
    requires CleanupStep(t, cutoff, maxMessages, batch).1 < batch
    ensures CleanupAll(u, cutoff, maxMessages, batch) == u == CleanupAll(t, cutoff, maxMessages, batch)
  {
    NothingLeftToClean(t, cutoff, maxMessages, batch);
    assert Doomed(u.messages, cutoff, maxMessages) == {};
    assert Selection(u.messages, cutoff, maxMessages, batch) == {};
  }
}
