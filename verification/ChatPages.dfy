/**
 The two read transactions of the chat store: pages of the message table, walked backwards
 by id, and pages of the change log, walked forwards by sequence number.
 */
module ChatPages {
  import opened Basics
  import opened ChatTables

  /** What ORDER BY key ASC LIMIT n returns: whatever it leaves out comes after all it returns. */
  ghost predicate IsHead(keys: set<int>, n: int, f: seq<int>) {
    && Ascending(f) && |f| <= n
    && (forall x | x in f :: x in keys)
    && (forall x | x in keys && x !in f :: |f| == n && forall y | y in f :: y < x)
  }

  /** What ORDER BY key DESC LIMIT n returns, put back in ascending order. */
  ghost predicate IsTail(keys: set<int>, n: int, f: seq<int>) {
    && Ascending(f) && |f| <= n
    && (forall x | x in f :: x in keys)
    && (forall x | x in keys && x !in f :: |f| == n && forall y | y in f :: x < y)
  }

  // ----- pages of the message table -----

  ghost function Below(t: Tables, before: int): set<int> {
    set id | id in t.messages && (before == 0 || id < before)
  }

  datatype HistoryPage = HistoryPage(ids: seq<int>, hasMore: bool, sync: SyncState)

  ghost predicate IsHistoryPage(t: Tables, before: int, limit: int, page: HistoryPage) {
    && IsTail(Below(t, before), limit, page.ids)
    && (page.hasMore <==> exists x :: x in Below(t, before) && x !in page.ids)
    && page.sync == SyncState(t.generation, t.lastSeq)
  }

  function NextBeforeId(ids: seq<int>, hasMore: bool): Option<int> {
    if !hasMore || ids == [] then None else Some(ids[0])
  }

  /** A page is complete down to the id it names as the next boundary, and to the beginning if it names none. */
  lemma PageReachesBoundary(t: Tables, before: int, limit: int, page: HistoryPage)
    requires IsHistoryPage(t, before, limit, page) && limit >= 1
    ensures var next := NextBeforeId(page.ids, page.hasMore);
            && (next.None? <==> !page.hasMore)
            && (next.Some? ==> next.value in t.messages)
            && forall id | id in Below(t, before) :: (id in page.ids <==> next.None? || id >= next.value)
  {
    if page.hasMore {
      var x :| x in Below(t, before) && x !in page.ids;
      assert page.ids[0] in page.ids;
      forall id | id in page.ids
        ensures id >= page.ids[0]
      {
        var k :| 0 <= k < |page.ids| && page.ids[k] == id;
      }
    }
  }

  /** Ids in a walk, oldest page first. */
  ghost function WalkedIds(pages: seq<HistoryPage>): seq<int> {
    if pages == [] then [] else WalkedIds(pages[1..]) + pages[0].ids
  }

  /**
   A walk towards the beginning: page k is read from `ts[k]`, starting at the boundary the
   previous page named, and the last page says there is no more. Between reads the tables
   may change in any way that keeps the generation.
   */
  ghost predicate IsWalk(ts: seq<Tables>, limits: seq<int>, pages: seq<HistoryPage>, before: int) {
    && |ts| == |limits| == |pages| && |pages| >= 1
    && limits[0] >= 1
    && IsHistoryPage(ts[0], before, limits[0], pages[0])
    && if |pages| == 1 then !pages[0].hasMore
       else && pages[0].hasMore
            && Grows(ts[0], ts[1])
            && pages[0].ids != []
            && IsWalk(ts[1..], limits[1..], pages[1..], pages[0].ids[0])
  }

  /** Prepending everything below the boundary to a page gives everything the page was cut from. */
  lemma WalkStep(t: Tables, before: int, limit: int, page: HistoryPage, older: seq<int>)
    requires TablesOk(t) && IsHistoryPage(t, before, limit, page) && limit >= 1 && page.hasMore
    requires page.ids != [] && Ascending(older)
    requires forall id :: id in older <==> id in Below(t, page.ids[0])
    ensures Ascending(older + page.ids)
    ensures forall id :: id in older + page.ids <==> id in Below(t, before)
  {
    PageReachesBoundary(t, before, limit, page);
    var b := page.ids[0];
    assert b in page.ids && b >= 1;
    forall k | 0 <= k < |older|
      ensures older[k] < b
    {
      assert older[k] in older;
    }
    assert forall k | 0 <= k < |page.ids| :: page.ids[k] >= b;
    assert forall id :: id in Below(t, b) <==> id in Below(t, before) && id < b;
  }

  /**
   Following the boundary from page to page, while messages are created and mutated, returns
   every message that existed at the first read exactly once, in ascending id order.
   */
  lemma {:induction false} WalkCoversTable(ts: seq<Tables>, limits: seq<int>, pages: seq<HistoryPage>, before: int)
    requires IsWalk(ts, limits, pages, before)
    requires forall k | 0 <= k < |ts| :: TablesOk(ts[k])
    ensures Ascending(WalkedIds(pages))
    ensures forall id :: id in WalkedIds(pages) <==> id in Below(ts[0], before)
    decreases |pages|
  {
    PageReachesBoundary(ts[0], before, limits[0], pages[0]);
    if |pages| == 1 {
      assert WalkedIds(pages[1..]) == [];
    } else {
      var b := pages[0].ids[0];
      WalkCoversTable(ts[1..], limits[1..], pages[1..], b);
      WalkStep(ts[0], before, limits[0], pages[0], WalkedIds(pages[1..]));
    }
  }

  // ----- pages of the change log -----

  /** Changes after the cursor, joined with the message table. */
  ghost function After(t: Tables, after: int): set<int> {
    set s | s in t.changes && after < s && t.changes[s].messageId in t.messages
  }

  /** chatChangesAreContinuous over the fetched sequence numbers. */
  predicate Continuous(seqs: seq<int>, after: int, latest: int, limit: int) {
    if after == latest then seqs == [] else
    && seqs != [] && seqs[0] == after + 1
    && (forall k | 1 <= k < |seqs| :: seqs[k] == seqs[k - 1] + 1)
    && (|seqs| > limit || seqs[|seqs| - 1] == latest)
  }

  datatype ChangesPage = ChangesPage(seqs: seq<int>, hasMore: bool, sync: SyncState)

  ghost predicate IsChangesAnswer(
    t: Tables, after: int, generation: int, limit: int, answer: Result<ChangesPage, ChatError>) {
    if after < 0 || generation < 1 || limit < 1 then answer == Failure(InvalidInput)
    else if generation != t.generation || after > t.lastSeq then answer == Failure(CursorResetRequired)
    else exists fetched ::
      && IsHead(After(t, after), limit + 1, fetched)
      && answer == if !Continuous(fetched, after, t.lastSeq, limit) then Failure(CursorResetRequired)
                   else if |fetched| > limit then Success(ChangesPage(fetched[..limit], true,
                       SyncState(t.generation, t.lastSeq)))
                   else Success(ChangesPage(fetched, false, SyncState(t.generation, t.lastSeq)))
  }

  function NextAfterSeq(seqs: seq<int>, after: int): int {
    if seqs == [] then after else seqs[|seqs| - 1]
  }

  ghost predicate NoHole(t: Tables, lo: int, hi: int) {
    forall s | lo < s <= hi :: s in t.changes
  }

  lemma {:induction false} ConsecutiveFrom(seqs: seq<int>, first: int, k: nat)
    requires seqs != [] && seqs[0] == first && k < |seqs|
    requires forall i | 1 <= i < |seqs| :: seqs[i] == seqs[i - 1] + 1
    ensures seqs[k] == first + k
  {
    if k > 0 {
      ConsecutiveFrom(seqs, first, k - 1);
    }
  }

  lemma {:induction false} AtLeastFrom(seqs: seq<int>, low: int, k: nat)
    requires Ascending(seqs) && k < |seqs| && low < seqs[0]
    ensures seqs[k] >= low + 1 + k
  {
    if k > 0 {
      AtLeastFrom(seqs, low, k - 1);
    }
  }

  /** Without a hole in the range it may reach, a fetch returns consecutive numbers. */
  lemma {:induction false} FetchIsConsecutive(t: Tables, after: int, n: int, fetched: seq<int>, k: nat)
    requires TablesOk(t) && IsHead(After(t, after), n, fetched) && k < |fetched|
    requires NoHole(t, after, Min(after + n, t.lastSeq))
    ensures fetched[k] == after + 1 + k
  {
    if k > 0 {
      FetchIsConsecutive(t, after, n, fetched, k - 1);
    }
    assert fetched[k] in fetched && fetched[0] in fetched;
    AtLeastFrom(fetched, after, k);
    var v := after + 1 + k;
    assert fetched[k] > v ==> v !in fetched;
    assert fetched[k] > v ==> v in After(t, after);
  }

  /**
   When the continuity check passes: exactly when no change is missing between the cursor and
   the end of the fetched range. So a page with a hole is never served, and a page is never
   refused for a hole beyond its reach.
   */
  lemma ContinuousIffNoHole(t: Tables, after: int, limit: int, fetched: seq<int>)
    requires TablesOk(t) && 0 <= after <= t.lastSeq && limit >= 1
    requires IsHead(After(t, after), limit + 1, fetched)
    ensures Continuous(fetched, after, t.lastSeq, limit) <==> NoHole(t, after, Min(after + limit + 1, t.lastSeq))
    ensures Continuous(fetched, after, t.lastSeq, limit) ==>
              && |fetched| == Min(limit + 1, t.lastSeq - after)
              && forall k | 0 <= k < |fetched| :: fetched[k] == after + 1 + k
  {
    var hi := Min(after + limit + 1, t.lastSeq);
    assert forall k | 0 <= k < |fetched| :: fetched[k] in fetched;
    if Continuous(fetched, after, t.lastSeq, limit) {
      forall k | 0 <= k < |fetched|
        ensures fetched[k] == after + 1 + k
      {
        ConsecutiveFrom(fetched, after + 1, k);
      }
      forall s | after < s <= hi
        ensures s in t.changes
      {
        assert fetched[s - after - 1] == s;
      }
    }
    if NoHole(t, after, hi) {
      forall k | 0 <= k < |fetched|
        ensures fetched[k] == after + 1 + k
      {
        FetchIsConsecutive(t, after, limit + 1, fetched, k);
      }
      var v := after + 1 + |fetched|;
      assert v !in fetched;
      assert v <= hi ==> v in After(t, after);
    }
  }

  /**
   A cursor of the current generation with nothing missing after it is never refused: its page
   is exactly the next min(limit, latest - cursor) changes, and more are announced iff more remain.
   */
  lemma CursorIsServed(t: Tables, after: int, limit: int, answer: Result<ChangesPage, ChatError>)
    requires TablesOk(t) && 0 <= after <= t.lastSeq && limit >= 1
    requires NoHole(t, after, t.lastSeq)
    requires IsChangesAnswer(t, after, t.generation, limit, answer)
    ensures answer.Success?
    ensures var page := answer.value;
            && |page.seqs| == Min(limit, t.lastSeq - after)
            && (forall k | 0 <= k < |page.seqs| :: page.seqs[k] == after + 1 + k)
            && (page.hasMore <==> after + limit < t.lastSeq)
            && page.sync == SyncState(t.generation, t.lastSeq)
            && NextAfterSeq(page.seqs, after) == after + |page.seqs|
  {
    var fetched :|
      && IsHead(After(t, after), limit + 1, fetched)
      && answer == if !Continuous(fetched, after, t.lastSeq, limit) then Failure(CursorResetRequired)
                   else if |fetched| > limit then Success(ChangesPage(fetched[..limit], true,
                       SyncState(t.generation, t.lastSeq)))
                   else Success(ChangesPage(fetched, false, SyncState(t.generation, t.lastSeq)));
    ContinuousIffNoHole(t, after, limit, fetched);
  }
}
