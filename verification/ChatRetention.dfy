/**
 Chat retention. One cleanup transaction removes the oldest `batch` messages among those that
 are expired or fall beyond the newest `maxMessages`; the maintenance loop repeats it. The
 main result: the batches together do what a single unbounded pass would have done.
 */
module ChatRetention {
  import opened Basics
  import opened ChatTables

  const DAY := 86_400_000_000_000 // nanoseconds

  /** ORDER BY created_at ASC, id ASC */
  predicate Before(rows: map<int, Row>, i: int, j: int)
    requires i in rows && j in rows
  {
    rows[i].createdAt < rows[j].createdAt || (rows[i].createdAt == rows[j].createdAt && i < j)
  }

  function Newer(rows: map<int, Row>, id: int): set<int>
    requires id in rows
  {
    set x | x in rows && Before(rows, id, x)
  }

  /** Expired, or returned by ORDER BY created_at DESC, id DESC OFFSET maxMessages. */
  predicate IsDoomed(rows: map<int, Row>, id: int, cutoff: int, maxMessages: int)
    requires id in rows
  {
    rows[id].createdAt < cutoff || |Newer(rows, id)| >= maxMessages
  }

  function Doomed(rows: map<int, Row>, cutoff: int, maxMessages: int): set<int> {
    set x | x in rows && IsDoomed(rows, x, cutoff, maxMessages)
  }

  /** `sel` is what LIMIT n keeps of the candidates, oldest first. */
  ghost predicate IsOldest(rows: map<int, Row>, cands: set<int>, n: nat, sel: set<int>)
    requires cands <= rows.Keys
  {
    && sel <= cands
    && |sel| == Min(n, |cands|)
    && forall x, y | x in sel && y in cands - sel :: Before(rows, x, y)
  }

  ghost predicate IsFirst(rows: map<int, Row>, cands: set<int>, x: int)
    requires cands <= rows.Keys
  {
    x in cands && forall y | y in cands && y != x :: Before(rows, x, y)
  }

  lemma {:induction false} FirstExists(rows: map<int, Row>, cands: set<int>) returns (x: int)
    requires cands <= rows.Keys && cands != {}
    ensures IsFirst(rows, cands, x)
  {
    Inhabited(cands);
    var a :| a in cands;
    x := a;
    var others := cands - {a};
    if others != {} {
      var y := FirstExists(rows, others);
      x := if Before(rows, y, a) then y else a;
    }
    forall z | z in cands && z != x
      ensures Before(rows, x, z)
    {
      if z != a {
        assert z in others;
      }
    }
  }

  lemma {:induction false} OldestExists(rows: map<int, Row>, cands: set<int>, n: nat)
    requires cands <= rows.Keys
    ensures exists sel :: IsOldest(rows, cands, n, sel)
  {
    if n == 0 || cands == {} {
      assert IsOldest(rows, cands, n, {});
    } else {
      var x := FirstExists(rows, cands);
      OldestExists(rows, cands - {x}, n - 1);
      var rest :| IsOldest(rows, cands - {x}, n - 1, rest);
      assert IsOldest(rows, cands, n, rest + {x});
    }
  }

  lemma OldestUnique(rows: map<int, Row>, cands: set<int>, n: nat, a: set<int>, b: set<int>)
    requires cands <= rows.Keys
    requires IsOldest(rows, cands, n, a) && IsOldest(rows, cands, n, b)
    ensures a == b
  {
    // an element only of `a` and one only of `b` would each have to come before the other
    assert forall x, y | x in a && x !in b && y in b && y !in a :: Before(rows, x, y) && Before(rows, y, x);
    NotSubset(a, b);
    NotSubset(b, a);
    if a <= b {
      SubsetCardinality(a, b);
    } else {
      assert b <= a;
      SubsetCardinality(b, a);
    }
  }

  ghost function Selection(rows: map<int, Row>, cutoff: int, maxMessages: int, batch: nat): (sel: set<int>)
    ensures IsOldest(rows, Doomed(rows, cutoff, maxMessages), batch, sel)
  {
    OldestExists(rows, Doomed(rows, cutoff, maxMessages), batch);
    var sel :| IsOldest(rows, Doomed(rows, cutoff, maxMessages), batch, sel);
    sel
  }

  /** One cleanup transaction and the number of messages it removed. */
  ghost function CleanupStep(t: Tables, cutoff: int, maxMessages: int, batch: nat): (Tables, nat) {
    var sel := Selection(t.messages, cutoff, maxMessages, batch);
    (if sel == {} then t else Destroy(t, sel), |sel|)
  }

  /** The same policy without a batch limit. */
  ghost function CleanupOnce(t: Tables, cutoff: int, maxMessages: int): Tables {
    var doomed := Doomed(t.messages, cutoff, maxMessages);
    if doomed == {} then t else Destroy(t, doomed)
  }

  /** Repeating the transaction until it removes fewer than `batch` messages. */
  ghost function CleanupAll(t: Tables, cutoff: int, maxMessages: int, batch: nat): Tables
    requires batch >= 1
    decreases |t.messages|
  {
    var (u, removed) := CleanupStep(t, cutoff, maxMessages, batch);
    if removed < batch then u else
    StepShrinks(t, cutoff, maxMessages, batch);
    CleanupAll(u, cutoff, maxMessages, batch)
  }

  lemma StepShrinks(t: Tables, cutoff: int, maxMessages: int, batch: nat)
    requires batch >= 1 && CleanupStep(t, cutoff, maxMessages, batch).1 > 0
    ensures |CleanupStep(t, cutoff, maxMessages, batch).0.messages| < |t.messages|
  {
    var sel := Selection(t.messages, cutoff, maxMessages, batch);
    assert (t.messages - sel).Keys == t.messages.Keys - sel;
    assert |t.messages.Keys - sel| == |t.messages.Keys| - |sel|;
  }

  /** Removing the oldest candidates changes nobody else's verdict. */
  lemma DoomedAfter(rows: map<int, Row>, cutoff: int, maxMessages: int, batch: nat, sel: set<int>)
    requires IsOldest(rows, Doomed(rows, cutoff, maxMessages), batch, sel)
    ensures Doomed(rows - sel, cutoff, maxMessages) == Doomed(rows, cutoff, maxMessages) - sel
  {
    var rest := rows - sel;
    var doomed := Doomed(rows, cutoff, maxMessages);
    forall x | x in rest
      ensures IsDoomed(rest, x, cutoff, maxMessages) <==> x in doomed
    {
      assert Newer(rest, x) == Newer(rows, x) - sel;
      if x in doomed {
        assert forall s | s in sel :: Before(rows, s, x);
        assert Newer(rest, x) == Newer(rows, x);
      } else {
        SubsetCardinality(Newer(rest, x), Newer(rows, x));
      }
    }
    assert rest.Keys == rows.Keys - sel;
  }

  lemma DestroyTwice(t: Tables, a: set<int>, b: set<int>)
    ensures Destroy(Destroy(t, a), b).messages == Destroy(t, a + b).messages
    ensures Destroy(Destroy(t, a), b).changes == Destroy(t, a + b).changes
  {
    assert (t.messages - a) - b == t.messages - (a + b);
  }

  /** How many non-empty batches it takes to remove `doomed` messages. */
  function Batches(doomed: nat, batch: nat): nat
    requires batch >= 1
  {
    if doomed == 0 then 0
    else if doomed <= batch then 1
    else 1 + Batches(doomed - batch, batch)
  }

  /** A full batch followed by one unbounded pass removes what the unbounded pass alone removes. */
  lemma OnePass(t: Tables, sel: set<int>, cutoff: int, maxMessages: int, batch: nat)
    requires batch >= 1 && |sel| == batch
    requires IsOldest(t.messages, Doomed(t.messages, cutoff, maxMessages), batch, sel)
    ensures var rest := Doomed(Destroy(t, sel).messages, cutoff, maxMessages);
            var doomed := Doomed(t.messages, cutoff, maxMessages);
            |rest| == |doomed| - batch && (rest == {} <==> sel == doomed)
    ensures var once := CleanupOnce(Destroy(t, sel), cutoff, maxMessages);
            && once.messages == CleanupOnce(t, cutoff, maxMessages).messages
            && once.changes == CleanupOnce(t, cutoff, maxMessages).changes
  {
    var doomed := Doomed(t.messages, cutoff, maxMessages);
    DoomedAfter(t.messages, cutoff, maxMessages, batch, sel);
    var rest := Doomed(Destroy(t, sel).messages, cutoff, maxMessages);
    assert rest == doomed - sel && sel + rest == doomed;
    DestroyTwice(t, sel, rest);
    if rest == {} {
      assert sel == doomed;
    }
  }

  /** A batch that is not full removes what one unbounded pass removes. */
  lemma LastBatch(t: Tables, cutoff: int, maxMessages: int, batch: nat)
    requires batch >= 1 && CleanupStep(t, cutoff, maxMessages, batch).1 < batch
    ensures CleanupStep(t, cutoff, maxMessages, batch).0 == CleanupOnce(t, cutoff, maxMessages)
    ensures |Doomed(t.messages, cutoff, maxMessages)| == CleanupStep(t, cutoff, maxMessages, batch).1
  {
    var doomed := Doomed(t.messages, cutoff, maxMessages);
    var sel := Selection(t.messages, cutoff, maxMessages, batch);
    SubsetCardinality(sel, doomed);
  }

  /**
   The batches remove exactly the set one unbounded pass removes, and each non-empty batch
   raises the generation once.
   */
  lemma {:induction false} BatchedEqualsOneShot(t: Tables, cutoff: int, maxMessages: int, batch: nat)
    requires batch >= 1
    ensures var all := CleanupAll(t, cutoff, maxMessages, batch);
            var once := CleanupOnce(t, cutoff, maxMessages);
            && all.messages == once.messages
            && all.changes == once.changes
            && all.lastId == once.lastId && all.lastSeq == once.lastSeq
            && all.generation == t.generation + Batches(|Doomed(t.messages, cutoff, maxMessages)|, batch)
    decreases |t.messages|
  {
    var (u, removed) := CleanupStep(t, cutoff, maxMessages, batch);
    if removed < batch {
      LastBatch(t, cutoff, maxMessages, batch);
    } else {
      var sel := Selection(t.messages, cutoff, maxMessages, batch);
      StepShrinks(t, cutoff, maxMessages, batch);
      BatchedEqualsOneShot(u, cutoff, maxMessages, batch);
      assert u == Destroy(t, sel);
      hide Selection, Doomed;
      OnePass(t, sel, cutoff, maxMessages, batch);
    }
  }

  /** By creation time, and by id where that is the same. */
  predicate Younger(rows: map<int, Row>, x: int, y: int)
    requires x in rows && y in rows
  {
    rows[x].createdAt > rows[y].createdAt || (rows[x].createdAt == rows[y].createdAt && x > y)
  }

  /** What the policy spares: messages that are not expired. */
  function Unexpired(rows: map<int, Row>, cutoff: int): set<int> {
    set x | x in rows && rows[x].createdAt >= cutoff
  }

  /** What is younger than a spared message is spared. */
  lemma SparedUpwards(rows: map<int, Row>, cutoff: int, maxMessages: int, x: int, y: int)
    requires x in rows && y in rows && Younger(rows, y, x) && !IsDoomed(rows, x, cutoff, maxMessages)
    ensures !IsDoomed(rows, y, cutoff, maxMessages)
  {
    SubsetCardinality(Newer(rows, y), Newer(rows, x));
  }

  /** The oldest survivor has all other survivors above it, and nothing else. */
  lemma SurvivorsAreFew(rows: map<int, Row>, cutoff: int, maxMessages: int, kept: set<int>)
    requires kept == rows.Keys - Doomed(rows, cutoff, maxMessages) && maxMessages >= 0
    ensures |kept| <= maxMessages
  {
    if kept != {} {
      var x := FirstExists(rows, kept);
      forall y | y in Newer(rows, x)
        ensures y in kept
      {
        SparedUpwards(rows, cutoff, maxMessages, x, y);
      }
      assert Newer(rows, x) == kept - {x};
    }
  }

  /** If an unexpired message goes, as many younger ones as are allowed stay. */
  lemma SurvivorsAreMany(rows: map<int, Row>, cutoff: int, maxMessages: int, kept: set<int>, x: int)
    requires kept == rows.Keys - Doomed(rows, cutoff, maxMessages) && maxMessages >= 0
    requires x in Unexpired(rows, cutoff) && x !in kept
    ensures |kept| >= maxMessages && forall y | y in kept :: Younger(rows, y, x)
    decreases |Newer(rows, x)|
  {
    forall y | y in kept
      ensures Younger(rows, y, x)
    {
      if !Younger(rows, y, x) {
        SparedUpwards(rows, cutoff, maxMessages, y, x);
      }
    }
    if Newer(rows, x) <= kept {
      SubsetCardinality(Newer(rows, x), kept);
    } else {
      NotSubset(Newer(rows, x), kept);
      var y :| y in Newer(rows, x) && y !in kept;
      assert Newer(rows, y) <= Newer(rows, x) - {y};
      SubsetCardinality(Newer(rows, y), Newer(rows, x) - {y});
      SurvivorsAreMany(rows, cutoff, maxMessages, kept, y);
    }
  }

  /**
   Which messages survive a cleanup, and how many: the youngest unexpired ones, as many as are
   allowed, or all of them if there are no more. Their rows are as they were, and the log keeps
   exactly their changes.
   */
  lemma CleanupKeepsYoungest(t: Tables, cutoff: int, maxMessages: int, batch: nat)
    requires batch >= 1 && maxMessages >= 0
    ensures var after, unexpired := CleanupAll(t, cutoff, maxMessages, batch), Unexpired(t.messages, cutoff);
            && after.messages.Keys <= unexpired
            && |after.messages| == Min(maxMessages, |unexpired|)
            && (forall x, y | x in after.messages && y in unexpired && y !in after.messages ::
                Younger(t.messages, x, y))
            && (forall x | x in after.messages :: after.messages[x] == t.messages[x])
            && (forall c | c in t.changes && t.changes[c].messageId in t.messages ::
                  c in after.changes <==> t.changes[c].messageId in after.messages)
            && (forall c | c in after.changes :: c in t.changes && after.changes[c] == t.changes[c])
  {
    var rows, unexpired := t.messages, Unexpired(t.messages, cutoff);
    var after := CleanupAll(t, cutoff, maxMessages, batch);
    NothingLeftToClean(t, cutoff, maxMessages, batch);
    BatchedEqualsOneShot(t, cutoff, maxMessages, batch);
    var kept := rows.Keys - Doomed(rows, cutoff, maxMessages);
    assert after.messages.Keys == kept && |after.messages| == |kept|;
    SurvivorsAreFew(rows, cutoff, maxMessages, kept);
    SubsetCardinality(kept, unexpired);
    forall y | y in unexpired && y !in kept
      ensures |kept| >= maxMessages && forall x | x in kept :: Younger(rows, x, y)
    {
      SurvivorsAreMany(rows, cutoff, maxMessages, kept, y);
    }
    NotSubset(unexpired, kept);
    if unexpired <= kept {
      assert unexpired == kept;
    }
  }

  /** After the loop nothing is left that the policy would remove, and what stays is what was never doomed. */
  lemma NothingLeftToClean(t: Tables, cutoff: int, maxMessages: int, batch: nat)
    requires batch >= 1
    ensures var all := CleanupAll(t, cutoff, maxMessages, batch);
            && all.messages.Keys == t.messages.Keys - Doomed(t.messages, cutoff, maxMessages)
            && Doomed(all.messages, cutoff, maxMessages) == {}
  {
    var doomed := Doomed(t.messages, cutoff, maxMessages);
    BatchedEqualsOneShot(t, cutoff, maxMessages, batch);
    assert IsOldest(t.messages, doomed, |doomed|, doomed);
    DoomedAfter(t.messages, cutoff, maxMessages, |doomed|, doomed);
    assert t.messages - doomed == CleanupAll(t, cutoff, maxMessages, batch).messages;
  }
}
