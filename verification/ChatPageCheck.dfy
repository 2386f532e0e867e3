/** What the feed asks of a page and what it does when resets pile up, said without the sorting and the counting. */
module ChatPageCheck {
  import opened Basics
  import opened ChatFeed

  function Numbers(s: seq<ChangeDto>): set<int> {
    set k | 0 <= k < |s| :: s[k].at
  }

  ghost predicate AllDifferent(s: seq<ChangeDto>) {
    forall i, j | 0 <= i < j < |s| :: s[i].at != s[j].at
  }

  ghost predicate Rising(s: seq<ChangeDto>) {
    forall i, j | 0 <= i < j < |s| :: s[i].at <= s[j].at
  }

  lemma NumbersOf(x: ChangeDto, s: seq<ChangeDto>)
    ensures Numbers([x] + s) == {x.at} + Numbers(s)
    ensures AllDifferent([x] + s) <==> x.at !in Numbers(s) && AllDifferent(s)
  {
    var all := [x] + s;
    forall n
      ensures n in Numbers(all) <==> n == x.at || n in Numbers(s)
    {
      if n in Numbers(s) {
        var k :| 0 <= k < |s| && s[k].at == n;
        assert all[k + 1].at == n;
      }
      if n == x.at {
        assert all[0].at == n;
      }
    }
    if AllDifferent(all) {
      forall i, j | 0 <= i < j < |s|
        ensures s[i].at != s[j].at
      {
        assert all[i + 1] == s[i] && all[j + 1] == s[j];
      }
      forall k | 0 <= k < |s|
        ensures s[k].at != x.at
      {
        assert all[k + 1] == s[k] && all[0] == x;
      }
    }
  }

  lemma RisingFrom(x: ChangeDto, s: seq<ChangeDto>)
    requires Rising(s) && forall n | n in Numbers(s) :: x.at <= n
    ensures Rising([x] + s)
  {
    forall k | 0 <= k < |s|
      ensures x.at <= s[k].at
    {
      assert s[k].at in Numbers(s);
    }
  }

  lemma NothingRises(x: ChangeDto)
    ensures Rising([x] + [])
  {
  }

  lemma FirstIsLeast(s: seq<ChangeDto>)
    requires Rising(s) && s != []
    ensures Rising(s[1..]) && forall n | n in Numbers(s) :: s[0].at <= n
  {
  }

  lemma {:induction false} Inserted(x: ChangeDto, s: seq<ChangeDto>)
    requires Rising(s)
    ensures var r := InsertChange(x, s);
            && Rising(r) && Numbers(r) == {x.at} + Numbers(s)
                && (AllDifferent(r) <==> x.at !in Numbers(s) && AllDifferent(s))
  {
    hide Rising, AllDifferent, Numbers;
    if s == [] {
      NumbersOf(x, s);
      NothingRises(x);
    } else {
      FirstIsLeast(s);
      assert s == [s[0]] + s[1..];
      NumbersOf(s[0], s[1..]);
      if x.at <= s[0].at {
        NumbersOf(x, s);
        RisingFrom(x, s);
      } else {
        Inserted(x, s[1..]);
        NumbersOf(s[0], InsertChange(x, s[1..]));
        RisingFrom(s[0], InsertChange(x, s[1..]));
      }
    }
  }

  lemma {:induction false} Sorted(s: seq<ChangeDto>)
    ensures var r := SortChanges(s);
            Rising(r) && Numbers(r) == Numbers(s) && (AllDifferent(r) <==> AllDifferent(s))
  {
    if s != [] {
      Sorted(s[1..]);
      Inserted(s[0], SortChanges(s[1..]));
      NumbersOf(s[0], s[1..]);
      assert s == [s[0]] + s[1..];
    }
  }

  /**
   Which pages the feed accepts, in whatever order their changes come: of the generation it asked
   for, with safe numbers, moving forward or ending, and with changes of different numbers, all
   behind the cursor and up to the announced one.
   */
  lemma PageAcceptedIff(c: Context, cursor: int, reply: ChangesReply)
    ensures PageAccepted(c, cursor, reply) <==>
              && c.generation == Some(reply.generation)
              && 0 <= reply.nextAfterSeq <= 9_007_199_254_740_991 && 0 <= reply.latest <= 9_007_199_254_740_991
              && cursor <= reply.nextAfterSeq <= reply.latest
              && (reply.hasMore ==> reply.nextAfterSeq != cursor)
              && (forall k | 0 <= k < |reply.changes| ::
                    cursor < reply.changes[k].at <= reply.nextAfterSeq && 0 <= reply.changes[k].at)
              && AllDifferent(reply.changes)
  {
    var r := SortChanges(reply.changes);
    Sorted(reply.changes);
    forall k | 0 <= k < |r|
      ensures r[k].at in Numbers(reply.changes)
    {
      assert r[k].at in Numbers(r);
    }
    forall k | 0 <= k < |reply.changes|
      ensures reply.changes[k].at in Numbers(r)
    {
      assert reply.changes[k].at in Numbers(reply.changes);
    }
    if PageEntriesOk(r, cursor, reply.nextAfterSeq) {
      RisesStrictly(r);
    }
  }

  lemma {:induction false} StepwiseRising(r: seq<ChangeDto>, i: nat, j: nat)
    requires i < j < |r| && forall k | 0 < k < |r| :: r[k - 1].at < r[k].at
    ensures r[i].at < r[j].at
    decreases j
  {
    if i < j - 1 {
      StepwiseRising(r, i, j - 1);
    }
  }

  lemma RisesStrictly(r: seq<ChangeDto>)
    requires forall k | 0 < k < |r| :: r[k - 1].at < r[k].at
    ensures AllDifferent(r)
  {
    forall i, j | 0 <= i < j < |r|
      ensures r[i].at != r[j].at
    {
      StepwiseRising(r, i, j);
    }
  }

  function Resets(v: View, n: nat): View {
    if n == 0 then v else HandleCursorReset(Resets(v, n - 1))
  }

  /**
   Cursors lost one after the other: the first two times the feed starts over by itself, from the
   third on it waits for the user; each time it drops everything it shows.
   */
  lemma {:induction false} ThirdResetBlocks(v: View, n: nat)
    requires v.resetStreak == 0 && !v.resetBlocked
    ensures var w := Resets(v, n);
            && w.revision == v.revision + n && w.resetStreak == Min(n, 2) && (w.resetBlocked <==> n >= 3)
            && (n >= 1 ==>
                  w.messages == map[] && w.marks == map[] && w.generation.None? && !w.initialized && w.sync.Idle?)
  {
    if n > 0 {
      ThirdResetBlocks(v, n - 1);
    }
  }
}
