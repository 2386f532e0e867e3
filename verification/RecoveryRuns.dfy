/**
 What session changes do to the recovery, what it remembers, who may ask it, and that a request
 is in fact sent again.
 */
module RecoveryRuns {
  import opened Basics
  import opened SessionRecovery

  // ----- changes of the session -----

  /** A heartbeat launched by now counts for nothing later. */
  ghost predicate Forgotten(s: State, after: State) {
    && (forall id, heartbeat: Heartbeat | id in s.entries ::
          id in after.entries && OutcomeOf(after, after.entries[id], heartbeat) == Stale(s.entries[id].epoch))
    && (forall c: Context :: !Remembered(after, c))
  }

  /**
   A change of subject puts the new session in place under the next epoch. Whoever asks for an
   earlier one is told so, no earlier result is remembered, no earlier heartbeat counts or is joined,
   and the first active caller of the new session launches one.
   */
  lemma SubjectChangeMeans(wired: bool, s: State, binding: SessionBinding, c: Context, id: nat)
    requires StateOk(wired, s) && id !in s.entries
    ensures var after := ChangeSubject(s, binding);
            && after.epoch == s.epoch + 1 && after.binding == binding
            && after.generation == s.generation + 1 && after.attempts == s.attempts + 1
            && Forgotten(s, after)
            && (c.epoch == s.epoch ==> Coordinate(after, c, id) == (after, Now(Stale(c.epoch))))
            && (c == Context(s.epoch + 1, s.attempts + 1, binding, true) ==> Coordinate(after, c, id).1 == Wait(id))
  {
    var after := ChangeSubject(s, binding);
    forall id, heartbeat: Heartbeat | id in s.entries
      ensures OutcomeOf(after, after.entries[id], heartbeat) == Stale(s.entries[id].epoch)
    {
      assert EntryOk(wired, s, id);
    }
  }

  /** Invalidating alone leaves epoch and session; all the same nothing launched or remembered counts any more. */
  lemma InvalidateMeans(wired: bool, s: State, c: Context, id: nat)
    requires StateOk(wired, s) && id !in s.entries
    ensures var after := Invalidate(s);
            && after.epoch == s.epoch && after.binding == s.binding
            && after.generation == s.generation + 1 && after.attempts == s.attempts + 1
            && Forgotten(s, after)
            && (c == Context(s.epoch, s.attempts + 1, s.binding, true) ==> Coordinate(after, c, id).1 == Wait(id))
  {
    var after := Invalidate(s);
    forall id, heartbeat: Heartbeat | id in s.entries
      ensures OutcomeOf(after, after.entries[id], heartbeat) == Stale(s.entries[id].epoch)
    {
      assert EntryOk(wired, s, id);
    }
  }

  /** The fallback changes epoch and session and nothing of the recovery: the running heartbeat keeps its place. */
  lemma FallbackMeans(s: State, c: Context, id: nat)
    ensures var after := FallbackChange(s);
            && after.epoch == s.epoch + 1 && after.binding == None
            && after.attempts == s.attempts && after.generation == s.generation
            && after.results == s.results && after.running == s.running && after.entries == s.entries
            && (c.epoch == s.epoch ==> Coordinate(after, c, id) == (after, Now(Stale(c.epoch))))
  {
  }

  // ----- what is remembered -----

  /** The new result and the latest of the earlier ones, sixteen in all. */
  lemma RemembersLatest(results: seq<Completed>, c: Completed)
    requires |results| <= 16
    ensures var r := Remember(results, c);
            && |r| == Min(16, |results| + 1) && r[|r| - 1] == c
            && forall k | 0 <= k < |r| - 1 :: r[k] == results[|results| - (|r| - 1) + k]
  {
  }

  // ----- who asks -----

  /**
   A request asks in the epoch it was sent in, having seen the attempts of that time, for the session
   it was sent for; only a bootstrap request without one asks for the session the server reported.
   */
  lemma RequestAsksFor(r: Request, reported: SessionBinding, bootstrap: bool)
    ensures var c := ContextOf(r, reported, bootstrap);
            && c.epoch == r.epoch && c.observed == r.observed && c.active == r.active
            && (r.binding.Some? ==> c.binding == r.binding)
            && (r.binding.None? ==> c.binding == if bootstrap then reported else None)
  {
  }

  ghost predicate AskedRightly(r: Request) {
    |r.sends| >= 2 || r.phase.Recovering? ==> r.recoverable
  }

  lemma StepAsksRightly(wired: bool, s: Sys, s': Sys, n: nat)
    requires Step(wired, s, s') && n in s'.requests
    requires n in s.requests ==> AskedRightly(s.requests[n])
    ensures AskedRightly(s'.requests[n])
  {
    hide Coordinate, Complete;
    if AskRecovery(s, s') {
      var m: nat, reported: SessionBinding, bootstrap: bool, id: nat :|
        m in s.requests && AskBy(s, s', m, ContextOf(s.requests[m], reported, bootstrap), id);
    } else if StartRequest(s, s') {
    } else if Replay(s, s') {
      var m: nat :| ReplayBy(s, s', m);
    }
  }

  /** In every run, only a request that may be recovered is ever sent again. */
  lemma {:induction false} OnlyRecoverableIsReplayed(wired: bool, run: seq<Sys>, i: nat, n: nat)
    requires IsRecoveryRun(wired, run) && i < |run| && n in run[i].requests
    ensures |run[i].requests[n].sends| >= 2 || run[i].requests[n].phase.Recovering? ==> run[i].requests[n].recoverable
  {
    if i > 0 {
      assert Step(wired, run[i - 1], run[(i - 1) + 1]);
      if n in run[i - 1].requests {
        OnlyRecoverableIsReplayed(wired, run, i - 1, n);
      }
      StepAsksRightly(wired, run[i - 1], run[i], n);
    }
  }

  // ----- it happens -----


  /**
   For every session there is a run in which a request for it is refused as idle, the recovery
   succeeds, the request is sent again, and a change of subject then ends it all.
   */
  lemma RequestIsSentAgain(wired: bool, binding: SessionBinding, next: SessionBinding) returns (run: seq<Sys>)
    ensures IsRecoveryRun(wired, run) && |run| == 6
    ensures 0 in run[4].requests && run[4].requests[0].binding == binding
    ensures run[4].requests[0].sends == [Send(0, None), Send(0, None)]
    ensures run[5].state.epoch == 1 && run[5].state.binding == next
  {
    var s0 := Sys(INITIAL, map[]);
    var s1 := s0.(requests := s0.requests[0 := NewRequest(s0.state, binding, true, true)]);
    assert 0 !in s0.requests;
    assert StartRequest(s0, s1);
    var c := ContextOf(s1.requests[0], binding, false);
    var (state, answer) := Coordinate(s1.state, c, 0);
    var s2 := Sys(state, s1.requests[0 := s1.requests[0].(phase := Recovering(answer))]);
    assert AskBy(s1, s2, 0, c, 0);
    assert AskRecovery(s1, s2);
    var s3 := s2.(state := Complete(s2.state, 0, Alive(binding)));
    assert HeartbeatStep(s2, s3);
    assert s3.state.entries[0].outcome == Some(Recovered(0));
    var s4 := s3.(requests := s3.requests[0 := Replayed(s3.state, s3.requests[0])]);
    assert ReplayBy(s3, s4, 0);
    var s5 := s4.(state := ChangeSubject(s4.state, next));
    assert SubjectStep(s4, s5);
    run := [s0, s1, s2, s3, s4, s5];
  }
}
