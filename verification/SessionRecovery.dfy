/**
 Recovering an idle session in the browser: one heartbeat at a time, shared by everybody who
 asks in the same authentication epoch for the same session, and requests that are replayed at
 most once, in the epoch and under the session they were first sent.
 */
module SessionRecovery {
  import opened Basics

  const MAX_RESULTS := 16

  type SessionBinding = Option<string>

  datatype Heartbeat = Alive(binding: SessionBinding) | Unauthorized | SubjectChange | Broken

  /** Every outcome names the epoch it was asked in. */
  datatype Outcome =
    | Recovered(epoch: int)
    | Failed(authFailure: bool, epoch: int)
    | Denied(epoch: int)
    | Stale(epoch: int)
    | SubjectChanged(epoch: int)

  /** A heartbeat; `outcome` is None while it is on its way. */
  datatype Entry = Entry(
    epoch: int, binding: SessionBinding, generation: int, attempt: int, authorized: bool, outcome: Option<Outcome>)

  datatype Completed = Completed(attempt: int, epoch: int, binding: SessionBinding, authorized: bool, outcome: Outcome)

  /** `active` is whether the caller holds a recent enough activity permit. */
  datatype Context = Context(epoch: int, observed: int, binding: SessionBinding, active: bool)

  /** An answer at once, or the promise of a heartbeat. */
  datatype Answer = Now(outcome: Outcome) | Wait(entry: nat)

  /** `entries` holds every heartbeat ever launched; `running` names the one that is shared. */
  datatype State = State(
    epoch: int, binding: SessionBinding, attempts: int, generation: int,
    results: seq<Completed>, running: Option<nat>, entries: map<nat, Entry>)

  const INITIAL := State(0, None, 0, 0, [], None, map[])

  function FindResult(results: seq<Completed>, attempt: int): Option<Completed> {
    if results == [] then None
    else if results[0].attempt == attempt then Some(results[0])
    else FindResult(results[1..], attempt)
  }

  /** The oldest result goes when there are too many. */
  function Remember(results: seq<Completed>, c: Completed): seq<Completed> {
    var all := results + [c];
    if |all| <= MAX_RESULTS then all else all[1..]
  }

  function Coordinate(s: State, c: Context, id: nat): (State, Answer) {
    if c.epoch != s.epoch then (s, Now(Stale(c.epoch))) else
    var done := FindResult(s.results, c.observed);
    if done.Some? && done.value.epoch == c.epoch && done.value.binding == c.binding then
      (s, Now(if c.active || done.value.authorized then done.value.outcome else Denied(c.epoch)))
    else if s.running.Some? && s.running.value in s.entries then
      var r := s.running.value;
      var e := s.entries[r];
      if e.epoch != c.epoch then (s, Now(Stale(c.epoch)))
      else if e.binding != c.binding then (s, Now(SubjectChanged(c.epoch)))
      else if !c.active && !e.authorized then (s, Now(Denied(c.epoch)))
      else (s.(entries := s.entries[r := e.(authorized := e.authorized || c.active)]), Wait(r))
    else if !c.active || c.observed != s.attempts then (s, Now(Denied(c.epoch)))
    else
      (s.(running := Some(id),
          entries := s.entries[id := Entry(c.epoch, c.binding, s.generation, s.attempts, true, None)]), Wait(id))
  }

  predicate IsCurrent(s: State, e: Entry) {
    s.generation == e.generation && s.epoch == e.epoch
  }

  function OutcomeOf(s: State, e: Entry, heartbeat: Heartbeat): Outcome {
    if !IsCurrent(s, e) then Stale(e.epoch)
    else match heartbeat
      case Alive(binding) =>
        if e.binding.Some? && binding != e.binding then SubjectChanged(e.epoch) else Recovered(e.epoch)
      case SubjectChange => SubjectChanged(e.epoch)
      case Unauthorized => Failed(true, e.epoch)
      case Broken => Failed(false, e.epoch)
  }

  /** The heartbeat returns. Only a current one counts as an attempt and is remembered. */
  function Complete(s: State, id: nat, heartbeat: Heartbeat): State
    requires id in s.entries
  {
    var e := s.entries[id];
    var outcome := OutcomeOf(s, e, heartbeat);
    var s1 := s.(entries := s.entries[id := e.(outcome := Some(outcome))]);
    if !IsCurrent(s, e) then s1
    else s1.(attempts := s.attempts + 1,
             results := Remember(s.results, Completed(e.attempt, e.epoch, e.binding, e.authorized, outcome)))
  }

  /** The promise has settled: the slot is free, unless it has been given away. */
  function Settle(s: State, id: nat): State {
    if s.running == Some(id) then s.(running := None) else s
  }

  function Invalidate(s: State): State {
    s.(generation := s.generation + 1, attempts := s.attempts + 1, results := [], running := None)
  }

  /** Logging in, logging out and clearing the user advance the epoch and invalidate the recovery together. */
  function ChangeSubject(s: State, binding: SessionBinding): State {
    Invalidate(s.(epoch := s.epoch + 1, binding := binding))
  }

  /** What invalidateSessionSubject does when no handler is registered: the recovery is not told. */
  function FallbackChange(s: State): State {
    s.(epoch := s.epoch + 1, binding := None)
  }

  // ----- the coordinator -----

  class Coordinator {
    var epoch: int
    var binding: SessionBinding
    var completedAttempts: int
    var recoveryGeneration: int
    var completedResults: seq<Completed>
    var running: Option<nat>
    var entries: map<nat, Entry>

    function Snapshot(): State
      reads this
    {
      State(epoch, binding, completedAttempts, recoveryGeneration, completedResults, running, entries)
    }

    constructor ()
      ensures Snapshot() == INITIAL
    {
      epoch, binding, completedAttempts, recoveryGeneration := 0, None, 0, 0;
      completedResults, running, entries := [], None, map[];
    }

    method CoordinateHeartbeat(c: Context, id: nat) returns (answer: Answer)
      modifies this
      ensures (Snapshot(), answer) == Coordinate(old(Snapshot()), c, id)
    {
      if c.epoch != epoch {
        return Now(Stale(c.epoch));
      }
      var completed := None;
      for k := 0 to |completedResults|
        invariant completed.None?
        invariant FindResult(completedResults[k..], c.observed) == FindResult(completedResults, c.observed)
      {
        if completedResults[k].attempt == c.observed {
          completed := Some(completedResults[k]);
          break;
        }
        assert completedResults[k..][1..] == completedResults[k + 1..];
      }
      if completed.Some? && completed.value.epoch == c.epoch && completed.value.binding == c.binding {
        return Now(if c.active || completed.value.authorized then completed.value.outcome else Denied(c.epoch));
      }
      if running.Some? && running.value in entries {
        var entry := entries[running.value];
        if entry.epoch != c.epoch {
          return Now(Stale(c.epoch));
        }
        if entry.binding != c.binding {
          return Now(SubjectChanged(c.epoch));
        }
        if !c.active && !entry.authorized {
          return Now(Denied(c.epoch));
        }
        entries := entries[running.value := entry.(authorized := entry.authorized || c.active)];
        return Wait(running.value);
      }
      if !c.active {
        return Now(Denied(c.epoch));
      }
      if c.observed != completedAttempts {
        return Now(Denied(c.epoch));
      }
      entries := entries[id := Entry(c.epoch, c.binding, recoveryGeneration, completedAttempts, true, None)];
      running := Some(id);
      return Wait(id);
    }

    method HeartbeatReturned(id: nat, heartbeat: Heartbeat)
      requires id in entries
      modifies this
      ensures Snapshot() == Complete(old(Snapshot()), id, heartbeat)
    {
      var entry := entries[id];
      var outcome := OutcomeOf(Snapshot(), entry, heartbeat);
      var current := recoveryGeneration == entry.generation && epoch == entry.epoch;
      entries := entries[id := entry.(outcome := Some(outcome))];
      if current {
        completedAttempts := completedAttempts + 1;
        completedResults := completedResults + [Completed(entry.attempt, entry.epoch, entry.binding, entry.authorized,
            outcome)];
        if |completedResults| > MAX_RESULTS {
          completedResults := completedResults[1..];
        }
      }
    }

    method PromiseSettled(id: nat)
      modifies this
      ensures Snapshot() == Settle(old(Snapshot()), id)
    {
      if running == Some(id) {
        running := None;
      }
    }

    method InvalidateSessionRecovery()
      modifies this
      ensures Snapshot() == Invalidate(old(Snapshot()))
    {
      recoveryGeneration := recoveryGeneration + 1;
      completedAttempts := completedAttempts + 1;
      completedResults := [];
      running := None;
    }
  }

  // ----- requests -----

  datatype Send = Send(epoch: int, binding: SessionBinding)

  /** A request has been sent once, waits for a recovery, has been sent again, or is over. */
  datatype Phase = First | Recovering(answer: Answer) | Second | Over

  /**
   `binding` is the session the request is sent for and `tracks` whether that is the local one;
   `sends` records epoch and local session of every fetch.
   */
  datatype Request = Request(
    epoch: int, binding: SessionBinding, tracks: bool, observed: int, active: bool, recoverable: bool,
    phase: Phase, sends: seq<Send>)

  datatype Sys = Sys(state: State, requests: map<nat, Request>)

  /** The request may still act for the session it was sent for. */
  predicate SameSubject(s: State, r: Request) {
    s.epoch == r.epoch && (r.tracks ==> s.binding == r.binding)
  }

  function NewRequest(s: State, expected: SessionBinding, active: bool, recoverable: bool): Request {
    var binding := if expected.Some? then expected else s.binding;
    Request(s.epoch, binding, s.binding.Some? && binding == s.binding, s.attempts, active, recoverable,
            First, [Send(s.epoch, s.binding)])
  }

  ghost predicate StartRequest(s: Sys, s': Sys) {
    exists n: nat, expected: SessionBinding, active: bool, recoverable: bool :: n !in s.requests
      && s' == s.(requests := s.requests[n := NewRequest(s.state, expected, active, recoverable)])
  }

  /**
   The session a recovery is asked for: the request's own, or, only for a bootstrap request without
   one, the reported.
   */
  function ContextOf(r: Request, reported: SessionBinding, bootstrap: bool): Context {
    Context(r.epoch, r.observed, if r.binding.Some? then r.binding else if bootstrap then reported else None, r.active)
  }

  ghost predicate AskBy(s: Sys, s': Sys, n: nat, c: Context, id: nat) {
    && n in s.requests && s.requests[n].phase.First? && s.requests[n].recoverable && id !in s.state.entries
    && c.epoch == s.requests[n].epoch
    && var (state, answer) := Coordinate(s.state, c, id);
       s' == Sys(state, s.requests[n := s.requests[n].(phase := Recovering(answer))])
  }

  /** The server answers that the session is idle but recoverable; `reported` is the session it saw. */
  ghost predicate AskRecovery(s: Sys, s': Sys) {
    exists n: nat, reported: SessionBinding, bootstrap: bool, id: nat ::
      && n in s.requests && (s.requests[n].binding.Some? ==> reported == s.requests[n].binding)
      && AskBy(s, s', n, ContextOf(s.requests[n], reported, bootstrap), id)
  }

  /** The public heartbeat, asked for without a request of its own. */
  ghost predicate AskHeartbeat(s: Sys, s': Sys) {
    exists c: Context, id: nat :: id !in s.state.entries && s' == s.(state := Coordinate(s.state, c, id).0)
  }

  function Known(s: State, answer: Answer): Option<Outcome> {
    match answer
    case Now(outcome) => Some(outcome)
    case Wait(id) => if id in s.entries then s.entries[id].outcome else None
  }

  /** The recovery is known: the request is replayed, or given up. */
  ghost predicate ReplayBy(s: Sys, s': Sys, n: nat) {
    && n in s.requests && s.requests[n].phase.Recovering?
    && Known(s.state, s.requests[n].phase.answer).Some?
    && s' == s.(requests := s.requests[n := Replayed(s.state, s.requests[n])])
  }

  function Replayed(s: State, r: Request): Request
    requires r.phase.Recovering? && Known(s, r.phase.answer).Some?
  {
    if Known(s, r.phase.answer).value.Recovered? && SameSubject(s, r)
    then r.(phase := Second, sends := r.sends + [Send(s.epoch, s.binding)])
    else r.(phase := Over)
  }

  ghost predicate Replay(s: Sys, s': Sys) {
    exists n: nat :: ReplayBy(s, s', n)
  }

  ghost predicate EndRequest(s: Sys, s': Sys) {
    exists n: nat :: n in s.requests && s' == s.(requests := s.requests[n := s.requests[n].(phase := Over)])
  }

  ghost predicate HeartbeatStep(s: Sys, s': Sys) {
    exists id: nat, heartbeat: Heartbeat :: id in s.state.entries && s.state.entries[id].outcome.None?
      && s' == s.(state := Complete(s.state, id, heartbeat))
  }

  ghost predicate SettleStep(s: Sys, s': Sys) {
    exists id: nat ::
        id in s.state.entries && s.state.entries[id].outcome.Some? && s' == s.(state := Settle(s.state, id))
  }

  ghost predicate SubjectStep(s: Sys, s': Sys) {
    exists binding: SessionBinding :: s' == s.(state := ChangeSubject(s.state, binding))
      || s' == s.(state := s.state.(binding := binding)) || s' == s.(state := Invalidate(s.state))
  }

  ghost predicate FallbackStep(s: Sys, s': Sys) {
    s' == s.(state := FallbackChange(s.state))
  }

  /** `wired`: the handlers are registered, so the fallback is not used. */
  ghost predicate Step(wired: bool, s: Sys, s': Sys) {
    || StartRequest(s, s') || AskRecovery(s, s') || AskHeartbeat(s, s') || Replay(s, s') || EndRequest(s, s')
    || HeartbeatStep(s, s') || SettleStep(s, s') || SubjectStep(s, s') || (!wired && FallbackStep(s, s'))
  }

  ghost predicate IsRecoveryRun(wired: bool, run: seq<Sys>) {
    && |run| >= 1 && run[0] == Sys(INITIAL, map[])
    && forall i | 0 <= i < |run| - 1 :: Step(wired, run[i], run[i + 1])
  }

  // ----- the invariant -----

  ghost predicate ResultsOk(s: State) {
    && |s.results| <= MAX_RESULTS
    && (forall i, j | 0 <= i < j < |s.results| :: s.results[i].attempt < s.results[j].attempt)
    && (forall i | 0 <= i < |s.results| ::
        s.results[i].attempt < s.attempts && s.results[i].outcome.epoch == s.results[i].epoch)
  }

  /** A heartbeat still on its way that would count is the shared one, for the attempt that is next. */
  ghost predicate EntryOk(wired: bool, s: State, id: nat)
    requires id in s.entries
  {
    var e := s.entries[id];
    && e.attempt <= s.attempts && e.generation <= s.generation && e.epoch <= s.epoch
    && (e.outcome.None? && IsCurrent(s, e) ==> s.running == Some(id) && e.attempt == s.attempts)
    && (e.outcome.Some? ==> e.outcome.value.epoch == e.epoch)
    && (e.attempt < s.attempts || e.epoch < s.epoch || e.outcome.None?)
    && (wired && e.generation == s.generation ==> e.epoch == s.epoch)
    && (e.generation < s.generation ==> e.attempt < s.attempts)
  }

  ghost predicate RunningOk(s: State) {
    s.running.Some? ==> s.running.value in s.entries && s.entries[s.running.value].generation == s.generation
  }

  /** No two heartbeats for one attempt in one epoch, and, when wired, none for one attempt at all. */
  ghost predicate Single(wired: bool, s: State) {
    forall i, j | i in s.entries && j in s.entries && i != j ::
      s.entries[i].attempt != s.entries[j].attempt || (!wired && s.entries[i].epoch != s.entries[j].epoch)
  }

  ghost predicate StateOk(wired: bool, s: State) {
    ResultsOk(s) && RunningOk(s) && Single(wired, s) && forall id | id in s.entries :: EntryOk(wired, s, id)
  }

  ghost predicate RequestOk(s: State, r: Request) {
    && 1 <= |r.sends| <= 2
    && r.sends[0].epoch == r.epoch
    && (r.tracks ==> r.sends[0].binding == r.binding)
    && (r.phase.First? || r.phase.Recovering? ==> |r.sends| == 1)
    && (|r.sends| == 2 ==> r.sends[1].epoch == r.epoch && (r.tracks ==> r.sends[1].binding == r.binding))
    && (r.phase.Recovering? ==> AnswerOk(s, r.phase.answer, r.epoch))
  }

  ghost predicate AnswerOk(s: State, answer: Answer, epoch: int) {
    match answer
    case Now(outcome) => outcome.epoch == epoch
    case Wait(id) => id in s.entries && s.entries[id].epoch == epoch
  }

  ghost predicate Inv(wired: bool, s: Sys) {
    StateOk(wired, s.state) && forall n | n in s.requests :: RequestOk(s.state, s.requests[n])
  }

  // ----- every step keeps it -----

  lemma {:induction false} FoundResult(results: seq<Completed>, attempt: int)
    ensures FindResult(results, attempt).Some? ==>
              exists k :: 0 <= k < |results| && results[k] == FindResult(results, attempt).value
                  && results[k].attempt == attempt
  {
    if results != [] && results[0].attempt != attempt {
      FoundResult(results[1..], attempt);
      if FindResult(results[1..], attempt).Some? {
        var k :| 0 <= k < |results[1..]| && results[1..][k] == FindResult(results[1..], attempt).value;
        assert results[k + 1] == results[1..][k];
      }
    } else if results != [] {
      assert results[0].attempt == attempt;
    }
  }

  /** The state after asking: one more heartbeat on its way, a permit noted, or nothing. */
  lemma CoordinateShape(wired: bool, s: State, c: Context, id: nat)
    requires StateOk(wired, s) && id !in s.entries
    ensures var (s', answer) := Coordinate(s, c, id);
            || s' == s
            || (s.running.Some? && s.running.value in s.entries
                && s' == s.(entries := s.entries[s.running.value := s.entries[s.running.value].(authorized := true)]))
            || (s.running.None? && c.epoch == s.epoch
                && s' == s.(running := Some(id),
                    entries := s.entries[id := Entry(s.epoch, c.binding, s.generation, s.attempts, true, None)]))
  {
    var r := s.running;
    if r.Some? && r.value in s.entries && s.entries[r.value].authorized {
      assert s.entries[r.value].(authorized := true) == s.entries[r.value];
    }
  }

  lemma CoordinateKeeps(wired: bool, s: State, c: Context, id: nat)
    requires StateOk(wired, s) && id !in s.entries
    ensures StateOk(wired, Coordinate(s, c, id).0)
  {
    CoordinateShape(wired, s, c, id);
    hide StateOk, Coordinate;
    if s.running.None? {
    } else if s.running.value in s.entries {
    }
  }

  lemma CompleteKeeps(wired: bool, s: State, id: nat, heartbeat: Heartbeat)
    requires StateOk(wired, s) && id in s.entries && s.entries[id].outcome.None?
    ensures StateOk(wired, Complete(s, id, heartbeat))
  {
    var s' := Complete(s, id, heartbeat);
    assert EntryOk(wired, s, id);
    forall i | i in s'.entries
      ensures EntryOk(wired, s', i)
    {
      assert EntryOk(wired, s, i);
    }
  }

  lemma SubjectKeeps(wired: bool, s: State, s': State)
    requires StateOk(wired, s)
    requires || (exists binding :: s' == ChangeSubject(s, binding)) || (exists binding :: s' == s.(binding := binding))
             || s' == Invalidate(s) || (!wired && s' == FallbackChange(s))
    ensures StateOk(wired, s')
  {
    forall i | i in s'.entries
      ensures EntryOk(wired, s', i)
    {
      assert EntryOk(wired, s, i);
    }
  }

  lemma SettleKeeps(wired: bool, s: State, id: nat)
    requires StateOk(wired, s) && id in s.entries && s.entries[id].outcome.Some?
    ensures StateOk(wired, Settle(s, id))
  {
    var s' := Settle(s, id);
    forall i | i in s'.entries
      ensures EntryOk(wired, s', i)
    {
      assert EntryOk(wired, s, i);
    }
  }

  lemma RequestsStay(s: Sys, state: State)
    requires forall n | n in s.requests :: RequestOk(s.state, s.requests[n])
    requires forall id | id in s.state.entries ::
             id in state.entries && state.entries[id].epoch == s.state.entries[id].epoch
    ensures forall n | n in s.requests :: RequestOk(state, s.requests[n])
  {
    forall n | n in s.requests
      ensures RequestOk(state, s.requests[n])
    {
    }
  }

  /** An answer is about the epoch it was asked in; a promise is one of this epoch and this session. */
  lemma AnswerMatchesContext(wired: bool, s: State, c: Context, id: nat)
    requires StateOk(wired, s) && id !in s.entries
    ensures var (s', answer) := Coordinate(s, c, id);
            match answer
            case Now(outcome) =>
              && outcome.epoch == c.epoch
              && (outcome.Recovered? ==>
                    c.epoch == s.epoch
                    && exists k ::
                        0 <= k < |s.results| && s.results[k].attempt == c.observed && s.results[k].epoch == s.epoch
                                   && s.results[k].binding == c.binding && s.results[k].outcome == outcome)
            case Wait(e) =>
              e in s'.entries && s'.entries[e].epoch == c.epoch == s.epoch && s'.entries[e].binding == c.binding
                  && s'.running == Some(e)
  {
    FoundResult(s.results, c.observed);
  }

  lemma AskKeeps(wired: bool, s: Sys, s': Sys, n: nat, c: Context, id: nat)
    requires Inv(wired, s) && AskBy(s, s', n, c, id)
    ensures Inv(wired, s')
  {
    CoordinateKeeps(wired, s.state, c, id);
    CoordinateShape(wired, s.state, c, id);
    AnswerMatchesContext(wired, s.state, c, id);
    hide StateOk, Coordinate;
    RequestsStay(s, s'.state);
  }

  /** Starting, replaying and ending a request leave the coordinator alone. */
  lemma RequestStepKeeps(wired: bool, s: Sys, s': Sys)
    requires Inv(wired, s) && (StartRequest(s, s') || Replay(s, s') || EndRequest(s, s'))
    ensures Inv(wired, s')
  {
    hide StateOk;
  }

  lemma StepKeepsInv(wired: bool, s: Sys, s': Sys)
    requires Inv(wired, s) && Step(wired, s, s')
    ensures Inv(wired, s')
  {
    hide StateOk, RequestOk, StartRequest, Replay, EndRequest;
    if StartRequest(s, s') || Replay(s, s') || EndRequest(s, s') {
      RequestStepKeeps(wired, s, s');
    } else if AskRecovery(s, s') {
      var n: nat, reported: SessionBinding, bootstrap: bool, id: nat :|
        && n in s.requests && (s.requests[n].binding.Some? ==> reported == s.requests[n].binding)
        && AskBy(s, s', n, ContextOf(s.requests[n], reported, bootstrap), id);
      AskKeeps(wired, s, s', n, ContextOf(s.requests[n], reported, bootstrap), id);
    } else if AskHeartbeat(s, s') {
      var c: Context, id: nat :| id !in s.state.entries && s' == s.(state := Coordinate(s.state, c, id).0);
      CoordinateKeeps(wired, s.state, c, id);
      CoordinateShape(wired, s.state, c, id);
      RequestsStay(s, s'.state);
    } else if HeartbeatStep(s, s') {
      var id: nat, heartbeat: Heartbeat :| id in s.state.entries && s.state.entries[id].outcome.None?
        && s' == s.(state := Complete(s.state, id, heartbeat));
      CompleteKeeps(wired, s.state, id, heartbeat);
      RequestsStay(s, s'.state);
    } else if SettleStep(s, s') {
      var id: nat :| id in s.state.entries && s.state.entries[id].outcome.Some?
          && s' == s.(state := Settle(s.state, id));
      SettleKeeps(wired, s.state, id);
      RequestsStay(s, s'.state);
    } else if SubjectStep(s, s') || (!wired && FallbackStep(s, s')) {
      SubjectKeeps(wired, s.state, s'.state);
      RequestsStay(s, s'.state);
    }
  }

  lemma {:induction false} RunKeepsInv(wired: bool, run: seq<Sys>, i: nat)
    requires IsRecoveryRun(wired, run) && i < |run|
    ensures Inv(wired, run[i])
  {
    if i > 0 {
      RunKeepsInv(wired, run, i - 1);
      assert Step(wired, run[i - 1], run[(i - 1) + 1]);
      StepKeepsInv(wired, run[i - 1], run[i]);
    }
  }

  // ----- what every run guarantees -----

  /**
   At most one heartbeat is launched for an attempt, as long as every change of the epoch also
   invalidates the recovery; otherwise at most one for an attempt in an epoch.
   */
  lemma OneHeartbeatPerAttempt(wired: bool, run: seq<Sys>, i: nat, a: nat, b: nat)
    requires IsRecoveryRun(wired, run) && i < |run| && a in run[i].state.entries && b in run[i].state.entries && a != b
    ensures var x, y := run[i].state.entries[a], run[i].state.entries[b];
            x.attempt != y.attempt || (!wired && x.epoch != y.epoch)
  {
    RunKeepsInv(wired, run, i);
  }

  /**
   The fallback breaks it in every state with a heartbeat on its way: once that heartbeat has
   returned, whatever it says, the next active caller launches another one for the same attempt
   in the same recovery generation.
   */
  lemma FallbackRepeatsAttempt(s: State, id: nat, heartbeat: Heartbeat, c: Context, next: nat)
    requires StateOk(false, s) && id in s.entries && s.entries[id].outcome.None? && IsCurrent(s, s.entries[id])
    requires c.epoch == s.epoch + 1 && c.observed == s.attempts && c.active && next !in s.entries
    ensures var returned := Settle(Complete(FallbackChange(s), id, heartbeat), id);
            var (after, answer) := Coordinate(returned, c, next);
            && answer == Wait(next) && id in after.entries && next in after.entries
            && after.entries[next].attempt == after.entries[id].attempt
            && after.entries[next].generation == after.entries[id].generation
  {
    assert EntryOk(false, s, id);
    FoundResult(s.results, c.observed);
  }

  /** No two heartbeats of a run are for one attempt. */
  ghost predicate SingleFlight(run: seq<Sys>) {
    forall i, a, b | 0 <= i < |run| && a in run[i].state.entries && b in run[i].state.entries && a != b ::
      run[i].state.entries[a].attempt != run[i].state.entries[b].attempt
  }

  /** Two heartbeats of a run are for one attempt of one recovery generation. */
  ghost predicate Repeats(run: seq<Sys>) {
    exists i, a, b | 0 <= i < |run| && a in run[i].state.entries && b in run[i].state.entries && a != b ::
      && run[i].state.entries[a].attempt == run[i].state.entries[b].attempt
      && run[i].state.entries[a].generation == run[i].state.entries[b].generation
  }

  /**
   Without the fallback every run is single-flight, even over all generations; with it, some run
   repeats an attempt within one generation.
   */
  lemma SingleFlightIffWired(wired: bool)
    ensures wired <==> forall run: seq<Sys> | IsRecoveryRun(wired, run) :: SingleFlight(run)
    ensures wired <==> forall run: seq<Sys> | IsRecoveryRun(wired, run) :: !Repeats(run)
  {
    if wired {
      forall run: seq<Sys> | IsRecoveryRun(wired, run)
        ensures SingleFlight(run) && !Repeats(run)
      {
        forall i, a, b | 0 <= i < |run| && a in run[i].state.entries && b in run[i].state.entries && a != b
          ensures run[i].state.entries[a].attempt != run[i].state.entries[b].attempt
        {
          OneHeartbeatPerAttempt(wired, run, i, a, b);
        }
      }
    } else {
      var run := RepeatingRun();
      assert 0 in run[5].state.entries && 1 in run[5].state.entries;
      assert !SingleFlight(run) && Repeats(run);
    }
  }

  /** A heartbeat, the fallback while it is on its way, its return, and the next heartbeat. */
  lemma RepeatingRun() returns (run: seq<Sys>)
    ensures IsRecoveryRun(false, run) && |run| == 6
    ensures 0 in run[5].state.entries && 1 in run[5].state.entries
    ensures run[5].state.entries[0].attempt == run[5].state.entries[1].attempt
    ensures run[5].state.entries[0].generation == run[5].state.entries[1].generation
  {
    var first, second := Context(0, 0, None, true), Context(1, 0, None, true);
    var s0 := Sys(INITIAL, map[]);
    var s1 := s0.(state := Coordinate(s0.state, first, 0).0);
    assert s1.state == INITIAL.(running := Some(0), entries := map[0 := Entry(0, None, 0, 0, true, None)]);
    var s2 := s1.(state := FallbackChange(s1.state));
    var s3 := s2.(state := Complete(s2.state, 0, Alive(None)));
    var s4 := s3.(state := Settle(s3.state, 0));
    var s5 := s4.(state := Coordinate(s4.state, second, 1).0);
    assert s4.state.results == [] && s4.state.attempts == 0 && s4.state.epoch == 1 && s4.state.running == None;
    run := [s0, s1, s2, s3, s4, s5];
    assert AskHeartbeat(s0, s1);
    assert FallbackStep(s1, s2);
    assert HeartbeatStep(s2, s3);
    assert SettleStep(s3, s4);
    assert AskHeartbeat(s4, s5);
  }

  /** Attempt numbers never go back, and every heartbeat that counts, and every invalidation, uses one up. */
  lemma AttemptsIncrease(wired: bool, s: Sys, s': Sys)
    requires Step(wired, s, s')
    ensures s.state.attempts <= s'.state.attempts <= s.state.attempts + 1
    ensures s'.state.results != s.state.results || s'.state.generation != s.state.generation ==>
              s'.state.attempts == s.state.attempts + 1
    ensures s.state.generation <= s'.state.generation && s.state.epoch <= s'.state.epoch
  {
  }

  /** Results are kept under strictly increasing attempt numbers, at most sixteen of them. */
  lemma ResultsAreBounded(wired: bool, run: seq<Sys>, i: nat)
    requires IsRecoveryRun(wired, run) && i < |run|
    ensures ResultsOk(run[i].state)
  {
    RunKeepsInv(wired, run, i);
  }

  /** What stays of a heartbeat from step to step: only its permit and, once, its outcome change. */
  lemma EntryStays(wired: bool, s: Sys, s': Sys, id: nat)
    requires Inv(wired, s) && Step(wired, s, s') && id in s.state.entries
    ensures id in s'.state.entries
    ensures var e, e' := s.state.entries[id], s'.state.entries[id];
            && e'.epoch == e.epoch && e'.generation == e.generation && e'.binding == e.binding
                && e'.attempt == e.attempt
            && (e.outcome.Some? ==> e'.outcome == e.outcome)
            && (e.outcome.None? && e'.outcome.Some? ==>
                  exists heartbeat ::
                      s'.state == Complete(s.state, id, heartbeat)
                          && e'.outcome == Some(OutcomeOf(s.state, e, heartbeat)))
    ensures s.state.epoch <= s'.state.epoch && s.state.generation <= s'.state.generation
  {
    hide Inv, StateOk, StartRequest, Replay, EndRequest;
    if HeartbeatStep(s, s') {
      var n: nat, heartbeat: Heartbeat :| n in s.state.entries && s.state.entries[n].outcome.None?
        && s' == s.(state := Complete(s.state, n, heartbeat));
    } else if AskRecovery(s, s') {
      var n: nat, reported: SessionBinding, bootstrap: bool, m: nat :|
        && n in s.requests && (s.requests[n].binding.Some? ==> reported == s.requests[n].binding)
        && AskBy(s, s', n, ContextOf(s.requests[n], reported, bootstrap), m);
    } else if StartRequest(s, s') || Replay(s, s') || EndRequest(s, s') {
      SameCoordinator(s, s');
    }
  }

  lemma SameCoordinator(s: Sys, s': Sys)
    requires StartRequest(s, s') || Replay(s, s') || EndRequest(s, s')
    ensures s'.state == s.state
  {
  }

  lemma {:induction false} EntryStaysInRun(wired: bool, run: seq<Sys>, i: nat, j: nat, id: nat)
    requires IsRecoveryRun(wired, run) && i <= j < |run| && id in run[i].state.entries
    ensures id in run[j].state.entries
    ensures var e, e' := run[i].state.entries[id], run[j].state.entries[id];
            && e'.epoch == e.epoch && e'.generation == e.generation && e'.binding == e.binding
            && (e.outcome.Some? ==> e'.outcome == e.outcome)
    ensures run[i].state.epoch <= run[j].state.epoch && run[i].state.generation <= run[j].state.generation
    decreases j
  {
    if i < j {
      EntryStaysInRun(wired, run, i, j - 1, id);
      RunKeepsInv(wired, run, j - 1);
      assert Step(wired, run[j - 1], run[(j - 1) + 1]);
      hide Step, Inv;
      EntryStays(wired, run[j - 1], run[j], id);
    }
  }

  /** The step at which a heartbeat that has an outcome got it. */
  lemma {:induction false} Completion(wired: bool, run: seq<Sys>, i: nat, j: nat, id: nat) returns (m: nat)
    requires IsRecoveryRun(wired, run) && i <= j < |run| && id in run[i].state.entries
    requires run[i].state.entries[id].outcome.None?
    requires id in run[j].state.entries && run[j].state.entries[id].outcome.Some?
    ensures i <= m < j && id in run[m].state.entries && run[m].state.entries[id].outcome.None?
    ensures id in run[m + 1].state.entries && run[m + 1].state.entries[id].outcome == run[j].state.entries[id].outcome
    decreases j
  {
    hide IsRecoveryRun;
    EntryStaysInRun(wired, run, i, j - 1, id);
    EntryStaysInRun(wired, run, j - 1, j, id);
    if run[j - 1].state.entries[id].outcome.Some? {
      m := Completion(wired, run, i, j - 1, id);
    } else {
      m := j - 1;
    }
  }

  /**
   A heartbeat that ends up recovered has seen no change: in every state from its launch until it
   returned, the epoch and the recovery generation were its own, and what it returned names the
   session it was launched for. A login, logout or invalidation in between, even one that was
   followed by another, rules it out.
   */
  lemma RecoveredOnlyUnchanged(wired: bool, run: seq<Sys>, i: nat, k: nat, j: nat, id: nat)
    requires IsRecoveryRun(wired, run) && i <= k <= j < |run|
    requires id in run[i].state.entries && id in run[k].state.entries && run[k].state.entries[id].outcome.None?
    requires id in run[j].state.entries && run[j].state.entries[id].outcome.Some?
    requires run[j].state.entries[id].outcome.value.Recovered?
    ensures var e := run[i].state.entries[id];
            && run[k].state.epoch == run[i].state.epoch == e.epoch
            && run[k].state.generation == run[i].state.generation == e.generation
            && run[j].state.entries[id].outcome == Some(Recovered(e.epoch))
            && exists m: nat, heartbeat: Heartbeat :: k <= m < j && id in run[m].state.entries
                 && run[m + 1].state == Complete(run[m].state, id, heartbeat)
                 && heartbeat.Alive? && (e.binding.Some? ==> heartbeat.binding == e.binding)
  {
    var m := Completion(wired, run, k, j, id);
    EntryStaysInRun(wired, run, i, k, id);
    EntryStaysInRun(wired, run, k, m, id);
    RunKeepsInv(wired, run, i);
    assert EntryOk(wired, run[i].state, id);
    RunKeepsInv(wired, run, m);
    assert Step(wired, run[m], run[m + 1]);
    hide Step, Inv, StateOk, EntryOk;
    EntryStays(wired, run[m], run[m + 1], id);
    var heartbeat :| run[m + 1].state == Complete(run[m].state, id, heartbeat)
      && run[m + 1].state.entries[id].outcome == Some(OutcomeOf(run[m].state, run[m].state.entries[id], heartbeat));
    assert IsCurrent(run[m].state, run[m].state.entries[id]);
  }

  /**
   A request is sent at most twice, and again only in the epoch, and under the local session, it was
   first sent in.
   */
  lemma SentAtMostTwice(wired: bool, run: seq<Sys>, i: nat, n: nat)
    requires IsRecoveryRun(wired, run) && i < |run| && n in run[i].requests
    ensures var r := run[i].requests[n];
            && 1 <= |r.sends| <= 2 && r.sends[0].epoch == r.epoch
            && (|r.sends| == 2 ==>
                  && r.sends[1].epoch == r.sends[0].epoch
                  && (r.tracks ==> r.sends[1].binding == r.sends[0].binding == r.binding))
  {
    RunKeepsInv(wired, run, i);
    assert RequestOk(run[i].state, run[i].requests[n]);
  }

  /** A request is sent again only on a recovery of its own epoch, while that epoch lasts. */
  lemma ReplayNeedsRecovery(wired: bool, run: seq<Sys>, i: nat, n: nat)
    requires IsRecoveryRun(wired, run) && i < |run| && n in run[i].requests
    requires var s := run[i];
             s.requests[n].phase.Recovering? && Known(s.state, s.requests[n].phase.answer).Some?
    ensures var s, r := run[i], run[i].requests[n];
            && Known(s.state, r.phase.answer).value.epoch == r.epoch
            && (|Replayed(s.state, r).sends| == 2 <==>
                  && Known(s.state, r.phase.answer) == Some(Recovered(r.epoch))
                  && s.state.epoch == r.epoch && (r.tracks ==> s.state.binding == r.binding))
    ensures var s, r := run[i], run[i].requests[n];
            var after := Replayed(s.state, r);
            if |after.sends| == 2
            then after == r.(phase := Second, sends := [r.sends[0], Send(s.state.epoch, s.state.binding)])
            else after == r.(phase := Over)
  {
    RunKeepsInv(wired, run, i);
    var s, r := run[i], run[i].requests[n];
    assert RequestOk(s.state, r);
    if r.phase.answer.Wait? {
      assert EntryOk(wired, s.state, r.phase.answer.entry);
    }
  }

  // ----- what an answer means -----

  /**
   What a returned heartbeat comes to: nothing if the epoch or the generation has moved on, a
   recovery if it is alive for the session it was asked for, or for none in particular, a change of
   subject if it is alive for another session or says so itself, and an authentication failure exactly
   if the server refused it.
   */
  lemma HeartbeatMeans(s: State, id: nat, heartbeat: Heartbeat)
    requires id in s.entries
    ensures var e, after := s.entries[id], Complete(s, id, heartbeat);
            var moved := s.epoch != e.epoch || s.generation != e.generation;
            var other := heartbeat.Alive? && e.binding.Some? && heartbeat.binding != e.binding;
            && id in after.entries && after.entries[id].outcome.Some?
            && var outcome := after.entries[id].outcome.value;
               && outcome.epoch == e.epoch
               && (outcome.Stale? <==> moved)
               && (outcome.Recovered? <==> !moved && heartbeat.Alive? && !other)
               && (outcome.SubjectChanged? <==> !moved && (other || heartbeat.SubjectChange?))
               && (outcome == Failed(true, e.epoch) <==> !moved && heartbeat.Unauthorized?)
               && (outcome == Failed(false, e.epoch) <==> !moved && heartbeat.Broken?)
               && !outcome.Denied?
               && after.attempts == s.attempts + (if moved then 0 else 1)
               && (moved ==> after.results == s.results)
               && (!moved ==>
                     && |after.results| > 0
                     && after.results[|after.results| - 1]
                         == Completed(e.attempt, e.epoch, e.binding, e.authorized, outcome))
    ensures var after := Complete(s, id, heartbeat);
            && after.epoch == s.epoch && after.binding == s.binding && after.generation == s.generation
            && after.running == s.running && after.entries.Keys == s.entries.Keys
            && forall x | x in s.entries && x != id :: after.entries[x] == s.entries[x]
  {
  }

  /** There is a remembered result of this attempt, and the first one found is of this epoch and session. */
  ghost predicate Remembered(s: State, c: Context) {
    exists k :: 0 <= k < |s.results| && IsRemembered(s, c, k)
  }

  ghost predicate IsRemembered(s: State, c: Context, k: nat)
    requires k < |s.results|
  {
    s.results[k].attempt == c.observed && s.results[k].epoch == c.epoch && s.results[k].binding == c.binding
  }

  /** In increasing order of attempts, an attempt is found where it stands. */
  lemma {:induction false} FindsAttempt(results: seq<Completed>, k: nat)
    requires k < |results| && forall i, j | 0 <= i < j < |results| :: results[i].attempt < results[j].attempt
    ensures FindResult(results, results[k].attempt) == Some(results[k])
  {
    if k > 0 {
      FindsAttempt(results[1..], k - 1);
    }
  }

  /**
   When asking launches a heartbeat, joins the one that is running, or is answered at once: launched
   exactly for an active caller of this epoch who has seen every attempt, with no result remembered
   for it and none running; joined exactly if the running one is of the caller's epoch and session and
   one of them is authorized.
   */
  lemma AskingMeans(wired: bool, s: State, c: Context, id: nat)
    requires StateOk(wired, s) && id !in s.entries
    ensures var (after, answer) := Coordinate(s, c, id);
            var known := Remembered(s, c);
            && (answer == Wait(id) <==>
                  c.epoch == s.epoch && !known && s.running.None? && c.active && c.observed == s.attempts)
            && (answer.Wait? && answer.entry != id <==>
                  && c.epoch == s.epoch && !known && s.running.Some?
                  && var e := s.entries[s.running.value];
                     e.epoch == c.epoch && e.binding == c.binding && (c.active || e.authorized))
            && (c.epoch != s.epoch ==> answer == Now(Stale(c.epoch)))
            && (answer.Wait? && answer.entry != id ==>
                  && s.running == Some(answer.entry) && answer.entry in s.entries
                  && after == s.(entries := s.entries[answer.entry := s.entries[answer.entry].(authorized := true)]))
            && (answer == Wait(id) ==>
                  after.entries[id] == Entry(c.epoch, c.binding, s.generation, s.attempts, true, None)
                  && after.running == Some(id))
            && (answer.Now? ==> after == s)
  {
    FoundResult(s.results, c.observed);
    if k :| 0 <= k < |s.results| && IsRemembered(s, c, k) {
      FindsAttempt(s.results, k);
    }
    if FindResult(s.results, c.observed).Some? {
      var k :| 0 <= k < |s.results| && s.results[k] == FindResult(s.results, c.observed).value
          && s.results[k].attempt == c.observed;
      assert s.results[k].epoch == c.epoch && s.results[k].binding == c.binding ==> IsRemembered(s, c, k);
    }
  }

  /** What a remembered result tells: an inactive caller learns it only from an authorized heartbeat. */
  lemma RememberedMeans(wired: bool, s: State, c: Context, id: nat, k: nat)
    requires StateOk(wired, s) && c.epoch == s.epoch && k < |s.results| && IsRemembered(s, c, k)
    ensures Coordinate(s, c, id)
            == (s, Now(if c.active || s.results[k].authorized then s.results[k].outcome else Denied(c.epoch)))
  {
    FindsAttempt(s.results, k);
  }

  /** A new request is for the session it names, or else for the local one, which it then follows. */
  lemma RequestStarts(s: State, expected: SessionBinding, active: bool, recoverable: bool)
    ensures var r := NewRequest(s, expected, active, recoverable);
            && r.epoch == s.epoch && r.observed == s.attempts && r.active == active && r.recoverable == recoverable
            && r.phase.First? && r.sends == [Send(s.epoch, s.binding)]
            && r.binding == (if expected.Some? then expected else s.binding)
            && (r.tracks <==> s.binding.Some? && (expected == s.binding || expected.None?))
  {
  }
}
