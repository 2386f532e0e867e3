/**
 The per-message gates of the chat store as a step system. Any number of threads run
 beginChatMutation(s), their work and endChatMutation(s); others take the outer lock for
 writing. One step is one lock operation, or what a thread does between two of them.

 Every thread is shown as its program: the ids it locks (none for a create, one for a withdraw
 or delete, several in ascending order for a batch) and the point it has reached.
 */
module ChatGates {
  import opened Basics
  import opened ChatTables

  /**
   `k` counts the ids of the thread. WantMu and InMu are before and inside the registry mutex on
   the way in, Created has a new state whose gate is locked but which nobody else can see,
   WantGate is counted in `active` and waits; EndUnlock, EndWantMu and EndInMu are the way out.
   */
  datatype Phase =
    | WantRead
    | WantMu(k: nat) | InMu(k: nat) | Created(k: nat) | WantGate(k: nat)
    | Working
    | EndUnlock(k: nat) | EndWantMu(k: nat) | EndInMu(k: nat)
    | WantRUnlock
    | WantWrite | WritePending | Writing
    | Finished

  /** `refs` are the states the thread is counted in, for its first ids; `overlapped` what it was told about each. */
  datatype Thread = Thread(ids: seq<int>, refs: seq<nat>, overlapped: seq<bool>, phase: Phase)

  /** `id` and `entries`, the threads that locked the gate in order, are auxiliary. */
  datatype Gate = Gate(id: int, active: int, holder: Option<nat>, entries: seq<nat>)

  /**
   `gates` are the allocated states, `registry` is chatMutations, `mu` the holder of
   chatMutationMu; `readers` and `writer` make up chatDestructiveMu, where a writer that is
   only waiting already keeps new readers out.
   */
  datatype Sys = Sys(
    threads: map<nat, Thread>, gates: map<nat, Gate>, registry: map<int, nat>,
    mu: Option<nat>, readers: set<nat>, writer: Option<nat>)

  // ----- the program of a thread -----

  function NextBegin(th: Thread, k: nat): Phase {
    if k < |th.ids| then WantMu(k) else Working
  }

  function NextEnd(k: nat): Phase {
    if k == 0 then WantRUnlock else EndUnlock(k - 1)
  }

  /** How many states a thread is counted in. */
  function Counted(p: Phase, n: nat): nat {
    match p
    case WantMu(k) => k
    case InMu(k) => k
    case Created(k) => k + 1
    case WantGate(k) => k + 1
    case Working => n
    case EndUnlock(k) => k + 1
    case EndWantMu(k) => k + 1
    case EndInMu(k) => k + 1
    case _ => 0
  }

  /** How many gates a thread holds. */
  function Held(p: Phase, n: nat): nat {
    match p
    case WantMu(k) => k
    case InMu(k) => k
    case Created(k) => k + 1
    case WantGate(k) => k
    case Working => n
    case EndUnlock(k) => k + 1
    case EndWantMu(k) => k
    case EndInMu(k) => k
    case _ => 0
  }

  /** How many gates a thread has ever entered. */
  function Entered(p: Phase, n: nat): nat {
    if p.WantRead? || p.WantWrite? || p.WritePending? || p.Writing? then 0
    else if p.WantMu? || p.InMu? || p.Created? || p.WantGate? then Held(p, n)
    else n
  }

  predicate HasIndex(p: Phase) {
    p.WantMu? || p.InMu? || p.Created? || p.WantGate? || p.EndUnlock? || p.EndWantMu? || p.EndInMu?
  }

  predicate InMutex(p: Phase) {
    p.InMu? || p.Created? || p.EndInMu?
  }

  predicate Reading(p: Phase) {
    HasIndex(p) || p.Working? || p.WantRUnlock?
  }

  predicate WriterPhase(p: Phase) {
    p.WantWrite? || p.WritePending? || p.Writing?
  }

  ghost predicate Shape(th: Thread) {
    && Ascending(th.ids)
    && (HasIndex(th.phase) ==> th.phase.k < |th.ids|)
    && (WriterPhase(th.phase) ==> th.ids == [])
    && |th.refs| == |th.overlapped| == Counted(th.phase, |th.ids|)
    && Held(th.phase, |th.ids|) <= |th.refs|
  }

  /** The thread's states exist and belong to its ids. */
  ghost predicate Linked(s: Sys, t: nat) {
    && t in s.threads && Shape(s.threads[t])
    && var th := s.threads[t];
    && (forall j | 0 <= j < |th.refs| :: th.refs[j] in s.gates)
    && (forall j | 0 <= j < |th.refs| && th.refs[j] in s.gates :: s.gates[th.refs[j]].id == th.ids[j])
  }

  predicate Enabled(s: Sys, t: nat)
    requires t in s.threads
  {
    var th := s.threads[t];
    match th.phase
    case WantRead => s.writer.None?
    case WantMu(_) => s.mu.None?
    case EndWantMu(_) => s.mu.None?
    case WantGate(k) => k < |th.refs| && th.refs[k] in s.gates && s.gates[th.refs[k]].holder.None?
    case WantWrite => s.writer.None?
    case WritePending => s.readers == {}
    case Finished => false
    case _ => true
  }

  function Moved(s: Sys, t: nat, phase: Phase): Sys
    requires t in s.threads
  {
    s.(threads := s.threads[t := s.threads[t].(phase := phase)])
  }

  /** A new state: its gate is locked before anybody can find it. */
  function Create(s: Sys, t: nat, k: nat, ref: nat): Sys
    requires t in s.threads && k < |s.threads[t].ids|
  {
    var th := s.threads[t];
    s.(threads := s.threads[t := th.(refs := th.refs + [ref], overlapped := th.overlapped + [false],
        phase := Created(k))],
       gates := s.gates[ref := Gate(th.ids[k], 1, Some(t), [t])])
  }

  function Publish(s: Sys, t: nat, k: nat): Sys
    requires t in s.threads && k < |s.threads[t].ids| && k < |s.threads[t].refs|
  {
    var th := s.threads[t];
    Moved(s, t, NextBegin(th, k + 1)).(registry := s.registry[th.ids[k] := th.refs[k]], mu := None)
  }

  function Join(s: Sys, t: nat, k: nat, ref: nat): Sys
    requires t in s.threads && ref in s.gates
  {
    var th := s.threads[t];
    s.(threads := s.threads[t := th.(refs := th.refs + [ref], overlapped := th.overlapped + [true],
        phase := WantGate(k))],
       gates := s.gates[ref := s.gates[ref].(active := s.gates[ref].active + 1)],
       mu := None)
  }

  function Enter(s: Sys, t: nat, k: nat, ref: nat): Sys
    requires t in s.threads && ref in s.gates
  {
    var g := s.gates[ref];
    Moved(s, t, NextBegin(s.threads[t], k + 1)).(gates :=
        s.gates[ref := g.(holder := Some(t), entries := g.entries + [t])])
  }

  function Unlock(s: Sys, t: nat, k: nat, ref: nat): Sys
    requires t in s.threads && ref in s.gates
  {
    Moved(s, t, EndWantMu(k)).(gates := s.gates[ref := s.gates[ref].(holder := None)])
  }

  /** Uncounting a thread; the last one removes the state from the registry. */
  function Leave(s: Sys, t: nat, k: nat, ref: nat): Sys
    requires t in s.threads && ref in s.gates && k < |s.threads[t].ids|
    requires k < |s.threads[t].refs| && k < |s.threads[t].overlapped|
  {
    var th, g := s.threads[t], s.gates[ref];
    var id := th.ids[k];
    s.(threads := s.threads[t := th.(refs := th.refs[..k], overlapped := th.overlapped[..k], phase := NextEnd(k))],
       gates := s.gates[ref := g.(active := g.active - 1)],
       registry := if g.active - 1 == 0 && id in s.registry && s.registry[id] == ref then s.registry - {id}
           else s.registry,
       mu := None)
  }

  ghost predicate Allocated(s: Sys) {
    forall i | i in s.registry :: s.registry[i] in s.gates
  }

  predicate PlainPhase(p: Phase) {
    !(p.InMu? || p.Created? || p.WantGate? || p.EndUnlock? || p.EndInMu?)
  }

  /** The steps that only take or leave the outer lock or the registry mutex, or do the work. */
  function PlainMove(s: Sys, t: nat): Sys
    requires t in s.threads
  {
    var th := s.threads[t];
    match th.phase
    case WantRead => Moved(s, t, NextBegin(th, 0)).(readers := s.readers + {t})
    case WantMu(k) => Moved(s, t, InMu(k)).(mu := Some(t))
    case Working => Moved(s, t, NextEnd(|th.ids|))
    case EndWantMu(k) => Moved(s, t, EndInMu(k)).(mu := Some(t))
    case WantRUnlock => Moved(s, t, Finished).(readers := s.readers - {t})
    case WantWrite => Moved(s, t, WritePending).(writer := Some(t))
    case WritePending => Moved(s, t, Writing)
    case Writing => Moved(s, t, Finished).(writer := None)
    case _ => s
  }

  /** One step of thread `t`; `ref` is the address of a state it may allocate. */
  ghost function Stepped(s: Sys, t: nat, ref: nat): Sys
    requires Linked(s, t) && Enabled(s, t)
    requires Allocated(s)
  {
    var th := s.threads[t];
    match th.phase
    case InMu(k) =>
      var id := th.ids[k];
      if id in s.registry then Join(s, t, k, s.registry[id]) else Create(s, t, k, ref)
    case Created(k) => Publish(s, t, k)
    case WantGate(k) => Enter(s, t, k, th.refs[k])
    case EndUnlock(k) => Unlock(s, t, k, th.refs[k])
    case EndInMu(k) => Leave(s, t, k, th.refs[k])
    case _ => PlainMove(s, t)
  }

  ghost predicate CanStep(s: Sys, t: nat) {
    Linked(s, t) && Enabled(s, t) && Allocated(s)
  }

  ghost predicate StepOf(s: Sys, s': Sys, t: nat) {
    CanStep(s, t) && exists ref :: ref !in s.gates && s' == Stepped(s, t, ref)
  }

  /** A new request: a mutation of the given ids, or a clear or cleanup. */
  ghost predicate Arrive(s: Sys, s': Sys) {
    exists t: nat, th: Thread :: t !in s.threads
      && (th.phase == WantRead || (th.phase == WantWrite && th.ids == []))
      && Ascending(th.ids) && th.refs == [] && th.overlapped == []
      && s' == s.(threads := s.threads[t := th])
  }

  ghost predicate Init(s: Sys) {
    s == Sys(map[], map[], map[], None, {}, None)
  }

  ghost predicate Step(s: Sys, s': Sys) {
    Arrive(s, s') || ThreadStep(s, s')
  }

  ghost predicate ThreadStep(s: Sys, s': Sys) {
    exists t: nat :: StepOf(s, s', t)
  }

  ghost predicate IsGateRun(run: seq<Sys>) {
    && |run| >= 1 && Init(run[0])
    && forall i | 0 <= i < |run| - 1 :: Step(run[i], run[i + 1])
  }

  // ----- the invariant -----

  ghost function Users(s: Sys, ref: nat): set<nat> {
    set t: nat | t in s.threads && ref in s.threads[t].refs
  }

  /** A state in use is the one the registry has for its id, unless it is still being created. */
  ghost predicate Registered(s: Sys, t: nat)
    requires Linked(s, t)
  {
    var th := s.threads[t];
    forall j | 0 <= j < |th.refs| ::
      if th.phase == Created(j) then th.ids[j] !in s.registry
      else th.ids[j] in s.registry && s.registry[th.ids[j]] == th.refs[j]
  }

  ghost predicate RegistryOk(s: Sys) {
    forall i | i in s.registry ::
      s.registry[i] in s.gates && s.gates[s.registry[i]].id == i && s.gates[s.registry[i]].active > 0
  }

  ghost predicate ActiveOk(s: Sys) {
    forall r | r in s.gates :: s.gates[r].active == |Users(s, r)|
  }

  ghost predicate HoldsRef(th: Thread, ref: nat) {
    exists j :: 0 <= j < Held(th.phase, |th.ids|) && j < |th.refs| && th.refs[j] == ref
  }

  ghost predicate HoldersOk(s: Sys) {
    forall r | r in s.gates ::
      && (s.gates[r].holder.Some? ==> s.gates[r].holder.value in s.threads)
      && forall t | t in s.threads :: s.gates[r].holder == Some(t) <==> HoldsRef(s.threads[t], r)
  }

  ghost predicate HasEntered(th: Thread, id: int) {
    exists j :: 0 <= j < Entered(th.phase, |th.ids|) && j < |th.ids| && th.ids[j] == id
  }

  ghost predicate EntriesOk(s: Sys) {
    && (forall r | r in s.gates :: s.gates[r].entries != [])
    && (forall r, t | r in s.gates && t in s.gates[r].entries ::
        t in s.threads && HasEntered(s.threads[t], s.gates[r].id))
    && (forall r | r in s.gates && s.gates[r].holder.Some? ::
          s.gates[r].entries != [] && s.gates[r].entries[|s.gates[r].entries| - 1] == s.gates[r].holder.value)
  }

  /** A thread was told it did not overlap exactly if it was the first through the gate. */
  ghost predicate ToldRight(s: Sys, t: nat)
    requires Linked(s, t)
  {
    var th := s.threads[t];
    forall j | 0 <= j < |th.refs| ::
      s.gates[th.refs[j]].entries != [] && (!th.overlapped[j] <==> s.gates[th.refs[j]].entries[0] == t)
  }

  ghost predicate MuOk(s: Sys) {
    && (s.mu.Some? ==> s.mu.value in s.threads)
    && forall t | t in s.threads :: s.mu == Some(t) <==> InMutex(s.threads[t].phase)
  }

  ghost predicate OuterOk(s: Sys) {
    && s.readers <= s.threads.Keys
    && (s.writer.Some? ==> s.writer.value in s.threads)
    && (forall t | t in s.threads :: t in s.readers <==> Reading(s.threads[t].phase))
    && (forall t | t in s.threads ::
          s.writer == Some(t) <==> s.threads[t].phase.WritePending? || s.threads[t].phase.Writing?)
    && (forall t | t in s.threads && s.threads[t].phase.Writing? :: s.readers == {})
  }

  ghost predicate ThreadOk(s: Sys, t: nat) {
    Linked(s, t) && Registered(s, t) && ToldRight(s, t)
  }

  ghost predicate Inv(s: Sys) {
    && (forall t | t in s.threads :: ThreadOk(s, t))
    && RegistryOk(s) && ActiveOk(s) && HoldersOk(s) && EntriesOk(s)
    && MuOk(s) && OuterOk(s)
  }
  // ----- every step keeps it -----

  /** What the rest of the system must be told about thread `t` to stay as it is. */
  lemma OthersStay(s: Sys, s': Sys, t: nat, u: nat)
    requires u in s.threads && u != t && ThreadOk(s, u)
    requires s'.threads.Keys == s.threads.Keys && s'.threads[u] == s.threads[u]
    requires forall r | r in s.threads[u].refs && r in s.gates ::
               r in s'.gates && s'.gates[r].id == s.gates[r].id && s.gates[r].entries <= s'.gates[r].entries
    requires forall j | 0 <= j < |s.threads[u].refs| && j < |s.threads[u].ids| ::
               var id := s.threads[u].ids[j];
               (id in s'.registry <==> id in s.registry) && (id in s.registry ==> s'.registry[id] == s.registry[id])
    ensures ThreadOk(s', u)
  {
  }

  /** A step that touches neither states nor registry. */
  lemma QuietStep(s: Sys, s': Sys, t: nat)
    requires Inv(s) && t in s.threads && t in s'.threads
    requires s'.gates == s.gates && s'.registry == s.registry
    requires s'.threads == s.threads[t := s.threads[t].(phase := s'.threads[t].phase)]
    requires var p, p', n := s.threads[t].phase, s'.threads[t].phase, |s.threads[t].ids|;
             && Shape(s'.threads[t]) && !p.Created? && !p'.Created?
             && Held(p', n) == Held(p, n) && Entered(p', n) >= Entered(p, n)
    requires MuOk(s') && OuterOk(s')
    ensures Inv(s')
  {
    hide HoldersOk, EntriesOk, MuOk, OuterOk;
    forall u | u in s'.threads
      ensures ThreadOk(s', u)
    {
      assert ThreadOk(s, u);
    }
    hide ThreadOk;
    UsersSame(s, s', t);
    QuietHolders(s, s', t);
    QuietEntries(s, s', t);
  }

  lemma QuietHolders(s: Sys, s': Sys, t: nat)
    requires HoldersOk(s) && t in s.threads && t in s'.threads
    requires s'.gates == s.gates && s'.threads == s.threads[t := s.threads[t].(phase := s'.threads[t].phase)]
    requires Held(s'.threads[t].phase, |s.threads[t].ids|) == Held(s.threads[t].phase, |s.threads[t].ids|)
    ensures HoldersOk(s')
  {
    assert forall r :: HoldsRef(s'.threads[t], r) <==> HoldsRef(s.threads[t], r);
  }

  lemma QuietEntries(s: Sys, s': Sys, t: nat)
    requires EntriesOk(s) && t in s.threads && t in s'.threads
    requires s'.gates == s.gates && s'.threads == s.threads[t := s.threads[t].(phase := s'.threads[t].phase)]
    requires Entered(s'.threads[t].phase, |s.threads[t].ids|) >= Entered(s.threads[t].phase, |s.threads[t].ids|)
    ensures EntriesOk(s')
  {
    forall r, u | r in s'.gates && u in s'.gates[r].entries
      ensures u in s'.threads && HasEntered(s'.threads[u], s'.gates[r].id)
    {
      var id := s.gates[r].id;
      assert HasEntered(s.threads[u], id);
      var j :| 0 <= j < Entered(s.threads[u].phase, |s.threads[u].ids|) && j < |s.threads[u].ids|
          && s.threads[u].ids[j] == id;
    }
  }
  /** Counting a thread in one more state. */
  lemma UsersGrow(s: Sys, s': Sys, t: nat, ref: nat)
    requires t in s.threads && s'.threads.Keys == s.threads.Keys
    requires s'.threads == s.threads[t := s'.threads[t]] && s'.threads[t].refs == s.threads[t].refs + [ref]
    requires ref !in s.threads[t].refs
    ensures forall r | r != ref :: Users(s', r) == Users(s, r)
    ensures |Users(s', ref)| == |Users(s, ref)| + 1
  {
    forall r
      ensures Users(s', r) == if r == ref then Users(s, r) + {t} else Users(s, r)
    {
    }
  }

  /** Uncounting it from its last one. */
  lemma UsersShrink(s: Sys, s': Sys, t: nat, k: nat)
    requires Linked(s, t) && |s.threads[t].refs| == k + 1 && s'.threads.Keys == s.threads.Keys
    requires s'.threads == s.threads[t := s'.threads[t]] && s'.threads[t].refs == s.threads[t].refs[..k]
    ensures forall r | r != s.threads[t].refs[k] :: Users(s', r) == Users(s, r)
    ensures Users(s', s.threads[t].refs[k]) == Users(s, s.threads[t].refs[k]) - {t}
    ensures |Users(s', s.threads[t].refs[k])| == |Users(s, s.threads[t].refs[k])| - 1
  {
    var th := s.threads[t];
    var ref := th.refs[k];
    assert th.refs == th.refs[..k] + [ref];
    assert ref !in th.refs[..k];
    forall r
      ensures Users(s', r) == if r == ref then Users(s, r) - {t} else Users(s, r)
    {
      if r != ref {
        assert r in th.refs <==> r in th.refs[..k];
      }
    }
    assert t in Users(s, ref);
  }

  /** Somebody counted in a state for `id` finds it in the registry. */
  lemma CountedIsRegistered(s: Sys, u: nat, j: nat)
    requires u in s.threads && ThreadOk(s, u) && j < |s.threads[u].refs| && !s.threads[u].phase.Created?
    ensures j < |s.threads[u].ids| && s.threads[u].ids[j] in s.registry
    ensures s.registry[s.threads[u].ids[j]] == s.threads[u].refs[j] && u in Users(s, s.threads[u].refs[j])
  {
  }

  // ----- what one moving thread leaves as it was -----

  /** Only thread `t` moved, and only the state `ref` changed or was added. */
  ghost predicate MovesAt(s: Sys, s': Sys, t: nat, ref: nat) {
    && t in s.threads && t in s'.threads
    && s'.threads == s.threads[t := s'.threads[t]] && s'.threads[t].ids == s.threads[t].ids
    && ref in s'.gates && s'.gates == s.gates[ref := s'.gates[ref]]
    && (ref in s.gates ==> s'.gates[ref].id == s.gates[ref].id)
  }

  lemma EntriesAfter(s: Sys, s': Sys, t: nat, ref: nat)
    requires EntriesOk(s) && MovesAt(s, s', t, ref)
    requires Entered(s'.threads[t].phase, |s.threads[t].ids|) >= Entered(s.threads[t].phase, |s.threads[t].ids|)
    requires var g' := s'.gates[ref];
             || (ref in s.gates && g'.entries == s.gates[ref].entries
                 && (g'.holder == None || g'.holder == s.gates[ref].holder))
             || (g'.entries == (if ref in s.gates then s.gates[ref].entries else []) + [t] && g'.holder == Some(t)
                 && HasEntered(s'.threads[t], g'.id))
    ensures EntriesOk(s')
  {
    forall r, u | r in s'.gates && u in s'.gates[r].entries
      ensures u in s'.threads && HasEntered(s'.threads[u], s'.gates[r].id)
    {
      if r in s.gates && u in s.gates[r].entries {
      }
    }
  }

  lemma LocksAfter(s: Sys, s': Sys, t: nat)
    requires MuOk(s) && OuterOk(s) && t in s.threads && t in s'.threads && s'.threads == s.threads[t := s'.threads[t]]
    requires var p, p' := s.threads[t].phase, s'.threads[t].phase;
             && Reading(p) && Reading(p') && s'.readers == s.readers && s'.writer == s.writer
             && (InMutex(p') && !InMutex(p) ==> s.mu.None?)
             && s'.mu == if InMutex(p') == InMutex(p) then s.mu else if InMutex(p') then Some(t) else None
    ensures MuOk(s') && OuterOk(s')
  {
  }

  lemma UsersSame(s: Sys, s': Sys, t: nat)
    requires t in s.threads && t in s'.threads && s'.threads == s.threads[t := s'.threads[t]]
    requires s'.threads[t].refs == s.threads[t].refs
    ensures forall r :: Users(s', r) == Users(s, r)
  {
    forall r
      ensures Users(s', r) == Users(s, r)
    {
    }
  }

  lemma HoldsPrefix(th: Thread, th': Thread, ref: nat)
    requires Held(th'.phase, |th'.ids|) == Held(th.phase, |th.ids|) <= |th.refs|
    requires |th'.refs| >= Held(th.phase, |th.ids|)
    requires th.refs <= th'.refs || th'.refs <= th.refs
    ensures HoldsRef(th', ref) <==> HoldsRef(th, ref)
  {
    if HoldsRef(th, ref) {
      var j :| 0 <= j < Held(th.phase, |th.ids|) && j < |th.refs| && th.refs[j] == ref;
      assert th'.refs[j] == ref;
    }
    if HoldsRef(th', ref) {
      var j :| 0 <= j < Held(th.phase, |th.ids|) && j < |th'.refs| && th'.refs[j] == ref;
      assert th.refs[j] == ref;
    }
  }

  // ----- creating and publishing a state -----

  lemma CreateStep(s: Sys, t: nat, ref: nat)
    requires Inv(s) && t in s.threads && s.threads[t].phase.InMu? && ref !in s.gates
    requires s.threads[t].phase.k < |s.threads[t].ids| && s.threads[t].ids[s.threads[t].phase.k] !in s.registry
    ensures Inv(Create(s, t, s.threads[t].phase.k, ref))
  {
    hide ThreadOk, RegistryOk, ActiveOk, HoldersOk, EntriesOk, MuOk, OuterOk;
    var k := s.threads[t].phase.k;
    var s' := Create(s, t, k, ref);
    assert s'.threads[t].ids[k] == s'.gates[ref].id && HasEntered(s'.threads[t], s'.gates[ref].id);
    CreateThreads(s, t, k, ref);
    CreateCounts(s, t, k, ref);
    CreateHolders(s, t, k, ref);
    EntriesAfter(s, s', t, ref);
    LocksAfter(s, s', t);
  }

  /** Nobody is counted in a state that does not exist. */
  lemma NewIsUnused(s: Sys, ref: nat)
    requires forall t | t in s.threads :: ThreadOk(s, t)
    requires ref !in s.gates
    ensures forall u | u in s.threads :: ref !in s.threads[u].refs
  {
    forall u | u in s.threads
      ensures ref !in s.threads[u].refs
    {
      assert ThreadOk(s, u);
    }
  }

  lemma CreateThreads(s: Sys, t: nat, k: nat, ref: nat)
    requires forall u | u in s.threads :: ThreadOk(s, u)
    requires t in s.threads && s.threads[t].phase == InMu(k) && ref !in s.gates
    requires k < |s.threads[t].ids| && s.threads[t].ids[k] !in s.registry
    ensures var s' := Create(s, t, k, ref); forall u | u in s'.threads :: ThreadOk(s', u)
  {
    var s' := Create(s, t, k, ref);
    CreateSelf(s, t, k, ref);
    hide ThreadOk;
    forall u | u in s.threads && u != t
      ensures ThreadOk(s', u)
    {
      OthersStay(s, s', t, u);
    }
  }

  lemma CreateSelf(s: Sys, t: nat, k: nat, ref: nat)
    requires t in s.threads && ThreadOk(s, t) && s.threads[t].phase == InMu(k) && ref !in s.gates
    requires k < |s.threads[t].ids| && s.threads[t].ids[k] !in s.registry
    ensures ThreadOk(Create(s, t, k, ref), t)
  {
  }

  lemma CreateCounts(s: Sys, t: nat, k: nat, ref: nat)
    requires forall u | u in s.threads :: ThreadOk(s, u)
    requires t in s.threads && ref !in s.gates && k < |s.threads[t].ids| && RegistryOk(s) && ActiveOk(s)
    ensures RegistryOk(Create(s, t, k, ref)) && ActiveOk(Create(s, t, k, ref))
  {
    NewIsUnused(s, ref);
    hide ThreadOk;
    assert Users(s, ref) == {};
    UsersGrow(s, Create(s, t, k, ref), t, ref);
  }

  lemma CreateHolders(s: Sys, t: nat, k: nat, ref: nat)
    requires forall u | u in s.threads :: ThreadOk(s, u)
    requires HoldersOk(s) && t in s.threads && s.threads[t].phase == InMu(k) && ref !in s.gates
    requires k < |s.threads[t].ids|
    ensures HoldersOk(Create(s, t, k, ref))
  {
    var s' := Create(s, t, k, ref);
    NewIsUnused(s, ref);
    assert ThreadOk(s, t);
    HoldsOneMore(s.threads[t], s'.threads[t], k, ref);
    hide ThreadOk, HoldersOk;
  }

  lemma HoldsOneMore(th: Thread, th': Thread, k: nat, ref: nat)
    requires Held(th.phase, |th.ids|) == k && Held(th'.phase, |th'.ids|) == k + 1
    requires |th.refs| >= k && |th'.refs| >= k + 1 && th'.refs[..k] == th.refs[..k] && th'.refs[k] == ref
    ensures HoldsRef(th', ref)
    ensures forall r | r != ref :: HoldsRef(th', r) <==> HoldsRef(th, r)
  {
    assert forall j | 0 <= j < k :: th'.refs[j] == th'.refs[..k][j] == th.refs[..k][j] == th.refs[j];
    forall r | r != ref
      ensures HoldsRef(th', r) <==> HoldsRef(th, r)
    {
    }
  }

  lemma PublishStep(s: Sys, t: nat)
    requires Inv(s) && t in s.threads && s.threads[t].phase.Created?
    requires s.threads[t].phase.k < |s.threads[t].ids| && s.threads[t].phase.k < |s.threads[t].refs|
    ensures Inv(Publish(s, t, s.threads[t].phase.k))
  {
    hide RegistryOk, ActiveOk, HoldersOk, EntriesOk, MuOk, OuterOk;
    var th, k := s.threads[t], s.threads[t].phase.k;
    var s' := Publish(s, t, k);
    PublishThreads(s, t, k);
    assert ThreadOk(s, t);
    PublishCounts(s, t, k);
    QuietHolders(s, s', t);
    QuietEntries(s, s', t);
    LocksAfter(s, s', t);
  }

  lemma PublishThreads(s: Sys, t: nat, k: nat)
    requires (forall u | u in s.threads :: ThreadOk(s, u)) && MuOk(s)
    requires t in s.threads && s.threads[t].phase == Created(k)
    requires k < |s.threads[t].ids| && k < |s.threads[t].refs|
    ensures var s' := Publish(s, t, k); forall u | u in s'.threads :: ThreadOk(s', u)
  {
    var s' := Publish(s, t, k);
    PublishSelf(s, t, k);
    assert s.threads[t].ids[k] !in s.registry;
    hide ThreadOk;
    forall u | u in s.threads && u != t
      ensures ThreadOk(s', u)
    {
      forall j | 0 <= j < |s.threads[u].refs| && j < |s.threads[u].ids|
        ensures s.threads[u].ids[j] != s.threads[t].ids[k]
      {
        CountedIsRegistered(s, u, j);
      }
      OthersStay(s, s', t, u);
    }
  }

  lemma PublishSelf(s: Sys, t: nat, k: nat)
    requires t in s.threads && ThreadOk(s, t) && s.threads[t].phase == Created(k)
    requires k < |s.threads[t].ids| && k < |s.threads[t].refs|
    ensures ThreadOk(Publish(s, t, k), t) && s.threads[t].ids[k] !in s.registry
  {
  }

  lemma PublishCounts(s: Sys, t: nat, k: nat)
    requires Linked(s, t) && RegistryOk(s) && ActiveOk(s)
    requires k < |s.threads[t].ids| && k < |s.threads[t].refs|
    ensures RegistryOk(Publish(s, t, k)) && ActiveOk(Publish(s, t, k))
  {
    UsersSame(s, Publish(s, t, k), t);
    var ref := s.threads[t].refs[k];
    assert t in Users(s, ref);
    assert Users(s, ref) != {};
  }

  // ----- joining, entering, unlocking and leaving a state -----

  lemma JoinStep(s: Sys, t: nat)
    requires Inv(s) && t in s.threads && s.threads[t].phase.InMu?
    requires s.threads[t].phase.k < |s.threads[t].ids| && s.threads[t].ids[s.threads[t].phase.k] in s.registry
    requires s.registry[s.threads[t].ids[s.threads[t].phase.k]] in s.gates
    ensures Inv(Join(s, t, s.threads[t].phase.k, s.registry[s.threads[t].ids[s.threads[t].phase.k]]))
  {
    hide ActiveOk, HoldersOk, EntriesOk, MuOk, OuterOk;
    var k := s.threads[t].phase.k;
    var ref := s.registry[s.threads[t].ids[k]];
    var s' := Join(s, t, k, ref);
    assert ThreadOk(s, t) && s.gates[ref].id == s.threads[t].ids[k];
    JoinThreads(s, t, k, ref);
    hide ThreadOk;
    assert ref !in s.threads[t].refs;
    JoinCounts(s, t, k, ref);
    JoinHolders(s, s', t, k, ref);
    EntriesAfter(s, s', t, ref);
    LocksAfter(s, s', t);
  }

  lemma JoinThreads(s: Sys, t: nat, k: nat, ref: nat)
    requires forall u | u in s.threads :: ThreadOk(s, u)
    requires EntriesOk(s) && t in s.threads && s.threads[t].phase == InMu(k)
    requires k < |s.threads[t].ids| && s.threads[t].ids[k] in s.registry
    requires ref == s.registry[s.threads[t].ids[k]] && ref in s.gates && s.gates[ref].id == s.threads[t].ids[k]
    ensures var s' := Join(s, t, k, ref); forall u | u in s'.threads :: ThreadOk(s', u)
  {
    var s' := Join(s, t, k, ref);
    JoinSelf(s, t, k, ref);
    hide ThreadOk;
    forall u | u in s.threads && u != t
      ensures ThreadOk(s', u)
    {
      OthersStay(s, s', t, u);
    }
  }

  lemma JoinSelf(s: Sys, t: nat, k: nat, ref: nat)
    requires t in s.threads && ThreadOk(s, t) && EntriesOk(s) && s.threads[t].phase == InMu(k)
    requires k < |s.threads[t].ids| && s.threads[t].ids[k] in s.registry
    requires ref == s.registry[s.threads[t].ids[k]] && ref in s.gates && s.gates[ref].id == s.threads[t].ids[k]
    ensures ThreadOk(Join(s, t, k, ref), t)
  {
    NotFirst(s, t, k, ref);
    hide EntriesOk;
  }

  /** A thread about to be counted in a state has not been through its gate. */
  lemma NotFirst(s: Sys, t: nat, k: nat, ref: nat)
    requires EntriesOk(s) && Linked(s, t) && s.threads[t].phase == InMu(k)
    requires ref in s.gates && s.gates[ref].id == s.threads[t].ids[k]
    ensures t !in s.gates[ref].entries && s.gates[ref].entries != []
  {
    assert !HasEntered(s.threads[t], s.threads[t].ids[k]);
  }

  lemma JoinCounts(s: Sys, t: nat, k: nat, ref: nat)
    requires t in s.threads && ref in s.gates && ref !in s.threads[t].refs && RegistryOk(s) && ActiveOk(s)
    ensures RegistryOk(Join(s, t, k, ref)) && ActiveOk(Join(s, t, k, ref))
  {
    UsersGrow(s, Join(s, t, k, ref), t, ref);
  }

  lemma JoinHolders(s: Sys, s': Sys, t: nat, k: nat, ref: nat)
    requires HoldersOk(s) && Linked(s, t) && s.threads[t].phase == InMu(k) && ref in s.gates
    requires s' == Join(s, t, k, ref)
    ensures HoldersOk(s')
  {
    forall r
      ensures HoldsRef(s'.threads[t], r) <==> HoldsRef(s.threads[t], r)
    {
      HoldsPrefix(s.threads[t], s'.threads[t], r);
    }
  }

  lemma EnterStep(s: Sys, t: nat)
    requires Inv(s) && t in s.threads && s.threads[t].phase.WantGate?
    requires s.threads[t].phase.k < |s.threads[t].refs| && s.threads[t].refs[s.threads[t].phase.k] in s.gates
    requires s.gates[s.threads[t].refs[s.threads[t].phase.k]].holder.None?
    ensures Inv(Enter(s, t, s.threads[t].phase.k, s.threads[t].refs[s.threads[t].phase.k]))
  {
    hide RegistryOk, ActiveOk, HoldersOk, EntriesOk, MuOk, OuterOk;
    var k := s.threads[t].phase.k;
    var ref := s.threads[t].refs[k];
    var s' := Enter(s, t, k, ref);
    GateThreads(s, s', t, ref);
    assert ThreadOk(s, t);
    assert s'.threads[t].ids[k] == s'.gates[ref].id && HasEntered(s'.threads[t], s'.gates[ref].id);
    hide ThreadOk;
    GateCounts(s, s', t, ref);
    HoldsOneMore(s.threads[t], s'.threads[t], k, ref);
    EnterHolders(s, s', t, ref);
    EntriesAfter(s, s', t, ref);
    LocksAfter(s, s', t);
  }

  lemma EnterHolders(s: Sys, s': Sys, t: nat, ref: nat)
    requires HoldersOk(s) && MovesAt(s, s', t, ref) && ref in s.gates
    requires s.gates[ref].holder.None? && s'.gates[ref].holder == Some(t) && HoldsRef(s'.threads[t], ref)
    requires forall r | r != ref :: HoldsRef(s'.threads[t], r) <==> HoldsRef(s.threads[t], r)
    ensures HoldersOk(s')
  {
  }

  /** Locking or unlocking a gate: nobody's counts or registrations change. */
  lemma GateThreads(s: Sys, s': Sys, t: nat, ref: nat)
    requires forall u | u in s.threads :: ThreadOk(s, u)
    requires MovesAt(s, s', t, ref) && ref in s.gates && s'.registry == s.registry
    requires s'.threads[t] == s.threads[t].(phase := s'.threads[t].phase) && Shape(s'.threads[t])
    requires !s.threads[t].phase.Created? && !s'.threads[t].phase.Created?
    requires s.gates[ref].entries <= s'.gates[ref].entries && s.gates[ref].entries != []
    ensures forall u | u in s'.threads :: ThreadOk(s', u)
  {
    assert ThreadOk(s, t);
    forall u | u in s.threads && u != t
      ensures ThreadOk(s', u)
    {
      assert ThreadOk(s, u);
      OthersStay(s, s', t, u);
    }
  }

  lemma GateCounts(s: Sys, s': Sys, t: nat, ref: nat)
    requires RegistryOk(s) && ActiveOk(s) && MovesAt(s, s', t, ref) && ref in s.gates && s'.registry == s.registry
    requires s'.threads[t].refs == s.threads[t].refs && s'.gates[ref].active == s.gates[ref].active
    ensures RegistryOk(s') && ActiveOk(s')
  {
    UsersSame(s, s', t);
  }

  lemma UnlockStep(s: Sys, t: nat)
    requires Inv(s) && t in s.threads && s.threads[t].phase.EndUnlock?
    requires s.threads[t].phase.k < |s.threads[t].refs| && s.threads[t].refs[s.threads[t].phase.k] in s.gates
    ensures Inv(Unlock(s, t, s.threads[t].phase.k, s.threads[t].refs[s.threads[t].phase.k]))
  {
    hide RegistryOk, ActiveOk, HoldersOk, EntriesOk, MuOk, OuterOk;
    var k := s.threads[t].phase.k;
    var ref := s.threads[t].refs[k];
    var s' := Unlock(s, t, k, ref);
    assert ThreadOk(s, t) && Linked(s, t) && Shape(s'.threads[t]);
    hide ThreadOk, Linked, Shape;
    assert s.gates[ref].entries != [] by {
    }
    UnlockHolders(s, s', t, k, ref);
    GateThreads(s, s', t, ref);
    GateCounts(s, s', t, ref);
    EntriesAfter(s, s', t, ref);
    LocksAfter(s, s', t);
  }

  lemma UnlockHolders(s: Sys, s': Sys, t: nat, k: nat, ref: nat)
    requires HoldersOk(s) && Linked(s, t) && s.threads[t].phase == EndUnlock(k) && ref in s.gates
    requires k < |s.threads[t].refs| && s.threads[t].refs[k] == ref
    requires s' == Unlock(s, t, k, ref)
    ensures HoldersOk(s')
  {
    var th, th' := s.threads[t], s'.threads[t];
    assert !HoldsRef(th', ref);
    HoldsOneMore(th', th, k, ref);
    assert s.gates[ref].holder == Some(t);
  }

  lemma LeaveStep(s: Sys, t: nat)
    requires Inv(s) && t in s.threads && s.threads[t].phase.EndInMu? && Linked(s, t)
    ensures Inv(Leave(s, t, s.threads[t].phase.k, s.threads[t].refs[s.threads[t].phase.k]))
  {
    hide RegistryOk, ActiveOk, HoldersOk, EntriesOk, MuOk, OuterOk, ThreadOk;
    var k := s.threads[t].phase.k;
    var ref := s.threads[t].refs[k];
    var s' := Leave(s, t, k, ref);
    LeaveThreads(s, s', t, k, ref);
    LeaveCounts(s, s', t, k, ref);
    LeaveHolders(s, s', t, k, ref);
    EntriesAfter(s, s', t, ref);
    LocksAfter(s, s', t);
  }

  /** The registry entry goes only when nobody else is counted in the state. */
  lemma LeaveThreads(s: Sys, s': Sys, t: nat, k: nat, ref: nat)
    requires (forall u | u in s.threads :: ThreadOk(s, u)) && MuOk(s) && ActiveOk(s)
    requires t in s.threads && s.threads[t].phase == EndInMu(k) && Linked(s, t)
    requires ref == s.threads[t].refs[k] && s' == Leave(s, t, k, ref)
    ensures forall u | u in s'.threads :: ThreadOk(s', u)
  {
    UsersShrink(s, s', t, k);
    LeaveSelf(s, s', t, k, ref);
    assert s'.gates[ref].active == |Users(s', ref)|;
    LeaveRegistry(s, s', t, k, ref);
    CountedIsRegistered(s, t, k);
    hide ActiveOk, ThreadOk, MuOk, Leave, Users, Linked;
    forall u | u in s.threads && u != t
      ensures ThreadOk(s', u)
    {
      LeaveOther(s, s', t, u, k, ref);
    }
  }

  lemma LeaveOther(s: Sys, s': Sys, t: nat, u: nat, k: nat, ref: nat)
    requires t in s.threads && u in s.threads && u != t && ThreadOk(s, u) && !InMutex(s.threads[u].phase)
    requires k < |s.threads[t].ids| && s.threads[t].ids[k] in s.registry && s.registry[s.threads[t].ids[k]] == ref
    requires t in s'.threads && s'.threads == s.threads[t := s'.threads[t]]
    requires forall r | r in s.gates ::
             r in s'.gates && s'.gates[r].id == s.gates[r].id && s'.gates[r].entries == s.gates[r].entries
    requires forall i | i != s.threads[t].ids[k] ::
               (i in s'.registry <==> i in s.registry) && (i in s.registry ==> s'.registry[i] == s.registry[i])
    requires ref in s.threads[u].refs ==> s'.registry == s.registry
    ensures ThreadOk(s', u)
  {
    hide ThreadOk;
    forall j | 0 <= j < |s.threads[u].refs| && j < |s.threads[u].ids|
      ensures var id := s.threads[u].ids[j];
              (id in s'.registry <==> id in s.registry) && (id in s.registry ==> s'.registry[id] == s.registry[id])
    {
      CountedIsRegistered(s, u, j);
      assert s.threads[u].ids[j] == s.threads[t].ids[k] ==> ref in s.threads[u].refs;
    }
    assert s'.threads.Keys == s.threads.Keys && s'.threads[u] == s.threads[u];
    OthersStay(s, s', t, u);
  }

  lemma LeaveSelf(s: Sys, s': Sys, t: nat, k: nat, ref: nat)
    requires t in s.threads && s.threads[t].phase == EndInMu(k) && ThreadOk(s, t)
    requires ref == s.threads[t].refs[k] && s' == Leave(s, t, k, ref)
    ensures ThreadOk(s', t)
  {
  }

  lemma LeaveRegistry(s: Sys, s': Sys, t: nat, k: nat, ref: nat)
    requires Linked(s, t) && s.threads[t].phase == EndInMu(k) && ref == s.threads[t].refs[k]
    requires s' == Leave(s, t, k, ref)
    requires s'.gates[ref].active == |Users(s', ref)|
    ensures forall i | i != s.threads[t].ids[k] ::
              (i in s'.registry <==> i in s.registry) && (i in s.registry ==> s'.registry[i] == s.registry[i])
    ensures forall u | u in s.threads && u != t && ref in s.threads[u].refs :: s'.registry == s.registry
  {
    assert forall u | u in s.threads && u != t && ref in s.threads[u].refs :: u in Users(s', ref);
  }

  lemma LeaveCounts(s: Sys, s': Sys, t: nat, k: nat, ref: nat)
    requires RegistryOk(s) && ActiveOk(s)
    requires t in s.threads && s.threads[t].phase == EndInMu(k) && ThreadOk(s, t)
    requires ref == s.threads[t].refs[k] && s' == Leave(s, t, k, ref)
    ensures RegistryOk(s') && ActiveOk(s')
  {
    CountedIsRegistered(s, t, k);
    UsersShrink(s, s', t, k);
    hide ThreadOk, Linked, Shape;
  }

  lemma LeaveHolders(s: Sys, s': Sys, t: nat, k: nat, ref: nat)
    requires HoldersOk(s) && t in s.threads && s.threads[t].phase == EndInMu(k) && Linked(s, t)
    requires ref == s.threads[t].refs[k] && s' == Leave(s, t, k, ref)
    ensures HoldersOk(s')
  {
    forall r
      ensures HoldsRef(s'.threads[t], r) <==> HoldsRef(s.threads[t], r)
    {
      HoldsPrefix(s.threads[t], s'.threads[t], r);
    }
  }
  // ----- all steps -----

  lemma ArriveKeepsInv(s: Sys, s': Sys)
    requires Inv(s) && Arrive(s, s')
    ensures Inv(s')
  {
    var t: nat, th: Thread :| t !in s.threads
      && (th.phase == WantRead || (th.phase == WantWrite && th.ids == []))
      && Ascending(th.ids) && th.refs == [] && th.overlapped == []
      && s' == s.(threads := s.threads[t := th]);
    hide ThreadOk, EntriesOk, ActiveOk, MuOk, OuterOk, HoldersOk;
    ArriveThreads(s, s', t, th);
    ArriveEntries(s, s', t, th);
    ArriveLocks(s, s', t, th);
    ArriveCounts(s, s', t, th);
  }

  lemma ArriveLocks(s: Sys, s': Sys, t: nat, th: Thread)
    requires MuOk(s) && OuterOk(s) && HoldersOk(s) && t !in s.threads && s' == s.(threads := s.threads[t := th])
    requires th.phase == WantRead || th.phase == WantWrite
    ensures MuOk(s') && OuterOk(s') && HoldersOk(s')
  {
    assert forall r :: !HoldsRef(th, r);
  }

  lemma ArriveCounts(s: Sys, s': Sys, t: nat, th: Thread)
    requires ActiveOk(s) && t !in s.threads && s' == s.(threads := s.threads[t := th]) && th.refs == []
    ensures ActiveOk(s')
  {
    forall r | r in s'.gates
      ensures s'.gates[r].active == |Users(s', r)|
    {
      assert Users(s', r) == Users(s, r);
    }
  }

  lemma ArriveThreads(s: Sys, s': Sys, t: nat, th: Thread)
    requires forall u | u in s.threads :: ThreadOk(s, u)
    requires t !in s.threads && s' == s.(threads := s.threads[t := th])
    requires Shape(th) && th.refs == []
    ensures forall u | u in s'.threads :: ThreadOk(s', u)
  {
    forall u | u in s.threads
      ensures ThreadOk(s', u)
    {
      assert ThreadOk(s, u);
    }
  }

  lemma ArriveEntries(s: Sys, s': Sys, t: nat, th: Thread)
    requires EntriesOk(s) && t !in s.threads && s' == s.(threads := s.threads[t := th])
    ensures EntriesOk(s')
  {
    forall r, u | r in s'.gates && u in s'.gates[r].entries
      ensures u in s'.threads && HasEntered(s'.threads[u], s'.gates[r].id)
    {
      assert HasEntered(s.threads[u], s.gates[r].id);
    }
  }

  /** The outer lock, the registry mutex and the work in between. */
  lemma PlainStep(s: Sys, t: nat)
    requires Inv(s) && t in s.threads && Enabled(s, t) && PlainPhase(s.threads[t].phase)
    ensures Inv(PlainMove(s, t))
  {
    hide Registered, ToldRight, RegistryOk, ActiveOk, HoldersOk, EntriesOk, MuOk, OuterOk;
    var s' := PlainMove(s, t);
    assert ThreadOk(s, t) && Shape(s.threads[t]);
    PlainShape(s, t);
    PlainMutex(s, t);
    PlainOuter(s, t);
    hide ThreadOk, PlainMove, Enabled;
    QuietStep(s, s', t);
  }

  lemma PlainShape(s: Sys, t: nat)
    requires t in s.threads && Enabled(s, t) && PlainPhase(s.threads[t].phase) && Shape(s.threads[t])
    ensures var s' := PlainMove(s, t);
            && s'.gates == s.gates && s'.registry == s.registry && t in s'.threads
            && s'.threads == s.threads[t := s.threads[t].(phase := s'.threads[t].phase)]
            && var p, p', n := s.threads[t].phase, s'.threads[t].phase, |s.threads[t].ids|;
            && Shape(s'.threads[t]) && !p.Created? && !p'.Created?
            && Held(p', n) == Held(p, n) && Entered(p', n) >= Entered(p, n)
  {
  }

  lemma PlainMutex(s: Sys, t: nat)
    requires MuOk(s) && t in s.threads && Enabled(s, t) && PlainPhase(s.threads[t].phase)
    ensures MuOk(PlainMove(s, t))
  {
  }

  lemma PlainOuter(s: Sys, t: nat)
    requires OuterOk(s) && t in s.threads && Enabled(s, t) && PlainPhase(s.threads[t].phase)
    ensures OuterOk(PlainMove(s, t))
  {
    var s' := PlainMove(s, t);
    var p, p' := s.threads[t].phase, s'.threads[t].phase;
    assert s'.threads == s.threads[t := s'.threads[t]];
    assert p'.Writing? ==> s'.readers == {};
    assert s'.readers == if Reading(p') then s.readers + {t} else s.readers - {t};
    assert s'.writer == if p'.WritePending? || p'.Writing? then Some(t) else if p.Writing? then None else s.writer;
    assert Reading(p') && !Reading(p) ==> s.writer.None?;
    assert p'.WritePending? ==> s.writer.None?;
    hide PlainMove, Enabled;
  }

  lemma ThreadStepKeepsInv(s: Sys, s': Sys, t: nat)
    requires Inv(s) && StepOf(s, s', t)
    ensures Inv(s')
  {
    var ref :| ref !in s.gates && s' == Stepped(s, t, ref);
    assert ThreadOk(s, t);
    hide Inv, ThreadOk;
    var th := s.threads[t];
    match th.phase
    case InMu(k) =>
      if th.ids[k] in s.registry {
        JoinStep(s, t);
      } else {
        CreateStep(s, t, ref);
      }
    case Created(_) => PublishStep(s, t);
    case WantGate(_) => EnterStep(s, t);
    case EndUnlock(_) => UnlockStep(s, t);
    case EndInMu(_) => LeaveStep(s, t);
    case _ => PlainStep(s, t);
  }

  lemma {:induction false} RunKeepsInv(run: seq<Sys>, i: nat)
    requires IsGateRun(run) && i < |run|
    ensures Inv(run[i])
  {
    hide Inv, Arrive, StepOf;
    if i == 0 {
      InitKeepsInv(run[0]);
    } else {
      RunKeepsInv(run, i - 1);
      assert Step(run[i - 1], run[(i - 1) + 1]);
      if Arrive(run[i - 1], run[i]) {
        ArriveKeepsInv(run[i - 1], run[i]);
      } else {
        var t: nat :| StepOf(run[i - 1], run[i], t);
        ThreadStepKeepsInv(run[i - 1], run[i], t);
      }
    }
  }

  lemma InitKeepsInv(s: Sys)
    requires Init(s)
    ensures Inv(s)
  {
  }

  // ----- what every run guarantees -----

  /** The thread is past the gate of message `id` and has not unlocked it. */
  ghost predicate Inside(s: Sys, t: nat, id: int) {
    && t in s.threads
    && var th := s.threads[t];
       exists j :: 0 <= j < Held(th.phase, |th.ids|) && j < |th.ids| && th.ids[j] == id
  }

  /** At most one thread is inside the gate of a message. */
  lemma GatesExclude(run: seq<Sys>, i: nat, t: nat, u: nat, id: int)
    requires IsGateRun(run) && i < |run| && Inside(run[i], t, id) && Inside(run[i], u, id)
    ensures t == u
  {
    var s := run[i];
    RunKeepsInv(run, i);
    assert ThreadOk(s, t) && ThreadOk(s, u);
    var a, b := s.threads[t], s.threads[u];
    var j :| 0 <= j < Held(a.phase, |a.ids|) && j < |a.ids| && a.ids[j] == id;
    var k :| 0 <= k < Held(b.phase, |b.ids|) && k < |b.ids| && b.ids[k] == id;
    assert HoldsRef(a, a.refs[j]) && HoldsRef(b, b.refs[k]);
    SameMessageSameState(s, t, j, u, k);
    assert s.gates[a.refs[j]].holder == Some(t);
  }

  /** There is one live state per message, however many threads are counted in it. */
  lemma SameMessageSameState(s: Sys, t: nat, j: nat, u: nat, k: nat)
    requires MuOk(s) && t in s.threads && u in s.threads && ThreadOk(s, t) && ThreadOk(s, u)
    requires j < |s.threads[t].refs| && k < |s.threads[u].refs| && s.threads[t].ids[j] == s.threads[u].ids[k]
    ensures s.threads[t].refs[j] == s.threads[u].refs[k]
  {
    assert s.threads[t].phase.Created? && s.threads[u].phase.Created? ==> t == u;
  }

  /**
   A message has an entry in the registry exactly while some thread is counted in its state,
   leaving aside the state a thread is creating under the mutex; the entry's `active` is the
   number of those threads, so it is never zero or negative.
   */
  lemma RegistryCountsThreads(run: seq<Sys>, i: nat, id: int)
    requires IsGateRun(run) && i < |run|
    ensures var s := run[i];
            && (id in s.registry <==> exists t, j :: CountedFor(s, t, j, id))
            && (id in s.registry ==>
                  s.registry[id] in s.gates && s.gates[s.registry[id]].active == |Users(s, s.registry[id])| > 0)
  {
    var s := run[i];
    RunKeepsInv(run, i);
    hide MuOk, OuterOk, HoldersOk, EntriesOk, ToldRight;
    if id in s.registry {
      var t, j := SomebodyCounted(s, id);
    }
    forall t, j | CountedFor(s, t, j, id)
      ensures id in s.registry
    {
      assert ThreadOk(s, t);
    }
  }

  lemma SomebodyCounted(s: Sys, id: int) returns (t: nat, j: nat)
    requires RegistryOk(s) && ActiveOk(s) && id in s.registry
    requires forall u | u in s.threads :: ThreadOk(s, u)
    ensures CountedFor(s, t, j, id)
  {
    var ref := s.registry[id];
    assert Users(s, ref) != {};
    t :| t in Users(s, ref);
    assert ThreadOk(s, t);
    j :| 0 <= j < |s.threads[t].refs| && s.threads[t].refs[j] == ref;
  }

  ghost predicate CountedFor(s: Sys, t: nat, j: nat, id: int) {
    && t in s.threads && j < |s.threads[t].refs| && j < |s.threads[t].ids| && s.threads[t].ids[j] == id
    && s.threads[t].phase != Created(j)
  }

  /** Whoever was told it did not overlap was the first through the gate, and everybody else was told it did. */
  lemma NonOverlappedEntersFirst(run: seq<Sys>, i: nat, t: nat, j: nat)
    requires IsGateRun(run) && i < |run| && t in run[i].threads && j < |run[i].threads[t].refs|
    ensures var s, th := run[i], run[i].threads[t];
            && j < |th.overlapped| && th.refs[j] in s.gates && s.gates[th.refs[j]].entries != []
            && (!th.overlapped[j] <==> s.gates[th.refs[j]].entries[0] == t)
  {
    RunKeepsInv(run, i);
    assert ThreadOk(run[i], t);
  }

  /** While a clear or cleanup runs, no mutation is anywhere between its two ends of the outer lock. */
  lemma WritersExclude(run: seq<Sys>, i: nat, w: nat, t: nat)
    requires IsGateRun(run) && i < |run| && w in run[i].threads && t in run[i].threads && t != w
    requires run[i].threads[w].phase.Writing?
    ensures !Reading(run[i].threads[t].phase) && !run[i].threads[t].phase.Writing?
  {
    RunKeepsInv(run, i);
  }

  // ----- progress -----

  ghost predicate Unfinished(s: Sys, t: nat) {
    t in s.threads && !s.threads[t].phase.Finished?
  }

  ghost function Waiting(s: Sys): set<nat> {
    set t: nat | t in s.threads && s.threads[t].phase.WantGate?
  }

  /** Among threads that wait for gates one waits for the largest id. */
  lemma {:induction false} LargestWait(s: Sys, ts: set<nat>) returns (t: nat)
    requires ts != {} && ts <= s.threads.Keys
    ensures t in ts
    ensures forall u | u in ts :: WaitId(s.threads[u]) <= WaitId(s.threads[t])
  {
    var a :| a in ts;
    t := a;
    if ts != {a} {
      assert ts - {a} != {};
      var b := LargestWait(s, ts - {a});
      if WaitId(s.threads[b]) > WaitId(s.threads[a]) {
        t := b;
      }
    }
  }

  function WaitId(th: Thread): int {
    if th.phase.WantGate? && th.phase.k < |th.ids| then th.ids[th.phase.k] else 0
  }

  /** Whoever waits for the largest id waits for a thread that does not wait for a gate itself. */
  lemma BlockerIsNotWaiting(s: Sys, t: nat) returns (u: nat)
    requires (forall v | v in s.threads :: ThreadOk(s, v)) && HoldersOk(s)
    requires t in s.threads && s.threads[t].phase.WantGate? && !Enabled(s, t)
    requires forall v | v in Waiting(s) :: WaitId(s.threads[v]) <= WaitId(s.threads[t])
    ensures u in s.threads && Held(s.threads[u].phase, |s.threads[u].ids|) > 0 && !s.threads[u].phase.WantGate?
  {
    var th := s.threads[t];
    assert ThreadOk(s, t);
    var ref := th.refs[th.phase.k];
    u := s.gates[ref].holder.value;
    var other := s.threads[u];
    assert ThreadOk(s, u);
    assert HoldsRef(other, ref);
    var j :| 0 <= j < Held(other.phase, |other.ids|) && j < |other.refs| && other.refs[j] == ref;
    assert s.gates[ref].id == other.ids[j] && s.gates[ref].id == WaitId(th);
    var held := other.ids[j];
    assert other.phase.WantGate? ==> held < WaitId(other);
  }

  ghost predicate SomebodyCanStep(s: Sys) {
    exists t: nat :: t in s.threads && CanStep(s, t)
  }

  /** Never a deadlock: as long as a thread has not finished, some thread can step. */
  lemma NoDeadlock(run: seq<Sys>, i: nat, t: nat)
    requires IsGateRun(run) && i < |run| && Unfinished(run[i], t)
    ensures SomebodyCanStep(run[i])
  {
    var s := run[i];
    RunKeepsInv(run, i);
    var u;
    if s.mu.Some? {
      u := s.mu.value;
    } else if Waiting(s) != {} {
      u := SomebodyInside(s);
    } else {
      u := SomebodyOutside(s, t);
    }
    hide Inv;
  }

  /** If anybody waits for a gate, the one who waits for the largest id can enter, or its holder can move on. */
  lemma SomebodyInside(s: Sys) returns (u: nat)
    requires Inv(s) && s.mu.None? && Waiting(s) != {}
    ensures u in s.threads && Enabled(s, u)
  {
    assert forall v | v in Waiting(s) :: ThreadOk(s, v);
    u := LargestWait(s, Waiting(s));
    if !Enabled(s, u) {
      u := BlockerIsNotWaiting(s, u);
    }
  }

  /** If nobody does, only the outer lock can hold anybody up. */
  lemma SomebodyOutside(s: Sys, t: nat) returns (u: nat)
    requires MuOk(s) && OuterOk(s) && s.mu.None? && Waiting(s) == {} && Unfinished(s, t)
    ensures u in s.threads && Enabled(s, u)
  {
    assert forall v | v in s.threads :: v !in Waiting(s) && !InMutex(s.threads[v].phase);
    assert forall v | v in s.threads && Reading(s.threads[v].phase) :: Enabled(s, v);
    if s.writer.None? {
      u := t;
    } else if s.readers == {} {
      u := s.writer.value;
    } else {
      u :| u in s.readers;
    }
  }

  // ----- termination -----

  /** How many more steps a thread takes at most. */
  function Rank(th: Thread): nat {
    var n := |th.ids|;
    match th.phase
    case WantRead => 6 * n + 3
    case WantMu(k) => if k < n then 3 * n + 2 + 3 * (n - k) else 0
    case InMu(k) => if k < n then 3 * n + 1 + 3 * (n - k) else 0
    case Created(k) => if k < n then 3 * n + 3 * (n - k) else 0
    case WantGate(k) => if k < n then 3 * n + 3 * (n - k) else 0
    case Working => 3 * n + 2
    case EndUnlock(k) => 3 * k + 4
    case EndWantMu(k) => 3 * k + 3
    case EndInMu(k) => 3 * k + 2
    case WantRUnlock => 1
    case WantWrite => 3
    case WritePending => 2
    case Writing => 1
    case Finished => 0
  }

  ghost function Remaining(threads: map<nat, Thread>): nat
    decreases |threads|
  {
    if threads == map[] then 0 else
    var t :| t in threads;
    Rank(threads[t]) + Remaining(threads - {t})
  }

  lemma {:induction false} RemainingSplit(threads: map<nat, Thread>, t: nat)
    requires t in threads
    ensures Remaining(threads) == Rank(threads[t]) + Remaining(threads - {t})
    decreases |threads|
  {
    var u :| u in threads && Remaining(threads) == Rank(threads[u]) + Remaining(threads - {u});
    if u != t {
      assert |threads - {u}| < |threads| && |threads - {t}| < |threads| by {
        assert (threads - {u}).Keys == threads.Keys - {u} && (threads - {t}).Keys == threads.Keys - {t};
      }
      RemainingSplit(threads - {u}, t);
      RemainingSplit(threads - {t}, u);
      assert threads - {u} - {t} == threads - {t} - {u};
    }
  }

  lemma RankDrops(s: Sys, t: nat, ref: nat)
    requires CanStep(s, t)
    ensures var s' := Stepped(s, t, ref);
            && t in s'.threads && s'.threads == s.threads[t := s'.threads[t]]
            && Rank(s'.threads[t]) < Rank(s.threads[t])
  {
    var th, th' := s.threads[t], Stepped(s, t, ref).threads[t];
    assert Shape(th);
    NextPhase(s, t, ref);
    hide Stepped, Linked, CanStep;
    assert Rank(th') < Rank(th);
  }

  /** Where a step takes a thread. */
  lemma NextPhase(s: Sys, t: nat, ref: nat)
    requires CanStep(s, t)
    ensures var s' := Stepped(s, t, ref);
            && t in s'.threads && s'.threads == s.threads[t := s'.threads[t]]
            && s'.threads[t].ids == s.threads[t].ids
            && FollowsIn(s.threads[t].phase, s'.threads[t].phase, |s.threads[t].ids|)
  {
    if PlainPhase(s.threads[t].phase) {
      hide PlainMove;
    }
  }

  predicate FollowsIn(p: Phase, p': Phase, n: nat) {
    match p
    case WantRead => p' == if n > 0 then WantMu(0) else Working
    case WantMu(k) => p' == InMu(k)
    case InMu(k) => p' == Created(k) || p' == WantGate(k)
    case Created(k) => p' == if k + 1 < n then WantMu(k + 1) else Working
    case WantGate(k) => p' == if k + 1 < n then WantMu(k + 1) else Working
    case Working => p' == NextEnd(n)
    case EndUnlock(k) => p' == EndWantMu(k)
    case EndWantMu(k) => p' == EndInMu(k)
    case EndInMu(k) => p' == NextEnd(k)
    case WantRUnlock => p' == Finished
    case WantWrite => p' == WritePending
    case WritePending => p' == Writing
    case Writing => p' == Finished
    case Finished => false
  }

  /** Every step of a thread uses up some of what remains to be done, so without new arrivals every run ends. */
  lemma StepsRunOut(s: Sys, s': Sys, t: nat)
    requires StepOf(s, s', t)
    ensures Remaining(s'.threads) < Remaining(s.threads)
  {
    var ref :| ref !in s.gates && s' == Stepped(s, t, ref);
    RankDrops(s, t, ref);
    hide StepOf, Stepped, Rank;
    assert s'.threads - {t} == s.threads - {t};
    RemainingSplit(s.threads, t);
    RemainingSplit(s'.threads, t);
  }

  /** Where nobody can step any more, every thread has finished. */
  lemma MaximalRunsFinish(run: seq<Sys>, i: nat, t: nat)
    requires IsGateRun(run) && i < |run| && t in run[i].threads && !SomebodyCanStep(run[i])
    ensures run[i].threads[t].phase.Finished?
  {
    if Unfinished(run[i], t) {
      NoDeadlock(run, i, t);
    }
  }

  /** Without arrivals a run is no longer than the steps that remained at its start. */
  lemma {:induction false} RunsAreBounded(run: seq<Sys>, from: nat, to: nat)
    requires from <= to < |run|
    requires forall i | from <= i < to :: ThreadStep(run[i], run[i + 1])
    ensures to - from <= Remaining(run[from].threads)
    ensures to - from <= Remaining(run[from].threads) - Remaining(run[to].threads)
    decreases |run| - from
  {
    hide StepOf, Remaining;
    if from < to {
      assert ThreadStep(run[from], run[from + 1]);
      var t: nat :| StepOf(run[from], run[from + 1], t);
      StepsRunOut(run[from], run[from + 1], t);
      RunsAreBounded(run, from + 1, to);
    }
  }
}
