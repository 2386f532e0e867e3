/**
 Runs of uploads and publications: what comes before a commit, and that both commits and their
 prevention happen.
 */
module UploadRuns {
  import opened Basics
  import opened UploadPermits
  import opened UploadCommits

  // ----- before a commit -----

  /** The request holds the gate for reading from one state of a run to another. */
  ghost predicate HoldsGate(run: seq<Sys>, m: nat, k: nat, n: nat, request: Request)
    requires k < |run|
  {
    forall j | m <= j <= k :: n in run[j].readers && run[j].readers[n].request == request
  }

  /** Every other step lets readers go and changes none. */
  lemma ReadersStay(s: Sys, s': Sys, n: nat)
    requires Step(s, s') && !EnterGate(s, s') && !CheckConfig(s, s') && !CheckPermit(s, s') && n in s'.readers
    ensures n in s.readers && s'.readers[n] == s.readers[n]
  {
    hide EnterGate, CheckConfig, CheckPermit, TryAcquire, Bind, CancelByDirs, NextEpochs, ChangedIds, Named, BindingFor;
    if Acquire(s, s') {
      var m: nat :| AcquireBy(s, s', m);
    } else if BindStep(s, s') {
      var m: nat :| BindBy(s, s', m);
    } else if CommitStep(s, s') {
      var m: nat :| CommitBy(s, s', m);
    } else if LeaveGate(s, s') {
    }
  }

  /** A reader's marks are only ever set by its own checks. */
  lemma MarksAreChecks(s: Sys, s': Sys, n: nat)
    requires Step(s, s') && n in s'.readers && (s'.readers[n].configOk || s'.readers[n].seen.Some?)
    ensures n in s.readers && s'.readers[n].request == s.readers[n].request
    ensures s'.readers[n].configOk ==> s.readers[n].configOk || exists path: string :: CheckConfigBy(s, s', n, path)
    ensures s'.readers[n].seen.Some? ==> s.readers[n].seen == s'.readers[n].seen || CheckPermitBy(s, s', n)
  {
    if EnterGate(s, s') {
      hide MayUpload, HasBound;
    } else if CheckConfig(s, s') {
      hide Step;
      var m: nat, path: string :| CheckConfigBy(s, s', m, path);
      hide MayUpload;
    } else if CheckPermit(s, s') {
      hide Step;
      var m: nat :| CheckPermitBy(s, s', m);
      hide HasBound;
    } else {
      ReadersStay(s, s', n);
      hide Step, CheckConfigBy, CheckPermitBy;
    }
  }

  lemma StartsEmpty(run: seq<Sys>)
    requires IsUploadRun(run)
    ensures run[0].readers == map[]
  {
    hide Step;
  }

  /** Where the configuration was checked, under the same hold of the gate. */
  lemma {:induction false} ConfigWasChecked(run: seq<Sys>, k: nat, n: nat) returns (m: nat, path: string)
    requires IsUploadRun(run) && k < |run| && n in run[k].readers && run[k].readers[n].configOk
    ensures m < k && CheckConfigBy(run[m], run[m + 1], n, path) && HoldsGate(run, m, k, n, run[k].readers[n].request)
  {
    hide Init, Step, CheckConfigBy, CheckPermitBy;
    StartsEmpty(run);
    assert Step(run[k - 1], run[(k - 1) + 1]);
    MarksAreChecks(run[k - 1], run[k], n);
    if run[k - 1].readers[n].configOk {
      m, path := ConfigWasChecked(run, k - 1, n);
    } else {
      m := k - 1;
      path :| CheckConfigBy(run[m], run[m + 1], n, path);
    }
  }

  /** The permit the request names is there, not told to stop, and bound as it says. */
  ghost predicate FindsPermit(s: Sys, q: Request, seen: Option<Binding>) {
    && q.CommitFile? && q.target.Some? && q.permitId in s.permits && !s.permits[q.permitId].canceling
    && s.permits[q.permitId].binding == seen && seen.Some?
    && seen.value.dirId == q.target.value.dirId && seen.value.fingerprint == q.target.value.fingerprint
  }

  lemma CheckFinds(s: Sys, s': Sys, n: nat)
    requires CheckPermitBy(s, s', n)
    ensures FindsPermit(s, s'.readers[n].request, s'.readers[n].seen)
  {
  }

  lemma {:induction false} PermitWasChecked(run: seq<Sys>, k: nat, n: nat) returns (m: nat)
    requires IsUploadRun(run) && k < |run| && n in run[k].readers && run[k].readers[n].seen.Some?
    ensures m < k && CheckPermitBy(run[m], run[m + 1], n) && HoldsGate(run, m, k, n, run[k].readers[n].request)
    ensures FindsPermit(run[m], run[k].readers[n].request, run[k].readers[n].seen)
  {
    hide Init, Step, CheckConfigBy, CheckPermitBy;
    StartsEmpty(run);
    assert Step(run[k - 1], run[(k - 1) + 1]);
    MarksAreChecks(run[k - 1], run[k], n);
    if run[k - 1].readers[n].seen == run[k].readers[n].seen {
      m := PermitWasChecked(run, k - 1, n);
    } else {
      m := k - 1;
      CheckFinds(run[m], run[k], n);
    }
  }

  /** Nothing is published while a request holds the gate. */
  lemma {:induction false} GateKeepsResources(run: seq<Sys>, m: nat, k: nat, n: nat, request: Request)
    requires IsUploadRun(run) && m <= k < |run| && HoldsGate(run, m, k, n, request)
    ensures run[m].resources == run[k].resources
    decreases k
  {
    hide Init, Step, Inv;
    if m < k {
      assert HoldsGate(run, m, k - 1, n, request);
      GateKeepsResources(run, m, k - 1, n, request);
      RunKeepsInv(run, k - 1);
      assert Step(run[k - 1], run[(k - 1) + 1]);
      assert n in run[k - 1].readers;
      ReadingKeepsResources(run[k - 1], run[k], n);
    }
  }

  lemma ReadingKeepsResources(s: Sys, s': Sys, n: nat)
    requires Inv(s) && Step(s, s') && n in s.readers
    ensures s'.resources == s.resources
  {
    assert !Replace(s, s') by {
      hide Step, ReaderOk, Admitted, PermitsOk, HistoryOk, PublisherOk, NextEpochs;
    }
    hide Inv;
    OnlyReplacing(s, s');
  }

  lemma OnlyReplacing(s: Sys, s': Sys)
    requires Step(s, s') && !Replace(s, s')
    ensures s'.resources == s.resources
  {
    hide Replace, TryAcquire, Bind, CancelByDirs, ChangedIds, Named, BindingFor, MayUpload, HasBound;
  }

  /**
   Before every commit, under the one hold of the gate it is made in, the resource was found to allow
   uploads with its path resolving to what the permit was issued for, and the permit was found bound to
   it and not told to stop; and nothing has been published since either check.
   */
  lemma CommitWasChecked(run: seq<Sys>, k: nat, n: nat) returns (m: nat, p: nat)
    requires IsUploadRun(run) && k + 1 < |run| && CommitBy(run[k], run[k + 1], n)
    ensures m < k && p < k
    ensures var q := run[k].readers[n].request;
            && FindsPermit(run[p], q, run[k].readers[n].seen) && q.CommitFile? && q.target.Some?
            && HoldsGate(run, m, k, n, q) && HoldsGate(run, p, k, n, q)
            && run[m].resources == run[k].resources == run[p].resources
            && var dirId, f := q.target.value.dirId, q.target.value.fingerprint;
            && MayUpload(run[k].resources, dirId, f, f.canonicalPath)
            && CheckConfigBy(run[m], run[m + 1], n, f.canonicalPath)
            && run[k + 1].commits == run[k].commits + [Commit(q.permitId, run[k].readers[n].seen.value, f)]
  {
    hide Init, Step, Inv, IsUploadRun, CheckPermitBy;
    var path: string;
    m, path := ConfigWasChecked(run, k, n);
    p := PermitWasChecked(run, k, n);
    GateKeepsResources(run, m, k, n, run[k].readers[n].request);
    GateKeepsResources(run, p, k, n, run[k].readers[n].request);
    assert n in run[m].readers && run[m].readers[n].request == run[k].readers[n].request;
  }

  // ----- it happens -----

  lemma Extends(run: seq<Sys>, s': Sys)
    requires IsUploadRun(run) && Step(run[|run| - 1], s')
    ensures IsUploadRun(run + [s'])
  {
    hide Init, Step;
    var longer := run + [s'];
    assert longer[0] == run[0];
    forall i | 0 <= i < |longer| - 1
      ensures Step(longer[i], longer[i + 1])
    {
      assert i < |run| - 1 ==> Step(run[i], run[i + 1]);
    }
  }

  lemma Enters(s: Sys, n: nat, request: Request) returns (s': Sys)
    requires n !in s.readers && s.publisher.Absent? && request.target.Some?
    ensures Step(s, s') && s' == s.(readers := s.readers[n := Reader(request, false, None)])
  {
    s' := s.(readers := s.readers[n := Reader(request, false, None)]);
    assert EnterGate(s, s');
  }

  lemma Checks(s: Sys, n: nat, canonicalPath: string) returns (s': Sys)
    requires n in s.readers && s.readers[n].request.target.Some?
    requires var t := s.readers[n].request.target.value; MayUpload(s.resources, t.dirId, t.fingerprint, canonicalPath)
    ensures Step(s, s') && s' == s.(readers := s.readers[n := s.readers[n].(configOk := true)])
  {
    s' := s.(readers := s.readers[n := s.readers[n].(configOk := true)]);
    assert CheckConfigBy(s, s', n, canonicalPath);
  }

  /** From the first state: a permit for the resource is issued. */
  lemma PermitRun(s: Sys, dirId: string, path: string) returns (run: seq<Sys>)
    requires Init(s) && dirId in s.resources && dirId != "" && s.resources[dirId].allowUpload
    ensures IsUploadRun(run) && run[0] == s
    ensures var f := FingerprintOf(s.resources[dirId], path);
            run[|run| - 1] == s.(permits := map["p" := Permit(Some(Binding(dirId, f, 0)), Session, "o", false)],
                                 used := {"p"}, bound := map["p" := Binding(dirId, f, 0)])
  {
    var f := FingerprintOf(s.resources[dirId], path);
    var q := AcquirePermit("p", Some(Target(dirId, f)), Session, "o");
    var s1 := Enters(s, 0, q);
    var s2 := Checks(s1, 0, path);
    var s3 := Acquires(s2, dirId, f);
    assert IsUploadRun([s]);
    hide Init, Step, MayUpload;
    run := [s];
    Extends(run, s1);
    run := run + [s1];
    Extends(run, s2);
    run := run + [s2];
    Extends(run, s3);
    run := run + [s3];
  }

  lemma Acquires(s: Sys, dirId: string, f: Fingerprint) returns (s': Sys)
    requires s.readers == map[0 := Reader(AcquirePermit("p", Some(Target(dirId, f)), Session, "o"), true, None)]
    requires s.permits == map[] && s.used == {} && s.bound == map[] && s.epochs == map[] && dirId != ""
    ensures Step(s, s')
    ensures s' == s.(permits := map["p" := Permit(Some(Binding(dirId, f, 0)), Session, "o", false)],
                     used := {"p"}, bound := map["p" := Binding(dirId, f, 0)], readers := map[])
  {
    assert BoundTo(s.permits, dirId) == {} && Owned(s.permits, Session, "o") == {};
    s' := Acquired(s, 0, s.readers[0].request, Some(Binding(dirId, f, 0)));
    assert AcquireBy(s, s', 0);
  }

  /** Its file is committed. */
  lemma CommitRun(run: seq<Sys>, b: Binding) returns (longer: seq<Sys>)
    requires IsUploadRun(run)
    requires var s := run[|run| - 1];
             && s.readers == map[] && s.publisher.Absent? && HasBound(s.permits, "p", b.dirId, b.fingerprint)
             && s.permits["p"].binding == Some(b)
                 && MayUpload(s.resources, b.dirId, b.fingerprint, b.fingerprint.canonicalPath)
    ensures IsUploadRun(longer) && longer[0] == run[0]
    ensures var s := run[|run| - 1];
            longer[|longer| - 1] == s.(commits := s.commits + [Commit("p", b, b.fingerprint)])
  {
    var s := run[|run| - 1];
    var q := CommitFile("p", Some(Target(b.dirId, b.fingerprint)));
    var s1 := Enters(s, 0, q);
    var s2 := Checks(s1, 0, b.fingerprint.canonicalPath);
    var s3 := s2.(readers := s2.readers[0 := s2.readers[0].(seen := Some(b))]);
    assert CheckPermitBy(s2, s3, 0);
    var s4 := s3.(readers := s3.readers - {0}, commits := s3.commits + [Commit("p", b, b.fingerprint)]);
    assert CommitBy(s3, s4, 0);
    longer := run;
    hide CheckConfigBy, HasBound, MayUpload;
    Extends(longer, s1);
    longer := longer + [s1];
    Extends(longer, s2);
    longer := longer + [s2];
    Extends(longer, s3);
    longer := longer + [s3];
    Extends(longer, s4);
    longer := longer + [s4];
  }

  /** A configuration is published, and the permits of what it changes are told to stop. */
  lemma PublicationRun(run: seq<Sys>, next: Resources) returns (longer: seq<Sys>)
    requires IsUploadRun(run) && Named(next)
    requires var s := run[|run| - 1]; s.readers == map[] && s.publisher.Absent?
    ensures IsUploadRun(longer) && longer[0] == run[0]
    ensures var s, after := run[|run| - 1], longer[|longer| - 1];
            && after.resources == next && after.publisher.Absent? && after.commits == s.commits
            && after.permits == CancelByDirs(s.permits, ChangedIds(s.resources, next))
  {
    var s := run[|run| - 1];
    var s1, s2, s3, s4 := Publishes(s, next);
    hide Init, Step, CancelByDirs, ChangedIds, Named;
    longer := run;
    Extends(longer, s1);
    longer := longer + [s1];
    Extends(longer, s2);
    longer := longer + [s2];
    Extends(longer, s3);
    longer := longer + [s3];
    Extends(longer, s4);
    longer := longer + [s4];
  }

  lemma Publishes(s: Sys, next: Resources) returns (s1: Sys, s2: Sys, s3: Sys, s4: Sys)
    requires s.readers == map[] && s.publisher.Absent? && Named(next)
    ensures Step(s, s1) && Step(s1, s2) && Step(s2, s3) && Step(s3, s4)
    ensures s4.resources == next && s4.publisher.Absent? && s4.commits == s.commits
    ensures s4.permits == CancelByDirs(s.permits, ChangedIds(s.resources, next))
  {
    hide CancelByDirs, NextEpochs, ChangedIds, Named;
    var changed := ChangedIds(s.resources, next);
    s1 := s.(publisher := Prepared(next, changed));
    s2 := s1.(publisher := Locked(next, changed));
    s3 := s2.(resources := next, publisher := Replaced(changed), epochs := NextEpochs(s2, next));
    s4 := s3.(permits := CancelByDirs(s3.permits, changed), publisher := Absent);
    assert Prepare(s, s1) && LockGate(s1, s2) && Replace(s2, s3) && FlagAndUnlock(s3, s4);
  }

  /**
   For every resource that allows uploads there is a run in which a file is committed into it and then
   a configuration with another path for it is published, so that the permit is told to stop.
   */
  lemma UploadCommitsThenStops(s: Sys, dirId: string, path: string, newPath: string) returns (run: seq<Sys>)
    requires Init(s) && dirId in s.resources && dirId != "" && s.resources[dirId].allowUpload
    requires s.resources[dirId].path != newPath
    ensures IsUploadRun(run) && run[0] == s
    ensures var last := run[|run| - 1];
            && last.resources == s.resources[dirId := s.resources[dirId].(path := newPath)]
            && |last.commits| == 1 && last.commits[0].permitId == "p" && last.commits[0].binding.dirId == dirId
            && "p" in last.permits && last.permits["p"].canceling
  {
    run := PermitRun(s, dirId, path);
    run := CommitRun(run, Binding(dirId, FingerprintOf(s.resources[dirId], path), 0));
    hide Step, Init;
    var next := s.resources[dirId := s.resources[dirId].(path := newPath)];
    assert dirId in ChangedIds(s.resources, next);
    run := PublicationRun(run, next);
  }
}
