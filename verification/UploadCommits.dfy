/**
 Uploads against configuration publication. Admission, binding, registration and the final
 commit hold the transfer gate for reading; publishing changed resources and flagging their
 uploads holds it for writing. One step is one thing done between two lock operations.
 */
module UploadCommits {
  import opened Basics
  import opened UploadPermits

  datatype Dir = Dir(id: string, name: string, kind: string, path: string, allowUpload: bool, allowDownload: bool)

  type Resources = map<string, Dir>

  predicate SameAuthorization(a: Dir, b: Dir) {
    a.id == b.id && a.kind == b.kind && a.path == b.path && a.allowDownload == b.allowDownload
        && a.allowUpload == b.allowUpload
  }

  /** A resource under its id, or its absence. */
  predicate SameAccess(r: Resources, r': Resources, id: string) {
    if id in r then id in r' && SameAuthorization(r[id], r'[id]) else id !in r'
  }

  /** changedResourceIDs: resources that disappear or change; new ones are not among them. */
  function ChangedIds(r: Resources, r': Resources): set<string> {
    set id | id in r && (id !in r' || !SameAuthorization(r[id], r'[id]))
  }

  /** What the path resolves to may change at any time, so it is a parameter of every check. */
  function FingerprintOf(dir: Dir, canonicalPath: string): Fingerprint {
    Fingerprint(dir.id, dir.kind, canonicalPath, dir.allowUpload, dir.allowDownload)
  }

  predicate MayUpload(r: Resources, dirId: string, expected: Fingerprint, canonicalPath: string) {
    dirId in r && r[dirId].allowUpload && expected == FingerprintOf(r[dirId], canonicalPath)
  }

  datatype Request =
    | AcquirePermit(permitId: string, target: Option<Target>, ownerType: OwnerType, ownerId: string)
    | BindPermit(permitId: string, target: Option<Target>)
    | CommitFile(permitId: string, target: Option<Target>)

  datatype Target = Target(dirId: string, fingerprint: Fingerprint)

  /** A request holding the gate for reading; `seen` is the binding its permit check found. */
  datatype Reader = Reader(request: Request, configOk: bool, seen: Option<Binding>)

  /**
   `Prepared` holds the configuration write lock, `Locked` the gate for writing as well, and
   `Replaced` has switched the configuration but not yet flagged the uploads.
   */
  datatype Publisher =
    | Absent
    | Prepared(next: Resources, changed: set<string>)
    | Locked(next: Resources, changed: set<string>)
    | Replaced(changed: set<string>)

  datatype Commit = Commit(permitId: string, binding: Binding, fingerprint: Fingerprint)

  /**
   Auxiliary: `epochs` counts the changes of each resource's authorization, `used` and `bound`
   remember every permit id ever given out and what it was bound to, `commits` every commit.
   */
  datatype Sys = Sys(
    resources: Resources, limits: Limits, permits: Permits, readers: map<nat, Reader>, publisher: Publisher,
    epochs: map<string, nat>, used: set<string>, bound: map<string, Binding>, commits: seq<Commit>)

  function Epoch(s: Sys, id: string): nat {
    if id in s.epochs then s.epochs[id] else 0
  }

  ghost predicate Named(r: Resources) {
    forall id | id in r :: r[id].id == id
  }

  // ----- requests -----

  ghost predicate EnterGate(s: Sys, s': Sys) {
    exists n: nat, request: Request ::
      && n !in s.readers && !s.publisher.Locked? && !s.publisher.Replaced?
      && (request.BindPermit? || request.CommitFile? ==> request.target.Some?)
      && s' == s.(readers := s.readers[n := Reader(request, false, None)])
  }

  /** Leaving the gate, with or without having done anything. */
  ghost predicate LeaveGate(s: Sys, s': Sys) {
    exists n: nat :: n in s.readers && s' == s.(readers := s.readers - {n})
  }

  /** The request's resource may be uploaded to, as the path resolves now. */
  ghost predicate CheckConfigBy(s: Sys, s': Sys, n: nat, canonicalPath: string) {
    && n in s.readers && s.readers[n].request.target.Some?
    && MayUpload(s.resources, s.readers[n].request.target.value.dirId, s.readers[n].request.target.value.fingerprint,
        canonicalPath)
    && s' == s.(readers := s.readers[n := s.readers[n].(configOk := true)])
  }

  ghost predicate CheckConfig(s: Sys, s': Sys) {
    exists n: nat, canonicalPath: string :: CheckConfigBy(s, s', n, canonicalPath)
  }

  ghost predicate CheckPermitBy(s: Sys, s': Sys, n: nat) {
    && n in s.readers && s.readers[n].request.CommitFile? && s.readers[n].request.target.Some?
    && var q := s.readers[n].request;
    && HasBound(s.permits, q.permitId, q.target.value.dirId, q.target.value.fingerprint)
    && s' == s.(readers := s.readers[n := s.readers[n].(seen := s.permits[q.permitId].binding)])
  }

  ghost predicate CheckPermit(s: Sys, s': Sys) {
    exists n: nat :: CheckPermitBy(s, s', n)
  }

  function BindingFor(s: Sys, target: Option<Target>): Option<Binding> {
    if target.None? then None
    else Some(Binding(target.value.dirId, target.value.fingerprint, Epoch(s, target.value.dirId)))
  }

  /** Permit ids are random tokens: one is never given out twice. */
  ghost predicate AcquireBy(s: Sys, s': Sys, n: nat) {
    && n in s.readers && s.readers[n].request.AcquirePermit?
    && var q := s.readers[n].request;
    && (q.target.Some? ==> s.readers[n].configOk)
    && q.permitId !in s.used
    && s' == Acquired(s, n, q, BindingFor(s, q.target))
  }

  function Acquired(s: Sys, n: nat, q: Request, b: Option<Binding>): Sys
    requires q.AcquirePermit?
  {
    var after := TryAcquire(s.permits, q.permitId, Permit(b, q.ownerType, q.ownerId, false), s.limits).0;
    s.(permits := after, used := s.used + {q.permitId}, readers := s.readers - {n},
       bound := if q.permitId in after && b.Some? then s.bound[q.permitId := b.value] else s.bound)
  }

  ghost predicate Acquire(s: Sys, s': Sys) {
    exists n: nat :: AcquireBy(s, s', n)
  }

  ghost predicate BindBy(s: Sys, s': Sys, n: nat) {
    && n in s.readers && s.readers[n].request.BindPermit? && s.readers[n].configOk
    && s.readers[n].request.target.Some?
    && s' == Rebound(s, n, s.readers[n].request.permitId, BindingFor(s, s.readers[n].request.target).value)
  }

  function Rebound(s: Sys, n: nat, id: string, b: Binding): Sys {
    var after := Bind(s.permits, id, b, s.limits.perResource).0;
    s.(permits := after, readers := s.readers - {n}, bound := if after != s.permits then s.bound[id := b] else s.bound)
  }

  ghost predicate BindStep(s: Sys, s': Sys) {
    exists n: nat :: BindBy(s, s', n)
  }

  ghost predicate CommitStep(s: Sys, s': Sys) {
    exists n: nat :: CommitBy(s, s', n)
  }

  ghost predicate CommitBy(s: Sys, s': Sys, n: nat) {
    && n in s.readers && s.readers[n].request.CommitFile?
    && s.readers[n].configOk && s.readers[n].seen.Some? && s.readers[n].request.target.Some?
    && s' == s.(readers := s.readers - {n},
                commits := s.commits + [Commit(s.readers[n].request.permitId, s.readers[n].seen.value,
                                               s.readers[n].request.target.value.fingerprint)])
  }

  /** Releasing a permit does not take the gate. */
  ghost predicate Release(s: Sys, s': Sys) {
    exists id: string :: s' == s.(permits := s.permits - {id})
  }

  // ----- publication -----

  ghost predicate Prepare(s: Sys, s': Sys) {
    exists next: Resources :: s.publisher.Absent? && Named(next)
      && s' == s.(publisher := Prepared(next, ChangedIds(s.resources, next)))
  }

  /** Revocation or the save itself failed. */
  ghost predicate Abort(s: Sys, s': Sys) {
    (s.publisher.Prepared? || s.publisher.Locked?) && s' == s.(publisher := Absent)
  }

  ghost predicate LockGate(s: Sys, s': Sys) {
    s.publisher.Prepared? && s.readers == map[] && s' == s.(publisher := Locked(s.publisher.next, s.publisher.changed))
  }

  function NextEpochs(s: Sys, next: Resources): map<string, nat> {
    map id | id in s.epochs.Keys + s.resources.Keys + next.Keys ::
      Epoch(s, id) + if SameAccess(s.resources, next, id) then 0 else 1
  }

  ghost predicate Replace(s: Sys, s': Sys) {
    && s.publisher.Locked?
    && s' == s.(resources := s.publisher.next, publisher := Replaced(s.publisher.changed),
                epochs := NextEpochs(s, s.publisher.next))
  }

  ghost predicate FlagAndUnlock(s: Sys, s': Sys) {
    && s.publisher.Replaced?
    && s' == s.(permits := CancelByDirs(s.permits, s.publisher.changed), publisher := Absent)
  }

  ghost predicate Init(s: Sys) {
    && Named(s.resources) && s.permits == map[] && s.readers == map[] && s.publisher.Absent?
    && s.epochs == map[] && s.used == {} && s.bound == map[] && s.commits == []
  }

  ghost predicate Step(s: Sys, s': Sys) {
    || EnterGate(s, s') || LeaveGate(s, s') || CheckConfig(s, s') || CheckPermit(s, s')
    || Acquire(s, s') || BindStep(s, s') || CommitStep(s, s') || Release(s, s')
    || Prepare(s, s') || Abort(s, s') || LockGate(s, s') || Replace(s, s') || FlagAndUnlock(s, s')
  }

  ghost predicate IsUploadRun(run: seq<Sys>) {
    |run| >= 1 && Init(run[0]) && forall i | 0 <= i < |run| - 1 :: Step(run[i], run[i + 1])
  }

  // ----- the invariant -----

  function Pending(s: Sys): set<string> {
    if s.publisher.Replaced? then s.publisher.changed else {}
  }

  /** Resource, fingerprint and epoch of a binding are those of the resource now. */
  ghost predicate Current(s: Sys, b: Binding) {
    && b.dirId in s.resources && b.epoch == Epoch(s, b.dirId)
    && s.resources[b.dirId].allowUpload
    && b.fingerprint == FingerprintOf(s.resources[b.dirId], b.fingerprint.canonicalPath)
  }

  /** A permit that has not been flagged is bound to its resource as it is now. */
  ghost predicate PermitsOk(s: Sys) {
    forall id | id in s.permits && s.permits[id].binding.Some? ::
      && id in s.bound && s.bound[id] == s.permits[id].binding.value
      && (!s.permits[id].canceling && s.permits[id].binding.value.dirId !in Pending(s)
          ==> Current(s, s.permits[id].binding.value))
  }

  ghost predicate HistoryOk(s: Sys) {
    && s.permits.Keys <= s.used && s.bound.Keys <= s.used
    && (forall id | id in s.bound :: s.bound[id].epoch <= Epoch(s, s.bound[id].dirId))
    && (forall id | id in s.bound && id in s.permits :: s.permits[id].binding == Some(s.bound[id]))
  }

  ghost predicate ReaderOk(s: Sys, r: Reader) {
    && (r.request.BindPermit? || r.request.CommitFile? ==> r.request.target.Some?)
    && (r.configOk ==>
          && r.request.target.Some? && r.request.target.value.dirId in s.resources
          && s.resources[r.request.target.value.dirId].allowUpload
          && r.request.target.value.fingerprint ==
             FingerprintOf(s.resources[r.request.target.value.dirId], r.request.target.value.fingerprint.canonicalPath))
    && (r.seen.Some? ==>
          && r.request.CommitFile? && r.request.permitId in s.bound && s.bound[r.request.permitId] == r.seen.value
          && r.request.target == Some(Target(r.seen.value.dirId, r.seen.value.fingerprint))
          && Current(s, r.seen.value))
  }

  ghost predicate ReadersOk(s: Sys) {
    && (s.publisher.Locked? || s.publisher.Replaced? ==> s.readers == map[])
    && forall n | n in s.readers :: ReaderOk(s, s.readers[n])
  }

  ghost predicate PublisherOk(s: Sys) {
    && Named(s.resources)
    && (s.publisher.Prepared? || s.publisher.Locked? ==>
          Named(s.publisher.next) && s.publisher.changed == ChangedIds(s.resources, s.publisher.next))
  }

  ghost predicate Inv(s: Sys) {
    Admitted(s.permits, s.limits) && PermitsOk(s) && HistoryOk(s) && ReadersOk(s) && PublisherOk(s)
  }

  // ----- every step keeps it -----

  /** Nothing but readers, publisher and the record of commits. */
  ghost predicate SameState(s: Sys, s': Sys) {
    && s'.resources == s.resources && s'.limits == s.limits && s'.permits == s.permits && s'.epochs == s.epochs
    && s'.used == s.used && s'.bound == s.bound
  }

  lemma QuietKeeps(s: Sys, s': Sys)
    requires Inv(s) && SameState(s, s') && Pending(s') == Pending(s)
    requires ReadersOk(s') && PublisherOk(s')
    ensures Inv(s')
  {
    forall id | id in s'.permits && s'.permits[id].binding.Some?
      ensures id in s'.bound && s'.bound[id] == s'.permits[id].binding.value
      ensures !s'.permits[id].canceling && s'.permits[id].binding.value.dirId !in Pending(s')
              ==> Current(s', s'.permits[id].binding.value)
    {
      assert Current(s', s'.permits[id].binding.value) == Current(s, s.permits[id].binding.value);
    }
  }

  lemma EnterKeeps(s: Sys, s': Sys)
    requires Inv(s) && EnterGate(s, s')
    ensures Inv(s')
  {
    var n: nat, request: Request :| n !in s.readers && !s.publisher.Locked? && !s.publisher.Replaced?
      && (request.BindPermit? || request.CommitFile? ==> request.target.Some?)
      && s' == s.(readers := s.readers[n := Reader(request, false, None)]);
    forall m | m in s'.readers
      ensures ReaderOk(s', s'.readers[m])
    {
      assert m != n ==> ReaderOk(s, s.readers[m]);
    }
    QuietKeeps(s, s');
  }

  lemma LeaveKeeps(s: Sys, s': Sys)
    requires Inv(s) && LeaveGate(s, s')
    ensures Inv(s')
  {
    var n: nat :| n in s.readers && s' == s.(readers := s.readers - {n});
    forall m | m in s'.readers
      ensures ReaderOk(s', s'.readers[m])
    {
      assert ReaderOk(s, s.readers[m]);
    }
    QuietKeeps(s, s');
  }

  lemma CheckConfigKeeps(s: Sys, s': Sys)
    requires Inv(s) && CheckConfig(s, s')
    ensures Inv(s')
  {
    var n: nat, canonicalPath: string :|
      n in s.readers && s.readers[n].request.target.Some?
      && MayUpload(s.resources, s.readers[n].request.target.value.dirId, s.readers[n].request.target.value.fingerprint,
          canonicalPath)
      && s' == s.(readers := s.readers[n := s.readers[n].(configOk := true)]);
    forall m | m in s'.readers
      ensures ReaderOk(s', s'.readers[m])
    {
      assert ReaderOk(s, s.readers[m]);
    }
    QuietKeeps(s, s');
  }

  lemma CheckPermitKeeps(s: Sys, s': Sys)
    requires Inv(s) && CheckPermit(s, s')
    ensures Inv(s')
  {
    var n: nat :| n in s.readers && s.readers[n].request.CommitFile? && s.readers[n].request.target.Some?
      && HasBound(s.permits, s.readers[n].request.permitId, s.readers[n].request.target.value.dirId,
          s.readers[n].request.target.value.fingerprint)
      && s' == s.(readers := s.readers[n := s.readers[n].(seen := s.permits[s.readers[n].request.permitId].binding)]);
    assert Pending(s) == {};
    forall m | m in s'.readers
      ensures ReaderOk(s', s'.readers[m])
    {
      assert ReaderOk(s, s.readers[m]);
    }
    QuietKeeps(s, s');
  }

  lemma CommitKeeps(s: Sys, s': Sys)
    requires Inv(s) && CommitStep(s, s')
    ensures Inv(s')
  {
    var n: nat :| CommitBy(s, s', n);
    forall m | m in s'.readers
      ensures ReaderOk(s', s'.readers[m])
    {
      assert ReaderOk(s, s.readers[m]);
    }
    QuietKeeps(s, s');
  }

  /** Readers do not mind what happens to permits and to the history of other permits. */
  lemma ReadersStay(s: Sys, s': Sys)
    requires ReadersOk(s) && s'.resources == s.resources && s'.epochs == s.epochs && s'.publisher == s.publisher
    requires forall n | n in s'.readers :: n in s.readers && s'.readers[n] == s.readers[n]
    requires forall id | id in s.bound :: id in s'.bound && s'.bound[id] == s.bound[id]
    ensures ReadersOk(s')
  {
    forall n | n in s'.readers
      ensures ReaderOk(s', s'.readers[n])
    {
      assert ReaderOk(s, s.readers[n]);
    }
    if s'.publisher.Locked? || s'.publisher.Replaced? {
      assert s'.readers == map[];
    }
  }

  lemma AcquireKeeps(s: Sys, s': Sys, n: nat)
    requires Inv(s) && AcquireBy(s, s', n)
    ensures Inv(s')
  {
    var q := s.readers[n].request;
    var b := BindingFor(s, q.target);
    assert ReaderOk(s, s.readers[n]) && Pending(s) == {};
    assert b.Some? ==> Current(s, b.value);
    AcquireAdmits(s.permits, q.permitId, Permit(b, q.ownerType, q.ownerId, false), s.limits);
    hide Admitted, ReaderOk, Current, PermitsOk;
    ReadersStay(s, s');
    hide ReadersOk;
    BoundStays(s, s', q.permitId, b);
  }

  /** One permit more, or newly bound, to a resource as it is now. */
  lemma BoundStays(s: Sys, s': Sys, id: string, b: Option<Binding>)
    requires PermitsOk(s) && HistoryOk(s) && PublisherOk(s)
    requires s'.resources == s.resources && s'.epochs == s.epochs && s'.publisher == s.publisher && Pending(s) == {}
    requires s'.used == s.used + {id} && id !in s.bound
    requires (s'.permits == s.permits && s'.bound == s.bound)
          || (id in s'.permits && s'.permits == s.permits[id := s'.permits[id]] && s'.permits[id].binding == b
              && s'.bound == if b.Some? then s.bound[id := b.value] else s.bound)
    requires b.Some? ==> Current(s, b.value)
    ensures PermitsOk(s') && HistoryOk(s') && PublisherOk(s')
  {
    forall x | x in s'.permits && s'.permits[x].binding.Some?
      ensures x in s'.bound && s'.bound[x] == s'.permits[x].binding.value
      ensures !s'.permits[x].canceling ==> Current(s', s'.permits[x].binding.value)
    {
      assert x in s.permits && x != id && !s.permits[x].canceling ==> Current(s, s.permits[x].binding.value);
    }
  }

  lemma BindShape(permits: Permits, id: string, b: Binding, perResource: int)
    ensures var after := Bind(permits, id, b, perResource).0;
            after == permits || (id in permits && permits[id].binding.None?
                && after == permits[id := permits[id].(binding := Some(b))])
  {
  }

  lemma BindKeeps(s: Sys, s': Sys, n: nat)
    requires Inv(s) && BindBy(s, s', n)
    ensures Inv(s')
  {
    hide Admitted, PermitsOk, HistoryOk, PublisherOk, ReadersOk, Bind;
    var id, b := s.readers[n].request.permitId, BindingFor(s, s.readers[n].request.target).value;
    BindFacts(s, n, id, b);
    BindAdmits(s.permits, id, b, s.limits);
    BindShape(s.permits, id, b, s.limits.perResource);
    if s'.permits == s.permits {
      LeaveKeeps(s, s');
    } else {
      hide Inv;
      NewlyBound(s, s', n, id, b);
    }
  }

  lemma NewlyBound(s: Sys, s': Sys, n: nat, id: string, b: Binding)
    requires Inv(s) && Pending(s) == {} && Current(s, b) && Admitted(s'.permits, s.limits)
    requires id in s.permits && s.permits[id].binding.None? && id !in s.bound && id in s.used
    requires s' == s.(permits := s.permits[id := s.permits[id].(binding := Some(b))], readers := s.readers - {n},
                      bound := s.bound[id := b])
    ensures Inv(s')
  {
    hide Admitted, PermitsOk, HistoryOk, PublisherOk, ReadersOk, Current;
    ReadersStay(s, s');
    assert s'.used == s.used + {id};
    BoundStays(s, s', id, Some(b));
  }

  lemma BindFacts(s: Sys, n: nat, id: string, b: Binding)
    requires Inv(s) && n in s.readers && s.readers[n].configOk && s.readers[n].request.target.Some?
    requires BindingFor(s, s.readers[n].request.target) == Some(b)
    ensures Pending(s) == {} && Current(s, b)
    ensures id in s.permits ==> id in s.used
    ensures id in s.permits && s.permits[id].binding.None? ==> id !in s.bound
  {
    hide Admitted, PermitsOk, PublisherOk;
    assert ReaderOk(s, s.readers[n]);
  }

  lemma ReleaseKeeps(s: Sys, s': Sys)
    requires Inv(s) && Release(s, s')
    ensures Inv(s')
  {
    var id: string :| s' == s.(permits := s.permits - {id});
    ReleaseAdmits(s.permits, id, s.limits);
    ReadersStay(s, s');
    forall x | x in s'.permits && s'.permits[x].binding.Some?
      ensures x in s'.bound && s'.bound[x] == s'.permits[x].binding.value
      ensures !s'.permits[x].canceling && s'.permits[x].binding.value.dirId !in Pending(s')
              ==> Current(s', s'.permits[x].binding.value)
    {
      assert Current(s', s'.permits[x].binding.value) == Current(s, s.permits[x].binding.value);
    }
  }

  lemma PublisherMoves(s: Sys, s': Sys)
    requires Inv(s) && (Prepare(s, s') || Abort(s, s') || LockGate(s, s'))
    ensures Inv(s')
  {
    forall n | n in s'.readers
      ensures ReaderOk(s', s'.readers[n])
    {
      assert ReaderOk(s, s.readers[n]);
    }
    QuietKeeps(s, s');
  }

  /** Publishing: what changed is pending until the uploads are flagged; everything else is as before. */
  lemma ReplaceKeeps(s: Sys, s': Sys)
    requires Inv(s) && Replace(s, s')
    ensures Inv(s')
  {
    forall id | id in s'.permits && s'.permits[id].binding.Some?
      ensures id in s'.bound && s'.bound[id] == s'.permits[id].binding.value
      ensures !s'.permits[id].canceling && s'.permits[id].binding.value.dirId !in Pending(s')
              ==> Current(s', s'.permits[id].binding.value)
    {
      var b := s.permits[id].binding.value;
      if !s.permits[id].canceling && b.dirId !in s.publisher.changed {
        assert Current(s, b);
        assert SameAccess(s.resources, s.publisher.next, b.dirId);
      }
    }
    forall id | id in s'.bound
      ensures s'.bound[id].epoch <= Epoch(s', s'.bound[id].dirId)
    {
      EpochsGrow(s, s', s.bound[id].dirId);
    }
  }

  lemma EpochsGrow(s: Sys, s': Sys, id: string)
    requires s'.epochs == NextEpochs(s, s'.resources)
    ensures Epoch(s, id) <= Epoch(s', id)
    ensures Epoch(s', id) == Epoch(s, id) ==> SameAccess(s.resources, s'.resources, id)
  {
  }

  /**
   Publishing counts a change for a resource exactly if it appears, disappears, or differs in kind,
   path or one of the two permissions; its name does not matter. The resources reported as changed
   are those of them that were there before.
   */
  lemma ChangesAreCounted(s: Sys, s': Sys, id: string)
    requires Named(s.resources) && Named(s'.resources) && s'.epochs == NextEpochs(s, s'.resources)
    ensures var r, r' := s.resources, s'.resources;
            var differs := id in r && id in r' &&
              (r[id].kind != r'[id].kind || r[id].path != r'[id].path
               || r[id].allowUpload != r'[id].allowUpload || r[id].allowDownload != r'[id].allowDownload);
            && (id in ChangedIds(r, r') <==> id in r && (id !in r' || differs))
            && Epoch(s', id) == Epoch(s, id) + (if differs || (id in r) != (id in r') then 1 else 0)
  {
  }

  lemma FlagKeeps(s: Sys, s': Sys)
    requires Inv(s) && FlagAndUnlock(s, s')
    ensures Inv(s')
  {
    CancelAdmits(s.permits, s.publisher.changed, s.limits);
    forall id | id in s'.permits && s'.permits[id].binding.Some?
      ensures id in s'.bound && s'.bound[id] == s'.permits[id].binding.value
      ensures !s'.permits[id].canceling ==> Current(s', s'.permits[id].binding.value)
    {
      var b := s.permits[id].binding.value;
      assert Current(s', b) == Current(s, b);
    }
  }

  lemma StepKeepsInv(s: Sys, s': Sys)
    requires Inv(s) && Step(s, s')
    ensures Inv(s')
  {
    hide Inv;
    if EnterGate(s, s') {
      EnterKeeps(s, s');
    } else if LeaveGate(s, s') {
      LeaveKeeps(s, s');
    } else if CheckConfig(s, s') {
      CheckConfigKeeps(s, s');
    } else if CheckPermit(s, s') {
      CheckPermitKeeps(s, s');
    } else if Acquire(s, s') {
      var n: nat :| AcquireBy(s, s', n);
      AcquireKeeps(s, s', n);
    } else if BindStep(s, s') {
      var n: nat :| BindBy(s, s', n);
      BindKeeps(s, s', n);
    } else if CommitStep(s, s') {
      CommitKeeps(s, s');
    } else if Release(s, s') {
      ReleaseKeeps(s, s');
    } else if Replace(s, s') {
      ReplaceKeeps(s, s');
    } else if FlagAndUnlock(s, s') {
      FlagKeeps(s, s');
    } else {
      PublisherMoves(s, s');
    }
  }

  lemma {:induction false} RunKeepsInv(run: seq<Sys>, i: nat)
    requires IsUploadRun(run) && i < |run|
    ensures Inv(run[i])
  {
    hide Step;
    if i == 0 {
      InitKeepsInv(run[0]);
    } else {
      hide Inv;
      RunKeepsInv(run, i - 1);
      assert Step(run[i - 1], run[(i - 1) + 1]);
      StepKeepsInv(run[i - 1], run[i]);
    }
  }

  lemma InitKeepsInv(s: Sys)
    requires Init(s)
    ensures Inv(s)
  {
    assert forall d: string :: BoundTo(s.permits, d) == {};
    assert forall t: OwnerType, o: string :: Owned(s.permits, t, o) == {};
  }

  // ----- what every run guarantees -----

  /** Admission limits hold in every reachable state, with permits bound at once or later. */
  lemma LimitsAlwaysHold(run: seq<Sys>, i: nat)
    requires IsUploadRun(run) && i < |run|
    ensures Admitted(run[i].permits, run[i].limits)
  {
    RunKeepsInv(run, i);
  }

  /** What later states owe earlier ones. */
  ghost predicate Follows(s: Sys, s': Sys) {
    && (forall id | id in s.bound :: id in s'.bound && s'.bound[id] == s.bound[id])
    && (forall id: string :: Epoch(s, id) <= Epoch(s', id))
    && (forall id: string | Epoch(s', id) == Epoch(s, id) :: SameAccess(s.resources, s'.resources, id))
  }

  lemma StepFollows(s: Sys, s': Sys)
    requires Inv(s) && Step(s, s')
    ensures Follows(s, s')
  {
    hide Inv, Acquire, BindStep, Follows, Replace;
    if Replace(s, s') {
      ReplaceFollows(s, s');
    } else if Acquire(s, s') || BindStep(s, s') {
      NewBindings(s, s');
      SameFollows(s, s');
    } else if EnterGate(s, s') || LeaveGate(s, s') || CheckConfig(s, s') || CheckPermit(s, s') || CommitStep(s, s') {
      ReaderFollows(s, s');
    } else {
      hide EnterGate, LeaveGate, CheckConfig, CheckPermit, CommitStep;
      SameFollows(s, s');
    }
  }

  lemma ReaderFollows(s: Sys, s': Sys)
    requires EnterGate(s, s') || LeaveGate(s, s') || CheckConfig(s, s') || CheckPermit(s, s') || CommitStep(s, s')
    ensures Follows(s, s')
  {
    hide Follows;
    SameFollows(s, s');
  }

  lemma ReplaceFollows(s: Sys, s': Sys)
    requires Replace(s, s')
    ensures Follows(s, s')
  {
    forall id: string
      ensures Epoch(s, id) <= Epoch(s', id)
      ensures Epoch(s', id) == Epoch(s, id) ==> SameAccess(s.resources, s'.resources, id)
    {
      EpochsGrow(s, s', id);
    }
  }

  lemma SameFollows(s: Sys, s': Sys)
    requires s'.resources == s.resources && s'.epochs == s.epochs
    requires forall id | id in s.bound :: id in s'.bound && s'.bound[id] == s.bound[id]
    ensures Follows(s, s')
  {
  }

  lemma NewBindings(s: Sys, s': Sys)
    requires Inv(s) && (Acquire(s, s') || BindStep(s, s'))
    ensures forall id | id in s.bound :: id in s'.bound && s'.bound[id] == s.bound[id]
    ensures s'.resources == s.resources && s'.epochs == s.epochs
  {
    hide Admitted, PublisherOk, ReadersOk;
    if Acquire(s, s') {
      var n: nat :| AcquireBy(s, s', n);
    } else {
      var n: nat :| BindBy(s, s', n);
    }
  }

  lemma {:induction false} RunFollows(run: seq<Sys>, i: nat, j: nat)
    requires IsUploadRun(run) && i <= j < |run|
    ensures Follows(run[i], run[j])
    decreases j
  {
    if i == j {
      SameFollows(run[i], run[j]);
    } else {
      hide Follows, Inv, Step;
      RunFollows(run, i, j - 1);
      RunKeepsInv(run, j - 1);
      assert Step(run[j - 1], run[(j - 1) + 1]);
      StepFollows(run[j - 1], run[j]);
      FollowsOn(run[i], run[j - 1], run[j]);
    }
  }

  lemma FollowsOn(s: Sys, u: Sys, v: Sys)
    requires Follows(s, u) && Follows(u, v)
    ensures Follows(s, v)
  {
    forall id: string
      ensures Epoch(s, id) <= Epoch(v, id)
      ensures Epoch(v, id) == Epoch(s, id) ==> SameAccess(s.resources, v.resources, id)
    {
      assert Epoch(s, id) <= Epoch(u, id) <= Epoch(v, id);
      if Epoch(v, id) == Epoch(s, id) {
        assert SameAccess(s.resources, u.resources, id) && SameAccess(u.resources, v.resources, id);
      }
    }
  }

  /**
   A file is committed into a resource only if the resource has had the same kind, path and
   permissions in every state since the permit was bound: not merely the same at both ends, so a
   change that was published and reverted in between stops the upload as well. They are the ones the
   permit was issued for, and uploads are allowed; what the path resolves to is the same at both ends.
   */
  lemma CommitContinuity(run: seq<Sys>, i: nat, j: nat, k: nat, n: nat)
    requires IsUploadRun(run) && i <= j <= k && k + 1 < |run| && CommitBy(run[k], run[k + 1], n)
    requires var id := run[k].readers[n].request.permitId;
             id in run[i].permits && run[i].permits[id].binding.Some?
    ensures var q := run[k].readers[n].request;
            var b := run[i].permits[q.permitId].binding.value;
            && q.target == Some(Target(b.dirId, b.fingerprint))
            && b.dirId in run[k].resources && b.dirId in run[j].resources
            && var early, now := run[j].resources[b.dirId], run[k].resources[b.dirId];
               && early.kind == now.kind && early.path == now.path && early.allowDownload == now.allowDownload
               && early.allowUpload && now.allowUpload
               && b.fingerprint.id == b.dirId && b.fingerprint.kind == now.kind
               && b.fingerprint.allowUpload && b.fingerprint.allowDownload == now.allowDownload
  {
    var q := run[k].readers[n].request;
    RunKeepsInv(run, i);
    RunKeepsInv(run, k);
    assert ReaderOk(run[k], run[k].readers[n]);
    RunFollows(run, i, k);
    RunFollows(run, i, j);
    RunFollows(run, j, k);
    var b := run[i].permits[q.permitId].binding.value;
    assert run[i].bound[q.permitId] == b && run[k].bound[q.permitId] == b;
    assert b.epoch <= Epoch(run[i], b.dirId) <= Epoch(run[j], b.dirId) <= Epoch(run[k], b.dirId) == b.epoch;
    assert SameAccess(run[j].resources, run[k].resources, b.dirId);
  }

  /** The resource is there, with this kind, this path and these permissions, whatever its name. */
  ghost predicate Grants(s: Sys, d: Dir) {
    && d.id in s.resources
    && var r := s.resources[d.id];
       r.kind == d.kind && r.path == d.path && r.allowUpload == d.allowUpload && r.allowDownload == d.allowDownload
  }

  /**
   Once another value of any of them has been published, or the resource has been removed, no permit
   bound before it commits again, whether or not the change is reverted.
   */
  lemma NoCommitAfterChange(run: seq<Sys>, i: nat, j: nat, k: nat, n: nat)
    requires IsUploadRun(run) && i <= j <= k && k + 1 < |run|
    requires n in run[k].readers && run[k].readers[n].request.CommitFile?
    requires var id := run[k].readers[n].request.permitId;
             && id in run[i].permits && run[i].permits[id].binding.Some?
             && var dir := run[i].permits[id].binding.value.dirId;
                dir in run[i].resources ==> !Grants(run[j], run[i].resources[dir])
    ensures !CommitBy(run[k], run[k + 1], n)
  {
    RunKeepsInv(run, i);
    if CommitBy(run[k], run[k + 1], n) {
      CommitContinuity(run, i, i, k, n);
      CommitContinuity(run, i, j, k, n);
    }
  }

  // ----- and nothing else stops a permit -----

  /** The permit is there, bound to this resource, not told to stop and not about to be. */
  ghost predicate Stands(s: Sys, id: string, b: Binding) {
    && id in s.permits && s.permits[id].binding == Some(b)
    && !s.permits[id].canceling && b.dirId !in Pending(s)
  }

  lemma PermitStays(s: Sys, s': Sys, id: string, b: Binding)
    requires Inv(s) && Step(s, s') && Stands(s, id, b) && id in s'.permits
    requires b.dirId in s.resources && Grants(s', s.resources[b.dirId])
    ensures Stands(s', id, b)
  {
    hide Inv, EnterGate, LeaveGate, CheckConfig, CheckPermit, Acquire, BindStep, CommitStep, Prepare, Abort, LockGate;
    if Replace(s, s') {
      ReplacedSame(s, s', b.dirId);
    } else if Acquire(s, s') || BindStep(s, s') {
      BindingsStay(s, s', id);
    } else if FlagAndUnlock(s, s') || Release(s, s') {
    } else {
      OnlyGate(s, s');
    }
  }

  /** A resource published as it was is not among the changed ones. */
  lemma ReplacedSame(s: Sys, s': Sys, dirId: string)
    requires Inv(s) && Replace(s, s') && dirId in s.resources && Grants(s', s.resources[dirId])
    ensures s'.permits == s.permits && dirId !in Pending(s')
  {
  }

  lemma BindingsStay(s: Sys, s': Sys, id: string)
    requires Inv(s) && (Acquire(s, s') || BindStep(s, s')) && id in s.permits && s.permits[id].binding.Some?
    ensures id in s'.permits && s'.permits[id] == s.permits[id] && Pending(s') == Pending(s)
  {
    hide Admitted, PublisherOk, ReadersOk, PermitsOk;
    if Acquire(s, s') {
      var n: nat :| AcquireBy(s, s', n);
    } else {
      var n: nat :| BindBy(s, s', n);
    }
  }

  lemma OnlyGate(s: Sys, s': Sys)
    requires EnterGate(s, s') || LeaveGate(s, s') || CheckConfig(s, s') || CheckPermit(s, s') || CommitStep(s, s')
             || Prepare(s, s') || Abort(s, s') || LockGate(s, s')
    ensures s'.permits == s.permits && Pending(s') == Pending(s)
  {
  }

  /**
   The converse: while kind, path and permissions of its resource stay as they are, whatever else is
   published, a new name included, a permit that is not given back stands, and both checks of a
   commit pass for what it was issued for.
   */
  lemma {:induction false} UnchangedPermitStands(run: seq<Sys>, i: nat, k: nat, id: string, b: Binding)
    requires IsUploadRun(run) && i <= k < |run| && Stands(run[i], id, b) && b.dirId in run[i].resources
    requires forall j | i <= j <= k :: id in run[j].permits && Grants(run[j], run[i].resources[b.dirId])
    ensures Stands(run[k], id, b)
    ensures HasBound(run[k].permits, id, b.dirId, b.fingerprint)
    ensures MayUpload(run[k].resources, b.dirId, b.fingerprint, b.fingerprint.canonicalPath)
    decreases k
  {
    RunKeepsInv(run, k);
    hide Step;
    if i < k {
      UnchangedPermitStands(run, i, k - 1, id, b);
      RunKeepsInv(run, k - 1);
      assert Step(run[k - 1], run[(k - 1) + 1]);
      hide Inv;
      assert run[k - 1].resources[b.dirId].id == run[i].resources[b.dirId].id by {
        RunIsNamed(run, i);
        RunIsNamed(run, k - 1);
      }
      PermitStays(run[k - 1], run[k], id, b);
    }
  }

  lemma RunIsNamed(run: seq<Sys>, i: nat)
    requires IsUploadRun(run) && i < |run|
    ensures Named(run[i].resources)
  {
    RunKeepsInv(run, i);
  }
}
