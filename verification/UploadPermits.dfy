/**
 The permit registry: which uploads are admitted, to which resource each is bound, and which
 have been told to stop. An upload may be admitted before its resource is known and bound later.
 */
module UploadPermits {
  import opened Basics

  datatype OwnerType = Session | Token

  /**
   What the authorization fingerprint of a resource is computed from. The source hashes the same
   parts; here the parts stand for the hash.
   */
  datatype Fingerprint = Fingerprint(id: string, kind: string, canonicalPath: string, allowUpload: bool,
      allowDownload: bool)

  /** A permit that is not bound to a resource has neither directory nor fingerprint. */
  datatype Permit = Permit(
    binding: Option<Binding>, ownerType: OwnerType, ownerId: string, canceling: bool)

  /** `epoch` is auxiliary: how often the authorization of the resource had changed when the permit was bound. */
  datatype Binding = Binding(dirId: string, fingerprint: Fingerprint, epoch: nat)

  /** A limit that is not positive does not apply. */
  datatype Limits = Limits(global: int, perResource: int, perSession: int, perToken: int)

  datatype AdmissionError = GlobalCapacity | ScopedCapacity

  type Permits = map<string, Permit>

  predicate IsBoundTo(p: Permit, dirId: string) {
    p.binding.Some? && p.binding.value.dirId == dirId
  }

  predicate OwnedBy(p: Permit, ownerType: OwnerType, ownerId: string) {
    p.ownerType == ownerType && p.ownerId == ownerId
  }

  function BoundTo(permits: Permits, dirId: string): set<string> {
    set id | id in permits && IsBoundTo(permits[id], dirId)
  }

  function Owned(permits: Permits, ownerType: OwnerType, ownerId: string): set<string> {
    set id | id in permits && OwnedBy(permits[id], ownerType, ownerId)
  }

  /** The same counts over some of the permits. */
  function BoundAmong(permits: Permits, some: set<string>, b: Option<Binding>): set<string> {
    set id | id in some && id in permits && b.Some? && IsBoundTo(permits[id], b.value.dirId)
  }

  function OwnedAmong(permits: Permits, some: set<string>, ownerType: OwnerType, ownerId: string): set<string> {
    set id | id in some && id in permits && OwnedBy(permits[id], ownerType, ownerId)
  }

  predicate Within(count: nat, limit: int) {
    limit <= 0 || count <= limit
  }

  predicate HasRoom(count: nat, limit: int) {
    limit <= 0 || count < limit
  }

  function OwnerLimit(limits: Limits, ownerType: OwnerType): int {
    match ownerType
    case Session => limits.perSession
    case Token => limits.perToken
  }

  /** The live permits respect every limit. */
  ghost predicate Admitted(permits: Permits, limits: Limits) {
    && Within(|permits|, limits.global)
    && (forall d: string :: Within(|BoundTo(permits, d)|, limits.perResource))
    && (forall t: OwnerType, o: string :: Within(|Owned(permits, t, o)|, OwnerLimit(limits, t)))
  }

  // ----- the operations -----

  function TryAcquire(permits: Permits, id: string, p: Permit, limits: Limits): (Permits, Option<AdmissionError>) {
    if id == "" || p.ownerId == "" || (p.binding.Some? && p.binding.value.dirId == "")
        then (permits, Some(ScopedCapacity))
    else if !HasRoom(|permits|, limits.global) then (permits, Some(GlobalCapacity))
    else if p.binding.Some? && !HasRoom(|BoundTo(permits, p.binding.value.dirId)|, limits.perResource)
        then (permits, Some(ScopedCapacity))
    else if !HasRoom(|Owned(permits, p.ownerType, p.ownerId)|, OwnerLimit(limits, p.ownerType))
        then (permits, Some(ScopedCapacity))
    else (permits[id := p], None)
  }

  function Bind(permits: Permits, id: string, b: Binding, perResource: int): (Permits, Option<AdmissionError>) {
    if id !in permits || permits[id].canceling || b.dirId == "" then (permits, Some(ScopedCapacity))
    else if permits[id].binding.Some? then
      (permits, if permits[id].binding.value.dirId != b.dirId || permits[id].binding.value.fingerprint != b.fingerprint
                then Some(ScopedCapacity) else None)
    else if !HasRoom(|BoundTo(permits, b.dirId) - {id}|, perResource) then (permits, Some(ScopedCapacity))
    else (permits[id := permits[id].(binding := Some(b))], None)
  }

  predicate HasBound(permits: Permits, id: string, dirId: string, fingerprint: Fingerprint) {
    && id in permits && !permits[id].canceling && IsBoundTo(permits[id], dirId)
    && permits[id].binding.value.fingerprint == fingerprint
  }

  function CancelByDirs(permits: Permits, dirIds: set<string>): (r: Permits)
    ensures r.Keys == permits.Keys
  {
    map id | id in permits ::
      if permits[id].binding.Some? && permits[id].binding.value.dirId in dirIds
      then permits[id].(canceling := true) else permits[id]
  }

  // ----- admission limits -----

  lemma BoundToAfter(permits: Permits, id: string, p: Permit, d: string)
    ensures BoundTo(permits[id := p], d) == (BoundTo(permits, d) - {id}) + (if IsBoundTo(p, d) then {id} else {})
  {
  }

  lemma OwnedAfter(permits: Permits, id: string, p: Permit, t: OwnerType, o: string)
    ensures Owned(permits[id := p], t, o) == (Owned(permits, t, o) - {id}) + (if OwnedBy(p, t, o) then {id} else {})
  {
  }

  lemma BoundWithin(permits: Permits, id: string, p: Permit, d: string, limit: int)
    requires Within(|BoundTo(permits, d)|, limit)
    requires IsBoundTo(p, d) ==> HasRoom(|BoundTo(permits, d) - {id}|, limit)
    ensures Within(|BoundTo(permits[id := p], d)|, limit)
  {
    BoundToAfter(permits, id, p, d);
    hide BoundTo;
    SubsetCardinality(BoundTo(permits, d) - {id}, BoundTo(permits, d));
  }

  lemma OwnedWithin(permits: Permits, id: string, p: Permit, t: OwnerType, o: string, limit: int)
    requires Within(|Owned(permits, t, o)|, limit)
    requires OwnedBy(p, t, o) ==> HasRoom(|Owned(permits, t, o)|, limit) || id in Owned(permits, t, o)
    ensures Within(|Owned(permits[id := p], t, o)|, limit)
  {
    OwnedAfter(permits, id, p, t, o);
    hide Owned;
    SubsetCardinality(Owned(permits, t, o) - {id}, Owned(permits, t, o));
    if id in Owned(permits, t, o) {
      assert Owned(permits, t, o) - {id} + {id} == Owned(permits, t, o);
    }
  }

  lemma AcquireAdmits(permits: Permits, id: string, p: Permit, limits: Limits)
    requires Admitted(permits, limits) && id !in permits
    ensures Admitted(TryAcquire(permits, id, p, limits).0, limits)
  {
    hide BoundTo, Owned;
    if TryAcquire(permits, id, p, limits).1.None? {
      var after := permits[id := p];
      forall d: string
        ensures Within(|BoundTo(after, d)|, limits.perResource)
      {
        BoundWithin(permits, id, p, d, limits.perResource);
      }
      forall t: OwnerType, o: string
        ensures Within(|Owned(after, t, o)|, OwnerLimit(limits, t))
      {
        OwnedWithin(permits, id, p, t, o, OwnerLimit(limits, t));
      }
    }
  }

  lemma BindAdmits(permits: Permits, id: string, b: Binding, limits: Limits)
    requires Admitted(permits, limits)
    ensures Admitted(Bind(permits, id, b, limits.perResource).0, limits)
  {
    var after := Bind(permits, id, b, limits.perResource).0;
    if id in permits && permits[id].binding.None? && after != permits {
      var p := permits[id].(binding := Some(b));
      forall t: OwnerType, o: string
        ensures Within(|Owned(after, t, o)|, OwnerLimit(limits, t))
      {
        assert OwnedBy(p, t, o) ==> id in Owned(permits, t, o);
        OwnedWithin(permits, id, p, t, o, OwnerLimit(limits, t));
      }
      hide BoundTo, Owned;
      forall d: string
        ensures Within(|BoundTo(after, d)|, limits.perResource)
      {
        BoundWithin(permits, id, p, d, limits.perResource);
      }
    }
  }

  lemma ReleaseAdmits(permits: Permits, id: string, limits: Limits)
    requires Admitted(permits, limits)
    ensures Admitted(permits - {id}, limits)
  {
    var after := permits - {id};
    assert after.Keys == permits.Keys - {id};
    SubsetCardinality(after.Keys, permits.Keys);
    forall d: string
      ensures Within(|BoundTo(after, d)|, limits.perResource)
    {
      assert Within(|BoundTo(permits, d)|, limits.perResource);
      SubsetCardinality(BoundTo(after, d), BoundTo(permits, d));
    }
    forall t: OwnerType, o: string
      ensures Within(|Owned(after, t, o)|, OwnerLimit(limits, t))
    {
      assert Within(|Owned(permits, t, o)|, OwnerLimit(limits, t));
      SubsetCardinality(Owned(after, t, o), Owned(permits, t, o));
    }
  }

  lemma CancelAdmits(permits: Permits, dirIds: set<string>, limits: Limits)
    requires Admitted(permits, limits)
    ensures Admitted(CancelByDirs(permits, dirIds), limits)
  {
    var after := CancelByDirs(permits, dirIds);
    assert |after| == |after.Keys| && |permits| == |permits.Keys|;
    assert forall d: string :: BoundTo(after, d) == BoundTo(permits, d);
    assert forall t: OwnerType, o: string :: Owned(after, t, o) == Owned(permits, t, o);
  }

  // ----- when a permit is given -----

  /**
   A permit is given exactly if its ids are there and each positive limit still has room: the live
   permits in all, those bound to its resource, and those of its owner under the limit for its kind
   of owner. Only a full house is reported as such; a permit that is refused changes nothing.
   */
  lemma AdmissionReasons(permits: Permits, id: string, p: Permit, limits: Limits)
    ensures var (after, error) := TryAcquire(permits, id, p, limits);
            var named := id != "" && p.ownerId != "" && (p.binding.Some? ==> p.binding.value.dirId != "");
            var full := limits.global > 0 && |permits| >= limits.global;
            var same := set x | x in permits && p.binding.Some? && permits[x].binding.Some?
                                && permits[x].binding.value.dirId == p.binding.value.dirId;
            var own := set x | x in permits && permits[x].ownerType == p.ownerType && permits[x].ownerId == p.ownerId;
            var ownLimit := if p.ownerType == Session then limits.perSession else limits.perToken;
            && (error.None? <==>
                  && named && !full
                  && (p.binding.Some? && limits.perResource > 0 ==> |same| < limits.perResource)
                  && (ownLimit > 0 ==> |own| < ownLimit))
            && (error == Some(GlobalCapacity) <==> named && full)
            && after == if error.None? then permits[id := p] else permits
  {
    if p.binding.Some? {
      assert BoundTo(permits, p.binding.value.dirId)
             == set x | x in permits && p.binding.Some? && permits[x].binding.Some?
                        && permits[x].binding.value.dirId == p.binding.value.dirId;
    }
    assert Owned(permits, p.ownerType, p.ownerId)
           == set x | x in permits && permits[x].ownerType == p.ownerType && permits[x].ownerId == p.ownerId;
  }

  /**
   A permit can be bound exactly if it is live and the resource named, and it is either bound to the
   same already or not bound and the resource has room; binding the same again changes nothing.
   */
  lemma BindReasons(permits: Permits, id: string, b: Binding, perResource: int)
    ensures var (after, error) := Bind(permits, id, b, perResource);
            var others := set x | x in permits && x != id && permits[x].binding.Some?
                                  && permits[x].binding.value.dirId == b.dirId;
            && (error.None? <==>
                  && id in permits && !permits[id].canceling && b.dirId != ""
                  && match permits[id].binding
                     case Some(was) => was.dirId == b.dirId && was.fingerprint == b.fingerprint
                     case None => perResource > 0 ==> |others| < perResource)
            && (error.Some? ==> error == Some(ScopedCapacity))
            && after == (if error.None? && permits[id].binding.None?
                then permits[id := permits[id].(binding := Some(b))]
                         else permits)
  {
    assert BoundTo(permits, b.dirId) - {id}
           == set x | x in permits && x != id && permits[x].binding.Some? && permits[x].binding.value.dirId == b.dirId;
  }

  /** Telling the uploads of some resources to stop flags their permits and no other, and nothing else of them. */
  lemma CancelFlags(permits: Permits, dirIds: set<string>, id: string, dirId: string, fingerprint: Fingerprint)
    requires id in permits
    ensures var after := CancelByDirs(permits, dirIds);
            && after.Keys == permits.Keys && after[id] == permits[id].(canceling := after[id].canceling)
            && (after[id].canceling <==>
                  permits[id].canceling || (permits[id].binding.Some? && permits[id].binding.value.dirId in dirIds))
            && (HasBound(after, id, dirId, fingerprint) <==>
                  && permits[id].binding.Some? && permits[id].binding.value.dirId == dirId
                  && permits[id].binding.value.fingerprint == fingerprint
                  && !permits[id].canceling && dirId !in dirIds)
  {
  }

  // ----- the registry -----

  class TransferRegistry {
    var permits: Permits

    constructor ()
      ensures permits == map[]
    {
      permits := map[];
    }

    /** Counts the live permits by scope before admitting one more. */
    method TryAcquireUploadPermit(id: string, permit: Permit, limits: Limits) returns (error: Option<AdmissionError>)
      modifies this
      ensures (permits, error) == TryAcquire(old(permits), id, permit, limits)
    {
      if id == "" || permit.ownerId == "" || (permit.binding.Some? && permit.binding.value.dirId == "") {
        return Some(ScopedCapacity);
      }
      var global, resource, owner := CountPermits(permit);
      if limits.global > 0 && global >= limits.global {
        return Some(GlobalCapacity);
      }
      if permit.binding.Some? && limits.perResource > 0 && resource >= limits.perResource {
        return Some(ScopedCapacity);
      }
      var ownerLimit := if permit.ownerType == Session then limits.perSession else limits.perToken;
      if ownerLimit > 0 && owner >= ownerLimit {
        return Some(ScopedCapacity);
      }
      permits := permits[id := permit];
      return None;
    }

    /** The counting loop: all permits, those bound to the same resource, those of the same owner. */
    method CountPermits(permit: Permit) returns (global: nat, resource: nat, owner: nat)
      ensures global == |permits|
      ensures permit.binding.Some? ==> resource == |BoundTo(permits, permit.binding.value.dirId)|
      ensures owner == |Owned(permits, permit.ownerType, permit.ownerId)|
    {
      global, resource, owner := 0, 0, 0;
      var rest := permits.Keys;
      ghost var seen: set<string> := {};
      while rest != {}
        invariant rest + seen == permits.Keys && rest !! seen
        invariant global == |seen|
        invariant resource == |BoundAmong(permits, seen, permit.binding)|
        invariant owner == |OwnedAmong(permits, seen, permit.ownerType, permit.ownerId)|
        decreases rest
      {
        var x :| x in rest;
        CountBound(permits, seen, x, permit.binding);
        CountOwned(permits, seen, x, permit.ownerType, permit.ownerId);
        global := global + 1;
        if permit.binding.Some? && IsBoundTo(permits[x], permit.binding.value.dirId) {
          resource := resource + 1;
        }
        if OwnedBy(permits[x], permit.ownerType, permit.ownerId) {
          owner := owner + 1;
        }
        rest, seen := rest - {x}, seen + {x};
      }
      assert seen == permits.Keys;
      AllCounted(permits, permit);
    }

    method BindUploadPermit(id: string, b: Binding, perResource: int) returns (error: Option<AdmissionError>)
      modifies this
      ensures (permits, error) == Bind(old(permits), id, b, perResource)
    {
      if id !in permits || permits[id].canceling || b.dirId == "" {
        return Some(ScopedCapacity);
      }
      var permit := permits[id];
      if permit.binding.Some? {
        if permit.binding.value.dirId != b.dirId || permit.binding.value.fingerprint != b.fingerprint {
          return Some(ScopedCapacity);
        }
        return None;
      }
      var resource := CountOthers(id, b);
      if perResource > 0 && resource >= perResource {
        return Some(ScopedCapacity);
      }
      permits := permits[id := permit.(binding := Some(b))];
      return None;
    }

    method CountOthers(id: string, b: Binding) returns (resource: nat)
      ensures resource == |BoundTo(permits, b.dirId) - {id}|
    {
      resource := 0;
      var rest := permits.Keys - {id};
      ghost var seen: set<string> := {};
      while rest != {}
        invariant rest + seen == permits.Keys - {id} && rest !! seen
        invariant resource == |BoundAmong(permits, seen, Some(b))|
        decreases rest
      {
        var x :| x in rest;
        CountBound(permits, seen, x, Some(b));
        if IsBoundTo(permits[x], b.dirId) {
          resource := resource + 1;
        }
        rest, seen := rest - {x}, seen + {x};
      }
      assert BoundTo(permits, b.dirId) - {id} == BoundAmong(permits, seen, Some(b));
    }

    method ReleaseUploadPermit(id: string)
      modifies this
      ensures permits == old(permits) - {id}
      ensures forall limits :: Admitted(old(permits), limits) ==> Admitted(permits, limits)
    {
      forall limits | Admitted(permits, limits)
        ensures Admitted(permits - {id}, limits)
      {
        ReleaseAdmits(permits, id, limits);
      }
      permits := permits - {id};
    }

    method HasBoundUploadPermit(id: string, dirId: string, fingerprint: Fingerprint) returns (r: bool)
      ensures r == HasBound(permits, id, dirId, fingerprint)
    {
      r := id in permits && !permits[id].canceling && permits[id].binding.Some?
        && permits[id].binding.value.dirId == dirId && permits[id].binding.value.fingerprint == fingerprint;
    }

    /** Flags every permit bound to one of the resources. */
    method CancelUploadsByDirIDs(dirIds: set<string>)
      modifies this
      ensures permits == CancelByDirs(old(permits), dirIds)
    {
      ghost var was := permits;
      var rest := permits.Keys;
      while rest != {}
        invariant permits.Keys == was.Keys && rest <= was.Keys
        invariant forall x | x in rest :: permits[x] == was[x]
        invariant forall x | x in was && x !in rest :: permits[x] == CancelByDirs(was, dirIds)[x]
        decreases rest
      {
        var x :| x in rest;
        var permit := permits[x];
        if permit.binding.Some? && permit.binding.value.dirId in dirIds && !permit.canceling {
          permits := permits[x := permit.(canceling := true)];
        }
        rest := rest - {x};
      }
    }
  }

  lemma CountBound(permits: Permits, seen: set<string>, x: string, b: Option<Binding>)
    requires x in permits && x !in seen
    ensures |BoundAmong(permits, seen + {x}, b)| ==
            |BoundAmong(permits, seen, b)| + if b.Some? && IsBoundTo(permits[x], b.value.dirId) then 1 else 0
  {
    assert BoundAmong(permits, seen + {x}, b) ==
           BoundAmong(permits, seen, b) + if b.Some? && IsBoundTo(permits[x], b.value.dirId) then {x} else {};
  }

  lemma CountOwned(permits: Permits, seen: set<string>, x: string, t: OwnerType, o: string)
    requires x in permits && x !in seen
    ensures |OwnedAmong(permits, seen + {x}, t, o)| ==
            |OwnedAmong(permits, seen, t, o)| + if OwnedBy(permits[x], t, o) then 1 else 0
  {
    assert OwnedAmong(permits, seen + {x}, t, o) ==
           OwnedAmong(permits, seen, t, o) + if OwnedBy(permits[x], t, o) then {x} else {};
  }

  lemma AllCounted(permits: Permits, p: Permit)
    ensures p.binding.Some? ==> BoundAmong(permits, permits.Keys, p.binding) == BoundTo(permits, p.binding.value.dirId)
    ensures OwnedAmong(permits, permits.Keys, p.ownerType, p.ownerId) == Owned(permits, p.ownerType, p.ownerId)
  {
  }
}
