/**
 The ledger of public tokens: uses and upload bytes are reserved by one conditional update,
 then either settled with what was really stored or given back.
 */
module TokenLedger {
  import opened Basics

  /** `maxUses` and the upload quota apply only if positive. */
  datatype Token = Token(
    kind: string, expiresAt: Option<int>, maxUses: int, uses: int, uploadedBytes: int, revoked: bool)

  type Tokens = map<int, Token>

  datatype TokenError = NotUsable | UploadLimitExceeded

  predicate WithinQuota(bytes: int, quota: int) {
    quota <= 0 || bytes <= quota
  }

  predicate Usable(t: Token, kind: string, now: int) {
    && t.kind == kind && !t.revoked
    && (t.expiresAt.None? || t.expiresAt.value > now)
    && (t.maxUses <= 0 || t.uses < t.maxUses)
  }

  // ----- the statements -----

  function Reserve(
    tokens: Tokens, id: int, kind: string, now: int, bytes: int, quota: int)
    : (Tokens, Result<Token, TokenError>)
  {
    if id in tokens && Usable(tokens[id], kind, now) && WithinQuota(tokens[id].uploadedBytes + bytes, quota) then
      var t := tokens[id].(uses := tokens[id].uses + 1, uploadedBytes := tokens[id].uploadedBytes + bytes);
      (tokens[id := t], Success(t))
    else
      (tokens, Failure(if bytes > 0 && quota > 0 && id in tokens && tokens[id].kind == kind
          && tokens[id].uploadedBytes + bytes > quota
                       then UploadLimitExceeded else NotUsable))
  }

  /** CASE WHEN value >= amount THEN value - amount ELSE 0 END */
  function Saturating(value: int, amount: int): int {
    if value >= amount then value - amount else 0
  }

  function Release(tokens: Tokens, id: int, bytes: int): Tokens {
    if id !in tokens then tokens else
    var t := tokens[id];
    tokens[id := t.(uses := if t.uses > 0 then t.uses - 1 else 0, uploadedBytes := Saturating(t.uploadedBytes, bytes))]
  }

  function Adjust(tokens: Tokens, id: int, delta: int, quota: int): (r: (Tokens, bool))
    ensures r.0.Keys == tokens.Keys
  {
    if delta == 0 then (tokens, true)
    else if delta < 0 then
      (if id in tokens then tokens[id := tokens[id].(uploadedBytes := Saturating(tokens[id].uploadedBytes, -delta))]
          else tokens, true)
    else if id in tokens && WithinQuota(tokens[id].uploadedBytes + delta, quota) then
      (tokens[id := tokens[id].(uploadedBytes := tokens[id].uploadedBytes + delta)], true)
    else (tokens, false)
  }

  class TokenTable {
    var tokens: Tokens

    constructor ()
      ensures tokens == map[]
    {
      tokens := map[];
    }

    method ReserveTokenUse(id: int, kind: string, now: int, uploadBytes: int, uploadMaxBytes: int)
      returns (r: Result<Token, TokenError>)
      modifies this
      ensures (tokens, r) == Reserve(old(tokens), id, kind, now, uploadBytes, uploadMaxBytes)
    {
      var affected := 0;
      if id in tokens && tokens[id].kind == kind && !tokens[id].revoked
        && (tokens[id].expiresAt.None? || tokens[id].expiresAt.value > now)
        && (tokens[id].maxUses <= 0 || tokens[id].uses < tokens[id].maxUses)
        && (uploadMaxBytes <= 0 || tokens[id].uploadedBytes + uploadBytes <= uploadMaxBytes) {
        tokens := tokens[id := tokens[id].(uses := tokens[id].uses + 1,
            uploadedBytes := tokens[id].uploadedBytes + uploadBytes)];
        affected := 1;
      }
      if affected != 1 {
        if uploadBytes > 0 && uploadMaxBytes > 0 && id in tokens && tokens[id].kind == kind
          && tokens[id].uploadedBytes + uploadBytes > uploadMaxBytes {
          return Failure(UploadLimitExceeded);
        }
        return Failure(NotUsable);
      }
      return Success(tokens[id]);
    }

    method ReleaseTokenUse(id: int, uploadBytes: int)
      modifies this
      ensures tokens == Release(old(tokens), id, uploadBytes)
    {
      if id in tokens {
        var t := tokens[id];
        var uses := if t.uses > 0 then t.uses - 1 else 0;
        var uploadedBytes := if t.uploadedBytes >= uploadBytes then t.uploadedBytes - uploadBytes else 0;
        tokens := tokens[id := t.(uses := uses, uploadedBytes := uploadedBytes)];
      }
    }

    method AdjustTokenUploadedBytes(id: int, delta: int, uploadMaxBytes: int) returns (ok: bool)
      modifies this
      ensures (tokens, ok) == Adjust(old(tokens), id, delta, uploadMaxBytes)
    {
      if delta == 0 {
        return true;
      }
      if delta < 0 {
        var rollback := -delta;
        if id in tokens {
          var bytes := tokens[id].uploadedBytes;
          tokens := tokens[id := tokens[id].(uploadedBytes := if bytes >= rollback then bytes - rollback else 0)];
        }
        return true;
      }
      if id in tokens && (uploadMaxBytes <= 0 || tokens[id].uploadedBytes + delta <= uploadMaxBytes) {
        tokens := tokens[id := tokens[id].(uploadedBytes := tokens[id].uploadedBytes + delta)];
        return true;
      }
      return false;
    }
  }

  // ----- the protocol -----

  /** One use of a token: reserved for `bytes` while it is in flight, settled for them afterwards. */
  datatype Use = Use(tokenId: int, bytes: int, settled: bool)

  /** `lastId` is the AUTOINCREMENT mark of the token table; `uses` is auxiliary. */
  datatype Sys = Sys(tokens: Tokens, lastId: int, quota: int, uses: map<nat, Use>)

  function UsesOf(uses: map<nat, Use>, id: int): set<nat> {
    set n: nat | n in uses && uses[n].tokenId == id
  }

  ghost function BytesOf(uses: map<nat, Use>, id: int): int
    decreases |uses|
  {
    if uses == map[] then 0 else
    var n :| n in uses;
    (if uses[n].tokenId == id then uses[n].bytes else 0) + BytesOf(uses - {n}, id)
  }

  ghost predicate CreateToken(s: Sys, s': Sys) {
    exists kind: string, expiresAt: Option<int>, maxUses: int ::
      s' == s.(tokens := s.tokens[s.lastId + 1 := Token(kind, expiresAt, maxUses, 0, 0, false)], lastId := s.lastId + 1)
  }

  /** Revoking a token or deleting its row, whatever is in flight. */
  ghost predicate RevokeOrDelete(s: Sys, s': Sys) {
    exists id: int :: id in s.tokens
      && (s' == s.(tokens := s.tokens - {id}) || s' == s.(tokens := s.tokens[id := s.tokens[id].(revoked := true)]))
  }

  /** A use begins; a download reserves no bytes. */
  ghost predicate ReserveBy(s: Sys, s': Sys, n: nat, id: int, kind: string, now: int, bytes: int) {
    && n !in s.uses && bytes >= 0
    && var (tokens, result) := Reserve(s.tokens, id, kind, now, bytes, s.quota);
       s' == s.(tokens := tokens, uses := if result.Success? then s.uses[n := Use(id, bytes, false)] else s.uses)
  }

  ghost predicate ReserveStep(s: Sys, s': Sys) {
    exists n: nat, id: int, kind: string, now: int, bytes: int :: ReserveBy(s, s', n, id, kind, now, bytes)
  }

  /** A use that failed gives everything back. */
  ghost predicate ReleaseStep(s: Sys, s': Sys) {
    exists n: nat :: n in s.uses && !s.uses[n].settled
      && s' == s.(tokens := Release(s.tokens, s.uses[n].tokenId, s.uses[n].bytes), uses := s.uses - {n})
  }

  /**
   A use that succeeded is adjusted to what was stored; if that exceeds the quota it stays in
   flight, to be released.
   */
  ghost predicate SettleBy(s: Sys, s': Sys, n: nat, actual: int) {
    && n in s.uses && !s.uses[n].settled && actual >= 0
    && var (tokens, ok) := Adjust(s.tokens, s.uses[n].tokenId, actual - s.uses[n].bytes, s.quota);
       s' == s.(tokens := tokens, uses := if ok then s.uses[n := Use(s.uses[n].tokenId, actual, true)] else s.uses)
  }

  ghost predicate SettleStep(s: Sys, s': Sys) {
    exists n: nat, actual: int :: SettleBy(s, s', n, actual)
  }

  ghost predicate Init(s: Sys) {
    s.tokens == map[] && s.lastId == 0 && s.uses == map[]
  }

  ghost predicate Step(s: Sys, s': Sys) {
    CreateToken(s, s') || RevokeOrDelete(s, s') || ReserveStep(s, s') || ReleaseStep(s, s') || SettleStep(s, s')
  }

  ghost predicate IsLedgerRun(run: seq<Sys>) {
    |run| >= 1 && Init(run[0]) && forall i | 0 <= i < |run| - 1 :: Step(run[i], run[i + 1])
  }

  // ----- conservation -----

  ghost predicate TokenOk(s: Sys, id: int) {
    id in s.tokens ==>
      var t := s.tokens[id];
      && t.uses == |UsesOf(s.uses, id)|
      && t.uploadedBytes == BytesOf(s.uses, id)
      && (t.maxUses <= 0 || t.uses <= t.maxUses)
      && WithinQuota(t.uploadedBytes, s.quota)
  }

  ghost predicate Inv(s: Sys) {
    && (forall id | id in s.tokens :: TokenOk(s, id))
    && (forall id | id in s.tokens :: id <= s.lastId)
    && (forall n | n in s.uses :: s.uses[n].bytes >= 0 && s.uses[n].tokenId <= s.lastId)
  }

  lemma {:induction false} BytesSplit(uses: map<nat, Use>, n: nat, id: int)
    requires n in uses
    ensures BytesOf(uses, id) == (if uses[n].tokenId == id then uses[n].bytes else 0) + BytesOf(uses - {n}, id)
    decreases |uses|
  {
    var m :| m in uses && BytesOf(uses, id)
        == (if uses[m].tokenId == id then uses[m].bytes else 0) + BytesOf(uses - {m}, id);
    if m != n {
      assert (uses - {m}).Keys == uses.Keys - {m} && (uses - {n}).Keys == uses.Keys - {n};
      assert |uses - {m}| == |(uses - {m}).Keys| && |uses - {n}| == |(uses - {n}).Keys|;
      BytesSplit(uses - {m}, n, id);
      BytesSplit(uses - {n}, m, id);
      assert uses - {m} - {n} == uses - {n} - {m};
    }
  }

  lemma {:induction false} BytesNonNegative(uses: map<nat, Use>, id: int)
    requires forall n | n in uses :: uses[n].bytes >= 0
    ensures BytesOf(uses, id) >= 0
    decreases |uses|
  {
    if uses != map[] {
      var n :| n in uses && BytesOf(uses, id)
          == (if uses[n].tokenId == id then uses[n].bytes else 0) + BytesOf(uses - {n}, id);
      BytesNonNegative(uses - {n}, id);
    }
  }

  lemma {:induction false} NoBytes(uses: map<nat, Use>, id: int)
    requires forall n | n in uses :: uses[n].tokenId != id
    ensures BytesOf(uses, id) == 0 && UsesOf(uses, id) == {}
    decreases |uses|
  {
    if uses != map[] {
      var n :| n in uses && BytesOf(uses, id)
          == (if uses[n].tokenId == id then uses[n].bytes else 0) + BytesOf(uses - {n}, id);
      NoBytes(uses - {n}, id);
    }
  }

  /** Adding one use. */
  lemma UseAdded(uses: map<nat, Use>, n: nat, use: Use, id: int)
    requires n !in uses
    ensures BytesOf(uses[n := use], id) == BytesOf(uses, id) + if use.tokenId == id then use.bytes else 0
    ensures |UsesOf(uses[n := use], id)| == |UsesOf(uses, id)| + if use.tokenId == id then 1 else 0
  {
    BytesSplit(uses[n := use], n, id);
    assert uses[n := use] - {n} == uses;
    assert UsesOf(uses[n := use], id) == UsesOf(uses, id) + if use.tokenId == id then {n} else {};
  }

  /** Changing what one use of a token amounts to. */
  lemma UseChanged(uses: map<nat, Use>, n: nat, use: Use, id: int)
    requires n in uses && uses[n].tokenId == use.tokenId
    ensures BytesOf(uses[n := use], id) == BytesOf(uses, id) + if use.tokenId == id then use.bytes - uses[n].bytes
            else 0
    ensures UsesOf(uses[n := use], id) == UsesOf(uses, id)
  {
    BytesSplit(uses[n := use], n, id);
    BytesSplit(uses, n, id);
    assert uses[n := use] - {n} == uses - {n};
  }

  /** Removing one use. */
  lemma UseGoes(uses: map<nat, Use>, n: nat, id: int)
    requires n in uses
    ensures BytesOf(uses - {n}, id) == BytesOf(uses, id) - if uses[n].tokenId == id then uses[n].bytes else 0
    ensures |UsesOf(uses - {n}, id)| == |UsesOf(uses, id)| - if uses[n].tokenId == id then 1 else 0
  {
    BytesSplit(uses, n, id);
    assert UsesOf(uses, id) == UsesOf(uses - {n}, id) + if uses[n].tokenId == id then {n} else {};
  }

  /** What is reserved by one use is part of what the token shows. */
  lemma UseIsCovered(s: Sys, n: nat)
    requires Inv(s) && n in s.uses && s.uses[n].tokenId in s.tokens
    ensures var t := s.tokens[s.uses[n].tokenId]; t.uses >= 1 && t.uploadedBytes >= s.uses[n].bytes
  {
    var id := s.uses[n].tokenId;
    assert TokenOk(s, id);
    UseGoes(s.uses, n, id);
    BytesNonNegative(s.uses - {n}, id);
  }

  lemma ReserveKeeps(s: Sys, s': Sys, n: nat, id: int, kind: string, now: int, bytes: int)
    requires Inv(s) && ReserveBy(s, s', n, id, kind, now, bytes)
    ensures Inv(s')
  {
    forall x | x in s'.tokens
      ensures TokenOk(s', x)
    {
      assert TokenOk(s, x);
      UseAdded(s.uses, n, Use(id, bytes, false), x);
    }
  }

  lemma ReleaseKeeps(s: Sys, s': Sys)
    requires Inv(s) && ReleaseStep(s, s')
    ensures Inv(s')
  {
    var n: nat :| n in s.uses && !s.uses[n].settled
      && s' == s.(tokens := Release(s.tokens, s.uses[n].tokenId, s.uses[n].bytes), uses := s.uses - {n});
    if s.uses[n].tokenId in s.tokens {
      UseIsCovered(s, n);
    }
    assert s'.tokens.Keys == s.tokens.Keys && s'.lastId == s.lastId;
    forall x | x in s'.tokens
      ensures TokenOk(s', x)
    {
      assert TokenOk(s, x);
      UseGoes(s.uses, n, x);
    }
  }

  lemma SettleKeeps(s: Sys, s': Sys, n: nat, actual: int)
    requires Inv(s) && SettleBy(s, s', n, actual)
    ensures Inv(s')
  {
    if s.uses[n].tokenId in s.tokens {
      UseIsCovered(s, n);
    }
    assert s'.tokens.Keys == s.tokens.Keys;
    forall x | x in s'.tokens
      ensures TokenOk(s', x)
    {
      assert TokenOk(s, x);
      UseChanged(s.uses, n, Use(s.uses[n].tokenId, actual, true), x);
    }
  }

  lemma TokenStepKeeps(s: Sys, s': Sys)
    requires Inv(s) && (CreateToken(s, s') || RevokeOrDelete(s, s'))
    ensures Inv(s')
  {
    NoBytes(s.uses, s.lastId + 1);
    forall x | x in s'.tokens
      ensures TokenOk(s', x)
    {
      assert x in s.tokens ==> TokenOk(s, x);
    }
  }

  lemma {:induction false} RunKeepsInv(run: seq<Sys>, i: nat)
    requires IsLedgerRun(run) && i < |run|
    ensures Inv(run[i])
  {
    if i > 0 {
      RunKeepsInv(run, i - 1);
      var s, s' := run[i - 1], run[i];
      assert Step(s, run[(i - 1) + 1]);
      hide Inv;
      if CreateToken(s, s') || RevokeOrDelete(s, s') {
        TokenStepKeeps(s, s');
      } else if ReserveStep(s, s') {
        var n: nat, id: int, kind: string, now: int, bytes: int :| ReserveBy(s, s', n, id, kind, now, bytes);
        ReserveKeeps(s, s', n, id, kind, now, bytes);
      } else if ReleaseStep(s, s') {
        ReleaseKeeps(s, s');
      } else {
        var n: nat, actual: int :| SettleBy(s, s', n, actual);
        SettleKeeps(s, s', n, actual);
      }
    }
  }

  function InFlight(uses: map<nat, Use>, id: int): set<nat> {
    set n: nat | n in uses && uses[n].tokenId == id && !uses[n].settled
  }

  function Settled(uses: map<nat, Use>, id: int): set<nat> {
    set n: nat | n in uses && uses[n].tokenId == id && uses[n].settled
  }

  /** The uses that are settled, or those that are still in flight. */
  function Only(uses: map<nat, Use>, settled: bool): map<nat, Use> {
    map n: nat | n in uses && uses[n].settled == settled :: uses[n]
  }

  lemma OnlyWithout(uses: map<nat, Use>, n: nat)
    requires n in uses
    ensures var side := uses[n].settled;
            && n in Only(uses, side) && Only(uses, side)[n] == uses[n]
            && Only(uses - {n}, side) == Only(uses, side) - {n} && Only(uses - {n}, !side) == Only(uses, !side)
    ensures |uses - {n}| < |uses|
  {
    assert (uses - {n}).Keys == uses.Keys - {n};
    assert |uses - {n}| == |(uses - {n}).Keys| && |uses| == |uses.Keys|;
  }

  lemma {:induction false} BytesBySettled(uses: map<nat, Use>, id: int)
    ensures BytesOf(uses, id) == BytesOf(Only(uses, false), id) + BytesOf(Only(uses, true), id)
    decreases |uses|
  {
    if uses == map[] {
      assert Only(uses, false) == map[] && Only(uses, true) == map[];
    } else {
      var n: nat :| n in uses;
      OnlyWithout(uses, n);
      hide BytesOf, Only;
      BytesSplit(uses, n, id);
      BytesSplit(Only(uses, uses[n].settled), n, id);
      BytesBySettled(uses - {n}, id);
    }
  }

  /**
   At all times a token's uses are those in flight plus those settled, its bytes are the bytes
   reserved in flight plus the bytes settled, and both stay within its limits.
   */
  lemma LedgerIsConserved(run: seq<Sys>, i: nat, id: int)
    requires IsLedgerRun(run) && i < |run| && id in run[i].tokens
    ensures var s, t := run[i], run[i].tokens[id];
            && t.uses == |InFlight(s.uses, id)| + |Settled(s.uses, id)|
            && t.uploadedBytes == BytesOf(Only(s.uses, false), id) + BytesOf(Only(s.uses, true), id)
            && BytesOf(Only(s.uses, false), id) >= 0 && BytesOf(Only(s.uses, true), id) >= 0
            && (t.maxUses > 0 ==> t.uses <= t.maxUses)
            && (s.quota > 0 ==> t.uploadedBytes <= s.quota)
  {
    var s := run[i];
    RunKeepsInv(run, i);
    assert TokenOk(s, id);
    assert UsesOf(s.uses, id) == InFlight(s.uses, id) + Settled(s.uses, id);
    assert InFlight(s.uses, id) !! Settled(s.uses, id);
    BytesBySettled(s.uses, id);
    BytesNonNegative(Only(s.uses, false), id);
    BytesNonNegative(Only(s.uses, true), id);
  }

  /** The branches that stop at zero are never taken: there is always enough to give back. */
  lemma SaturationNeverHappens(run: seq<Sys>, i: nat, n: nat, actual: int)
    requires IsLedgerRun(run) && i < |run| && n in run[i].uses && !run[i].uses[n].settled && actual >= 0
    ensures var s, use := run[i], run[i].uses[n];
            use.tokenId in s.tokens ==>
              var t := s.tokens[use.tokenId];
              && Release(s.tokens, use.tokenId, use.bytes)[use.tokenId]
                 == t.(uses := t.uses - 1, uploadedBytes := t.uploadedBytes - use.bytes)
              && (actual < use.bytes ==>
                    Adjust(s.tokens, use.tokenId, actual - use.bytes, s.quota).0[use.tokenId]
                    == t.(uploadedBytes := t.uploadedBytes - (use.bytes - actual)))
  {
    RunKeepsInv(run, i);
    if run[i].uses[n].tokenId in run[i].tokens {
      UseIsCovered(run[i], n);
    }
  }

  /** A reservation given back leaves the token as if it had never been made. */
  lemma ReleaseUndoesReserve(tokens: Tokens, id: int, kind: string, now: int, bytes: int, quota: int)
    requires id in tokens && tokens[id].uses >= 0 && tokens[id].uploadedBytes >= 0
    requires Reserve(tokens, id, kind, now, bytes, quota).1.Success?
    ensures Release(Reserve(tokens, id, kind, now, bytes, quota).0, id, bytes) == tokens
  {
  }

  // ----- which tokens may be used -----

  /**
   When a use may be reserved, and what it stores: the token exists, is of the asked kind, not
   revoked, not expired, and has a use and the bytes left. The quota is the reason reported exactly
   if bytes were asked that the quota does not allow on top of what is already uploaded.
   */
  lemma ReserveReasons(tokens: Tokens, id: int, kind: string, now: int, bytes: int, quota: int)
    ensures var (after, r) := Reserve(tokens, id, kind, now, bytes, quota);
            && (r.Success? <==>
                  && id in tokens
                  && var t := tokens[id];
                     && t.kind == kind && !t.revoked
                     && (t.expiresAt.Some? ==> now < t.expiresAt.value)
                     && (t.maxUses > 0 ==> t.uses < t.maxUses)
                     && (quota > 0 ==> t.uploadedBytes + bytes <= quota))
            && (r == Failure(UploadLimitExceeded) <==>
                  bytes > 0 && quota > 0 && id in tokens && tokens[id].kind == kind
                      && tokens[id].uploadedBytes + bytes > quota)
            && (r.Failure? ==> after == tokens)
            && (r.Success? ==>
                  && after.Keys == tokens.Keys && (forall x | x in tokens && x != id :: after[x] == tokens[x])
                  && after[id] == r.value
                  && r.value.uses == tokens[id].uses + 1 && r.value.uploadedBytes == tokens[id].uploadedBytes + bytes
                  && SameTerms(tokens[id], r.value))
  {
  }

  /** What a token is for, until when and how often: this never changes. */
  ghost predicate SameTerms(t: Token, u: Token) {
    u.kind == t.kind && u.expiresAt == t.expiresAt && u.maxUses == t.maxUses && u.revoked == t.revoked
  }

  /** Giving back and adjusting change the two counters of one token and stop at zero. */
  lemma CountersOnly(tokens: Tokens, id: int, bytes: int, quota: int)
    requires id in tokens
    ensures var t, after := tokens[id], Release(tokens, id, bytes);
            && after.Keys == tokens.Keys && (forall x | x in tokens && x != id :: after[x] == tokens[x])
            && SameTerms(t, after[id])
            && after[id].uses == (if t.uses > 0 then t.uses - 1 else 0)
            && after[id].uploadedBytes == (if t.uploadedBytes >= bytes then t.uploadedBytes - bytes else 0)
    ensures var t, (after, ok) := tokens[id], Adjust(tokens, id, bytes, quota);
            && (ok <==> bytes <= 0 || quota <= 0 || t.uploadedBytes + bytes <= quota)
            && after.Keys == tokens.Keys && (forall x | x in tokens && x != id :: after[x] == tokens[x])
            && SameTerms(t, after[id]) && after[id].uses == t.uses
            && after[id].uploadedBytes ==
               if !ok || bytes == 0 then t.uploadedBytes
               else if bytes > 0 || t.uploadedBytes >= -bytes then t.uploadedBytes + bytes else 0
  {
  }

  /** The token was there and has been revoked or deleted. */
  ghost predicate Withdrawn(s: Sys, id: int) {
    id <= s.lastId && (id in s.tokens ==> s.tokens[id].revoked)
  }

  lemma StepKeepsWithdrawn(s: Sys, s': Sys, id: int)
    requires Step(s, s') && Withdrawn(s, id)
    ensures Withdrawn(s', id)
  {
  }

  lemma StepKeepsTerms(s: Sys, s': Sys, id: int)
    requires Inv(s) && Step(s, s') && id in s.tokens && id in s'.tokens
    ensures s'.tokens[id].expiresAt == s.tokens[id].expiresAt && s'.tokens[id].kind == s.tokens[id].kind
    ensures s'.tokens[id].maxUses == s.tokens[id].maxUses && (s.tokens[id].revoked ==> s'.tokens[id].revoked)
  {
  }

  lemma StepKeepsGone(s: Sys, s': Sys, id: int)
    requires Step(s, s') && id <= s.lastId && id !in s.tokens
    ensures id <= s'.lastId && id !in s'.tokens
  {
  }

  lemma {:induction false} RunKeepsWithdrawn(run: seq<Sys>, i: nat, j: nat, id: int)
    requires IsLedgerRun(run) && i <= j < |run| && Withdrawn(run[i], id)
    ensures Withdrawn(run[j], id)
    decreases j
  {
    hide Withdrawn, Step;
    if i < j {
      RunKeepsWithdrawn(run, i, j - 1, id);
      assert Step(run[j - 1], run[(j - 1) + 1]);
      StepKeepsWithdrawn(run[j - 1], run[j], id);
    }
  }

  lemma {:induction false} RunKeepsTerms(run: seq<Sys>, i: nat, j: nat, id: int)
    requires IsLedgerRun(run) && i <= j < |run| && id in run[i].tokens
    ensures id <= run[j].lastId
    ensures id in run[j].tokens ==> run[j].tokens[id].expiresAt == run[i].tokens[id].expiresAt
    decreases j
  {
    RunKeepsInv(run, j);
    hide Step, Inv;
    if i < j {
      RunKeepsTerms(run, i, j - 1, id);
      RunKeepsInv(run, j - 1);
      assert Step(run[j - 1], run[(j - 1) + 1]);
      if id in run[j - 1].tokens {
        if id in run[j].tokens {
          StepKeepsTerms(run[j - 1], run[j], id);
        }
      } else {
        StepKeepsGone(run[j - 1], run[j], id);
      }
    }
  }

  /**
   Over every run: once a token has been revoked or deleted, or its time is over, no reservation of
   it ever adds a use again, whatever is still in flight and whatever is given back.
   */
  lemma NoUseAfterwards(run: seq<Sys>, i: nat, j: nat, n: nat, id: int, kind: string, now: int, bytes: int)
    requires IsLedgerRun(run) && i <= j && j + 1 < |run| && id in run[i].tokens
    requires ReserveBy(run[j], run[j + 1], n, id, kind, now, bytes)
    requires || (exists k :: i <= k <= j && (id !in run[k].tokens || run[k].tokens[id].revoked))
             || (run[i].tokens[id].expiresAt.Some? && run[i].tokens[id].expiresAt.value <= now)
    ensures run[j + 1] == run[j]
  {
    ReserveReasons(run[j].tokens, id, kind, now, bytes, run[j].quota);
    RunKeepsTerms(run, i, j, id);
    if k :| i <= k <= j && (id !in run[k].tokens || run[k].tokens[id].revoked) {
      RunKeepsTerms(run, i, k, id);
      RunKeepsWithdrawn(run, k, j, id);
    }
  }

  /** A ledger run may go on by a new, unused token and by revoking or deleting any token there is. */
  lemma {:induction false} RunGoesOn(run: seq<Sys>, kind: string, expiresAt: Option<int>, maxUses: int, id: int)
    requires IsLedgerRun(run)
    ensures var s := run[|run| - 1];
            var made := Token(kind, expiresAt, maxUses, 0, 0, false);
            IsLedgerRun(run + [s.(tokens := s.tokens[s.lastId + 1 := made], lastId := s.lastId + 1)])
    ensures var s := run[|run| - 1];
            id in s.tokens ==> IsLedgerRun(run + [s.(tokens := s.tokens - {id})])
    ensures var s := run[|run| - 1];
            id in s.tokens ==> IsLedgerRun(run + [s.(tokens := s.tokens[id := s.tokens[id].(revoked := true)])])
  {
    var s := run[|run| - 1];
    var made := s.(tokens := s.tokens[s.lastId + 1 := Token(kind, expiresAt, maxUses, 0, 0, false)],
        lastId := s.lastId + 1);
    assert CreateToken(s, made);
    if id in s.tokens {
      assert RevokeOrDelete(s, s.(tokens := s.tokens - {id}));
      assert RevokeOrDelete(s, s.(tokens := s.tokens[id := s.tokens[id].(revoked := true)]));
    }
  }

  /** What has been settled stays as it was settled. */
  lemma SettledIsFinal(s: Sys, s': Sys, n: nat)
    requires Step(s, s') && n in s.uses && s.uses[n].settled
    ensures n in s'.uses && s'.uses[n] == s.uses[n]
  {
    hide Reserve, Release, Adjust;
  }

  /**
   A run may go on by any reservation that fits, and a use in flight may be given back or settled at
   what was stored.
   */
  lemma {:induction false} UseGoesOn(run: seq<Sys>, n: nat, id: int, kind: string, now: int, bytes: int)
    requires IsLedgerRun(run) && bytes >= 0
    ensures var s := run[|run| - 1];
            var (tokens, r) := Reserve(s.tokens, id, kind, now, bytes, s.quota);
            n !in s.uses && r.Success? ==>
              IsLedgerRun(run + [s.(tokens := tokens, uses := s.uses[n := Use(id, bytes, false)])])
    ensures var s := run[|run| - 1];
            n in s.uses && !s.uses[n].settled ==>
              && IsLedgerRun(run + [s.(tokens := Release(s.tokens, s.uses[n].tokenId, s.uses[n].bytes),
                  uses := s.uses - {n})])
              && var (tokens, ok) := Adjust(s.tokens, s.uses[n].tokenId, bytes - s.uses[n].bytes, s.quota);
                 ok ==>
                   IsLedgerRun(run + [s.(tokens := tokens, uses := s.uses[n := Use(s.uses[n].tokenId, bytes, true)])])
  {
    var s := run[|run| - 1];
    var (tokens, r) := Reserve(s.tokens, id, kind, now, bytes, s.quota);
    if n !in s.uses && r.Success? {
      assert ReserveBy(s, s.(tokens := tokens, uses := s.uses[n := Use(id, bytes, false)]), n, id, kind, now, bytes);
    }
    if n in s.uses && !s.uses[n].settled {
      var (after, ok) := Adjust(s.tokens, s.uses[n].tokenId, bytes - s.uses[n].bytes, s.quota);
      assert ok ==>
          SettleBy(s, s.(tokens := after, uses := s.uses[n := Use(s.uses[n].tokenId, bytes, true)]), n, bytes);
    }
  }
}
