/**
 Accounts and what they have opened: sessions, download leases and upload leases. Changing a
 password or taking the active status away deletes them all in the same transaction and raises
 the account's version, under which every session is issued.
 */
module Accounts {
  import opened Basics

  const ACTIVE := "active"
  const DELETED := "deleted"

  datatype User = User(displayName: string, status: string, passwordHash: string, authVersion: int)

  /** Sessions without a user belong to the administrator or to a code login. */
  datatype Session = Session(userId: Option<int>, authVersion: int, expiresAt: int, idleExpiresAt: int)

  /** `issuedVersion` is auxiliary: the account's version when the lease was created. */
  datatype Lease = Lease(userId: Option<int>, expiresAt: int, used: bool, issuedVersion: int)

  datatype Db = Db(
    users: map<int, User>, lastUserId: int,
    sessions: map<string, Session>, downloads: map<string, Lease>, uploads: map<string, Lease>)

  datatype AccountError = NotFound | AccountChanged | SessionInvalid

  // ----- transactions -----

  function SessionsWithout(sessions: map<string, Session>, id: int): map<string, Session> {
    map k | k in sessions && sessions[k].userId != Some(id) :: sessions[k]
  }

  function LeasesWithout(leases: map<string, Lease>, id: int, keepUsed: bool): map<string, Lease> {
    map k | k in leases && (leases[k].userId != Some(id) || (keepUsed && leases[k].used)) :: leases[k]
  }

  /** Everything an account has open, except uploads that have begun. */
  function RevokeAll(db: Db, id: int): Db {
    db.(sessions := SessionsWithout(db.sessions, id),
        downloads := LeasesWithout(db.downloads, id, false),
        uploads := LeasesWithout(db.uploads, id, true))
  }

  predicate Refused(u: User, expectedVersion: Option<int>) {
    u.status == DELETED || (expectedVersion.Some? && (u.authVersion != expectedVersion.value || u.status != ACTIVE))
  }

  predicate Revokes(u: User, status: Option<string>, hash: string) {
    hash != "" || (status.Some? && status.value != u.status && status.value != ACTIVE)
  }

  function Updated(u: User, name: Option<string>, status: Option<string>, hash: string): User {
    var newStatus := if status.Some? then status.value else u.status;
    User(if name.Some? then name.value else u.displayName,
         newStatus,
         if newStatus == DELETED then "" else if hash != "" then hash else u.passwordHash,
         u.authVersion + if Revokes(u, status, hash) then 1 else 0)
  }

  function UpdateTx(
    db: Db, id: int, name: Option<string>, status: Option<string>, hash: string, expectedVersion: Option<int>)
    : (Db, Result<User, AccountError>)
  {
    if id !in db.users then (db, Failure(NotFound))
    else if Refused(db.users[id], expectedVersion) then (db, Failure(AccountChanged))
    else
      var u := Updated(db.users[id], name, status, hash);
      var stored := db.(users := db.users[id := u]);
      (if Revokes(db.users[id], status, hash) then RevokeAll(stored, id) else stored, Success(u))
  }

  function CreateAccount(db: Db, name: string, hash: string, status: string): Db {
    db.(users := db.users[db.lastUserId + 1 := User(name, status, hash, 1)], lastUserId := db.lastUserId + 1)
  }

  /** INSERT ... SELECT from the user, who must still be active and at the version that was authenticated. */
  function CreateAccountSession(db: Db, sid: string, userId: int, authVersion: int, expiresAt: int, idleExpiresAt: int)
    : (Db, Result<(), AccountError>)
  {
    if userId in db.users && db.users[userId].status == ACTIVE && db.users[userId].authVersion == authVersion
    then (db.(sessions := db.sessions[sid := Session(Some(userId), authVersion, expiresAt, idleExpiresAt)]),
        Success(()))
    else (db, Failure(AccountChanged))
  }

  /** The session row joined with its user. */
  predicate SessionReads(db: Db, sid: string) {
    && sid in db.sessions
    && var s := db.sessions[sid];
       s.userId.None? || (s.userId.value in db.users && db.users[s.userId.value].status == ACTIVE
                          && db.users[s.userId.value].authVersion == s.authVersion)
  }

  predicate SessionLive(db: Db, sid: string, now: int) {
    SessionReads(db, sid) && db.sessions[sid].expiresAt > now && db.sessions[sid].idleExpiresAt > now
  }

  /** sessionLeaseOwner: leases of a public token have no owner. */
  function LeaseOwner(db: Db, fromSession: bool, sid: string, now: int): Result<Option<int>, AccountError> {
    if !fromSession then Success(None)
    else if SessionLive(db, sid, now) then Success(db.sessions[sid].userId)
    else Failure(SessionInvalid)
  }

  function NewLease(db: Db, owner: Option<int>, expiresAt: int): Lease {
    Lease(owner, expiresAt, false, if owner.Some? && owner.value in db.users then db.users[owner.value].authVersion
        else 0)
  }

  function CreateDownloadLease(
    db: Db, hash: string, fromSession: bool, sid: string, now: int, expiresAt: int)
    : (Db, Result<(), AccountError>)
  {
    match LeaseOwner(db, fromSession, sid, now)
    case Failure(e) => (db, Failure(e))
    case Success(owner) => (db.(downloads := db.downloads[hash := NewLease(db, owner, expiresAt)]), Success(()))
  }

  function CreateUploadLease(
    db: Db, hash: string, fromSession: bool, sid: string, now: int, expiresAt: int)
    : (Db, Result<(), AccountError>)
  {
    match LeaseOwner(db, fromSession, sid, now)
    case Failure(e) => (db, Failure(e))
    case Success(owner) => (db.(uploads := db.uploads[hash := NewLease(db, owner, expiresAt)]), Success(()))
  }

  predicate OwnerActive(db: Db, owner: Option<int>) {
    owner.None? || (owner.value in db.users && db.users[owner.value].status == ACTIVE)
  }

  /** AdmitDownloadLease */
  predicate Admits(db: Db, hash: string, now: int) {
    hash in db.downloads && db.downloads[hash].expiresAt > now && OwnerActive(db, db.downloads[hash].userId)
  }

  /** The condition of ReserveUploadLease. */
  predicate Claimable(db: Db, hash: string, now: int) {
    && hash in db.uploads && !db.uploads[hash].used && db.uploads[hash].expiresAt > now
    && OwnerActive(db, db.uploads[hash].userId)
  }

  function ReserveUploadLease(db: Db, hash: string, now: int): (Db, bool) {
    if Claimable(db, hash, now) then (db.(uploads := db.uploads[hash := db.uploads[hash].(used := true)]), true)
    else (db, false)
  }

  // ----- the store -----

  class AccountStore {
    var db: Db

    constructor ()
      ensures db == Db(map[], 0, map[], map[], map[])
    {
      db := Db(map[], 0, map[], map[], map[]);
    }

    /** Edits the user's fields one by one, writes the row, and deletes what is revoked. */
    method UpdateAccount(
      id: int, name: Option<string>, status: Option<string>, hash: string, expectedVersion: Option<int>)
      returns (r: Result<User, AccountError>)
      modifies this
      ensures (db, r) == UpdateTx(old(db), id, name, status, hash, expectedVersion)
    {
      if id !in db.users {
        return Failure(NotFound);
      }
      var u := db.users[id];
      if u.status == DELETED || (expectedVersion.Some?
          && (u.authVersion != expectedVersion.value || u.status != ACTIVE)) {
        return Failure(AccountChanged);
      }
      var revoke := hash != "" || (status.Some? && status.value != u.status && status.value != ACTIVE);
      if name.Some? {
        u := u.(displayName := name.value);
      }
      if status.Some? {
        u := u.(status := status.value);
      }
      if hash != "" {
        u := u.(passwordHash := hash);
      }
      if u.status == DELETED {
        u := u.(passwordHash := "");
      }
      if revoke {
        u := u.(authVersion := u.authVersion + 1);
      }
      db := db.(users := db.users[id := u]);
      if revoke {
        db := db.(sessions := SessionsWithout(db.sessions, id));
        db := db.(downloads := LeasesWithout(db.downloads, id, false));
        db := db.(uploads := LeasesWithout(db.uploads, id, true));
      }
      return Success(u);
    }
  }

  // ----- the protocol -----

  /** `issued` remembers every session and lease id given out; they are random and never given out twice. */
  datatype Sys = Sys(db: Db, issued: set<string>)

  datatype Tx =
    | TxCreateAccount(name: string, hash: string, status: string)
    | TxUpdateAccount(id: int, newName: Option<string>, newStatus: Option<string>, newHash: string,
        expectedVersion: Option<int>)
    | TxAccountSession(sid: string, userId: int, authVersion: int, expiresAt: int, idleExpiresAt: int)
    | TxPlainSession(sid: string, expiresAt: int, idleExpiresAt: int)
    | TxTouchSession(sid: string, idleExpiresAt: int)
    | TxDownloadLease(lease: string, fromSession: bool, sid: string, now: int, expiresAt: int)
    | TxUploadLease(lease: string, fromSession: bool, sid: string, now: int, expiresAt: int)
    | TxClaimUpload(lease: string, now: int)
    | TxForget(sids: set<string>, leases: set<string>)

  /** The fresh id a transaction hands out, if any. */
  function Hands(tx: Tx): set<string> {
    match tx
    case TxAccountSession(sid, _, _, _, _) => {sid}
    case TxPlainSession(sid, _, _) => {sid}
    case TxDownloadLease(lease, _, _, _, _) => {lease}
    case TxUploadLease(lease, _, _, _, _) => {lease}
    case _ => {}
  }

  function Apply(db: Db, tx: Tx): Db {
    match tx
    case TxCreateAccount(name, hash, status) => CreateAccount(db, name, hash, status)
    case TxUpdateAccount(id, name, status, hash, expected) => UpdateTx(db, id, name, status, hash, expected).0
    case TxAccountSession(sid, userId, version, expiresAt, idle) =>
      CreateAccountSession(db, sid, userId, version, expiresAt, idle).0
    case TxPlainSession(sid, expiresAt, idle) =>
      db.(sessions := db.sessions[sid := Session(None, 0, expiresAt, Min(idle, expiresAt))])
    case TxTouchSession(sid, idle) =>
      if sid in db.sessions then db.(sessions := db.sessions[sid := db.sessions[sid].(idleExpiresAt := idle)]) else db
    case TxDownloadLease(lease, fromSession, sid, now, expiresAt) =>
        CreateDownloadLease(db, lease, fromSession, sid, now, expiresAt).0
    case TxUploadLease(lease, fromSession, sid, now, expiresAt) =>
        CreateUploadLease(db, lease, fromSession, sid, now, expiresAt).0
    case TxClaimUpload(lease, now) => ReserveUploadLease(db, lease, now).0
    case TxForget(sids, leases) =>
      db.(sessions := db.sessions - sids, downloads := db.downloads - leases, uploads := db.uploads - leases)
  }

  ghost predicate Step(s: Sys, s': Sys) {
    exists tx: Tx :: Hands(tx) !! s.issued && s' == Sys(Apply(s.db, tx), s.issued + Hands(tx))
  }

  ghost predicate Init(s: Sys) {
    s == Sys(Db(map[], 0, map[], map[], map[]), {})
  }

  ghost predicate IsAccountRun(run: seq<Sys>) {
    |run| >= 1 && Init(run[0]) && forall i | 0 <= i < |run| - 1 :: Step(run[i], run[i + 1])
  }

  // ----- the invariant -----

  ghost predicate IssuedTo(db: Db, owner: Option<int>, version: int) {
    owner.Some? ==>
      && owner.value in db.users && db.users[owner.value].status == ACTIVE
      && db.users[owner.value].authVersion == version
  }

  ghost predicate Open(db: Db) {
    && (forall k | k in db.sessions :: IssuedTo(db, db.sessions[k].userId, db.sessions[k].authVersion))
    && (forall k | k in db.downloads :: IssuedTo(db, db.downloads[k].userId, db.downloads[k].issuedVersion))
    && (forall k | k in db.uploads && !db.uploads[k].used ::
        IssuedTo(db, db.uploads[k].userId, db.uploads[k].issuedVersion))
  }

  ghost predicate Inv(s: Sys) {
    && Open(s.db)
    && (forall id | id in s.db.users :: id <= s.db.lastUserId)
    && s.db.sessions.Keys <= s.issued && s.db.downloads.Keys <= s.issued && s.db.uploads.Keys <= s.issued
  }

  /** Logging in, touching and forgetting. */
  lemma SessionsKeepOpen(db: Db, tx: Tx)
    requires Open(db) && (tx.TxAccountSession? || tx.TxPlainSession? || tx.TxTouchSession? || tx.TxForget?)
    ensures Open(Apply(db, tx))
  {
  }

  /** A lease goes to the account of a session that is live, so the account is active at the session's version. */
  lemma LeasesKeepOpen(db: Db, tx: Tx)
    requires Open(db) && (tx.TxDownloadLease? || tx.TxUploadLease? || tx.TxClaimUpload?)
    ensures Open(Apply(db, tx))
  {
    var after := Apply(db, tx);
    assert after.users == db.users && after.sessions == db.sessions;
    if tx.TxDownloadLease? || tx.TxUploadLease? {
      var owner := LeaseOwner(db, tx.fromSession, tx.sid, tx.now);
      if owner.Success? {
        assert IssuedTo(db, owner.value, NewLease(db, owner.value, tx.expiresAt).issuedVersion);
      }
    }
    hide SessionLive, SessionReads;
  }

  lemma ApplyKeepsOpen(db: Db, tx: Tx)
    requires Open(db) && forall id | id in db.users :: id <= db.lastUserId
    ensures Open(Apply(db, tx))
  {
    match tx
    case TxCreateAccount(_, _, _) =>
    case TxUpdateAccount(id, name, status, hash, expected) =>
    case TxAccountSession(_, _, _, _, _) => SessionsKeepOpen(db, tx);
    case TxPlainSession(_, _, _) => SessionsKeepOpen(db, tx);
    case TxTouchSession(_, _) => SessionsKeepOpen(db, tx);
    case TxForget(_, _) => SessionsKeepOpen(db, tx);
    case _ =>
      hide Open;
      LeasesKeepOpen(db, tx);
  }

  /** Ids only come from the transaction that hands them out. */
  lemma ApplyKeys(db: Db, tx: Tx)
    ensures var after := Apply(db, tx);
            && after.sessions.Keys <= db.sessions.Keys + Hands(tx)
            && after.downloads.Keys <= db.downloads.Keys + Hands(tx)
            && after.uploads.Keys <= db.uploads.Keys + Hands(tx)
            && db.lastUserId <= after.lastUserId
            && after.users.Keys <= db.users.Keys + {after.lastUserId}
  {
  }

  lemma StepKeepsInv(s: Sys, s': Sys)
    requires Inv(s) && Step(s, s')
    ensures Inv(s')
  {
    var tx: Tx :| Hands(tx) !! s.issued && s' == Sys(Apply(s.db, tx), s.issued + Hands(tx));
    ApplyKeepsOpen(s.db, tx);
    ApplyKeys(s.db, tx);
    hide Open, Apply, Hands;
  }

  lemma {:induction false} RunKeepsInv(run: seq<Sys>, i: nat)
    requires IsAccountRun(run) && i < |run|
    ensures Inv(run[i])
  {
    if i > 0 {
      RunKeepsInv(run, i - 1);
      assert Step(run[i - 1], run[(i - 1) + 1]);
      StepKeepsInv(run[i - 1], run[i]);
    }
  }

  // ----- what every run guarantees -----

  /**
   In every reachable state, whatever an account has open was issued to it as it is now: active, and
   at this version.
   */
  lemma OnlyCurrentAccountsAreOpen(run: seq<Sys>, i: nat)
    requires IsAccountRun(run) && i < |run|
    ensures Open(run[i].db)
  {
    RunKeepsInv(run, i);
  }

  /** The version under which an open item was issued. */
  ghost predicate HeldBy(db: Db, key: string, user: int, version: int) {
    || (key in db.sessions && db.sessions[key].userId == Some(user) && db.sessions[key].authVersion == version)
    || (key in db.downloads && db.downloads[key].userId == Some(user) && db.downloads[key].issuedVersion == version)
    || (key in db.uploads && !db.uploads[key].used && db.uploads[key].userId == Some(user)
        && db.uploads[key].issuedVersion == version)
  }

  /** Nothing can be done with it. */
  ghost predicate Dead(db: Db, key: string) {
    && !SessionReads(db, key)
    && forall now: int :: !Admits(db, key, now) && !Claimable(db, key, now)
  }

  /** Given out, and not to be found in any table any more, except as an upload that has begun. */
  ghost predicate Gone(s: Sys, key: string) {
    && key in s.issued && key !in s.db.sessions && key !in s.db.downloads
    && (key in s.db.uploads ==> s.db.uploads[key].used)
  }

  lemma GoneStays(s: Sys, s': Sys, key: string)
    requires Gone(s, key) && Step(s, s')
    ensures Gone(s', key)
  {
    var tx: Tx :| Hands(tx) !! s.issued && s' == Sys(Apply(s.db, tx), s.issued + Hands(tx));
    assert key !in Hands(tx);
  }

  lemma {:induction false} GoneForever(run: seq<Sys>, i: nat, j: nat, key: string)
    requires IsAccountRun(run) && i <= j < |run| && Gone(run[i], key)
    ensures Gone(run[j], key)
    decreases j
  {
    if i < j {
      GoneForever(run, i, j - 1, key);
      assert Step(run[j - 1], run[(j - 1) + 1]);
      GoneStays(run[j - 1], run[j], key);
    }
  }

  /** One id is one thing: a session, a download lease or an upload lease. */
  ghost predicate OneTable(db: Db) {
    forall k: string :: !(k in db.sessions && k in db.downloads) && !(k in db.sessions && k in db.uploads)
                     && !(k in db.downloads && k in db.uploads)
  }

  lemma {:induction false} RunKeepsOneTable(run: seq<Sys>, i: nat)
    requires IsAccountRun(run) && i < |run|
    ensures OneTable(run[i].db)
  {
    if i > 0 {
      RunKeepsOneTable(run, i - 1);
      RunKeepsInv(run, i - 1);
      assert Step(run[i - 1], run[(i - 1) + 1]);
      StepKeepsOneTable(run[i - 1], run[i]);
    }
  }

  lemma StepKeepsOneTable(s: Sys, s': Sys)
    requires Inv(s) && Step(s, s') && OneTable(s.db)
    ensures OneTable(s'.db)
  {
    hide Apply, Hands, OneTable;
    var tx: Tx :| Hands(tx) !! s.issued && s' == Sys(Apply(s.db, tx), s.issued + Hands(tx));
    NewInOneTable(s.db, tx, s.issued);
  }

  lemma NewInOneTable(db: Db, tx: Tx, issued: set<string>)
    requires OneTable(db) && Hands(tx) !! issued
    requires db.sessions.Keys <= issued && db.downloads.Keys <= issued && db.uploads.Keys <= issued
    ensures OneTable(Apply(db, tx))
  {
    ApplyTables(db, tx);
    hide Apply, Hands;
  }

  /** What a transaction hands out goes into one table. */
  lemma ApplyTables(db: Db, tx: Tx)
    ensures var after := Apply(db, tx);
            && after.sessions.Keys <= db.sessions.Keys + (if tx.TxAccountSession? || tx.TxPlainSession? then Hands(tx)
                else {})
            && after.downloads.Keys <= db.downloads.Keys + (if tx.TxDownloadLease? then Hands(tx) else {})
            && after.uploads.Keys <= db.uploads.Keys + (if tx.TxUploadLease? then Hands(tx) else {})
  {
  }

  /**
   Revocation is permanent: once the account of an open session, download lease or unclaimed
   upload lease has for one moment not been active, or at another version, nothing can ever be
   done with it again, even if the account is enabled again.
   */
  lemma RevocationIsPermanent(run: seq<Sys>, i: nat, j: nat, k: nat, key: string, user: int, version: int)
    requires IsAccountRun(run) && i <= j <= k < |run| && HeldBy(run[i].db, key, user, version)
    requires !IssuedTo(run[j].db, Some(user), version)
    ensures Dead(run[k].db, key)
  {
    RunKeepsInv(run, i);
    RunKeepsInv(run, j);
    HeldOrGone(run, i, j, key, user, version);
    GoneForever(run, j, k, key);
  }

  /** An item stays with the account and version it was issued to for as long as it is open. */
  lemma {:induction false} HeldOrGone(run: seq<Sys>, i: nat, j: nat, key: string, user: int, version: int)
    requires IsAccountRun(run) && i <= j < |run| && HeldBy(run[i].db, key, user, version)
    ensures HeldBy(run[j].db, key, user, version) || Gone(run[j], key)
    decreases j
  {
    if i < j {
      HeldOrGone(run, i, j - 1, key, user, version);
      RunKeepsInv(run, j - 1);
      RunKeepsOneTable(run, j - 1);
      hide Inv, OneTable, HeldBy, Gone, Step;
      assert Step(run[j - 1], run[(j - 1) + 1]);
      HeldStep(run[j - 1], run[j], key, user, version);
    }
  }

  lemma HeldStep(s: Sys, s': Sys, key: string, user: int, version: int)
    requires Inv(s) && OneTable(s.db) && Step(s, s') && (HeldBy(s.db, key, user, version) || Gone(s, key))
    ensures HeldBy(s'.db, key, user, version) || Gone(s', key)
  {
    hide HeldBy, OneTable, Open, Apply, Hands, Gone;
    if Gone(s, key) {
      GoneStays(s, s', key);
    } else {
      var tx: Tx :| Hands(tx) !! s.issued && s' == Sys(Apply(s.db, tx), s.issued + Hands(tx));
      HeldAfter(s, tx, key, user, version);
    }
  }

  lemma HeldAfter(s: Sys, tx: Tx, key: string, user: int, version: int)
    requires OneTable(s.db) && Hands(tx) !! s.issued && HeldBy(s.db, key, user, version)
    requires s.db.sessions.Keys <= s.issued && s.db.downloads.Keys <= s.issued && s.db.uploads.Keys <= s.issued
    ensures var s' := Sys(Apply(s.db, tx), s.issued + Hands(tx));
            HeldBy(s'.db, key, user, version) || Gone(s', key)
  {
    assert key !in Hands(tx);
    ApplyItem(s.db, tx, key);
    hide Apply, Hands;
  }

  /** A transaction that does not hand out a key leaves its entry alone, touches or claims it, or removes it. */
  lemma ApplyItem(db: Db, tx: Tx, key: string)
    requires key !in Hands(tx)
    ensures var after := Apply(db, tx);
            && (key in after.sessions ==> key in db.sessions && after.sessions[key].userId == db.sessions[key].userId
                                          && after.sessions[key].authVersion == db.sessions[key].authVersion)
            && (key in after.downloads ==> key in db.downloads && after.downloads[key] == db.downloads[key])
            && (key in after.uploads ==> key in db.uploads && after.uploads[key].userId == db.uploads[key].userId
                                         && after.uploads[key].issuedVersion == db.uploads[key].issuedVersion)
  {
  }

  /**
   A password change, and taking away the active status, leave nothing of the account open, in that
   same transaction.
   */
  lemma RevokingUpdateClosesEverything(
    db: Db, id: int, name: Option<string>, status: Option<string>, hash: string, expected: Option<int>)
    requires id in db.users && Revokes(db.users[id], status, hash)
    requires UpdateTx(db, id, name, status, hash, expected).1.Success?
    ensures var after := UpdateTx(db, id, name, status, hash, expected).0;
            && after.users[id].authVersion == db.users[id].authVersion + 1
            && (forall k | k in after.sessions :: after.sessions[k].userId != Some(id))
            && (forall k | k in after.downloads :: after.downloads[k].userId != Some(id))
            && (forall k | k in after.uploads && !after.uploads[k].used :: after.uploads[k].userId != Some(id))
  {
  }

  // ----- what single transactions store -----

  /**
   Everything an update does to the account. A refusal has one of two reasons and changes nothing. A
   success stores the given or else the old name, status and password, no password at all for a
   deleted account, and a version one higher exactly on a password change or a new status other
   than active.
   */
  lemma UpdateStores(
    db: Db, id: int, name: Option<string>, status: Option<string>, hash: string, expected: Option<int>)
    ensures var (after, r) := UpdateTx(db, id, name, status, hash, expected);
            && (r == Failure(NotFound) <==> id !in db.users)
            && (r == Failure(AccountChanged) <==>
                  && id in db.users
                  && (db.users[id].status == "deleted"
                      || (expected.Some? && (db.users[id].authVersion != expected.value
                          || db.users[id].status != "active"))))
            && (r.Failure? ==> after == db && r.error != SessionInvalid)
            && (r.Success? ==>
                  && id in after.users && r.value == after.users[id]
                  && var was, now := db.users[id], after.users[id];
                     var revoked := hash != "" || (status.Some? && status.value != was.status
                         && status.value != "active");
                     && now.displayName == (if name.Some? then name.value else was.displayName)
                     && now.status == (if status.Some? then status.value else was.status)
                     && now.passwordHash == (if now.status == "deleted" then "" else if hash != "" then hash
                         else was.passwordHash)
                     && now.authVersion == was.authVersion + (if revoked then 1 else 0))
  {
  }

  /** Every other account, and everything other accounts and the administrator have open, is as it was. */
  lemma UpdateLeavesOthers(
    db: Db, id: int, name: Option<string>, status: Option<string>, hash: string, expected: Option<int>)
    ensures var after := UpdateTx(db, id, name, status, hash, expected).0;
            && after.users.Keys == db.users.Keys && after.lastUserId == db.lastUserId
            && (forall x | x in db.users && x != id :: after.users[x] == db.users[x])
            && (forall k | k in after.sessions :: k in db.sessions && after.sessions[k] == db.sessions[k])
            && (forall k | k in after.downloads :: k in db.downloads && after.downloads[k] == db.downloads[k])
            && (forall k | k in after.uploads :: k in db.uploads && after.uploads[k] == db.uploads[k])
            && (forall k | k in db.sessions && db.sessions[k].userId != Some(id) :: k in after.sessions)
            && (forall k | k in db.downloads && db.downloads[k].userId != Some(id) :: k in after.downloads)
            && (forall k | k in db.uploads && (db.uploads[k].userId != Some(id) || db.uploads[k].used) ::
                k in after.uploads)
            && (id in db.users && after.users[id].authVersion == db.users[id].authVersion ==>
                  after.sessions == db.sessions && after.downloads == db.downloads && after.uploads == db.uploads)
  {
  }

  /** A login opens a session exactly for an active account at the version that was authenticated. */
  lemma LoginStores(db: Db, sid: string, userId: int, version: int, expiresAt: int, idle: int)
    ensures var (after, r) := CreateAccountSession(db, sid, userId, version, expiresAt, idle);
            && (r.Success? <==>
                  && userId in db.users
                  && db.users[userId].status == "active" && db.users[userId].authVersion == version)
            && (r.Failure? ==> after == db && r.error == AccountChanged)
            && (r.Success? ==>
                  && sid in after.sessions && after.sessions[sid] == Session(Some(userId), version, expiresAt, idle)
                  && after == db.(sessions := after.sessions) && after.sessions - {sid} == db.sessions - {sid})
  {
  }

  /** The session is there, not expired in either way, and its account, if any, is active at its version. */
  ghost predicate Works(db: Db, sid: string, now: int) {
    && sid in db.sessions
    && var s := db.sessions[sid];
    && now < s.expiresAt && now < s.idleExpiresAt
    && (s.userId.Some? ==>
          && s.userId.value in db.users
          && db.users[s.userId.value].status == "active" && db.users[s.userId.value].authVersion == s.authVersion)
  }

  /**
   A lease is issued to a public token without an owner, and to a session exactly while it works, for
   the session's account; nothing else changes.
   */
  lemma LeaseStores(db: Db, hash: string, fromSession: bool, sid: string, now: int, expiresAt: int)
    ensures var (after, r) := CreateDownloadLease(db, hash, fromSession, sid, now, expiresAt);
            && (r.Success? <==> fromSession ==> Works(db, sid, now))
            && (r.Failure? ==> after == db && r.error == SessionInvalid)
            && (r.Success? ==>
                  && hash in after.downloads
                  && after == db.(downloads := db.downloads[hash := after.downloads[hash]])
                  && var l := after.downloads[hash];
                     l.userId == (if fromSession then db.sessions[sid].userId else None) && l.expiresAt == expiresAt
                         && !l.used)
    ensures var (after, r) := CreateUploadLease(db, hash, fromSession, sid, now, expiresAt);
            && (r.Success? <==> fromSession ==> Works(db, sid, now))
            && (r.Failure? ==> after == db && r.error == SessionInvalid)
            && (r.Success? ==>
                  && hash in after.uploads
                  && after == db.(uploads := db.uploads[hash := after.uploads[hash]])
                  && var l := after.uploads[hash];
                     l.userId == (if fromSession then db.sessions[sid].userId else None) && l.expiresAt == expiresAt
                         && !l.used)
  {
  }

  /** A lease is good while it has not expired and its owner, if any, is active; an upload lease once. */
  lemma LeaseIsGood(db: Db, hash: string, now: int)
    ensures Admits(db, hash, now) <==>
              && hash in db.downloads && now < db.downloads[hash].expiresAt
              && (db.downloads[hash].userId.Some? ==>
                    db.downloads[hash].userId.value in db.users
                        && db.users[db.downloads[hash].userId.value].status == "active")
    ensures var (after, claimed) := ReserveUploadLease(db, hash, now);
            && (claimed <==>
                  && hash in db.uploads && !db.uploads[hash].used && now < db.uploads[hash].expiresAt
                  && (db.uploads[hash].userId.Some? ==>
                        db.uploads[hash].userId.value in db.users
                            && db.users[db.uploads[hash].userId.value].status == "active"))
            && (claimed ==> after == db.(uploads := db.uploads[hash := db.uploads[hash].(used := true)])
                            && !ReserveUploadLease(after, hash, now).1)
            && (!claimed ==> after == db)
  {
  }

  /** A new account gets a fresh id and the first version. */
  lemma AccountStores(db: Db, name: string, hash: string, status: string)
    requires forall id | id in db.users :: id <= db.lastUserId
    ensures var after := CreateAccount(db, name, hash, status);
            var id := after.lastUserId;
            && id !in db.users && id > db.lastUserId
                && after == db.(users := db.users[id := after.users[id]], lastUserId := id)
            && after.users[id] == User(name, status, hash, 1)
  {
  }

  /**
   A session without an account works until its time or its idle time is over, and touching one moves
   nothing but its idle time.
   */
  lemma SessionStores(db: Db, sid: string, expiresAt: int, idle: int, now: int)
    ensures var after := Apply(db, TxPlainSession(sid, expiresAt, idle));
            && (Works(after, sid, now) <==> now < expiresAt && now < idle)
            && sid in after.sessions && after.sessions[sid].userId == None
            && after == db.(sessions := db.sessions[sid := after.sessions[sid]])
    ensures var after := Apply(db, TxTouchSession(sid, idle));
            && (sid !in db.sessions ==> after == db)
            && (sid in db.sessions ==>
                  after == db.(sessions := db.sessions[sid := db.sessions[sid].(idleExpiresAt := idle)]))
  {
  }

  /** Expiry and logout take away exactly the sessions and leases they name. */
  lemma ForgetTakesNamed(db: Db, sids: set<string>, leases: set<string>, k: string)
    ensures var after := Apply(db, TxForget(sids, leases));
            && (k in after.sessions <==> k in db.sessions && k !in sids)
            && (k in after.downloads <==> k in db.downloads && k !in leases)
            && (k in after.uploads <==> k in db.uploads && k !in leases)
            && (k in after.sessions ==> after.sessions[k] == db.sessions[k])
            && (k in after.downloads ==> after.downloads[k] == db.downloads[k])
            && (k in after.uploads ==> after.uploads[k] == db.uploads[k])
            && after.users == db.users && after.lastUserId == db.lastUserId
  {
  }
}
