/** Manifests (internal/db/queries.go) and session files (internal/db/session_files.go): versioned writes. */
module Documents {
  import opened Tables
  import opened Totals
  import opened Integrity
  import opened Uploads

  datatype ManifestPut = ManifestPut(version: int, currentVersion: int, conflict: bool, idempotent: bool)

  // PutDeviceManifest
  function PutManifest(db: Db, d: Id, base: int, ciphertext: Bytes): (Db, Outcome<ManifestPut>) {
    if d !in db.heads || d !in db.devices then (db, Err(NoRow))
    else if !db.devices[d].active then (db, Err(InactiveDevice))
    else
      var current := db.heads[d];
      if current != base then
        if current == base + 1 && (d, current) in db.manifests && db.manifests[(d, current)].hash == Sha256(ciphertext)
        then (db, Ok(ManifestPut(current, current, false, true)))
        else (db, Ok(ManifestPut(0, current, true, false)))
      else if (d, current + 1) in db.manifests || current + 1 <= 0 then (db, Err(Constraint))
      else
        (db.(manifests := db.manifests[(d, current + 1) := Manifest(ciphertext, Sha256(ciphertext))],
             heads := db.heads[d := current + 1]),
         Ok(ManifestPut(current + 1, current + 1, false, false)))
  }

  // revalidateSessionWriter
  function WriterError(db: Db, a: Id, g: Id, d: Id): Option<Error> {
    if !InGroup(db, d, a, g) then Some(GroupChanged)
    else if !db.devices[d].active then Some(InactiveDevice)
    else if !OwnedGroup(db, g, a) then Some(GroupChanged)
    else None
  }

  datatype SessionPut = SessionPut(version: int, currentVersion: int, size: int, conflict: bool)
  datatype SessionDelete = SessionDelete(deleted: bool, currentVersion: int, reclaimed: int, conflict: bool)

  function AddUsed(accounts: map<Id, Account>, a: Id, delta: int): map<Id, Account> {
    if a in accounts then accounts[a := accounts[a].(used := accounts[a].used + delta)] else accounts
  }

  // PutSessionFileCAS. A version conflict still commits the purge of expired reservations.
  ghost function PutSession(db: Db, a: Id, g: Id, d: Id, s: string, base: int, ciphertext: Bytes,
                            now: int): (Db, Outcome<SessionPut>)
  {
    var p := Purge(db, now);
    var k := (a, s);
    var current := if k in p.sessions then p.sessions[k].version else 0;
    var delta := |ciphertext| - (if k in p.sessions then |p.sessions[k].ciphertext| else 0);
    if WriterError(db, a, g, d).Some? then (db, Err(WriterError(db, a, g, d).value))
    else if k in p.sessions && p.sessions[k].group != g then (db, Err(SessionIdConflict))
    else if current != base then (p, Ok(SessionPut(0, current, 0, true)))
    else if delta > 0 && a !in p.accounts then (db, Err(NoRow))
    else if delta > 0
            && p.accounts[a].used + Total(PendingCharges(p.accountBlocks, p.reservations, a)) + delta
               > p.accounts[a].quota
    then (db, Err(QuotaExceeded))
    else if !(1 <= |ciphertext| <= MAX_SESSION_BYTES) || a !in p.accounts || p.accounts[a].used + delta < 0
    then (db, Err(Constraint))
    else
      (p.(sessions := p.sessions[k := Session(g, current + 1, ciphertext)], accounts := AddUsed(p.accounts, a, delta)),
       Ok(SessionPut(current + 1, current + 1, |ciphertext|, false)))
  }

  // DeleteSessionFileCAS
  function DeleteSession(db: Db, a: Id, g: Id, d: Id, s: string, base: int): (Db, Outcome<SessionDelete>) {
    var k := (a, s);
    if WriterError(db, a, g, d).Some? then (db, Err(WriterError(db, a, g, d).value))
    else if k !in db.sessions || db.sessions[k].group != g then (db, Ok(SessionDelete(false, 0, 0, false)))
    else if db.sessions[k].version != base then (db, Ok(SessionDelete(false, db.sessions[k].version, 0, true)))
    else
      var size := |db.sessions[k].ciphertext|;
      if a in db.accounts && db.accounts[a].used - size < 0 then (db, Err(Constraint))
      else (db.(sessions := db.sessions - {k}, accounts := AddUsed(db.accounts, a, -size)),
            Ok(SessionDelete(true, 0, size, false)))
  }

  lemma PutSessionPaths(db: Db, a: Id, g: Id, d: Id, s: string, base: int, ciphertext: Bytes, now: int)
    ensures var after := PutSession(db, a, g, d, s, base, ciphertext, now).0;
            || after == db
            || after == Purge(db, now).(sessions := after.sessions, accounts := after.accounts)
  {
    hide Purge, WriterError, AddUsed, PendingCharges, Total;
  }

  lemma DeleteSessionPaths(db: Db, a: Id, g: Id, d: Id, s: string, base: int)
    ensures var after := DeleteSession(db, a, g, d, s, base).0;
            after == db || after == db.(sessions := after.sessions, accounts := after.accounts)
  {
    hide WriterError, AddUsed;
  }

  lemma PutManifestPaths(db: Db, d: Id, base: int, ciphertext: Bytes)
    ensures var after := PutManifest(db, d, base, ciphertext).0;
            after == db.(heads := after.heads, manifests := after.manifests)
  {
  }

  // ---- invariants ----

  lemma PutManifestKeepsInv(db: Db, d: Id, base: int, ciphertext: Bytes)
    requires Inv(db)
    ensures Inv(PutManifest(db, d, base, ciphertext).0)
  {
    hide GroupsOk, RevisionsOk, ManifestsOk, CodesOk, SessionsOk, BlocksOk, ReservationsOk, QuotaOk;
    if d in db.heads { AppendKeepsManifests(db, d, ciphertext); }
  }

  lemma AppendKeepsManifests(db: Db, d: Id, ciphertext: Bytes)
    requires ManifestsOk(db.devices, db.heads, db.manifests) && d in db.heads
    ensures var next := db.heads[d] + 1;
            ManifestsOk(db.devices, db.heads[d := next],
                        db.manifests[(d, next) := Manifest(ciphertext, Sha256(ciphertext))])
  {
  }

  lemma SetSessionCharges(sessions: map<(Id, string), Session>, k: (Id, string), row: Session, x: Id)
    ensures SessionCharges(sessions[k := row], x)
         == if x == k.0 then SessionCharges(sessions, x)[k := |row.ciphertext|] else SessionCharges(sessions, x)
    ensures x == k.0 ==> (k in sessions <==> k in SessionCharges(sessions, x))
    ensures x == k.0 && k in sessions ==> SessionCharges(sessions, x)[k] == |sessions[k].ciphertext|
  {
  }

  function SessionBytes(sessions: map<(Id, string), Session>, k: (Id, string)): nat {
    if k in sessions then |sessions[k].ciphertext| else 0
  }

  lemma SetSessionKeepsQuota(db: Db, k: (Id, string), row: Session)
    requires QuotaOk(db.accounts, db.accountBlocks, db.sessions, db.reservations) && k.0 in db.accounts
    requires var delta := |row.ciphertext| - SessionBytes(db.sessions, k);
             delta <= 0 || db.accounts[k.0].used + Total(PendingCharges(db.accountBlocks, db.reservations, k.0)) + delta
                           <= db.accounts[k.0].quota
    ensures QuotaOk(AddUsed(db.accounts, k.0, |row.ciphertext| - SessionBytes(db.sessions, k)), db.accountBlocks,
                    db.sessions[k := row], db.reservations)
  {
    hide Total, BlockCharges, SessionCharges, PendingCharges;
    var accounts := AddUsed(db.accounts, k.0, |row.ciphertext| - SessionBytes(db.sessions, k));
    forall x | x in accounts
      ensures AccountQuotaOk(accounts[x], x, db.accountBlocks, db.sessions[k := row], db.reservations)
    {
      assert AccountQuotaOk(db.accounts[x], x, db.accountBlocks, db.sessions, db.reservations);
      SetSessionCharges(db.sessions, k, row, x);
      if x == k.0 {
        if k in db.sessions {
          TotalReplace(SessionCharges(db.sessions, x), k, |row.ciphertext|);
        } else {
          TotalInsert(SessionCharges(db.sessions, x), k, |row.ciphertext|);
        }
      }
    }
  }

  lemma ChargedSessionFits(db: Db, k: (Id, string))
    requires QuotaOk(db.accounts, db.accountBlocks, db.sessions, db.reservations)
    requires k in db.sessions && k.0 in db.accounts
    ensures |db.sessions[k].ciphertext| <= db.accounts[k.0].used
  {
    assert AccountQuotaOk(db.accounts[k.0], k.0, db.accountBlocks, db.sessions, db.reservations);
    TotalRemove(SessionCharges(db.sessions, k.0), k);
  }

  lemma DropSessionKeepsQuota(db: Db, k: (Id, string))
    requires QuotaOk(db.accounts, db.accountBlocks, db.sessions, db.reservations)
    requires k in db.sessions && k.0 in db.accounts
    ensures QuotaOk(AddUsed(db.accounts, k.0, -|db.sessions[k].ciphertext|), db.accountBlocks, db.sessions - {k},
                    db.reservations)
  {
    hide Total, BlockCharges, PendingCharges;
    var accounts := AddUsed(db.accounts, k.0, -|db.sessions[k].ciphertext|);
    forall x | x in accounts
      ensures AccountQuotaOk(accounts[x], x, db.accountBlocks, db.sessions - {k}, db.reservations)
    {
      assert AccountQuotaOk(db.accounts[x], x, db.accountBlocks, db.sessions, db.reservations);
      if x == k.0 {
        TotalRemove(SessionCharges(db.sessions, x), k);
        assert SessionCharges(db.sessions - {k}, x) == SessionCharges(db.sessions, x) - {k};
      } else {
        assert SessionCharges(db.sessions - {k}, x) == SessionCharges(db.sessions, x);
      }
    }
  }

  lemma AddUsedKeepsRows(db: Db, a: Id, delta: int)
    requires GroupsOk(db.accounts, db.groups, db.devices)
    requires BlocksOk(db.accounts, db.devices, db.objects, db.accountBlocks, db.deviceBlocks)
    requires ReservationsOk(db.accounts, db.devices, db.objects, db.reservations)
    ensures var accounts := AddUsed(db.accounts, a, delta);
            && GroupsOk(accounts, db.groups, db.devices)
            && BlocksOk(accounts, db.devices, db.objects, db.accountBlocks, db.deviceBlocks)
            && ReservationsOk(accounts, db.devices, db.objects, db.reservations)
  {
    hide ObjectsOk, ReservationsUnique;
  }

  lemma PutSessionKeepsInv(db: Db, a: Id, g: Id, d: Id, s: string, base: int, ciphertext: Bytes, now: int)
    requires Inv(db)
    ensures Inv(PutSession(db, a, g, d, s, base, ciphertext, now).0)
  {
    hide GroupsOk, RevisionsOk, ManifestsOk, CodesOk, BlocksOk, ReservationsOk, QuotaOk, SessionsOk,
         Purge, PendingCharges, Total, AddUsed;
    var p := Purge(db, now);
    PurgeKeepsInv(db, now);
    PurgeKeepsTables(db, now);
    var (after, out) := PutSession(db, a, g, d, s, base, ciphertext, now);
    if out.Ok? && !out.value.conflict {
      var row := Session(g, base + 1, ciphertext);
      SetSessionKeepsQuota(p, (a, s), row);
      SetSessionOk(p, (a, s), row);
      AddUsedKeepsRows(p, a, |ciphertext| - SessionBytes(p.sessions, (a, s)));
    }
  }

  lemma SetSessionOk(db: Db, k: (Id, string), row: Session)
    requires SessionsOk(db.groups, db.sessions) && OwnedGroup(db, row.group, k.0)
    requires 1 <= |row.ciphertext| <= MAX_SESSION_BYTES
    requires row.version == (if k in db.sessions then db.sessions[k].version else 0) + 1
    ensures SessionsOk(db.groups, db.sessions[k := row])
  {
  }

  lemma DropSessionOk(db: Db, k: (Id, string))
    requires SessionsOk(db.groups, db.sessions)
    ensures SessionsOk(db.groups, db.sessions - {k})
  {
  }

  lemma SessionAccount(db: Db, k: (Id, string))
    requires SessionsOk(db.groups, db.sessions) && GroupsOk(db.accounts, db.groups, db.devices) && k in db.sessions
    ensures k.0 in db.accounts
  {
  }

  lemma DeleteSessionKeepsInv(db: Db, a: Id, g: Id, d: Id, s: string, base: int)
    requires Inv(db)
    ensures Inv(DeleteSession(db, a, g, d, s, base).0)
  {
    hide GroupsOk, RevisionsOk, ManifestsOk, CodesOk, BlocksOk, ReservationsOk, QuotaOk, SessionsOk, AddUsed;
    var (after, out) := DeleteSession(db, a, g, d, s, base);
    if out.Ok? && out.value.deleted {
      SessionAccount(db, (a, s));
      DropSessionKeepsQuota(db, (a, s));
      DropSessionOk(db, (a, s));
      AddUsedKeepsRows(db, a, -|db.sessions[(a, s)].ciphertext|);
    }
  }
}
