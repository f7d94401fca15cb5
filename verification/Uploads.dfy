/** Upload reservations and commits (internal/db/queries.go). */
module Uploads {
  import opened Tables
  import opened Totals
  import opened Integrity

  ghost predicate HasReservation(reservations: map<Id, Reservation>, a: Id, b: Digest) {
    exists r :: r in reservations && reservations[r].account == a && reservations[r].block == b
  }

  ghost function Reserve(db: Db, rid: Id, a: Id, d: Id, b: Digest, size: nat, now: int): (Db, Outcome<Reservation>) {
    var p := Purge(db, now);
    var row := Reservation(a, d, b, size, now + RESERVATION_SECONDS);
    if !InAccount(p, d, a) || !p.devices[d].active then (db, Err(InvalidUploadDevice))
    else if b in p.objects && p.objects[b].deleting then (db, Err(UploadInProgress))
    else if HasReservation(p.reservations, a, b) then (db, Err(UploadInProgress))
    else if a !in p.accounts then (db, Err(NoRow))
    else if (a, b) !in p.accountBlocks
            && p.accounts[a].used + Total(PendingCharges(p.accountBlocks, p.reservations, a)) + size
               > p.accounts[a].quota
    then (db, Err(QuotaExceeded))
    else if rid in p.reservations then (db, Err(Constraint))
    else (p.(reservations := p.reservations[rid := row]), Ok(row))
  }

  function Cancel(db: Db, rid: Id): Db {
    db.(reservations := db.reservations - {rid})
  }

  datatype Attached = Attached(objectCreated: bool, accountAssociation: bool, deviceAssociation: bool)

  function Commit(db: Db, rid: Id, now: int): (Db, Outcome<Attached>) {
    if rid !in db.reservations then (db, Err(ReservationMissing))
    else
      var r := db.reservations[rid];
      if r.expiresAt <= now then (db, Err(ReservationExpired))
      else if !InAccount(db, r.device, r.account) || !db.devices[r.device].active then (db, Err(InvalidUploadDevice))
      else if r.block in db.objects && db.objects[r.block].size != r.size then (db, Err(SizeConflict))
      else if r.block in db.objects && db.objects[r.block].deleting then (db, Err(UploadInProgress))
      else if (r.account, r.block) !in db.accountBlocks && r.account !in db.accounts then (db, Err(NoRow))
      else if (r.account, r.block) !in db.accountBlocks
              && db.accounts[r.account].used + r.size > db.accounts[r.account].quota
      then (db, Err(QuotaExceeded))
      else
        (Attach(db, rid), Ok(Attached(r.block !in db.objects, (r.account, r.block) !in db.accountBlocks,
                                      (r.device, r.block) !in db.deviceBlocks)))
  }

  // Object, account row with its charge, device row; the reservation is spent.
  function Attach(db: Db, rid: Id): Db
    requires rid in db.reservations
    requires var r := db.reservations[rid];
             (r.account, r.block) in db.accountBlocks || r.account in db.accounts
  {
    var r := db.reservations[rid];
    var size := if r.block in db.objects then db.objects[r.block].size else r.size;
    db.(objects := db.objects[r.block := Object(size, false, None)],
        accounts := if (r.account, r.block) in db.accountBlocks then db.accounts
                    else
                      var row := db.accounts[r.account];
                      db.accounts[r.account := row.(used := row.used + r.size)],
        accountBlocks := db.accountBlocks + {(r.account, r.block)},
        deviceBlocks := db.deviceBlocks + {(r.device, r.block)},
        reservations := db.reservations - {rid})
  }

  lemma ReservePaths(db: Db, rid: Id, a: Id, d: Id, b: Digest, size: nat, now: int)
    ensures var (after, out) := Reserve(db, rid, a, d, b, size, now);
            && (out.Err? ==> after == db)
            && (out.Ok? ==> after == db.(reservations := Purge(db, now).reservations[rid := out.value]))
            && (out.Ok? ==> out.value == Reservation(a, d, b, size, now + RESERVATION_SECONDS))
  {
    hide HasReservation, PendingCharges, Total, InAccount;
  }

  lemma CommitPaths(db: Db, rid: Id, now: int)
    ensures var (after, out) := Commit(db, rid, now);
            && (out.Err? ==> after == db)
            && (out.Ok? ==> rid in db.reservations)
            && (out.Ok? ==>
                  var r := db.reservations[rid];
                  ((r.account, r.block) in db.accountBlocks || r.account in db.accounts) && after == Attach(db, rid))
  {
    hide InAccount, Attach;
  }

  /** Cancelling what was just reserved undoes it, down to the expired reservations that went with it; the
      reservation can then never be committed. */
  lemma CancelUndoesReserve(db: Db, rid: Id, a: Id, d: Id, b: Digest, size: nat, now: int, later: int)
    ensures var (reserved, out) := Reserve(db, rid, a, d, b, size, now);
            out.Ok? ==>
              && Cancel(reserved, rid) == Purge(db, now)
              && Commit(Cancel(reserved, rid), rid, later) == (Cancel(reserved, rid), Err(ReservationMissing))
  {
    ReservedAnew(db, rid, a, d, b, size, now);
    PurgeKeepsTables(db, now);
    hide Purge, Reserve;
  }

  lemma ReservedAnew(db: Db, rid: Id, a: Id, d: Id, b: Digest, size: nat, now: int)
    ensures var (reserved, out) := Reserve(db, rid, a, d, b, size, now);
            out.Ok? ==>
              rid !in Purge(db, now).reservations
              && reserved == db.(reservations := Purge(db, now).reservations[rid := out.value])
  {
    ReservePaths(db, rid, a, d, b, size, now);
    hide HasReservation, PendingCharges, Total, InAccount;
  }

  // ---- invariants ----

  ghost predicate Sublist(kept: map<Id, Reservation>, all: map<Id, Reservation>) {
    kept.Keys <= all.Keys && forall r :: r in kept ==> kept[r] == all[r]
  }

  lemma SublistRefl(all: map<Id, Reservation>)
    ensures Sublist(all, all)
  {
  }

  lemma FewerReservationsKeepQuota(db: Db, kept: map<Id, Reservation>)
    requires QuotaOk(db.accounts, db.accountBlocks, db.sessions, db.reservations) && Sublist(kept, db.reservations)
    ensures QuotaOk(db.accounts, db.accountBlocks, db.sessions, kept)
  {
    forall a | a in db.accounts
      ensures AccountQuotaOk(db.accounts[a], a, db.accountBlocks, db.sessions, kept)
    {
      assert AccountQuotaOk(db.accounts[a], a, db.accountBlocks, db.sessions, db.reservations);
      TotalSubset(PendingCharges(db.accountBlocks, kept, a), PendingCharges(db.accountBlocks, db.reservations, a));
    }
  }

  lemma FewerReservationsOk(db: Db, kept: map<Id, Reservation>)
    requires ReservationsOk(db.accounts, db.devices, db.objects, db.reservations) && Sublist(kept, db.reservations)
    ensures ReservationsOk(db.accounts, db.devices, db.objects, kept)
  {
  }

  /** Dropping reservations, for whatever reason, frees quota and breaks nothing. */
  lemma FewerReservationsKeepInv(db: Db, kept: map<Id, Reservation>)
    requires Inv(db) && Sublist(kept, db.reservations)
    ensures Inv(db.(reservations := kept))
  {
    hide GroupsOk, RevisionsOk, ManifestsOk, CodesOk, SessionsOk, BlocksOk, ReservationsOk, QuotaOk, Sublist;
    FewerReservationsKeepQuota(db, kept);
    FewerReservationsOk(db, kept);
  }

  lemma PurgeKeepsTables(db: Db, now: int)
    ensures Purge(db, now) == db.(reservations := Purge(db, now).reservations)
  {
  }

  lemma PurgeKeepsInv(db: Db, now: int)
    requires Inv(db)
    ensures Inv(Purge(db, now))
  {
    hide Inv;
    FewerReservationsKeepInv(db, Purge(db, now).reservations);
  }

  lemma CancelKeepsInv(db: Db, rid: Id)
    requires Inv(db)
    ensures Inv(Cancel(db, rid))
  {
    hide Inv;
    FewerReservationsKeepInv(db, db.reservations - {rid});
  }

  /** A new reservation is pending exactly when the account does not hold the block yet. */
  lemma NewReservationCharges(accountBlocks: set<(Id, Digest)>, reservations: map<Id, Reservation>,
                              rid: Id, row: Reservation, a: Id)
    requires rid !in reservations
    ensures rid !in PendingCharges(accountBlocks, reservations, a)
    ensures PendingCharges(accountBlocks, reservations[rid := row], a)
         == if a == row.account && (a, row.block) !in accountBlocks
            then PendingCharges(accountBlocks, reservations, a)[rid := row.size]
            else PendingCharges(accountBlocks, reservations, a)
  {
  }

  lemma NewReservationKeepsQuota(db: Db, rid: Id, row: Reservation)
    requires QuotaOk(db.accounts, db.accountBlocks, db.sessions, db.reservations)
    requires rid !in db.reservations && row.account in db.accounts
    requires (row.account, row.block) in db.accountBlocks
          || db.accounts[row.account].used + Total(PendingCharges(db.accountBlocks, db.reservations, row.account))
             + row.size
             <= db.accounts[row.account].quota
    ensures QuotaOk(db.accounts, db.accountBlocks, db.sessions, db.reservations[rid := row])
  {
    hide Total, BlockCharges, SessionCharges, PendingCharges;
    forall a | a in db.accounts
      ensures AccountQuotaOk(db.accounts[a], a, db.accountBlocks, db.sessions, db.reservations[rid := row])
    {
      assert AccountQuotaOk(db.accounts[a], a, db.accountBlocks, db.sessions, db.reservations);
      NewReservationCharges(db.accountBlocks, db.reservations, rid, row, a);
      TotalInsert(PendingCharges(db.accountBlocks, db.reservations, a), rid, row.size);
    }
  }

  lemma NewReservationOk(db: Db, rid: Id, row: Reservation)
    requires ReservationsOk(db.accounts, db.devices, db.objects, db.reservations)
    requires rid !in db.reservations && row.account in db.accounts && InAccount(db, row.device, row.account)
    requires row.size == |row.block.data| && (row.block in db.objects ==> !db.objects[row.block].deleting)
    requires !HasReservation(db.reservations, row.account, row.block)
    ensures ReservationsOk(db.accounts, db.devices, db.objects, db.reservations[rid := row])
  {
  }

  lemma ReserveKeepsInv(db: Db, rid: Id, a: Id, d: Id, b: Digest, now: int)
    requires Inv(db)
    ensures Inv(Reserve(db, rid, a, d, b, |b.data|, now).0)
  {
    hide GroupsOk, RevisionsOk, ManifestsOk, CodesOk, SessionsOk, BlocksOk, ReservationsOk, QuotaOk,
         HasReservation, Purge, PendingCharges, Total;
    var p := Purge(db, now);
    PurgeKeepsInv(db, now);
    var (after, out) := Reserve(db, rid, a, d, b, |b.data|, now);
    if out.Ok? {
      NewReservationKeepsQuota(p, rid, out.value);
      NewReservationOk(p, rid, out.value);
    }
  }

  /** The reservation itself keeps room for its block, so a commit that reaches the quota check passes it. */
  lemma ReservedRoom(db: Db, rid: Id)
    requires QuotaOk(db.accounts, db.accountBlocks, db.sessions, db.reservations) && rid in db.reservations
    requires var r := db.reservations[rid]; r.account in db.accounts && (r.account, r.block) !in db.accountBlocks
    ensures var r := db.reservations[rid]; db.accounts[r.account].used + r.size <= db.accounts[r.account].quota
  {
    var r := db.reservations[rid];
    assert AccountQuotaOk(db.accounts[r.account], r.account, db.accountBlocks, db.sessions, db.reservations);
    TotalRemove(PendingCharges(db.accountBlocks, db.reservations, r.account), rid);
  }

  lemma ReservationUsable(db: Db, rid: Id)
    requires rid in db.reservations && ReservationsOk(db.accounts, db.devices, db.objects, db.reservations)
    requires ObjectsOk(db.objects, db.accountBlocks)
    ensures var r := db.reservations[rid];
            && r.account in db.accounts && InAccount(db, r.device, r.account) && r.size == |r.block.data|
            && (r.block in db.objects ==> db.objects[r.block].size == r.size && !db.objects[r.block].deleting)
  {
  }

  /** A commit of an existing reservation succeeds exactly when it is unexpired and its device still active: the size
      conflict, the deleting object and above all the quota refusal are unreachable. */
  lemma CommitOutcome(db: Db, rid: Id, now: int)
    requires Inv(db) && rid in db.reservations
    ensures var r := db.reservations[rid];
            var out := Commit(db, rid, now).1;
            && (out.Ok? <==> now < r.expiresAt && db.devices[r.device].active)
            && (out.Err? ==> out.error == if r.expiresAt <= now then ReservationExpired else InvalidUploadDevice)
  {
    hide GroupsOk, RevisionsOk, ManifestsOk, CodesOk, SessionsOk, ReservationsOk, ObjectsOk, QuotaOk;
    ReservationUsable(db, rid);
    var r := db.reservations[rid];
    if (r.account, r.block) !in db.accountBlocks {
      ReservedRoom(db, rid);
    }
  }

  lemma AttachCharges(accountBlocks: set<(Id, Digest)>, reservations: map<Id, Reservation>, rid: Id, a: Id)
    requires ReservationsUnique(reservations) && rid in reservations
    ensures var r := reservations[rid];
            var held := accountBlocks + {(r.account, r.block)};
            var isNew := a == r.account && (r.account, r.block) !in accountBlocks;
            && BlockCharges(held, a) == (if isNew then BlockCharges(accountBlocks, a)[(a, r.block) := |r.block.data|]
                                         else BlockCharges(accountBlocks, a))
            && PendingCharges(held, reservations - {rid}, a)
               == (if isNew then PendingCharges(accountBlocks, reservations, a) - {rid}
                   else PendingCharges(accountBlocks, reservations, a))
            && (isNew ==> (a, r.block) !in BlockCharges(accountBlocks, a))
            && (isNew ==> rid in PendingCharges(accountBlocks, reservations, a))
            && (isNew ==> PendingCharges(accountBlocks, reservations, a)[rid] == r.size)
  {
  }

  /** Room moves from the reservation to the counter: their sum does not change. */
  lemma AttachKeepsQuota(db: Db, rid: Id)
    requires QuotaOk(db.accounts, db.accountBlocks, db.sessions, db.reservations)
    requires ReservationsUnique(db.reservations) && rid in db.reservations
    requires var r := db.reservations[rid]; r.size == |r.block.data| && r.account in db.accounts
    ensures var after := Attach(db, rid);
            QuotaOk(after.accounts, after.accountBlocks, after.sessions, after.reservations)
  {
    hide Total, BlockCharges, SessionCharges, PendingCharges, ReservationsUnique;
    var after := Attach(db, rid);
    var r := db.reservations[rid];
    forall a | a in after.accounts
      ensures AccountQuotaOk(after.accounts[a], a, after.accountBlocks, after.sessions, after.reservations)
    {
      assert AccountQuotaOk(db.accounts[a], a, db.accountBlocks, db.sessions, db.reservations);
      AttachCharges(db.accountBlocks, db.reservations, rid, a);
      if a == r.account && (r.account, r.block) !in db.accountBlocks {
        TotalInsert(BlockCharges(db.accountBlocks, a), (a, r.block), r.size);
        TotalRemove(PendingCharges(db.accountBlocks, db.reservations, a), rid);
      }
    }
  }

  lemma AttachKeepsObjects(db: Db, rid: Id)
    requires ObjectsOk(db.objects, db.accountBlocks) && rid in db.reservations
    requires var r := db.reservations[rid]; r.size == |r.block.data| && r.account in db.accounts
    ensures ObjectsOk(Attach(db, rid).objects, Attach(db, rid).accountBlocks)
  {
    var after := Attach(db, rid);
    var r := db.reservations[rid];
    assert (r.account, r.block) in after.accountBlocks;
    forall b | b in after.objects && b != r.block
      ensures Referenced(after.accountBlocks, b) <==> Referenced(db.accountBlocks, b)
    {
      assert forall a :: (a, b) in after.accountBlocks <==> (a, b) in db.accountBlocks;
    }
  }

  lemma AttachKeepsBlocks(db: Db, rid: Id)
    requires BlocksOk(db.accounts, db.devices, db.objects, db.accountBlocks, db.deviceBlocks) && rid in db.reservations
    requires var r := db.reservations[rid];
             && r.size == |r.block.data| && r.account in db.accounts
             && InAccount(db, r.device, r.account) && db.devices[r.device].group.Some?
    ensures var after := Attach(db, rid);
            BlocksOk(after.accounts, after.devices, after.objects, after.accountBlocks, after.deviceBlocks)
  {
    AttachKeepsObjects(db, rid);
    hide ObjectsOk;
  }

  lemma AttachKeepsReservations(db: Db, rid: Id)
    requires ReservationsOk(db.accounts, db.devices, db.objects, db.reservations) && rid in db.reservations
    ensures var after := Attach(db, rid);
            ReservationsOk(after.accounts, after.devices, after.objects, after.reservations)
  {
  }

  lemma AttachKeepsGroups(db: Db, rid: Id)
    requires GroupsOk(db.accounts, db.groups, db.devices) && rid in db.reservations
    requires db.reservations[rid].account in db.accounts
    ensures var after := Attach(db, rid); GroupsOk(after.accounts, after.groups, after.devices)
    ensures forall d :: d in db.devices && db.devices[d].active ==> db.devices[d].group.Some?
  {
  }

  lemma CommitKeepsInv(db: Db, rid: Id, now: int)
    requires Inv(db)
    ensures Inv(Commit(db, rid, now).0)
  {
    hide GroupsOk, RevisionsOk, ManifestsOk, CodesOk, SessionsOk, ReservationsOk, ObjectsOk, QuotaOk;
    if Commit(db, rid, now).1.Ok? {
      ReservationUsable(db, rid);
      AttachKeepsGroups(db, rid);
      AttachKeepsQuota(db, rid) by { UniqueReservations(db); }
      AttachKeepsBlocks(db, rid);
      AttachKeepsReservations(db, rid);
      hide BlocksOk;
    }
  }

  lemma UniqueReservations(db: Db)
    requires ReservationsOk(db.accounts, db.devices, db.objects, db.reservations)
    ensures ReservationsUnique(db.reservations)
  {
  }
}
