/** Row-based garbage collection: claiming orphaned objects and finalising their deletion. */
module Collection {
  import opened Tables
  import opened Integrity
  import opened Uploads

  ghost predicate Reserved(reservations: map<Id, Reservation>, b: Digest) {
    exists r :: r in reservations && reservations[r].block == b
  }

  // The WHERE clause of the claiming SELECT.
  ghost predicate Collectible(db: Db, b: Digest, before: int) {
    && b in db.objects
    && (db.objects[b].deleting || (db.objects[b].orphanedAt.Some? && db.objects[b].orphanedAt.value <= before))
    && !Referenced(db.accountBlocks, b) && !Reserved(db.reservations, b)
  }

  function OrphanKey(o: Object): int {
    if o.orphanedAt.Some? then o.orphanedAt.value else 0
  }

  function Limit(limit: int): nat {
    if limit <= 0 || limit > 1000 then CLAIM_LIMIT else limit
  }

  ghost function AllCollectible(db: Db, before: int): set<Digest> {
    set b | b in db.objects && Collectible(db, b, before)
  }

  /** A possible answer of the claiming SELECT: collectible rows, as many as the limit admits, oldest marks first.
      Ties are open (the source breaks them by block id). */
  ghost predicate ClaimAnswer(db: Db, before: int, limit: int, ids: set<Digest>) {
    var all := AllCollectible(db, before);
    && ids <= all
    && |ids| == (if |all| <= Limit(limit) then |all| else Limit(limit))
    && (forall b, c :: b in ids && c in all && c !in ids ==> OrphanKey(db.objects[b]) <= OrphanKey(db.objects[c]))
  }

  /** ORDER BY the orphan marks. */
  ghost predicate OldestFirst(objects: map<Digest, Object>, ids: seq<Digest>) {
    forall i, j :: 0 <= i < j < |ids| ==>
      ids[i] in objects && ids[j] in objects && OrphanKey(objects[ids[i]]) <= OrphanKey(objects[ids[j]])
  }

  // ClaimCollectibleBlocks, given the answer of its SELECT. The UPDATE repeats the two NOT EXISTS tests.
  ghost function Claim(db: Db, before: int, now: int, limit: int, ids: set<Digest>): Db {
    var p := Purge(db, now);
    if !ClaimAnswer(p, before, limit, ids) then db
    else p.(objects := MarkDeleting(p, ids))
  }

  ghost function MarkDeleting(db: Db, ids: set<Digest>): map<Digest, Object> {
    map b | b in db.objects ::
      if b in ids && !Referenced(db.accountBlocks, b) && !Reserved(db.reservations, b)
      then db.objects[b].(deleting := true) else db.objects[b]
  }

  ghost predicate Finalizable(db: Db, b: Digest) {
    b in db.objects && db.objects[b].deleting && !Referenced(db.accountBlocks, b) && !Reserved(db.reservations, b)
  }

  // FinalizeBlockDeletion: deleting the object row cascades to account_blocks and device_blocks.
  ghost function Finalize(db: Db, b: Digest): (Db, bool) {
    if Finalizable(db, b) then (DeleteObject(db, b), true) else (db, false)
  }

  function DeleteObject(db: Db, b: Digest): Db {
    db.(objects := db.objects - {b},
        accountBlocks := (set p | p in db.accountBlocks && p.1 != b),
        deviceBlocks := set p | p in db.deviceBlocks && p.1 != b)
  }

  lemma ClaimPaths(db: Db, before: int, now: int, limit: int, ids: set<Digest>)
    ensures var after := Claim(db, before, now, limit, ids);
            after == db || after == Purge(db, now).(objects := MarkDeleting(Purge(db, now), ids))
  {
    hide Purge, ClaimAnswer, MarkDeleting;
  }

  lemma ClaimKeepsMarks(db: Db, before: int, now: int, limit: int, ids: set<Digest>)
    ensures var after := Claim(db, before, now, limit, ids);
            && after.accountBlocks == db.accountBlocks && after.objects.Keys == db.objects.Keys
            && forall b :: b in db.objects ==> after.objects[b].orphanedAt == db.objects[b].orphanedAt
  {
    ClaimPaths(db, before, now, limit, ids);
    hide Claim, Referenced, Reserved;
  }

  lemma FinalizePaths(db: Db, b: Digest)
    ensures Finalize(db, b).0 == db || Finalize(db, b).0 == DeleteObject(db, b)
  {
    hide Finalizable, DeleteObject;
  }

  // ---- invariants ----

  lemma ClaimKeepsObjects(db: Db, before: int, now: int, limit: int, ids: set<Digest>)
    requires ObjectsOk(db.objects, db.accountBlocks)
    ensures ObjectsOk(Claim(db, before, now, limit, ids).objects, db.accountBlocks)
  {
    hide Referenced, Reserved;
  }

  lemma ClaimKeepsRows(db: Db, before: int, now: int, limit: int, ids: set<Digest>)
    requires BlocksOk(db.accounts, db.devices, db.objects, db.accountBlocks, db.deviceBlocks)
    requires ReservationsOk(db.accounts, db.devices, db.objects, db.reservations)
    ensures var after := Claim(db, before, now, limit, ids);
            && BlocksOk(after.accounts, after.devices, after.objects, after.accountBlocks, after.deviceBlocks)
            && ReservationsOk(after.accounts, after.devices, after.objects, after.reservations)
  {
    ClaimKeepsObjects(db, before, now, limit, ids);
    ClaimKeepsReservations(db, before, now, limit, ids);
    hide ObjectsOk, Referenced, ClaimAnswer, ReservationsOk, Reserved;
  }

  lemma ClaimKeepsReservations(db: Db, before: int, now: int, limit: int, ids: set<Digest>)
    requires ReservationsOk(db.accounts, db.devices, db.objects, db.reservations)
    ensures var after := Claim(db, before, now, limit, ids);
            ReservationsOk(after.accounts, after.devices, after.objects, after.reservations)
  {
    hide Referenced, ClaimAnswer;
  }

  lemma ClaimKeepsInv(db: Db, before: int, now: int, limit: int, ids: set<Digest>)
    requires Inv(db)
    ensures Inv(Claim(db, before, now, limit, ids))
  {
    hide GroupsOk, RevisionsOk, ManifestsOk, CodesOk, SessionsOk, BlocksOk, ReservationsOk, QuotaOk,
         ClaimAnswer, Purge, Referenced, Reserved;
    PurgeKeepsInv(db, now);
    ClaimKeepsRows(db, before, now, limit, ids);
    PurgeKeepsTables(db, now);
  }

  /** A deleting object has no account row and no reservation, so finalising it always succeeds and cascades onto
      nothing. */
  lemma FinalizeEffect(db: Db, b: Digest)
    requires Inv(db)
    ensures Finalizable(db, b) <==> b in db.objects && db.objects[b].deleting
    ensures Finalizable(db, b) ==> Finalize(db, b).0 == db.(objects := db.objects - {b})
    ensures b in db.objects && db.objects[b].deleting ==>
              !Referenced(db.accountBlocks, b) && !Reserved(db.reservations, b)
  {
    hide GroupsOk, RevisionsOk, ManifestsOk, CodesOk, SessionsOk, QuotaOk, ReservationsUnique;
    if Finalizable(db, b) {
      assert forall p :: p in db.accountBlocks && p.1 == b ==> (p.0, b) in db.accountBlocks;
      assert DeleteObject(db, b).accountBlocks == db.accountBlocks;
      assert DeleteObject(db, b).deviceBlocks == db.deviceBlocks;
    }
  }

  lemma DroppedObjectKeepsRows(db: Db, b: Digest)
    requires BlocksOk(db.accounts, db.devices, db.objects, db.accountBlocks, db.deviceBlocks)
    requires ReservationsOk(db.accounts, db.devices, db.objects, db.reservations) && !Referenced(db.accountBlocks, b)
    ensures BlocksOk(db.accounts, db.devices, db.objects - {b}, db.accountBlocks, db.deviceBlocks)
    ensures ReservationsOk(db.accounts, db.devices, db.objects - {b}, db.reservations)
  {
    forall p | p in db.accountBlocks ensures p.1 != b {
      assert (p.0, p.1) in db.accountBlocks;
    }
  }

  lemma FinalizeKeepsInv(db: Db, b: Digest)
    requires Inv(db)
    ensures Inv(Finalize(db, b).0)
  {
    hide GroupsOk, RevisionsOk, ManifestsOk, CodesOk, SessionsOk, BlocksOk, ReservationsOk, QuotaOk, Referenced,
         Reserved;
    FinalizeEffect(db, b);
    if Finalizable(db, b) { DroppedObjectKeepsRows(db, b); }
  }
}
