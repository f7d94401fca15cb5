/** Releasing account blocks that no device holds any more: pruning and the clean-up after a discard. */
module Release {
  import opened Tables
  import opened Totals
  import opened Integrity

  function Max(x: int, y: int): int {
    if x < y then y else x
  }

  /** The block is charged to the account and no device of the account holds it. */
  ghost predicate Loose(db: Db, a: Id, b: Digest) {
    (a, b) in db.accountBlocks && !HeldByDevice(db, a, b)
  }

  // releaseUnreferencedAccountBlock
  ghost function ReleaseBlock(db: Db, a: Id, b: Digest, now: int): Db {
    if HeldByDevice(db, a, b) || (a, b) !in db.accountBlocks || b !in db.objects then db
    else
      var left := db.accountBlocks - {(a, b)};
      db.(accountBlocks := left,
          accounts := Credit(db.accounts, a, db.objects[b].size),
          objects := OrphanIfUnreferenced(db.objects, left, b, now))
  }

  // `used_bytes = MAX(0, used_bytes - size)`
  function Credit(accounts: map<Id, Account>, a: Id, size: nat): map<Id, Account> {
    if a in accounts then accounts[a := accounts[a].(used := Max(0, accounts[a].used - size))] else accounts
  }

  ghost function OrphanIfUnreferenced(objects: map<Digest, Object>, left: set<(Id, Digest)>, b: Digest,
                                      now: int): map<Digest, Object>
    requires b in objects
  {
    if Referenced(left, b) || objects[b].deleting then objects else objects[b := MarkOrphan(objects[b], now)]
  }

  // `orphaned_at = COALESCE(orphaned_at, now)`
  function MarkOrphan(o: Object, now: int): Object {
    if o.orphanedAt.Some? then o else o.(orphanedAt := Some(now))
  }

  ghost function Reclaimed(db: Db, a: Id, b: Digest): nat {
    if Loose(db, a, b) && b in db.objects then db.objects[b].size else 0
  }

  ghost predicate Orphaned(db: Db, a: Id, b: Digest) {
    Loose(db, a, b) && b in db.objects && !Referenced(db.accountBlocks - {(a, b)}, b)
  }

  function Detach(db: Db, D: set<Id>, b: Digest): Db {
    db.(deviceBlocks := Detached(db.deviceBlocks, D, {b}))
  }

  /** For each id in turn: detach it from the devices D, then release it if that left it loose. */
  ghost function PruneAll(db: Db, a: Id, D: set<Id>, ids: seq<Digest>, now: int): Db
    decreases |ids|
  {
    if ids == [] then db
    else PruneAll(ReleaseBlock(Detach(db, D, ids[0]), a, ids[0], now), a, D, ids[1..], now)
  }

  /** The clean-up after a discard detaches nothing. */
  ghost function ReleaseAll(db: Db, a: Id, ids: seq<Digest>, now: int): Db {
    PruneAll(db, a, {}, ids, now)
  }

  // One transaction of PruneGroupBlocks.
  ghost function PruneBatch(db: Db, a: Id, d: Id, g: Id, revision: int, ids: seq<Digest>, now: int): (Db, Outcome<()>) {
    if !SeesRevision(db, d, a, g, revision) then (db, Err(GroupChanged))
    else (PruneAll(db, a, GroupDevices(db, a, g), ids, now), Ok(()))
  }

  // ---- frames ----

  /** Only the block tables and the used-bytes column change. */
  ghost predicate BlockTablesOnly(db: Db, after: Db) {
    after == db.(accounts := after.accounts, objects := after.objects, accountBlocks := after.accountBlocks,
                 deviceBlocks := after.deviceBlocks)
  }

  lemma ReleaseFrame(db: Db, a: Id, b: Digest, now: int)
    ensures BlockTablesOnly(db, ReleaseBlock(db, a, b, now))
    ensures ReleaseBlock(db, a, b, now).deviceBlocks == db.deviceBlocks
  {
    hide HeldByDevice, OrphanIfUnreferenced, Credit;
  }

  lemma {:induction false} PruneAllFrame(db: Db, a: Id, D: set<Id>, ids: seq<Digest>, now: int)
    ensures BlockTablesOnly(db, PruneAll(db, a, D, ids, now))
    decreases |ids|
  {
    hide ReleaseBlock;
    if ids != [] {
      var bare := Detach(db, D, ids[0]);
      ReleaseFrame(bare, a, ids[0], now);
      PruneAllFrame(ReleaseBlock(bare, a, ids[0], now), a, D, ids[1..], now);
    }
  }

  // ---- invariants ----

  lemma ReleaseCharges(accountBlocks: set<(Id, Digest)>, reservations: map<Id, Reservation>, a: Id, b: Digest, x: Id)
    requires (a, b) in accountBlocks
    ensures var left := accountBlocks - {(a, b)};
            && BlockCharges(left, x)
               == (if x == a then BlockCharges(accountBlocks, x) - {(a, b)} else BlockCharges(accountBlocks, x))
            && (x == a ==>
                  (a, b) in BlockCharges(accountBlocks, x) && BlockCharges(accountBlocks, x)[(a, b)] == |b.data|)
            && (x != a ==> PendingCharges(left, reservations, x) == PendingCharges(accountBlocks, reservations, x))
  {
  }

  /** Releasing a block makes an open reservation for it pending again, at the same size: at most one such exists. */
  lemma ReleasePending(accountBlocks: set<(Id, Digest)>, reservations: map<Id, Reservation>, a: Id, b: Digest)
    requires (a, b) in accountBlocks && ReservationsUnique(reservations)
    requires forall r :: r in reservations ==> reservations[r].size == |reservations[r].block.data|
    ensures Total(PendingCharges(accountBlocks - {(a, b)}, reservations, a))
         <= Total(PendingCharges(accountBlocks, reservations, a)) + |b.data|
  {
    var before := PendingCharges(accountBlocks, reservations, a);
    var after := PendingCharges(accountBlocks - {(a, b)}, reservations, a);
    if r :| r in reservations && reservations[r].account == a && reservations[r].block == b {
      assert after == before[r := |b.data|];
      TotalInsert(before, r, |b.data|);
    } else {
      assert after == before;
    }
  }

  lemma LooseBlock(db: Db, a: Id, b: Digest)
    requires BlocksOk(db.accounts, db.devices, db.objects, db.accountBlocks, db.deviceBlocks)
    requires (a, b) in db.accountBlocks
    ensures a in db.accounts && b in db.objects
    ensures db.objects[b] == Object(|b.data|, false, None)
  {
    assert Referenced(db.accountBlocks, b);
  }

  lemma ChargedBlockFits(db: Db, a: Id, b: Digest)
    requires QuotaOk(db.accounts, db.accountBlocks, db.sessions, db.reservations)
    requires (a, b) in db.accountBlocks && a in db.accounts
    ensures |b.data| <= db.accounts[a].used
  {
    assert AccountQuotaOk(db.accounts[a], a, db.accountBlocks, db.sessions, db.reservations);
    TotalRemove(BlockCharges(db.accountBlocks, a), (a, b));
  }

  function Discharge(accounts: map<Id, Account>, a: Id, size: int): map<Id, Account>
    requires a in accounts
  {
    accounts[a := accounts[a].(used := accounts[a].used - size)]
  }

  /** What releasing one loose block does in a reachable state: the clamp at zero never acts, the mark is always new. */
  lemma ReleaseEffect(db: Db, a: Id, b: Digest, now: int)
    requires Inv(db) && Loose(db, a, b)
    ensures a in db.accounts && b in db.objects && db.objects[b] == Object(|b.data|, false, None)
    ensures |b.data| <= db.accounts[a].used
    ensures var left := db.accountBlocks - {(a, b)};
            ReleaseBlock(db, a, b, now) ==
              db.(accountBlocks := left, accounts := Discharge(db.accounts, a, |b.data|),
                  objects := if Referenced(left, b) then db.objects
                             else db.objects[b := Object(|b.data|, false, Some(now))])
  {
    hide GroupsOk, RevisionsOk, ManifestsOk, CodesOk, SessionsOk, BlocksOk, ReservationsOk, QuotaOk, HeldByDevice,
         Referenced;
    LooseBlock(db, a, b);
    ChargedBlockFits(db, a, b);
  }

  lemma ReleaseKeepsQuota(db: Db, a: Id, b: Digest)
    requires QuotaOk(db.accounts, db.accountBlocks, db.sessions, db.reservations)
    requires ReservationsOk(db.accounts, db.devices, db.objects, db.reservations)
    requires (a, b) in db.accountBlocks && a in db.accounts
    ensures QuotaOk(Discharge(db.accounts, a, |b.data|), db.accountBlocks - {(a, b)}, db.sessions, db.reservations)
  {
    hide Total, BlockCharges, SessionCharges, PendingCharges, ReservationsOk;
    ReleaseKeepsOwnQuota(db, a, b);
    var accounts := Discharge(db.accounts, a, |b.data|);
    forall x | x in accounts
      ensures AccountQuotaOk(accounts[x], x, db.accountBlocks - {(a, b)}, db.sessions, db.reservations)
    {
      if x != a {
        assert AccountQuotaOk(db.accounts[x], x, db.accountBlocks, db.sessions, db.reservations);
        ReleaseCharges(db.accountBlocks, db.reservations, a, b, x);
      }
    }
  }

  lemma ReleaseKeepsOwnQuota(db: Db, a: Id, b: Digest)
    requires QuotaOk(db.accounts, db.accountBlocks, db.sessions, db.reservations)
    requires ReservationsOk(db.accounts, db.devices, db.objects, db.reservations)
    requires (a, b) in db.accountBlocks && a in db.accounts
    ensures var row := db.accounts[a].(used := db.accounts[a].used - |b.data|);
            AccountQuotaOk(row, a, db.accountBlocks - {(a, b)}, db.sessions, db.reservations)
  {
    ReleasePending(db.accountBlocks, db.reservations, a, b);
    hide ReservationsOk, Total, BlockCharges, SessionCharges, PendingCharges;
    assert AccountQuotaOk(db.accounts[a], a, db.accountBlocks, db.sessions, db.reservations);
    hide QuotaOk;
    ReleaseCharges(db.accountBlocks, db.reservations, a, b, a);
    TotalRemove(BlockCharges(db.accountBlocks, a), (a, b));
    assert Total(BlockCharges(db.accountBlocks, a)) == |b.data| + Total(BlockCharges(db.accountBlocks - {(a, b)}, a));
  }

  lemma ReleaseKeepsObjects(db: Db, a: Id, b: Digest, now: int)
    requires ObjectsOk(db.objects, db.accountBlocks) && b in db.objects && (a, b) in db.accountBlocks
    ensures var left := db.accountBlocks - {(a, b)};
            ObjectsOk(if Referenced(left, b) then db.objects
                      else db.objects[b := Object(|b.data|, false, Some(now))], left)
  {
    var left := db.accountBlocks - {(a, b)};
    forall x | x in db.objects && x != b
      ensures Referenced(left, x) <==> Referenced(db.accountBlocks, x)
    {
      assert forall y :: (y, x) in left <==> (y, x) in db.accountBlocks;
    }
    assert Referenced(db.accountBlocks, b);
  }

  lemma ReleaseKeepsBlocks(db: Db, a: Id, b: Digest, now: int)
    requires BlocksOk(db.accounts, db.devices, db.objects, db.accountBlocks, db.deviceBlocks)
    requires Loose(db, a, b) && b in db.objects && a in db.accounts
    ensures var left := db.accountBlocks - {(a, b)};
            BlocksOk(Discharge(db.accounts, a, |b.data|), db.devices,
                     if Referenced(left, b) then db.objects else db.objects[b := Object(|b.data|, false, Some(now))],
                     left, db.deviceBlocks)
  {
    ReleaseKeepsObjects(db, a, b, now);
    hide ObjectsOk, Referenced;
  }

  lemma ReleaseKeepsOthers(db: Db, a: Id, b: Digest, now: int)
    requires GroupsOk(db.accounts, db.groups, db.devices)
    requires ReservationsOk(db.accounts, db.devices, db.objects, db.reservations) && a in db.accounts
    ensures GroupsOk(Discharge(db.accounts, a, |b.data|), db.groups, db.devices)
    ensures ReservationsOk(Discharge(db.accounts, a, |b.data|), db.devices, db.objects, db.reservations)
    ensures ReservationsOk(Discharge(db.accounts, a, |b.data|), db.devices,
                           db.objects[b := Object(|b.data|, false, Some(now))], db.reservations)
  {
  }

  lemma ReleaseKeepsInv(db: Db, a: Id, b: Digest, now: int)
    requires Inv(db)
    ensures Inv(ReleaseBlock(db, a, b, now))
  {
    hide GroupsOk, RevisionsOk, ManifestsOk, CodesOk, SessionsOk, BlocksOk, ReservationsOk, QuotaOk, HeldByDevice,
         Referenced;
    if Loose(db, a, b) {
      ReleaseEffect(db, a, b, now);
      hide ReleaseBlock;
      ReleaseKeepsQuota(db, a, b);
      ReleaseKeepsBlocks(db, a, b, now);
      ReleaseKeepsOthers(db, a, b, now);
    }
  }

  lemma DetachKeepsInv(db: Db, D: set<Id>, b: Digest)
    requires Inv(db)
    ensures Inv(Detach(db, D, b))
  {
    FewerDeviceBlocksOk(db, Detach(db, D, b).deviceBlocks);
    hide GroupsOk, RevisionsOk, ManifestsOk, CodesOk, SessionsOk, BlocksOk, ReservationsOk, QuotaOk;
  }

  lemma FewerDeviceBlocksOk(db: Db, kept: set<(Id, Digest)>)
    requires BlocksOk(db.accounts, db.devices, db.objects, db.accountBlocks, db.deviceBlocks) && kept <= db.deviceBlocks
    ensures BlocksOk(db.accounts, db.devices, db.objects, db.accountBlocks, kept)
  {
  }

  lemma {:induction false} PruneAllKeepsInv(db: Db, a: Id, D: set<Id>, ids: seq<Digest>, now: int)
    requires Inv(db)
    ensures Inv(PruneAll(db, a, D, ids, now))
    decreases |ids|
  {
    hide Inv, ReleaseBlock, Detach;
    if ids != [] {
      DetachKeepsInv(db, D, ids[0]);
      ReleaseKeepsInv(Detach(db, D, ids[0]), a, ids[0], now);
      PruneAllKeepsInv(ReleaseBlock(Detach(db, D, ids[0]), a, ids[0], now), a, D, ids[1..], now);
    }
  }

  lemma PruneBatchKeepsInv(db: Db, a: Id, d: Id, g: Id, revision: int, ids: seq<Digest>, now: int)
    requires Inv(db)
    ensures Inv(PruneBatch(db, a, d, g, revision, ids, now).0)
  {
    hide Inv, GroupDevices;
    PruneAllKeepsInv(db, a, GroupDevices(db, a, g), ids, now);
  }

  // ---- one shot ----

  /** Charged to the account, and held by none of its devices outside D. */
  ghost predicate LooseWithout(db: Db, a: Id, D: set<Id>, b: Digest) {
    (a, b) in db.accountBlocks && forall d :: InAccount(db, d, a) && (d, b) in db.deviceBlocks ==> d in D
  }

  ghost function Freed(db: Db, a: Id, D: set<Id>, S: set<Digest>): set<Digest> {
    set b | b in S && LooseWithout(db, a, D, b)
  }

  ghost function SizeOf(S: set<Digest>): nat {
    Total(map b | b in S :: |b.data|)
  }

  // The rows of D for the blocks of S go.
  function Detached(deviceBlocks: set<(Id, Digest)>, D: set<Id>, S: set<Digest>): set<(Id, Digest)> {
    set p | p in deviceBlocks && !(p.0 in D && p.1 in S)
  }

  function Uncharged(accountBlocks: set<(Id, Digest)>, a: Id, F: set<Digest>): set<(Id, Digest)> {
    set p | p in accountBlocks && !(p.0 == a && p.1 in F)
  }

  ghost function Orphan(objects: map<Digest, Object>, left: set<(Id, Digest)>, F: set<Digest>,
                        now: int): map<Digest, Object>
  {
    map b | b in objects :: if b in F && !Referenced(left, b) then Object(|b.data|, false, Some(now)) else objects[b]
  }

  /** The set difference that a prune, however batched, amounts to: D lets go of S, the account is discharged of exactly
      the blocks nobody else in it holds, and those no other account holds are marked. */
  ghost function PruneSet(db: Db, a: Id, D: set<Id>, S: set<Digest>, now: int): Db {
    var F := Freed(db, a, D, S);
    var left := Uncharged(db.accountBlocks, a, F);
    db.(deviceBlocks := Detached(db.deviceBlocks, D, S),
        accountBlocks := left,
        accounts := if a in db.accounts then Discharge(db.accounts, a, SizeOf(F)) else db.accounts,
        objects := Orphan(db.objects, left, F, now))
  }

  lemma SizeOfAdd(S: set<Digest>, b: Digest)
    ensures SizeOf(S + {b}) == SizeOf(S) + (if b in S then 0 else |b.data|)
    ensures SizeOf({}) == 0
  {
    if b in S {
      assert S + {b} == S;
    } else {
      var m := map x | x in S :: |x.data|;
      assert (map x | x in S + {b} :: |x.data|) == m[b := |b.data|];
      TotalInsert(m, b, |b.data|);
    }
  }

  lemma {:induction false} SizeOfUnion(F: set<Digest>, G: set<Digest>)
    requires F !! G
    ensures SizeOf(F + G) == SizeOf(F) + SizeOf(G)
    decreases |G|
  {
    hide SizeOf;
    if G == {} {
      assert F + G == F;
      SizeOfAdd({}, Sha256([]));
    } else {
      var b :| b in G;
      SizeOfUnion(F, G - {b});
      SizeOfAdd(F + (G - {b}), b);
      SizeOfAdd(G - {b}, b);
      assert F + (G - {b}) + {b} == F + G && G - {b} + {b} == G;
    }
  }
}
