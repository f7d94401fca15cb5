/** The database handle (internal/db/queries.go, internal/db/session_files.go): each method runs its statements on a
    transaction's view `tx`; assigning `db` is the COMMIT, and returning before it is the rollback of WithTx. */
module Store {
  import opened Tables
  import opened Totals
  import opened Integrity
  import Uploads
  import SyncGroups
  import Release
  import Pruning
  import Discarding
  import Collection
  import Documents
  import Holdings

  datatype PruneResult = PruneResult(orphans: set<Digest>, reclaimed: int)
  datatype DiscardResult = DiscardResult(revoked: set<Id>, orphans: set<Digest>, reclaimed: int)

  /** `SELECT COALESCE(SUM(...), 0)`. */
  method SumRows<K(==, !new)>(rows: map<K, nat>) returns (sum: nat)
    ensures sum == Total(rows)
  {
    sum := 0;
    var rest := rows;
    while rest != map[]
      invariant sum + Total(rest) == Total(rows)
      decreases |rest|
    {
      var k :| k in rest;
      TotalRemove(rest, k);
      sum := sum + rest[k];
      rest := rest - {k};
    }
  }

  /** The rows of a SELECT DISTINCT, in some order. */
  method RowsOf(ids: set<Digest>) returns (rows: seq<Digest>)
    ensures Pruning.Elements(rows) == ids && |rows| == |ids|
  {
    rows := [];
    var rest := ids;
    while rest != {}
      invariant rest <= ids && Pruning.Elements(rows) == ids - rest && |rows| + |rest| == |ids|
      decreases |rest|
    {
      var b :| b in rest;
      Pruning.ElementsAppend(rows, b);
      rows := rows + [b];
      rest := rest - {b};
    }
  }

  class Queries {
    var db: Db

    ghost predicate Valid()
      reads this
    {
      Inv(db)
    }

    constructor ()
      ensures db == EMPTY_DB && Valid()
    {
      db := EMPTY_DB;
    }

    method ReserveBlockUpload(rid: Id, a: Id, d: Id, b: Digest, size: nat, now: int) returns (out: Outcome<Reservation>)
      modifies this
      ensures (db, out) == Uploads.Reserve(old(db), rid, a, d, b, size, now)
    {
      var tx := Purge(db, now);
      if d !in tx.devices || tx.devices[d].account != a || !tx.devices[d].active { return Err(InvalidUploadDevice); }
      if b in tx.objects && tx.objects[b].deleting { return Err(UploadInProgress); }
      if exists r :: r in tx.reservations && tx.reservations[r].account == a && tx.reservations[r].block == b {
        assert Uploads.HasReservation(tx.reservations, a, b);
        return Err(UploadInProgress);
      }
      assert !Uploads.HasReservation(tx.reservations, a, b);
      if a !in tx.accounts { return Err(NoRow); }
      if (a, b) !in tx.accountBlocks {
        var reserved := SumRows(PendingCharges(tx.accountBlocks, tx.reservations, a));
        if tx.accounts[a].used + reserved + size > tx.accounts[a].quota { return Err(QuotaExceeded); }
      }
      var row := Reservation(a, d, b, size, now + RESERVATION_SECONDS);
      if rid in tx.reservations { return Err(Constraint); }
      tx := tx.(reservations := tx.reservations[rid := row]);
      db := tx;
      return Ok(row);
    }

    method CancelBlockUpload(rid: Id)
      modifies this
      ensures db == Uploads.Cancel(old(db), rid)
      ensures rid !in db.reservations && db.reservations.Keys == old(db).reservations.Keys - {rid}
    {
      db := db.(reservations := db.reservations - {rid});
    }

    method CommitBlockUpload(rid: Id, now: int) returns (out: Outcome<Uploads.Attached>)
      modifies this
      ensures (db, out) == Uploads.Commit(old(db), rid, now)
    {
      var tx := db;
      if rid !in tx.reservations { return Err(ReservationMissing); }
      var r := tx.reservations[rid];
      if r.expiresAt <= now { return Err(ReservationExpired); }
      if r.device !in tx.devices || tx.devices[r.device].account != r.account || !tx.devices[r.device].active {
        return Err(InvalidUploadDevice);
      }
      var created := false;
      if r.block in tx.objects {
        if tx.objects[r.block].size != r.size { return Err(SizeConflict); }
        if tx.objects[r.block].deleting { return Err(UploadInProgress); }
      } else {
        tx := tx.(objects := tx.objects[r.block := Object(r.size, false, None)]);
        created := true;
      }
      var accountAssociation := false;
      if (r.account, r.block) !in tx.accountBlocks {
        if r.account !in tx.accounts { return Err(NoRow); }
        var account := tx.accounts[r.account];
        if account.used + r.size > account.quota { return Err(QuotaExceeded); }
        tx := tx.(accountBlocks := tx.accountBlocks + {(r.account, r.block)});
        tx := tx.(accounts := tx.accounts[r.account := account.(used := account.used + r.size)]);
        accountAssociation := true;
      }
      tx := tx.(objects := tx.objects[r.block := tx.objects[r.block].(deleting := false, orphanedAt := None)]);
      var deviceAssociation := (r.device, r.block) !in tx.deviceBlocks;
      tx := tx.(deviceBlocks := tx.deviceBlocks + {(r.device, r.block)});
      tx := tx.(reservations := tx.reservations - {rid});
      db := tx;
      ghost var spec := Uploads.Attach(old(db), rid);
      assert tx.accountBlocks == spec.accountBlocks;
      assert tx.objects == spec.objects;
      assert tx == spec;
      return Ok(Uploads.Attached(created, accountAssociation, deviceAssociation));
    }

    // releaseUnreferencedAccountBlock, inside the caller's transaction
    static method ReleaseUnreferencedAccountBlock(tx: Db, a: Id, b: Digest, now: int, out: PruneResult)
      returns (after: Db, result: PruneResult)
      ensures after == Release.ReleaseBlock(tx, a, b, now)
      ensures result.reclaimed == out.reclaimed + Release.Reclaimed(tx, a, b)
      ensures result.orphans == if Release.Orphaned(tx, a, b) then out.orphans + {b} else out.orphans
    {
      after, result := tx, out;
      hide HeldByDevice, Referenced;
      var held := ExistsDeviceRow(tx, a, b);
      if held { return; }
      if (a, b) !in tx.accountBlocks || b !in tx.objects { return; }
      var size := tx.objects[b].size;
      after := DropAccountRow(tx, a, b, size);
      result := result.(reclaimed := result.reclaimed + size);
      var orphaned;
      after, orphaned := MarkIfOrphan(after, b, now);
      if orphaned { result := result.(orphans := result.orphans + {b}); }
      hide Release.OrphanIfUnreferenced, Release.Credit;
    }

    static method DropAccountRow(tx: Db, a: Id, b: Digest, size: nat) returns (after: Db)
      ensures after == tx.(accountBlocks := tx.accountBlocks - {(a, b)},
                           accounts := Release.Credit(tx.accounts, a, size))
    {
      after := tx.(accountBlocks := tx.accountBlocks - {(a, b)});
      if a in after.accounts {
        var row := after.accounts[a];
        after := after.(accounts := after.accounts[a := row.(used := Release.Max(0, row.used - size))]);
      }
    }

    static method MarkIfOrphan(tx: Db, b: Digest, now: int) returns (after: Db, orphaned: bool)
      requires b in tx.objects
      ensures after == tx.(objects := Release.OrphanIfUnreferenced(tx.objects, tx.accountBlocks, b, now))
      ensures orphaned == !Referenced(tx.accountBlocks, b)
    {
      hide Referenced;
      after := tx;
      var referenced := ExistsAccountRow(tx.accountBlocks, b);
      orphaned := !referenced;
      if orphaned && !tx.objects[b].deleting {
        after := tx.(objects := tx.objects[b := Release.MarkOrphan(tx.objects[b], now)]);
      }
    }

    // The EXISTS subqueries over device_blocks, account_blocks and upload_reservations.
    static method ExistsDeviceRow(tx: Db, a: Id, b: Digest) returns (found: bool)
      ensures found <==> HeldByDevice(tx, a, b)
    {
      found := exists p :: p in tx.deviceBlocks && p.1 == b && p.0 in tx.devices && tx.devices[p.0].account == a;
      if found {
        var p :| p in tx.deviceBlocks && p.1 == b && p.0 in tx.devices && tx.devices[p.0].account == a;
        assert InAccount(tx, p.0, a) && (p.0, b) in tx.deviceBlocks;
      } else {
        assert forall d :: (d, b) in tx.deviceBlocks && d in tx.devices ==> tx.devices[(d, b).0].account != a;
      }
    }

    static method ExistsAccountRow(accountBlocks: set<(Id, Digest)>, b: Digest) returns (found: bool)
      ensures found <==> Referenced(accountBlocks, b)
    {
      found := exists p :: p in accountBlocks && p.1 == b;
      if found {
        var p :| p in accountBlocks && p.1 == b;
        assert (p.0, b) in accountBlocks;
      } else {
        assert forall a :: (a, b) in accountBlocks ==> (a, b).1 != b;
      }
    }

    static method ExistsReservation(reservations: map<Id, Reservation>, b: Digest) returns (found: bool)
      ensures found <==> Collection.Reserved(reservations, b)
    {
      found := exists r :: r in reservations && reservations[r].block == b;
    }

    // The loop of one prune transaction over its ids.
    static method PruneIds(tx: Db, a: Id, g: Id, ids: seq<Digest>, now: int, out: PruneResult)
      returns (after: Db, result: PruneResult)
      requires Inv(tx)
      ensures after == Release.PruneAll(tx, a, GroupDevices(tx, a, g), ids, now)
      ensures Pruning.Paid(tx, after, a, result.reclaimed - out.reclaimed)
      ensures result.orphans == out.orphans + Pruning.Lost(tx.accountBlocks, after.accountBlocks)
      ensures after.accountBlocks <= tx.accountBlocks
    {
      hide Inv, Release.ReleaseBlock, Release.Reclaimed, Release.Orphaned, Pruning.Lost, Pruning.Paid;
      ghost var D := GroupDevices(tx, a, g);
      after, result := tx, out;
      NothingYet(tx, a);
      assert ids[..0] == [];
      var i := 0;
      while i < |ids|
        invariant 0 <= i <= |ids|
        invariant after == Release.PruneAll(tx, a, D, ids[..i], now)
        invariant Pruning.Paid(tx, after, a, result.reclaimed - out.reclaimed)
        invariant result.orphans == out.orphans + Pruning.Lost(tx.accountBlocks, after.accountBlocks)
        invariant after.accountBlocks <= tx.accountBlocks
      {
        ghost var mid := after;
        Release.PruneAllFrame(tx, a, D, ids[..i], now);
        Pruning.PruneStep(tx, a, D, ids, i, now);
        var bare := after.(deviceBlocks := set p | p in after.deviceBlocks
          && !(p.0 in after.devices && after.devices[p.0].account == a && after.devices[p.0].group == Some(g)
               && p.1 == ids[i]));
        assert bare.deviceBlocks == Release.Detach(mid, D, ids[i]).deviceBlocks;
        var was := result.reclaimed;
        after, result := ReleaseUnreferencedAccountBlock(bare, a, ids[i], now, result);
        Pruning.PaidTrans(tx, mid, after, a, was - out.reclaimed, result.reclaimed - was);
        Pruning.LostTrans(tx.accountBlocks, mid.accountBlocks, after.accountBlocks);
        i := i + 1;
      }
      assert ids[..i] == ids;
    }

    static lemma NothingYet(tx: Db, a: Id)
      ensures Pruning.Paid(tx, tx, a, 0) && Pruning.Lost(tx.accountBlocks, tx.accountBlocks) == {}
    {
      Pruning.LostNothing(tx.accountBlocks);
    }

    // The read-only pass over the group's blocks, filtered by `keep`.
    static method ReadCandidates(tx: Db, a: Id, g: Id, keep: set<Digest>) returns (candidates: seq<Digest>)
      ensures Pruning.Elements(candidates) == Pruning.Candidates(tx, a, g, keep)
      ensures candidates == [] <==> Pruning.Candidates(tx, a, g, keep) == {}
    {
      var visible := set p | p in tx.deviceBlocks && p.0 in tx.devices && tx.devices[p.0].account == a
                             && tx.devices[p.0].group == Some(g) :: p.1;
      assert Pruning.Candidates(tx, a, g, keep) == visible - keep;
      hide Pruning.Candidates;
      var rows := RowsOf(visible);
      candidates := Filter(rows, keep);
      assert candidates != [] ==> candidates[0] in Pruning.Elements(candidates);
    }

    static method Filter(rows: seq<Digest>, keep: set<Digest>) returns (candidates: seq<Digest>)
      ensures Pruning.Elements(candidates) == Pruning.Elements(rows) - keep
    {
      candidates := [];
      assert Pruning.Elements(rows[..0]) == {};
      var i := 0;
      while i < |rows|
        invariant 0 <= i <= |rows|
        invariant Pruning.Elements(candidates) == Pruning.Elements(rows[..i]) - keep
      {
        Pruning.ElementsNext(rows, i);
        Pruning.ElementsAppend(candidates, rows[i]);
        hide Pruning.Elements;
        if rows[i] !in keep { candidates := candidates + [rows[i]]; }
        i := i + 1;
      }
      assert rows[..i] == rows;
    }

    /** The candidate rows are read first; each batch of 256 then re-checks the caller and runs in a transaction of
        its own. With nothing in between, the batches amount to one set difference. */
    method PruneGroupBlocks(a: Id, d: Id, g: Id, revision: int, keep: set<Digest>, now: int)
      returns (out: Outcome<PruneResult>)
      requires Valid()
      modifies this
      ensures Pruning.Candidates(old(db), a, g, keep) == {} ==> out == Ok(PruneResult({}, 0)) && db == old(db)
      ensures Pruning.Candidates(old(db), a, g, keep) != {} && !SeesRevision(old(db), d, a, g, revision) ==>
                out == Err(GroupChanged) && db == old(db)
      ensures SeesRevision(old(db), d, a, g, revision) ==>
                && out.Ok?
                && db == Release.PruneSet(old(db), a, GroupDevices(old(db), a, g),
                                          Pruning.Candidates(old(db), a, g, keep), now)
      ensures out.Ok? ==>
                && Pruning.Paid(old(db), db, a, out.value.reclaimed)
                && out.value.orphans == Pruning.Lost(old(db).accountBlocks, db.accountBlocks)
      ensures Valid()
    {
      hide Inv, Pruning.Paid, Pruning.Lost, Release.PruneAll;
      ghost var start := db;
      ghost var D := GroupDevices(db, a, g);
      var candidates := ReadCandidates(db, a, g, keep);
      var total := PruneResult({}, 0);
      NothingYet(db, a);
      PruneNone(db, a, D, now);
      assert candidates[..0] == [];
      var begin := 0;
      while begin < |candidates|
        invariant 0 <= begin <= |candidates|
        invariant begin > 0 ==> SeesRevision(start, d, a, g, revision)
        invariant begin == 0 ==> total == PruneResult({}, 0)
        invariant db == Release.PruneAll(start, a, D, candidates[..begin], now)
        invariant Pruning.Paid(start, db, a, total.reclaimed)
        invariant total.orphans == Pruning.Lost(start.accountBlocks, db.accountBlocks)
        invariant db.accountBlocks <= start.accountBlocks
      {
        var end := if begin + PRUNE_BATCH_SIZE > |candidates| then |candidates| else begin + PRUNE_BATCH_SIZE;
        ghost var mid := db;
        Release.PruneAllFrame(start, a, D, candidates[..begin], now);
        Release.PruneAllKeepsInv(start, a, D, candidates[..begin], now);
        var tx := db;
        if d !in tx.devices || tx.devices[d].account != a || tx.devices[d].group != Some(g) || !tx.devices[d].active {
          return Err(GroupChanged);
        }
        if g !in tx.groups || tx.groups[g].account != a || tx.groups[g].revision != revision {
          return Err(GroupChanged);
        }
        var was := total.reclaimed;
        tx, total := PruneIds(tx, a, g, candidates[begin..end], now, total);
        db := tx;
        assert candidates[..end] == candidates[..begin] + candidates[begin..end];
        Pruning.PruneAllAppend(start, a, D, candidates[..begin], candidates[begin..end], now);
        Pruning.PaidTrans(start, mid, tx, a, was, total.reclaimed - was);
        Pruning.LostTrans(start.accountBlocks, mid.accountBlocks, tx.accountBlocks);
        begin := end;
      }
      assert candidates[..begin] == candidates;
      Pruning.PruneAllIsOneShot(start, a, D, candidates, now);
      Release.PruneAllKeepsInv(start, a, D, candidates, now);
      return Ok(total);
    }

    static lemma PruneNone(tx: Db, a: Id, D: set<Id>, now: int)
      ensures Release.PruneAll(tx, a, D, [], now) == tx
    {
    }

    // The clean-up loop of one release transaction.
    static method ReleaseIds(tx: Db, a: Id, ids: seq<Digest>, now: int, out: PruneResult)
      returns (after: Db, result: PruneResult)
      requires Inv(tx)
      ensures after == Release.PruneAll(tx, a, {}, ids, now)
      ensures Pruning.Paid(tx, after, a, result.reclaimed - out.reclaimed)
      ensures result.orphans == out.orphans + Pruning.Lost(tx.accountBlocks, after.accountBlocks)
      ensures after.accountBlocks <= tx.accountBlocks
    {
      hide Inv, Release.ReleaseBlock, Release.Reclaimed, Release.Orphaned, Pruning.Lost, Pruning.Paid;
      after, result := tx, out;
      NothingYet(tx, a);
      assert ids[..0] == [];
      var i := 0;
      while i < |ids|
        invariant 0 <= i <= |ids|
        invariant after == Release.PruneAll(tx, a, {}, ids[..i], now)
        invariant Pruning.Paid(tx, after, a, result.reclaimed - out.reclaimed)
        invariant result.orphans == out.orphans + Pruning.Lost(tx.accountBlocks, after.accountBlocks)
        invariant after.accountBlocks <= tx.accountBlocks
      {
        ghost var mid := after;
        Pruning.PruneStep(tx, a, {}, ids, i, now);
        assert Release.Detach(mid, {}, ids[i]).deviceBlocks == mid.deviceBlocks;
        assert Release.Detach(mid, {}, ids[i]) == mid;
        var was := result.reclaimed;
        after, result := ReleaseUnreferencedAccountBlock(after, a, ids[i], now, result);
        Pruning.PaidTrans(tx, mid, after, a, was - out.reclaimed, result.reclaimed - was);
        Pruning.LostTrans(tx.accountBlocks, mid.accountBlocks, after.accountBlocks);
        i := i + 1;
      }
      assert ids[..i] == ids;
    }

    // The structural transaction of DiscardOtherGroups.
    method DiscardStructure(a: Id, caller: Id, g: Id, revision: int, now: int)
      returns (out: Outcome<Discarding.Discarded>)
      modifies this
      ensures (db, out) == Discarding.DiscardGroups(old(db), a, caller, g, revision, now)
      ensures out.Ok? ==> BlocksElsewhere(old(db), a, g, out.value.candidates)
    {
      CandidatesAreElsewhere(db, a, g);
      hide BlocksElsewhere;
      var tx := db;
      if caller !in tx.devices || tx.devices[caller].account != a || !tx.devices[caller].active
         || tx.devices[caller].group != Some(g) {
        return Err(GroupChanged);
      }
      if g !in tx.groups || tx.groups[g].account != a || tx.groups[g].revision != revision { return Err(GroupChanged); }
      var revoked := set d | d in tx.devices && tx.devices[d].account == a && tx.devices[d].group.Some?
                             && tx.devices[d].group.value != g;
      assert revoked == Discarding.OtherDevices(tx, a, g);
      if revoked == {} { return Ok(Discarding.Discarded({}, {}, 0)); }
      hide Discarding.OtherDevices;
      var candidates := set p | p in tx.deviceBlocks && p.0 in revoked :: p.1;
      var discardedSessions := set k | k in tx.sessions && k.0 == a && tx.sessions[k].group != g;
      var bytes := SumRows(map k | k in discardedSessions :: |tx.sessions[k].ciphertext|);
      assert discardedSessions == Discarding.OtherSessions(tx, a, g);
      assert bytes == Discarding.OtherSessionBytes(tx, a, g) by {
        assert (map k | k in discardedSessions :: |tx.sessions[k].ciphertext|)
               == Discarding.SessionSizes(tx.sessions, discardedSessions);
      }
      hide Discarding.OtherSessionBytes;
      ghost var start := tx;
      tx := DeleteOthers(tx, a, g, revoked, now);
      hide Discarding.Discard;
      if bytes > 0 && a in tx.accounts {
        if tx.accounts[a].used - bytes < 0 { AccountsKept(start, a, g, now); return Err(Constraint); }
        tx := tx.(accounts := tx.accounts[a := tx.accounts[a].(used := tx.accounts[a].used - bytes)]);
      }
      AccountsKept(start, a, g, now);
      db := tx;
      return Ok(Discarding.Discarded(revoked, candidates, bytes));
    }

    /** Exactly the blocks that some device of the account in another group holds, revoked devices included. */
    static ghost predicate BlocksElsewhere(tx: Db, a: Id, g: Id, blocks: set<Digest>) {
      forall b :: b in blocks <==> Holdings.HeldElsewhere(tx, a, g, b)
    }

    static lemma CandidatesAreElsewhere(tx: Db, a: Id, g: Id)
      ensures BlocksElsewhere(tx, a, g, Discarding.OtherBlocks(tx, a, g))
      ensures Discarding.OtherDevices(tx, a, g) == {} ==> Discarding.OtherBlocks(tx, a, g) == {}
    {
      forall b ensures b in Discarding.OtherBlocks(tx, a, g) <==> Holdings.HeldElsewhere(tx, a, g, b) {
        Holdings.OtherBlocksAreHeldElsewhere(tx, a, g, b);
      }
      hide Holdings.HeldElsewhere;
    }

    // The DELETE and UPDATE statements on the discarded devices' rows, then the cascading DELETE of their groups.
    static method DeleteOthers(start: Db, a: Id, g: Id, revoked: set<Id>, now: int) returns (tx: Db)
      requires revoked == Discarding.OtherDevices(start, a, g)
      ensures tx == Discarding.Discard(start, a, g, now)
    {
      hide Discarding.OtherDevices, DeleteGroups;
      tx := RevokeDevices(start, revoked, now);
      var gone := set h | h in start.groups && start.groups[h].account == a && h != g;
      assert gone == Discarding.OtherGroups(start, a, g);
      hide Discarding.OtherGroups, Discarding.DropDevices;
      tx := DeleteGroups(tx, gone);
    }

    static method RevokeDevices(start: Db, revoked: set<Id>, now: int) returns (tx: Db)
      ensures tx == Discarding.DropDevices(start, revoked, now)
    {
      var manifests := map k | k in start.manifests && k.0 !in revoked :: start.manifests[k];
      var heads := map d | d in start.heads && d !in revoked :: start.heads[d];
      var deviceBlocks := set p | p in start.deviceBlocks && p.0 !in revoked;
      var devices := map d | d in start.devices ::
        if d in revoked then SyncGroups.RevokeRow(start.devices[d], now) else start.devices[d];
      tx := start.(manifests := manifests, heads := heads, deviceBlocks := deviceBlocks, devices := devices);
      assert devices == Discarding.RevokeAll(start.devices, revoked, now);
    }

    static lemma AccountsKept(tx: Db, a: Id, g: Id, now: int)
      ensures Discarding.Discard(tx, a, g, now).accounts == tx.accounts
    {
      Discarding.DiscardKeepsAccounts(tx, a, g, now);
    }

    /** The structural transaction, then the release of the discarded devices' blocks in batches. With nothing in
        between, the account still pays for exactly the blocks that its own group sees or no other group held, and no
        block is left loose that was not loose before. */
    method DiscardOtherGroups(a: Id, caller: Id, g: Id, revision: int, now: int) returns (out: Outcome<DiscardResult>)
      requires Valid()
      modifies this
      ensures Valid()
      ensures !SeesRevision(old(db), caller, a, g, revision) ==> out == Err(GroupChanged) && db == old(db)
      ensures SeesRevision(old(db), caller, a, g, revision) ==>
                && out.Ok? && out.value.revoked == Discarding.OtherDevices(old(db), a, g)
                && db == Release.PruneSet(Discarding.DiscardGroups(old(db), a, caller, g, revision, now).0, a, {},
                                          Discarding.OtherBlocks(old(db), a, g), now)
                && Pruning.Paid(old(db), db, a, out.value.reclaimed)
                && out.value.orphans == Pruning.Lost(old(db).accountBlocks, db.accountBlocks)
      ensures SeesRevision(old(db), caller, a, g, revision) ==>
                && out.Ok? && DevicesElsewhere(old(db), a, g, out.value.revoked)
                && (forall x, b :: (x, b) in db.accountBlocks <==>
                      (x, b) in old(db).accountBlocks
                      && (x == a && Holdings.HeldElsewhere(old(db), a, g, b) ==> Visible(old(db), a, g, b)))
                && (forall b :: Release.Loose(db, a, b) ==> Release.Loose(old(db), a, b))
    {
      hide Inv, Pruning.Paid, Pruning.Lost, Release.PruneAll, Discarding.OtherDevices, Discarding.OtherBlocks,
           Discarding.OtherSessionBytes, Discarding.OnlyGroup, Discarding.OthersKept, Discarding.HasOtherSyncData;
      ghost var start := db;
      Discarding.DiscardOutcome(db, a, caller, g, revision, now);
      Discarding.DiscardGroupsKeepsInv(db, a, caller, g, revision, now);
      var structural := DiscardStructure(a, caller, g, revision, now);
      if structural.Err? { return Err(structural.error); }
      ghost var mid := db;
      DiscardPaid(start, a, caller, g, revision, now);
      hide Discarding.DiscardGroups;
      var candidates := RowsOf(structural.value.candidates);
      var total := PruneResult({}, structural.value.sessionBytes);
      PruneNone(db, a, {}, now);
      NothingYet(mid, a);
      assert candidates[..0] == [];
      var begin := 0;
      while begin < |candidates|
        invariant 0 <= begin <= |candidates|
        invariant db == Release.PruneAll(mid, a, {}, candidates[..begin], now)
        invariant Pruning.Paid(start, db, a, total.reclaimed)
        invariant total.orphans == Pruning.Lost(mid.accountBlocks, db.accountBlocks)
        invariant db.accountBlocks <= mid.accountBlocks
      {
        var end := if begin + PRUNE_BATCH_SIZE > |candidates| then |candidates| else begin + PRUNE_BATCH_SIZE;
        Release.PruneAllKeepsInv(mid, a, {}, candidates[..begin], now);
        ghost var was := db;
        var tx, released := ReleaseIds(db, a, candidates[begin..end], now, PruneResult({}, 0));
        db := tx;
        assert candidates[..end] == candidates[..begin] + candidates[begin..end];
        Pruning.PruneAllAppend(mid, a, {}, candidates[..begin], candidates[begin..end], now);
        Pruning.PaidTrans(start, was, tx, a, total.reclaimed, released.reclaimed);
        Pruning.LostTrans(mid.accountBlocks, was.accountBlocks, tx.accountBlocks);
        total := PruneResult(total.orphans + released.orphans, total.reclaimed + released.reclaimed);
        begin := end;
      }
      assert candidates[..begin] == candidates;
      Pruning.PruneAllIsOneShot(mid, a, {}, candidates, now);
      Release.PruneAllKeepsInv(mid, a, {}, candidates, now);
      WholeDiscard(start, a, caller, g, revision, now);
      return Ok(DiscardResult(structural.value.revoked, total.orphans, total.reclaimed));
    }

    /** Exactly the devices of the account in another group, revoked ones included. */
    static ghost predicate DevicesElsewhere(tx: Db, a: Id, g: Id, devices: set<Id>) {
      forall d :: d in devices <==>
        InAccount(tx, d, a) && tx.devices[d].group.Some? && tx.devices[d].group != Some(g)
    }

    static lemma WholeDiscard(start: Db, a: Id, caller: Id, g: Id, revision: int, now: int)
      requires Inv(start) && SeesRevision(start, caller, a, g, revision)
      ensures DevicesElsewhere(start, a, g, Discarding.OtherDevices(start, a, g))
      ensures var after := Holdings.DiscardedWhole(start, a, caller, g, revision, now);
              && (forall x, b :: (x, b) in after.accountBlocks <==>
                    (x, b) in start.accountBlocks
                    && (x == a && Holdings.HeldElsewhere(start, a, g, b) ==> Visible(start, a, g, b)))
              && (forall b :: Release.Loose(after, a, b) ==> Release.Loose(start, a, b))
    {
      hide Inv, Holdings.DiscardedWhole, Holdings.HeldElsewhere, Visible, Release.Loose, SeesRevision;
      var after := Holdings.DiscardedWhole(start, a, caller, g, revision, now);
      forall x, b
        ensures (x, b) in after.accountBlocks <==>
                  (x, b) in start.accountBlocks
                  && (x == a && Holdings.HeldElsewhere(start, a, g, b) ==> Visible(start, a, g, b))
      {
        Holdings.WholeDiscardLeaksNothing(start, a, caller, g, revision, now, x, b);
      }
      forall b | Release.Loose(after, a, b) ensures Release.Loose(start, a, b) {
        Holdings.WholeDiscardLeaksNothing(start, a, caller, g, revision, now, a, b);
      }
    }

    // The structural transaction moves the counter by the session bytes and no account block at all.
    static lemma DiscardPaid(tx: Db, a: Id, caller: Id, g: Id, revision: int, now: int)
      requires Inv(tx) && SeesRevision(tx, caller, a, g, revision)
      ensures var (after, out) := Discarding.DiscardGroups(tx, a, caller, g, revision, now);
              && out.Ok? && Pruning.Paid(tx, after, a, out.value.sessionBytes)
              && after.accountBlocks == tx.accountBlocks
              && out.value.candidates == Discarding.OtherBlocks(tx, a, g)
    {
      hide Inv, Discarding.DiscardGroups, Discarding.OnlyGroup, Discarding.OthersKept, Discarding.HasOtherSyncData,
           Discarding.OtherSessionBytes, Discarding.OtherBlocks, Discarding.OtherDevices, SeesRevision,
           Pruning.Paid, Release.Discharge;
      Discarding.DiscardIsExact(tx, a, caller, g, revision, now);
      Discarding.DiscardAccounts(tx, a, caller, g, revision, now);
      ChargePaid(tx, Discarding.DiscardGroups(tx, a, caller, g, revision, now).0, a,
                 Discarding.OtherSessionBytes(tx, a, g));
    }

    static lemma ChargePaid(before: Db, after: Db, a: Id, bytes: nat)
      requires a in before.accounts && a in after.accounts && after.accounts[a].used == before.accounts[a].used - bytes
      requires after.accounts == before.accounts || after.accounts == Release.Discharge(before.accounts, a, bytes)
      ensures Pruning.Paid(before, after, a, bytes)
    {
    }

    // `SELECT ... ORDER BY COALESCE(orphaned_at, 0) LIMIT`.
    static method SelectCollectible(tx: Db, before: int, limit: int) returns (ids: seq<Digest>)
      ensures Collection.ClaimAnswer(tx, before, limit, Pruning.Elements(ids)) && |ids| == |Pruning.Elements(ids)|
      ensures Collection.OldestFirst(tx.objects, ids)
    {
      var all := set b | b in tx.objects
        && (tx.objects[b].deleting || (tx.objects[b].orphanedAt.Some? && tx.objects[b].orphanedAt.value <= before))
        && !(exists p :: p in tx.accountBlocks && p.1 == b)
        && !(exists r :: r in tx.reservations && tx.reservations[r].block == b);
      SelectedRows(tx, before, all);
      hide Collection.AllCollectible;
      ids := FirstRows(tx.objects, all, Collection.Limit(limit));
    }

    // ORDER BY and LIMIT: repeatedly the least key of what is left.
    static method FirstRows(objects: map<Digest, Object>, all: set<Digest>, limit: nat) returns (ids: seq<Digest>)
      requires all <= objects.Keys
      ensures Pruning.Elements(ids) <= all
      ensures |ids| == |Pruning.Elements(ids)| == if |all| <= limit then |all| else limit
      ensures forall b, c :: b in Pruning.Elements(ids) && c in all && c !in Pruning.Elements(ids) ==>
                Collection.OrphanKey(objects[b]) <= Collection.OrphanKey(objects[c])
      ensures Collection.OldestFirst(objects, ids)
    {
      hide Collection.OrphanKey, Collection.OldestFirst;
      ids := [];
      NoneOldest(objects);
      var rest := all;
      while |ids| < limit && rest != {}
        invariant rest <= all && Pruning.Elements(ids) == all - rest
        invariant |ids| + |rest| == |all| && |Pruning.Elements(ids)| == |ids| <= limit
        invariant forall b, c :: b in Pruning.Elements(ids) && c in rest ==>
                    Collection.OrphanKey(objects[b]) <= Collection.OrphanKey(objects[c])
        invariant Collection.OldestFirst(objects, ids)
        decreases |rest|
      {
        var least := Least(objects, rest);
        Pruning.ElementsAppend(ids, least);
        NextOldest(objects, ids, least);
        hide Pruning.Elements;
        ids := ids + [least];
        rest := rest - {least};
      }
    }

    static lemma NoneOldest(objects: map<Digest, Object>)
      ensures Collection.OldestFirst(objects, [])
    {
    }

    static lemma NextOldest(objects: map<Digest, Object>, ids: seq<Digest>, next: Digest)
      requires Collection.OldestFirst(objects, ids) && next in objects && Pruning.Elements(ids) <= objects.Keys
      requires forall b :: b in Pruning.Elements(ids) ==>
                 Collection.OrphanKey(objects[b]) <= Collection.OrphanKey(objects[next])
      ensures Collection.OldestFirst(objects, ids + [next])
    {
      hide Collection.OrphanKey;
      forall i | 0 <= i < |ids| ensures ids[i] in Pruning.Elements(ids) {}
    }

    static method Least(objects: map<Digest, Object>, rows: set<Digest>) returns (least: Digest)
      requires rows != {} && rows <= objects.Keys
      ensures least in rows
      ensures forall b :: b in rows ==> Collection.OrphanKey(objects[least]) <= Collection.OrphanKey(objects[b])
    {
      least :| least in rows;
      var rest := rows - {least};
      while rest != {}
        invariant least in rows && rest <= rows
        invariant forall b :: b in rows - rest ==>
                    Collection.OrphanKey(objects[least]) <= Collection.OrphanKey(objects[b])
        decreases |rest|
      {
        var b :| b in rest;
        if Collection.OrphanKey(objects[b]) < Collection.OrphanKey(objects[least]) { least := b; }
        rest := rest - {b};
      }
    }

    static lemma SelectedRows(tx: Db, before: int, all: set<Digest>)
      requires all == set b | b in tx.objects
        && (tx.objects[b].deleting || (tx.objects[b].orphanedAt.Some? && tx.objects[b].orphanedAt.value <= before))
        && !(exists p :: p in tx.accountBlocks && p.1 == b)
        && !(exists r :: r in tx.reservations && tx.reservations[r].block == b)
      ensures all == Collection.AllCollectible(tx, before)
    {
      forall b | b in tx.objects
        ensures (exists p :: p in tx.accountBlocks && p.1 == b) <==> Referenced(tx.accountBlocks, b)
      {
        ReferencedAsRow(tx, b);
      }
      hide Referenced;
    }

    static lemma ReferencedAsRow(tx: Db, b: Digest)
      ensures (exists p :: p in tx.accountBlocks && p.1 == b) <==> Referenced(tx.accountBlocks, b)
    {
      if p :| p in tx.accountBlocks && p.1 == b {
        assert (p.0, b) in tx.accountBlocks;
      }
      if Referenced(tx.accountBlocks, b) {
        var a :| (a, b) in tx.accountBlocks;
        assert (a, b).1 == b;
      }
    }

    /** Claims what its SELECT lists; the row-by-row UPDATEs mark exactly those rows. */
    method ClaimCollectibleBlocks(before: int, now: int, limit: int) returns (ids: seq<Digest>)
      modifies this
      ensures Collection.ClaimAnswer(Purge(old(db), now), before, limit, Pruning.Elements(ids))
      ensures |ids| == |Pruning.Elements(ids)| && Collection.OldestFirst(old(db).objects, ids)
      ensures db == Collection.Claim(old(db), before, now, limit, Pruning.Elements(ids))
    {
      var tx := Purge(db, now);
      ids := SelectCollectible(tx, before, limit);
      hide Collection.OldestFirst, Collection.ClaimAnswer, Collection.MarkDeleting, Pruning.Elements;
      tx := MarkRows(tx, ids);
      db := tx;
    }

    // The UPDATE per selected row.
    static method MarkRows(tx: Db, ids: seq<Digest>) returns (after: Db)
      ensures after == tx.(objects := Collection.MarkDeleting(tx, Pruning.Elements(ids)))
    {
      var objects := tx.objects;
      MarkNone(tx);
      assert Pruning.Elements(ids[..0]) == {};
      hide Referenced, Collection.Reserved, Collection.MarkDeleting, Pruning.Elements;
      var i := 0;
      while i < |ids|
        invariant 0 <= i <= |ids|
        invariant objects == Collection.MarkDeleting(tx, Pruning.Elements(ids[..i]))
      {
        Pruning.ElementsNext(ids, i);
        MarkOne(tx, Pruning.Elements(ids[..i]), ids[i]);
        var referenced := ExistsAccountRow(tx.accountBlocks, ids[i]);
        var reserved := ExistsReservation(tx.reservations, ids[i]);
        if ids[i] in objects && !referenced && !reserved {
          objects := objects[ids[i] := objects[ids[i]].(deleting := true)];
        }
        i := i + 1;
      }
      assert ids[..i] == ids;
      after := tx.(objects := objects);
    }

    static lemma MarkNone(tx: Db)
      ensures Collection.MarkDeleting(tx, {}) == tx.objects
    {
    }

    static lemma MarkOne(tx: Db, ids: set<Digest>, b: Digest)
      ensures var marked := Collection.MarkDeleting(tx, ids);
              Collection.MarkDeleting(tx, ids + {b})
              == if b in marked && !Referenced(tx.accountBlocks, b) && !Collection.Reserved(tx.reservations, b)
                 then marked[b := marked[b].(deleting := true)] else marked
    {
      hide Referenced, Collection.Reserved;
    }

    method FinalizeBlockDeletion(b: Digest) returns (finalized: bool)
      modifies this
      ensures (db, finalized) == Collection.Finalize(old(db), b)
    {
      var referenced := ExistsAccountRow(db.accountBlocks, b);
      var reserved := ExistsReservation(db.reservations, b);
      finalized := b in db.objects && db.objects[b].deleting && !referenced && !reserved;
      if finalized { db := Collection.DeleteObject(db, b); }
    }

    method PutDeviceManifest(d: Id, base: int, ciphertext: Bytes) returns (out: Outcome<Documents.ManifestPut>)
      requires Valid()
      modifies this
      ensures (db, out) == Documents.PutManifest(old(db), d, base, ciphertext)
    {
      hide Inv;
      var hash := Sha256(ciphertext);
      var tx := db;
      if d !in tx.heads || d !in tx.devices { return Err(NoRow); }
      if !tx.devices[d].active { return Err(InactiveDevice); }
      var current := tx.heads[d];
      if current != base {
        if current == base + 1 && (d, current) in tx.manifests && tx.manifests[(d, current)].hash == hash {
          return Ok(Documents.ManifestPut(current, current, false, true));
        }
        return Ok(Documents.ManifestPut(0, current, true, false));
      }
      var next := current + 1;
      if (d, next) in tx.manifests || next <= 0 { return Err(Constraint); }
      tx := tx.(manifests := tx.manifests[(d, next) := Manifest(ciphertext, hash)]);
      if tx.heads[d] != current { return Err(CasMissed); }
      tx := tx.(heads := tx.heads[d := next]);
      db := tx;
      return Ok(Documents.ManifestPut(next, next, false, false));
    }

    method CreateDeviceEnrollment(a: Id, d: Id, g: Id, now: int) returns (out: Outcome<()>)
      modifies this
      ensures (db, out) == SyncGroups.Enroll(old(db), a, d, g, now)
    {
      var tx := db;
      if g in tx.groups || a !in tx.accounts { return Err(Constraint); }
      tx := tx.(groups := tx.groups[g := Group(a, 1, now)]);
      if d in tx.devices { return Err(Constraint); }
      tx := tx.(devices := tx.devices[d := Device(a, Some(g), true, None)]);
      if d in tx.heads { return Err(Constraint); }
      tx := tx.(heads := tx.heads[d := 0]);
      db := tx;
      return Ok(());
    }

    method RevokeDevice(a: Id, caller: Id, g: Id, target: Id, now: int) returns (out: Outcome<bool>)
      modifies this
      ensures (db, out) == SyncGroups.Revoke(old(db), a, caller, g, target, now)
      ensures out == Ok(true) ==>
                target in db.devices && !db.devices[target].active
                && db.devices - {target} == old(db).devices - {target}
    {
      var tx := db;
      if caller !in tx.devices || tx.devices[caller].account != a || tx.devices[caller].group != Some(g) {
        return Err(GroupChanged);
      }
      if !tx.devices[caller].active { return Err(InactiveDevice); }
      var revoked := false;
      if target in tx.devices && tx.devices[target].account == a && tx.devices[target].group == Some(g)
         && tx.devices[target].active {
        tx := tx.(devices := tx.devices[target := SyncGroups.RevokeRow(tx.devices[target], now)]);
        revoked := true;
      }
      db := tx;
      return Ok(revoked);
    }

    method ReplaceSyncCode(c: Id, row: Code, now: int) returns (out: Outcome<()>)
      modifies this
      ensures (db, out) == SyncGroups.ReplaceCode(old(db), c, row, now)
    {
      var tx := db;
      if row.inviter !in tx.devices || tx.devices[row.inviter].account != row.account
         || tx.devices[row.inviter].group != Some(row.group) {
        return Err(GroupChanged);
      }
      if !tx.devices[row.inviter].active { return Err(InactiveDevice); }
      if row.group !in tx.groups || tx.groups[row.group].account != row.account { return Err(GroupChanged); }
      tx := tx.(codes := map x | x in tx.codes ::
        if tx.codes[x].consumedAt.None? && tx.codes[x].expiresAt <= now
        then tx.codes[x].(consumedAt := Some(now)) else tx.codes[x]);
      tx := tx.(codes := map x | x in tx.codes ::
        if tx.codes[x].consumedAt.None? && tx.codes[x].inviter == row.inviter
        then tx.codes[x].(consumedAt := Some(now)) else tx.codes[x]);
      assert tx.codes == SyncGroups.ExpireCodes(old(db).codes, row.inviter, now);
      if c in tx.codes { return Err(Constraint); }
      if exists o :: o in tx.codes && tx.codes[o].consumedAt.None? && tx.codes[o].account == row.account
                     && tx.codes[o].mac == row.mac {
        var o :| o in tx.codes && tx.codes[o].consumedAt.None? && tx.codes[o].account == row.account
                 && tx.codes[o].mac == row.mac;
        assert SyncGroups.OpenCode(tx.codes, o, row.account, row.mac);
        return Err(Constraint);
      }
      tx := tx.(codes := tx.codes[c := row.(consumedAt := None)]);
      db := tx;
      return Ok(());
    }

    /** The unique index on open codes makes the SELECT's answer unique; the rest follows the row it found. */
    method RedeemSyncCode(a: Id, redeemer: Id, mac: Bytes, now: int) returns (out: Outcome<SyncGroups.Merge>)
      requires Valid()
      modifies this
      ensures (db, out) == SyncGroups.Redeem(old(db), a, redeemer, mac, now)
    {
      hide Inv;
      var tx := db;
      if !(exists x :: x in tx.codes && tx.codes[x].account == a && tx.codes[x].mac == mac
                       && tx.codes[x].consumedAt.None?) {
        return Err(InvalidSyncCode);
      }
      var c :| c in tx.codes && tx.codes[c].account == a && tx.codes[c].mac == mac && tx.codes[c].consumedAt.None?;
      OpenCodeIsRedeemed(db, a, redeemer, mac, now, c);
      hide SyncGroups.Redeem;
      out := RedeemRow(a, redeemer, c, now);
    }

    static lemma OpenCodeIsRedeemed(tx: Db, a: Id, redeemer: Id, mac: Bytes, now: int, c: Id)
      requires Inv(tx) && c in tx.codes && tx.codes[c].account == a && tx.codes[c].mac == mac
      requires tx.codes[c].consumedAt.None?
      ensures SyncGroups.Redeem(tx, a, redeemer, mac, now) == SyncGroups.RedeemCode(tx, a, redeemer, c, now)
    {
      hide SyncGroups.RedeemCode, GroupsOk, RevisionsOk, ManifestsOk, SessionsOk, BlocksOk, ReservationsOk, QuotaOk;
      assert SyncGroups.OpenCode(tx.codes, c, a, mac);
    }

    // RedeemSyncCode from the row of c on.
    method RedeemRow(a: Id, redeemer: Id, c: Id, now: int) returns (out: Outcome<SyncGroups.Merge>)
      requires c in db.codes
      modifies this
      ensures (db, out) == SyncGroups.RedeemCode(old(db), a, redeemer, c, now)
    {
      var tx := db;
      var code := tx.codes[c];
      if code.consumedAt.Some? || code.expiresAt <= now { return Err(InvalidSyncCode); }
      if code.inviter !in tx.devices || !tx.devices[code.inviter].active || tx.devices[code.inviter].account != a
         || tx.devices[code.inviter].group != Some(code.group) {
        return Err(InvalidSyncCode);
      }
      if redeemer !in tx.devices || !tx.devices[redeemer].active || tx.devices[redeemer].group.None?
         || tx.devices[redeemer].account != a {
        return Err(InvalidSyncCode);
      }
      var left, right := code.group, tx.devices[redeemer].group.value;
      if left == right {
        tx := tx.(codes := SyncGroups.ConsumeCode(tx.codes, c, now));
        if left !in tx.groups { return Err(NoRow); }
        db := tx;
        return Ok(SyncGroups.Merge(true, left, None, tx.groups[left].revision, GroupDevices(tx, a, left)));
      }
      if left !in tx.groups || right !in tx.groups || tx.groups[left].account != a || tx.groups[right].account != a {
        return Err(InvalidSyncCode);
      }
      var winner, loser := left, right;
      if tx.groups[right].createdAt < tx.groups[left].createdAt
         || (tx.groups[right].createdAt == tx.groups[left].createdAt && right < left) {
        winner, loser := right, left;
      }
      var revision := (if tx.groups[left].revision < tx.groups[right].revision then tx.groups[right].revision
                       else tx.groups[left].revision) + 1;
      hide SyncGroups.MergeGroups, SyncGroups.ConsumeCode, GroupDevices;
      tx := MergeTables(tx, a, winner, loser, revision, c, now);
      db := tx;
      return Ok(SyncGroups.Merge(false, winner, Some(loser), revision, GroupDevices(tx, a, winner)));
    }

    // The UPDATE statements of the merge, then the DELETE that cascades.
    static method MergeTables(start: Db, a: Id, winner: Id, loser: Id, revision: int, c: Id, now: int) returns (tx: Db)
      requires c in start.codes && winner in start.groups
      ensures tx == SyncGroups.MergeGroups(start, a, winner, loser, revision, c, now)
    {
      tx := start.(devices := SyncGroups.MoveDevices(start.devices, winner, loser));
      tx := tx.(codes := SyncGroups.MoveCodes(tx.codes, winner, loser));
      tx := tx.(groups := tx.groups[winner := tx.groups[winner].(revision := revision)]);
      tx := tx.(codes := SyncGroups.ConsumeCode(tx.codes, c, now));
      tx := tx.(sessions := SyncGroups.MoveSessions(tx.sessions, a, winner, loser));
      hide SyncGroups.MoveDevices, SyncGroups.MoveCodes, SyncGroups.ConsumeCode, SyncGroups.MoveSessions, DeleteGroups;
      tx := DeleteGroups(tx, {loser});
    }

    static method RevalidateSessionWriter(tx: Db, a: Id, g: Id, d: Id) returns (error: Option<Error>)
      ensures error == Documents.WriterError(tx, a, g, d)
    {
      if d !in tx.devices || tx.devices[d].account != a || tx.devices[d].group != Some(g) { return Some(GroupChanged); }
      if !tx.devices[d].active { return Some(InactiveDevice); }
      if g !in tx.groups || tx.groups[g].account != a { return Some(GroupChanged); }
      return None;
    }

    method PutSessionFileCAS(a: Id, g: Id, d: Id, s: string, base: int, ciphertext: Bytes, now: int)
      returns (out: Outcome<Documents.SessionPut>)
      requires Valid()
      modifies this
      ensures (db, out) == Documents.PutSession(old(db), a, g, d, s, base, ciphertext, now)
    {
      hide GroupsOk, RevisionsOk, ManifestsOk, CodesOk, BlocksOk, ReservationsOk, QuotaOk, Total, PendingCharges;
      var tx := db;
      var error := RevalidateSessionWriter(tx, a, g, d);
      hide Documents.WriterError;
      if error.Some? { return Err(error.value); }
      tx := Purge(tx, now);
      var currentVersion, oldSize := 0, 0;
      if (a, s) !in tx.sessions {
        if base != 0 {
          db := tx;
          return Ok(Documents.SessionPut(0, 0, 0, true));
        }
      } else {
        currentVersion, oldSize := tx.sessions[(a, s)].version, |tx.sessions[(a, s)].ciphertext|;
        if tx.sessions[(a, s)].group != g { return Err(SessionIdConflict); }
        if currentVersion != base {
          db := tx;
          return Ok(Documents.SessionPut(0, currentVersion, 0, true));
        }
      }
      var newSize := |ciphertext|;
      var delta := newSize - oldSize;
      if delta > 0 {
        if a !in tx.accounts { return Err(NoRow); }
        var reserved := SumRows(PendingCharges(tx.accountBlocks, tx.reservations, a));
        if tx.accounts[a].used + reserved + delta > tx.accounts[a].quota { return Err(QuotaExceeded); }
      }
      if a !in tx.accounts || newSize < 1 || newSize > MAX_SESSION_BYTES { return Err(Constraint); }
      ghost var p := tx;
      if currentVersion == 0 {
        if (a, s) in tx.sessions { return Err(Constraint); }
        tx := tx.(sessions := tx.sessions[(a, s) := Session(g, 1, ciphertext)]);
        out := Ok(Documents.SessionPut(1, 1, newSize, false));
      } else {
        var next := currentVersion + 1;
        if (a, s) !in tx.sessions || tx.sessions[(a, s)].version != currentVersion { return Err(CasMissed); }
        tx := tx.(sessions := tx.sessions[(a, s) := tx.sessions[(a, s)].(version := next, ciphertext := ciphertext)]);
        out := Ok(Documents.SessionPut(next, next, newSize, false));
      }
      assert tx == p.(sessions := p.sessions[(a, s) := Session(g, currentVersion + 1, ciphertext)]);
      if tx.accounts[a].used + delta < 0 { return Err(Constraint); }
      if delta != 0 {
        tx := tx.(accounts := tx.accounts[a := tx.accounts[a].(used := tx.accounts[a].used + delta)]);
      }
      assert tx.accounts == Documents.AddUsed(p.accounts, a, delta);
      db := tx;
    }

    method DeleteSessionFileCAS(a: Id, g: Id, d: Id, s: string, base: int)
      returns (out: Outcome<Documents.SessionDelete>)
      modifies this
      ensures (db, out) == Documents.DeleteSession(old(db), a, g, d, s, base)
    {
      var tx := db;
      var error := RevalidateSessionWriter(tx, a, g, d);
      hide Documents.WriterError;
      if error.Some? { return Err(error.value); }
      if (a, s) !in tx.sessions || tx.sessions[(a, s)].group != g {
        return Ok(Documents.SessionDelete(false, 0, 0, false));
      }
      var currentVersion, size := tx.sessions[(a, s)].version, |tx.sessions[(a, s)].ciphertext|;
      if currentVersion != base { return Ok(Documents.SessionDelete(false, currentVersion, 0, true)); }
      tx := tx.(sessions := tx.sessions - {(a, s)});
      if a in tx.accounts {
        if tx.accounts[a].used - size < 0 { return Err(Constraint); }
        tx := tx.(accounts := tx.accounts[a := tx.accounts[a].(used := tx.accounts[a].used - size)]);
      }
      db := tx;
      return Ok(Documents.SessionDelete(true, 0, size, false));
    }
  }
}
