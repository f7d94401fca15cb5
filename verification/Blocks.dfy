/** The block directory (internal/store/blocks.go) and the calls that use it with the database
    (internal/service/blocks.go), each run without interference; BlockFiles has the interleaved steps. */
module Blocks {
  import opened Tables
  import opened Integrity
  import BlockFiles
  import Calls
  import Collection
  import Grace
  import Pruning
  import Store
  import Uploads

  const MAX_MISSING_IDS := 900

  class BlockStore {
    var files: map<Digest, Bytes>
    var modTimes: map<Digest, int>

    constructor ()
      ensures files == map[] && modTimes == map[]
    {
      files, modTimes := map[], map[];
    }

    ghost predicate Valid()
      reads this
    {
      files.Keys == modTimes.Keys && BlockFiles.FilesOk(files)
    }

    // Installs without replacing: an existing file keeps its bytes and its modification time. A file system that fails
    // leaves everything as it was.
    method PutNew(b: Digest, data: Bytes, now: int, fails: bool) returns (created: Outcome<bool>)
      requires Valid() && Sha256(data) == b
      modifies this
      ensures Valid() && created == if fails then Err(DiskError) else Ok(b !in old(files))
      ensures files == if fails then old(files) else BlockFiles.PutNew(old(files), b, data)
      ensures modTimes == if created == Ok(true) then old(modTimes)[b := now] else old(modTimes)
    {
      if fails { return Err(DiskError); }
      if b in files { return Ok(false); }
      files, modTimes := files[b := data], modTimes[b := now];
      return Ok(true);
    }

    // A missing file counts as deleted.
    method Delete(b: Digest, fails: bool) returns (deleted: bool)
      requires Valid()
      modifies this
      ensures Valid() && deleted == !fails
      ensures var gone := if fails then {} else {b}; files == old(files) - gone && modTimes == old(modTimes) - gone
    {
      if fails {
        assert files - {} == files && modTimes - {} == modTimes;
        return false;
      }
      files, modTimes := files - {b}, modTimes - {b};
      return true;
    }
  }

  class BlocksService {
    const q: Store.Queries
    const bs: BlockStore

    constructor (q: Store.Queries, bs: BlockStore)
      ensures this.q == q && this.bs == bs
    {
      this.q, this.bs := q, bs;
    }

    ghost predicate Valid()
      reads this, q, bs
    {
      Inv(q.db) && bs.Valid() && BlockFiles.ReferencedFilesOk(bs.files, q.db.accountBlocks)
    }

    /** The database and the block directory, with no call in flight. */
    ghost function World(): BlockFiles.World
      reads this, q, bs
    {
      Calls.Idle(q.db, bs.files, bs.modTimes)
    }

    /** A put whose data match their id, whose reservation is granted and whose file can be written always ends with
        the block charged, held by the device and on disk. If only the disk fails, the cancel leaves nothing behind
        but the purge of expired reservations; any other refusal leaves everything as it was. With a fresh reservation
        id, what a put does is what the protocol's steps do. */
    method Put(rid: Id, a: Id, d: Id, b: Digest, data: Bytes, now: int, diskFails: bool) returns (out: Outcome<bool>)
      requires Valid()
      modifies q, bs
      ensures Valid()
      ensures var granted := Sha256(data) == b && Uploads.Reserve(old(q.db), rid, a, d, b, |data|, now).1.Ok?;
              && (out.Ok? <==> granted && !diskFails)
              && (out.Ok? ==> (a, b) in q.db.accountBlocks && (d, b) in q.db.deviceBlocks && b in bs.files)
              && (out.Ok? ==> rid !in q.db.reservations)
              && (out.Ok? ==> out.value == (b !in old(bs.files) || (a, b) !in old(q.db).accountBlocks))
              && (out.Err? ==>
                    bs.files == old(bs.files) && q.db == if granted then Purge(old(q.db), now) else old(q.db))
              && (out.Err? && !granted && Sha256(data) == b ==>
                    out.error == Uploads.Reserve(old(q.db), rid, a, d, b, |data|, now).1.error)
              && (out.Err? && granted ==> out.error == DiskError)
      ensures Sha256(data) != b ==> out == Err(HashMismatch)
      ensures out.Ok? ==>
                && q.db.accountBlocks == old(q.db).accountBlocks + {(a, b)}
                && q.db.deviceBlocks == old(q.db).deviceBlocks + {(d, b)}
                && bs.files == (if b in old(bs.files) then old(bs.files) else old(bs.files)[b := data])
                && bs.modTimes == (if b in old(bs.files) then old(bs.modTimes) else old(bs.modTimes)[b := now])
      ensures out.Ok? && rid !in old(q.db).reservations ==>
                World() == BlockFiles.Steps(old(World()), Calls.PutSteps(0, rid, a, d, b, data, now))
      ensures out.Err? && Sha256(data) == b && Uploads.Reserve(old(q.db), rid, a, d, b, |data|, now).1.Ok?
              && rid !in old(q.db).reservations ==>
                World() == BlockFiles.Steps(old(World()), Calls.FailedPutSteps(0, rid, a, d, b, data, now))
    {
      hide Inv, Uploads.Commit, Uploads.Reserve, Purge, Uploads.Cancel, BlockFiles.Steps, Calls.PutSteps,
           Calls.FailedPutSteps;
      if Sha256(data) != b { return Err(HashMismatch); }
      ghost var start := q.db;
      Uploads.ReserveKeepsInv(start, rid, a, d, b, now);
      Uploads.ReservePaths(start, rid, a, d, b, |data|, now);
      Uploads.CancelUndoesReserve(start, rid, a, d, b, |data|, now, now);
      Uploads.PurgeKeepsInv(start, now);
      Uploads.PurgeKeepsTables(start, now);
      if Uploads.Reserve(start, rid, a, d, b, |data|, now).1.Ok? { ReservingDevice(start, rid, a, d, b, |data|, now); }
      if Uploads.Reserve(start, rid, a, d, b, |data|, now).1.Ok? && rid !in start.reservations {
        Calls.PutIsSteps(World(), 0, rid, a, d, b, data, now);
        Calls.FailedPutIsSteps(World(), 0, rid, a, d, b, data, now);
      }
      var reservation := q.ReserveBlockUpload(rid, a, d, b, |data|, now);
      if reservation.Err? { return Err(reservation.error); }
      ghost var reserved := q.db;
      var created := bs.PutNew(b, data, now, diskFails);
      if created.Err? {
        q.CancelBlockUpload(rid);
        return Err(created.error);
      }
      Uploads.CommitKeepsInv(reserved, rid, now);
      var attached := q.CommitBlockUpload(rid, now);
      match attached
      case Err(error) =>
        q.CancelBlockUpload(rid);
        // Not reached: the reservation is fresh and its device active.
        Uploads.CommitOutcome(reserved, rid, now);
        return Err(error);
      case Ok(attachment) =>
        CommitAttaches(reserved, rid, now);
        return Ok(created.value || attachment.accountAssociation);
    }

    static lemma ReservingDevice(db: Db, rid: Id, a: Id, d: Id, b: Digest, size: nat, now: int)
      requires Uploads.Reserve(db, rid, a, d, b, size, now).1.Ok?
      ensures InAccount(db, d, a) && db.devices[d].active
    {
      hide Uploads.HasReservation, PendingCharges;
    }

    static lemma CommitAttaches(db: Db, rid: Id, now: int)
      requires Inv(db) && rid in db.reservations && Uploads.Commit(db, rid, now).1.Ok?
      ensures var (after, out) := Uploads.Commit(db, rid, now);
              var r := db.reservations[rid];
              && after.accountBlocks == db.accountBlocks + {(r.account, r.block)}
              && after.deviceBlocks == db.deviceBlocks + {(r.device, r.block)} && rid !in after.reservations
              && out.value.accountAssociation == ((r.account, r.block) !in db.accountBlocks)
    {
      hide Inv;
    }

    /** Which of the ids the group cannot fetch. With the store intact these are exactly the invisible ones. */
    method Missing(a: Id, g: Id, ids: seq<Digest>) returns (out: Outcome<seq<Digest>>)
      requires Valid()
      ensures out.Err? <==> |ids| > 900
      ensures out.Err? ==> out.error == InvalidInput
      ensures out.Ok? ==> out.value == Invisible(q.db, a, g, ids)
    {
      hide Inv, Visible;
      if |ids| > MAX_MISSING_IDS { return Err(InvalidInput); }
      var missing := [];
      var i := 0;
      while i < |ids|
        invariant 0 <= i <= |ids|
        invariant missing == Invisible(q.db, a, g, ids[..i])
      {
        var visible := IsBlockVisible(q.db, a, g, ids[i]);
        StoredIfVisible(q.db, bs.files, a, g, ids[i]);
        assert ids[..i + 1][..i] == ids[..i];
        if !visible || ids[i] !in bs.files { missing := missing + [ids[i]]; }
        i := i + 1;
      }
      assert ids[..i] == ids;
      return Ok(missing);
    }

    /** A member of the group reads a block exactly when it is visible to the group, and gets the bytes that were
        hashed. */
    method Get(a: Id, g: Id, b: Digest) returns (out: Outcome<Bytes>)
      requires Valid()
      ensures out == BlockFiles.Get(q.db, bs.files, a, g, b)
      ensures out == if Visible(q.db, a, g, b) then Ok(b.data) else Err(BlockNotFound)
    {
      hide Inv, Visible;
      var visible := IsBlockVisible(q.db, a, g, b);
      StoredIfVisible(q.db, bs.files, a, g, b);
      if !visible { return Err(BlockNotFound); }
      return Ok(bs.files[b]);
    }

    static method IsBlockVisible(tx: Db, a: Id, g: Id, b: Digest) returns (visible: bool)
      ensures visible <==> Visible(tx, a, g, b)
    {
      visible := exists p :: p in tx.deviceBlocks && p.1 == b && p.0 in tx.devices
                             && tx.devices[p.0].account == a && tx.devices[p.0].group == Some(g);
      VisibleRow(tx, a, g, b);
    }

    static lemma VisibleRow(db: Db, a: Id, g: Id, b: Digest)
      ensures (exists p :: p in db.deviceBlocks && p.1 == b && p.0 in db.devices
                           && db.devices[p.0].account == a && db.devices[p.0].group == Some(g))
           <==> Visible(db, a, g, b)
    {
      if Visible(db, a, g, b) {
        var d :| InGroup(db, d, a, g) && (d, b) in db.deviceBlocks;
        assert (d, b).1 == b;
      }
      if p :| p in db.deviceBlocks && p.1 == b && p.0 in db.devices && db.devices[p.0].account == a
              && db.devices[p.0].group == Some(g) {
        assert InGroup(db, p.0, a, g) && (p.0, b) in db.deviceBlocks;
      }
    }

    static lemma StoredIfVisible(db: Db, files: map<Digest, Bytes>, a: Id, g: Id, b: Digest)
      requires Inv(db) && BlockFiles.ReferencedFilesOk(files, db.accountBlocks)
      ensures Visible(db, a, g, b) ==> b in files
    {
      hide Inv;
      if Visible(db, a, g, b) { BlockFiles.VisibleIsCharged(db, a, g, b); }
      hide Visible;
      assert (a, b) in db.accountBlocks ==> (a, b).1 in files;
    }

    static ghost function Invisible(db: Db, a: Id, g: Id, ids: seq<Digest>): seq<Digest>
      decreases |ids|
    {
      if ids == [] then []
      else
        var last := ids[|ids| - 1];
        Invisible(db, a, g, ids[..|ids| - 1]) + if Visible(db, a, g, last) then [] else [last]
    }

    /** The row-based half of CollectGarbage. Of the claimed ids those whose file cannot be deleted keep file and
        row, those whose row cannot be deleted keep the row, and all others lose both and are counted: a
        finalisation that runs never fails. */
    method CollectRows(now: int, stuck: set<Digest>, failing: set<Digest>)
      returns (collected: nat, ghost ids: seq<Digest>)
      requires Valid()
      modifies q, bs
      ensures Valid()
      ensures Collection.ClaimAnswer(Purge(old(q.db), now), now - 86_400, 256, Pruning.Elements(ids))
      ensures var gone := Pruning.Elements(ids) - stuck;
              && q.db == Grace.Collected(old(q.db), now - 86_400, now, Pruning.Elements(ids), gone - failing)
              && bs.files == old(bs.files) - gone && bs.modTimes == old(bs.modTimes) - gone
              && collected == |gone - failing|
      ensures World() == BlockFiles.Steps(old(World()), Calls.CollectSteps(ids, now, stuck, failing))
    {
      hide Inv, Collection.ClaimAnswer, Collection.Claim, Purge, Collection.Finalize, Collection.Finalizable,
           Collection.DeleteObject, Pruning.Elements, BlockFiles.FilesOk, BlockFiles.ReferencedFilesOk,
           BlockFiles.Steps, Calls.CollectSteps;
      ghost var start := q.db;
      var claimed := q.ClaimCollectibleBlocks(now - GRACE_SECONDS, now, CLAIM_LIMIT);
      ids := claimed;
      ghost var marked := q.db;
      Collection.ClaimKeepsInv(start, now - GRACE_SECONDS, now, CLAIM_LIMIT, Pruning.Elements(ids));
      ClaimedAreDeleting(start, now - GRACE_SECONDS, now, CLAIM_LIMIT, Pruning.Elements(ids));
      collected := 0;
      var i := 0;
      NothingYet(ids, marked.objects, bs.files, bs.modTimes, stuck, failing);
      while i < |claimed|
        invariant 0 <= i <= |claimed|
        invariant Inv(q.db) && bs.Valid() && BlockFiles.ReferencedFilesOk(bs.files, q.db.accountBlocks)
        invariant q.db == marked.(objects := marked.objects - (Pruning.Elements(ids[..i]) - stuck - failing))
        invariant bs.files == old(bs.files) - (Pruning.Elements(ids[..i]) - stuck)
        invariant bs.modTimes == old(bs.modTimes) - (Pruning.Elements(ids[..i]) - stuck)
        invariant collected == |Pruning.Elements(ids[..i]) - stuck - failing|
      {
        var id := claimed[i];
        ghost var E := Pruning.Elements(ids[..i]);
        Pruning.NextIsNew(ids, i);
        Pruning.ElementsNext(ids, i);
        OneMore(E, id, stuck);
        OneMore(E - stuck, id, failing);
        BlockFiles.DeletingIsFree(q.db, id);
        Collection.FinalizeKeepsInv(q.db, id);
        DropOne(marked.objects, E - stuck - failing, id);
        DropOne(old(bs.files), E - stuck, id);
        DropOne(old(bs.modTimes), E - stuck, id);
        UnlinkKeepsReferenced(bs.files, q.db.accountBlocks, id);
        var deleted := bs.Delete(id, id in stuck);
        DropNone(old(bs.files), E - stuck);
        DropNone(old(bs.modTimes), E - stuck);
        if deleted && id !in failing {
          var finalized := q.FinalizeBlockDeletion(id);
          if finalized { collected := collected + 1; }
        }
        i := i + 1;
      }
      assert ids[..i] == ids;
      Calls.CollectIsSteps(start, old(bs.files), old(bs.modTimes), ids, now, stuck, failing);
    }

    static lemma NothingYet<T, U, V>(ids: seq<Digest>, x: map<Digest, T>, y: map<Digest, U>, z: map<Digest, V>,
                                     stuck: set<Digest>, failing: set<Digest>)
      ensures var none := Pruning.Elements(ids[..0]) - stuck;
              none == {} && none - failing == {} && x - (none - failing) == x && y - none == y && z - none == z
    {
    }

    static lemma OneMore(gone: set<Digest>, b: Digest, kept: set<Digest>)
      ensures gone + {b} - kept == if b in kept then gone - kept else gone - kept + {b}
    {
    }

    static lemma DropOne<T>(rows: map<Digest, T>, gone: set<Digest>, b: Digest)
      ensures rows - gone - {b} == rows - (gone + {b})
    {
    }

    static lemma DropNone<T>(rows: map<Digest, T>, gone: set<Digest>)
      ensures rows - gone - {} == rows - gone
    {
    }

    static lemma UnlinkKeepsReferenced(files: map<Digest, Bytes>, accountBlocks: set<(Id, Digest)>, b: Digest)
      requires BlockFiles.ReferencedFilesOk(files, accountBlocks) && forall p :: p in accountBlocks ==> p.1 != b
      ensures BlockFiles.ReferencedFilesOk(files - {b}, accountBlocks)
      ensures BlockFiles.ReferencedFilesOk(files - {}, accountBlocks)
    {
    }

    static lemma ClaimedAreDeleting(db: Db, before: int, now: int, limit: int, answer: set<Digest>)
      requires Collection.ClaimAnswer(Purge(db, now), before, limit, answer)
      ensures var after := Collection.Claim(db, before, now, limit, answer);
              && after.accountBlocks == db.accountBlocks
              && forall b :: b in answer ==> b in after.objects && after.objects[b].deleting
    {
      BlockFiles.ClaimFrame(db, before, now, limit, answer);
    }

    /** The file sweep, run as one step: it removes exactly the old files without an object row and without an unexpired
        reservation, save those that cannot be deleted, and never a file that an account needs. */
    method CollectOrphanFiles(now: int, stuck: set<Digest>) returns (collected: nat, ghost ids: seq<Digest>)
      requires Valid()
      modifies bs
      ensures Valid()
      ensures var swept := BlockFiles.Sweepable(old(bs.modTimes), now, BlockFiles.Known(q.db, now)) - stuck;
              bs.files == old(bs.files) - swept && collected == |swept|
      ensures StraysGone(q.db, old(bs.files), old(bs.modTimes), now, stuck, bs.files)
      ensures World() == BlockFiles.Steps(old(World()), Calls.SweepSteps(ids, now))
    {
      hide Inv, StraysGone, BlockFiles.Steps, Calls.SweepSteps, Pruning.Elements;
      var files := bs.files.Keys;
      var known := BlockFiles.Known(q.db, now);
      ghost var start, times := bs.files, bs.modTimes;
      ghost var swept := BlockFiles.Sweepable(times, now, known) - stuck;
      collected := 0;
      NothingSwept(start, times, swept);
      SweepKeepsReferenced(q.db, start, times, now, swept);
      hide BlockFiles.Known, BlockFiles.ReferencedFilesOk;
      while files != {}
        invariant files <= start.Keys && bs.Valid()
        invariant bs.files == start - (swept - files) && bs.modTimes == times - (swept - files)
        invariant collected + |swept * files| == |swept|
        decreases |files|
      {
        var b :| b in files;
        SweepOne(start, times, swept, files, b);
        files := files - {b};
        if bs.modTimes[b] <= now - GRACE_SECONDS && b !in known {
          DropNone(start, swept - files);
          DropNone(times, swept - files);
          var deleted := bs.Delete(b, b in stuck);
          if deleted { collected := collected + 1; }
        }
      }
      assert swept - files == swept;
      StraysAreSwept(q.db, start, times, now, stuck);
      ids := Pruning.ListOf(swept);
      SweptAreStrays(q.db, times, now, stuck, swept);
      Calls.SweepIsSteps(q.db, start, times, ids, now);
    }

    static lemma SweptAreStrays(db: Db, times: map<Digest, int>, now: int, stuck: set<Digest>, swept: set<Digest>)
      requires swept == BlockFiles.Sweepable(times, now, BlockFiles.Known(db, now)) - stuck
      ensures forall b :: b in swept ==> BlockFiles.Stray(times, db, now, now, b)
    {
      BlockFiles.SweepsStrays(times, db, now, now);
      hide BlockFiles.Stray, BlockFiles.Sweepable, BlockFiles.Known;
    }

    /** The strays are gone, save those that could not be deleted, and every other file is as it was. */
    static ghost predicate StraysGone(db: Db, files: map<Digest, Bytes>, times: map<Digest, int>, now: int,
                                      stuck: set<Digest>, after: map<Digest, Bytes>) {
      && (forall b :: b in after <==> b in files && !(BlockFiles.Stray(times, db, now, now, b) && b !in stuck))
      && (forall b :: b in after ==> after[b] == files[b])
    }

    static lemma StraysAreSwept(db: Db, files: map<Digest, Bytes>, times: map<Digest, int>, now: int,
                                stuck: set<Digest>)
      ensures StraysGone(db, files, times, now, stuck,
                         files - (BlockFiles.Sweepable(times, now, BlockFiles.Known(db, now)) - stuck))
    {
      BlockFiles.SweepsStrays(times, db, now, now);
      hide BlockFiles.Stray, BlockFiles.Sweepable, BlockFiles.Known;
    }

    static lemma NothingSwept(files: map<Digest, Bytes>, times: map<Digest, int>, swept: set<Digest>)
      requires files.Keys == times.Keys && swept <= files.Keys
      ensures files - (swept - files.Keys) == files && times - (swept - files.Keys) == times
      ensures swept * files.Keys == swept
    {
    }

    static lemma SweepOne(start: map<Digest, Bytes>, times: map<Digest, int>, swept: set<Digest>, files: set<Digest>,
                          b: Digest)
      requires b in files
      ensures var rest := files - {b};
              if b in swept
              then start - (swept - files) - {b} == start - (swept - rest)
                   && times - (swept - files) - {b} == times - (swept - rest)
                   && |swept * files| == |swept * rest| + 1
              else swept - rest == swept - files && swept * rest == swept * files
    {
      var rest := files - {b};
      if b in swept {
        assert swept - rest == (swept - files) + {b};
        assert swept * files == (swept * rest) + {b};
      } else {
        assert swept * rest == swept * files;
      }
    }

    /** One collection, run as one step: both halves, and the count of what they removed. */
    method CollectGarbage(now: int, stuck: set<Digest>, failing: set<Digest>)
      returns (collected: nat, ghost ids: seq<Digest>)
      requires Valid()
      modifies q, bs
      ensures Valid()
      ensures Collection.ClaimAnswer(Purge(old(q.db), now), now - 86_400, 256, Pruning.Elements(ids))
      ensures var gone := Pruning.Elements(ids) - stuck;
              var swept := BlockFiles.Sweepable(old(bs.modTimes) - gone, now, BlockFiles.Known(q.db, now)) - stuck;
              && q.db == Grace.Collected(old(q.db), now - 86_400, now, Pruning.Elements(ids), gone - failing)
              && bs.files == old(bs.files) - gone - swept && collected == |gone - failing| + |swept|
    {
      hide Inv, Collection.ClaimAnswer, Grace.Collected, BlockFiles.Known, BlockFiles.Sweepable, Pruning.Elements,
           BlockFiles.FilesOk;
      collected, ids := CollectRows(now, stuck, failing);
      var orphaned, _ := CollectOrphanFiles(now, stuck);
      collected := collected + orphaned;
    }

    static lemma SweepKeepsReferenced(db: Db, files: map<Digest, Bytes>, times: map<Digest, int>, now: int,
                                      swept: set<Digest>)
      requires Inv(db) && BlockFiles.ReferencedFilesOk(files, db.accountBlocks)
      requires swept <= BlockFiles.Sweepable(times, now, BlockFiles.Known(db, now))
      ensures BlockFiles.ReferencedFilesOk(files - swept, db.accountBlocks)
    {
      hide GroupsOk, RevisionsOk, ManifestsOk, CodesOk, SessionsOk, ObjectsOk, ReservationsOk, QuotaOk;
    }
  }
}
