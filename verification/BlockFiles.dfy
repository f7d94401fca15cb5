/** Uploads, garbage collection and the sweep of stray files as interleaved steps over the database and the block
    directory (internal/service/blocks.go, internal/store/blocks.go). */
module BlockFiles {
  import opened Tables
  import opened Integrity
  import opened Machine
  import Uploads
  import Release
  import Collection
  import Frames
  import Revocation

  /** One call of BlocksService.Put between its reservation and its end. `now` is read once, at the start. */
  datatype Upload = Upload(reservation: Id, block: Digest, data: Bytes, now: int, installed: bool)

  /** The one collector: ids claimed and not yet handled, and ids whose file is gone and whose row is not. */
  datatype Collector = Collector(claimed: set<Digest>, unlinked: set<Digest>)

  /** Its sweep: the files listed with their modification times, then the ids found old and unknown and not yet
      deleted. */
  datatype Sweeper = Sweeper(listed: map<Digest, int>, doomed: set<Digest>)

  datatype World = World(db: Db, files: map<Digest, Bytes>, times: map<Digest, int>, uploads: map<Id, Upload>,
                         gc: Collector, sweep: Sweeper)

  const EMPTY_WORLD := World(EMPTY_DB, map[], map[], map[], Collector({}, {}), Sweeper(map[], {}))

  datatype Step =
    | Transaction(op: Op)                                     // any call that is neither an upload nor a collection
    | StartUpload(upload: Id, reservation: Id, account: Id, device: Id, block: Digest, data: Bytes, now: int)
    | Install(upload: Id, at: int)
    | CommitUpload(upload: Id)
    | CancelUpload(upload: Id)
    | Vanish(upload: Id)                                      // the call stops here: crash or lost connection
    | ClaimGarbage(before: int, now: int, limit: int, answer: set<Digest>)
    | Unlink(block: Digest)
    | FinalizeGarbage(block: Digest)
    | ListFiles
    | ListRows(now: int, clock: int)                          // `clock` is read again for the cutoff
    | SweepFile(block: Digest)
    | StopCollector

  predicate Outside(op: Op) {
    !op.Reserve? && !op.Commit? && !op.Claim? && !op.Finalize?
  }

  // PutNew: install without replacing.
  function PutNew(files: map<Digest, Bytes>, b: Digest, data: Bytes): map<Digest, Bytes> {
    if b in files then files else files[b := data]
  }

  // ListActiveBlockIDs
  function Known(db: Db, now: int): set<Digest> {
    db.objects.Keys + set r | r in db.reservations && db.reservations[r].expiresAt > now :: db.reservations[r].block
  }

  /** The ids a sweep deletes: listed with an old modification time, and without an object row or an unexpired
      reservation. */
  function Sweepable(listed: map<Digest, int>, clock: int, known: set<Digest>): set<Digest> {
    set b | b in listed && listed[b] <= clock - GRACE_SECONDS && b !in known
  }

  /** Old enough, without an object row, and without a reservation that is still valid. */
  predicate Stray(listed: map<Digest, int>, db: Db, clock: int, now: int, b: Digest) {
    && b in listed && listed[b] + 86_400 <= clock && b !in db.objects
    && forall r :: r in db.reservations && db.reservations[r].block == b ==> db.reservations[r].expiresAt <= now
  }

  lemma SweepsStrays(listed: map<Digest, int>, db: Db, clock: int, now: int)
    ensures forall b :: b in Sweepable(listed, clock, Known(db, now)) <==> Stray(listed, db, clock, now, b)
  {
  }

  function DeleteFile(w: World, b: Digest): World {
    w.(files := w.files - {b}, times := w.times - {b})
  }

  ghost function Next(w: World, step: Step): World {
    match step
    case Transaction(op) => if Outside(op) then w.(db := Apply(w.db, op)) else w
    case StartUpload(u, r, a, d, b, data, now) =>
      // Reservation ids are fresh UUIDs: no call in flight holds this one.
      if Sha256(data) != b || u in w.uploads || r in w.db.reservations
         || (exists v :: v in w.uploads && w.uploads[v].reservation == r)
      then w
      else
        var (after, out) := Uploads.Reserve(w.db, r, a, d, b, |data|, now);
        if out.Err? then w
        else w.(db := after, uploads := w.uploads[u := Upload(r, b, data, now, false)])
    case Install(u, at) =>
      if u !in w.uploads then w
      else
        var b := w.uploads[u].block;
        w.(files := PutNew(w.files, b, w.uploads[u].data),
           times := if b in w.files then w.times else w.times[b := at],
           uploads := w.uploads[u := w.uploads[u].(installed := true)])
    case CommitUpload(u) =>
      if u !in w.uploads || !w.uploads[u].installed then w
      else
        var (after, out) := Uploads.Commit(w.db, w.uploads[u].reservation, w.uploads[u].now);
        if out.Err? then w else w.(db := after, uploads := w.uploads - {u})
    case CancelUpload(u) =>
      if u !in w.uploads then w
      else w.(db := Uploads.Cancel(w.db, w.uploads[u].reservation), uploads := w.uploads - {u})
    case Vanish(u) => w.(uploads := w.uploads - {u})
    case ClaimGarbage(before, now, limit, answer) =>
      if w.gc != Collector({}, {}) || !Collection.ClaimAnswer(Purge(w.db, now), before, limit, answer) then w
      else w.(db := Collection.Claim(w.db, before, now, limit, answer), gc := Collector(answer, {}))
    case Unlink(b) =>
      if b !in w.gc.claimed then w
      else DeleteFile(w, b).(gc := Collector(w.gc.claimed - {b}, w.gc.unlinked + {b}))
    case FinalizeGarbage(b) =>
      if b !in w.gc.unlinked then w
      else w.(db := Collection.Finalize(w.db, b).0, gc := Collector(w.gc.claimed, w.gc.unlinked - {b}))
    case ListFiles => w.(sweep := Sweeper(w.times, {}))
    case ListRows(now, clock) => w.(sweep := Sweeper(map[], Sweepable(w.sweep.listed, clock, Known(w.db, now))))
    case SweepFile(b) =>
      if b !in w.sweep.doomed then w
      else DeleteFile(w, b).(sweep := Sweeper(w.sweep.listed, w.sweep.doomed - {b}))
    case StopCollector => w.(gc := Collector({}, {}), sweep := Sweeper(map[], {}))
  }

  /** The row listing dooms exactly the strays among the files listed before, whatever came in between. */
  lemma ListingDoomsStrays(w: World, now: int, clock: int, b: Digest)
    ensures b in Next(w, ListRows(now, clock)).sweep.doomed <==> Stray(w.sweep.listed, w.db, clock, now, b)
    ensures Next(w, ListFiles).sweep == Sweeper(w.times, {})
  {
    SweepsStrays(w.sweep.listed, w.db, clock, now);
    hide Stray, Known, Sweepable;
  }

  ghost function Steps(w: World, steps: seq<Step>): World
    decreases |steps|
  {
    if steps == [] then w else Next(Steps(w, steps[..|steps| - 1]), steps[|steps| - 1])
  }

  lemma {:induction false} StepsAppend(w: World, xs: seq<Step>, ys: seq<Step>)
    ensures Steps(w, xs + ys) == Steps(Steps(w, xs), ys)
    decreases |ys|
  {
    hide Next;
    if ys == [] {
      assert xs + ys == xs;
    } else {
      var rest := ys[..|ys| - 1];
      assert (xs + ys)[..|xs + ys| - 1] == xs + rest;
      StepsAppend(w, xs, rest);
    }
  }

  // ---- the invariant of the protocol ----

  ghost predicate FilesOk(files: map<Digest, Bytes>) {
    forall b :: b in files ==> Sha256(files[b]) == b
  }

  ghost predicate ReferencedFilesOk(files: map<Digest, Bytes>, accountBlocks: set<(Id, Digest)>) {
    forall p :: p in accountBlocks ==> p.1 in files
  }

  /** While a call's reservation survives it is for the call's block and made at the call's clock reading. */
  ghost predicate UploadsOk(uploads: map<Id, Upload>, reservations: map<Id, Reservation>) {
    && (forall u :: u in uploads ==> UploadOk(uploads[u], reservations))
    && (forall u, v | u in uploads && v in uploads :: uploads[u].reservation == uploads[v].reservation ==> u == v)
  }

  ghost predicate UploadOk(up: Upload, reservations: map<Id, Reservation>) {
    && Sha256(up.data) == up.block
    && (up.reservation in reservations ==>
          reservations[up.reservation].block == up.block
          && reservations[up.reservation].expiresAt == up.now + RESERVATION_SECONDS)
  }

  /** Everything the collector holds is still marked deleting. */
  ghost predicate CollectorOk(gc: Collector, objects: map<Digest, Object>) {
    && gc.claimed !! gc.unlinked
    && (forall b :: b in gc.claimed + gc.unlinked ==> b in objects && objects[b].deleting)
  }

  /** What holds in every state whatever the sweep has deleted. */
  ghost predicate WorldInv(w: World) {
    && Inv(w.db)
    && FilesOk(w.files) && w.times.Keys == w.files.Keys
    && UploadsOk(w.uploads, w.db.reservations)
    && CollectorOk(w.gc, w.db.objects)
  }

  /** The call has its file in place, its reservation row is still there, and its device may still upload: nothing
      stands between it and a successful commit. */
  ghost predicate CanCommit(db: Db, up: Upload) {
    && up.installed && up.reservation in db.reservations
    && db.reservations[up.reservation].device in db.devices && db.devices[db.reservations[up.reservation].device].active
  }

  /** Every block that an account references, or that a call is about to make it reference, has its file. */
  ghost predicate Intact(w: World) {
    && ReferencedFilesOk(w.files, w.db.accountBlocks)
    && forall u :: u in w.uploads && CanCommit(w.db, w.uploads[u]) ==> w.uploads[u].block in w.files
  }

  // ---- what the other transactions leave alone ----

  /** References and reservations only shrink, and an object marked deleting stays so. */
  ghost predicate Quiet(db: Db, after: Db) {
    && after.accountBlocks <= db.accountBlocks
    && Uploads.Sublist(after.reservations, db.reservations)
    && (forall b :: b in db.objects && db.objects[b].deleting ==> b in after.objects && after.objects[b].deleting)
    && (forall b :: b in after.objects ==> b in db.objects)
  }

  lemma QuietTrans(x: Db, y: Db, z: Db)
    requires Quiet(x, y) && Quiet(y, z)
    ensures Quiet(x, z)
  {
  }

  lemma ReleaseQuiet(db: Db, a: Id, b: Digest, now: int)
    ensures Quiet(db, Release.ReleaseBlock(db, a, b, now))
  {
    hide HeldByDevice, Referenced, Uploads.Sublist;
    Release.ReleaseFrame(db, a, b, now);
    Uploads.SublistRefl(db.reservations);
  }

  lemma {:induction false} PruneAllQuiet(db: Db, a: Id, D: set<Id>, ids: seq<Digest>, now: int)
    ensures Quiet(db, Release.PruneAll(db, a, D, ids, now))
    decreases |ids|
  {
    if ids == [] {
      assert Quiet(db, db);
    } else {
      var bare := Release.Detach(db, D, ids[0]);
      assert Quiet(db, bare);
      var next := Release.ReleaseBlock(bare, a, ids[0], now);
      hide Quiet, Release.ReleaseBlock, Release.Detach;
      ReleaseQuiet(bare, a, ids[0], now);
      PruneAllQuiet(next, a, D, ids[1..], now);
      QuietTrans(db, bare, next);
      QuietTrans(db, next, Release.PruneAll(next, a, D, ids[1..], now));
    }
  }

  lemma CancelQuiet(db: Db, r: Id)
    ensures Quiet(db, Uploads.Cancel(db, r))
  {
  }

  lemma PruneBatchQuiet(db: Db, a: Id, d: Id, g: Id, revision: int, ids: seq<Digest>, now: int)
    ensures Quiet(db, Release.PruneBatch(db, a, d, g, revision, ids, now).0)
  {
    PruneAllQuiet(db, a, GroupDevices(db, a, g), ids, now);
    hide Release.PruneAll, GroupDevices;
  }

  lemma OutsideQuiet(db: Db, op: Op)
    requires Outside(op)
    ensures Quiet(db, Apply(db, op))
  {
    match op
    case PruneBatch(a, d, g, revision, blocks, now) =>
      PruneBatchQuiet(db, a, d, g, revision, blocks, now);
      hide Release.PruneBatch;
    case ReleaseBatch(a, blocks, now) => PruneAllQuiet(db, a, {}, blocks, now); hide Release.PruneAll;
    case Cancel(r) => CancelQuiet(db, r); hide Uploads.Cancel;
    case _ => hide Apply; Frames.GroupsFrame(db, op);
  }

  // ---- every step keeps the invariant ----

  lemma TransactionKeepsWorld(w: World, op: Op)
    requires WorldInv(w) && Outside(op)
    ensures WorldInv(w.(db := Apply(w.db, op)))
  {
    hide Inv, Apply, Outside, FilesOk;
    ApplyKeepsInv(w.db, op);
    OutsideQuiet(w.db, op);
  }

  lemma StartKeepsWorld(w: World, u: Id, r: Id, a: Id, d: Id, b: Digest, data: Bytes, now: int)
    requires WorldInv(w)
    ensures WorldInv(Next(w, StartUpload(u, r, a, d, b, data, now)))
  {
    hide Inv, CollectorOk, FilesOk, UploadsOk, Uploads.Reserve;
    if Sha256(data) == b {
      Uploads.ReserveKeepsInv(w.db, r, a, d, b, now);
      ReserveFrame(w.db, r, a, d, b, |data|, now);
    }
    var (after, out) := Uploads.Reserve(w.db, r, a, d, b, |data|, now);
    if Sha256(data) == b && u !in w.uploads && out.Ok? && r !in w.db.reservations
       && forall v :: v in w.uploads ==> w.uploads[v].reservation != r {
      StartKeepsUploads(w, after.reservations, u, Upload(r, b, data, now, false));
    }
  }

  lemma StartKeepsUploads(w: World, reservations: map<Id, Reservation>, u: Id, up: Upload)
    requires UploadsOk(w.uploads, w.db.reservations) && u !in w.uploads && Sha256(up.data) == up.block
    requires forall v :: v in w.uploads ==> w.uploads[v].reservation != up.reservation
    requires Uploads.Sublist(reservations - {up.reservation}, w.db.reservations)
    requires UploadOk(up, reservations)
    ensures UploadsOk(w.uploads[u := up], reservations)
  {
  }

  lemma ReserveFrame(db: Db, r: Id, a: Id, d: Id, b: Digest, size: nat, now: int)
    ensures var (after, out) := Uploads.Reserve(db, r, a, d, b, size, now);
            && after.accountBlocks == db.accountBlocks && after.objects == db.objects
            && Uploads.Sublist(after.reservations - {r}, db.reservations)
            && (out.Ok? ==> r in after.reservations && after.reservations[r] == out.value)
            && (out.Ok? ==> out.value == Reservation(a, d, b, size, now + RESERVATION_SECONDS))
  {
    Uploads.ReservePaths(db, r, a, d, b, size, now);
    hide Uploads.Reserve;
    var out := Uploads.Reserve(db, r, a, d, b, size, now).1;
    assert out.Ok? || out.Err?;
  }

  lemma InstallKeepsWorld(w: World, u: Id, at: int)
    requires WorldInv(w)
    ensures WorldInv(Next(w, Install(u, at)))
  {
    hide Inv, CollectorOk;
  }

  lemma AttachFrame(db: Db, r: Id, now: int)
    requires Inv(db) && r in db.reservations
    ensures var (after, out) := Uploads.Commit(db, r, now);
            out.Ok? ==>
              && after.accountBlocks == db.accountBlocks + {(db.reservations[r].account, db.reservations[r].block)}
              && after.reservations == db.reservations - {r} && after.devices == db.devices
              && (forall b :: b in db.objects && db.objects[b].deleting ==>
                    b in after.objects && after.objects[b].deleting)
  {
    hide GroupsOk, RevisionsOk, ManifestsOk, CodesOk, SessionsOk, QuotaOk, ObjectsOk, ReservationsUnique, BlocksOk;
  }

  lemma MissingReservation(db: Db, r: Id, now: int)
    requires r !in db.reservations
    ensures Uploads.Commit(db, r, now) == (db, Err(ReservationMissing))
  {
  }

  lemma CommitKeepsWorld(w: World, u: Id)
    requires WorldInv(w)
    ensures WorldInv(Next(w, CommitUpload(u)))
  {
    hide Inv, FilesOk, Uploads.Commit;
    if u in w.uploads {
      var up := w.uploads[u];
      if up.reservation in w.db.reservations {
        Uploads.CommitKeepsInv(w.db, up.reservation, up.now);
        AttachFrame(w.db, up.reservation, up.now);
      } else {
        MissingReservation(w.db, up.reservation, up.now);
      }
    }
  }

  lemma CancelKeepsWorld(w: World, u: Id)
    requires WorldInv(w)
    ensures WorldInv(Next(w, CancelUpload(u))) && WorldInv(Next(w, Vanish(u)))
  {
    hide Inv, FilesOk, CollectorOk;
    if u in w.uploads { Uploads.CancelKeepsInv(w.db, w.uploads[u].reservation); }
  }

  lemma ClaimFrame(db: Db, before: int, now: int, limit: int, answer: set<Digest>)
    requires Collection.ClaimAnswer(Purge(db, now), before, limit, answer)
    ensures var after := Collection.Claim(db, before, now, limit, answer);
            && after.accountBlocks == db.accountBlocks && after.devices == db.devices
            && Uploads.Sublist(after.reservations, db.reservations)
            && (forall b :: b in answer ==> b in after.objects && after.objects[b].deleting)
  {
    hide Referenced, Collection.Reserved, Collection.OrphanKey;
  }

  lemma ClaimKeepsWorld(w: World, before: int, now: int, limit: int, answer: set<Digest>)
    requires WorldInv(w)
    ensures WorldInv(Next(w, ClaimGarbage(before, now, limit, answer)))
  {
    hide Inv, FilesOk, Collection.ClaimAnswer, Purge, Collection.Claim;
    Collection.ClaimKeepsInv(w.db, before, now, limit, answer);
    if Collection.ClaimAnswer(Purge(w.db, now), before, limit, answer) {
      ClaimFrame(w.db, before, now, limit, answer);
    }
  }

  lemma DeletingIsFree(db: Db, b: Digest)
    requires Inv(db) && b in db.objects && db.objects[b].deleting
    ensures forall p :: p in db.accountBlocks ==> p.1 != b
    ensures forall r :: r in db.reservations ==> db.reservations[r].block != b
    ensures Collection.Finalize(db, b) == (db.(objects := db.objects - {b}), true)
  {
    hide Inv;
    Collection.FinalizeEffect(db, b);
    forall p | p in db.accountBlocks ensures p.1 != b {
      assert (p.0, p.1) in db.accountBlocks;
    }
  }

  lemma FinalizeKeepsWorld(w: World, b: Digest)
    requires WorldInv(w)
    ensures WorldInv(Next(w, FinalizeGarbage(b)))
  {
    hide Inv, FilesOk, UploadsOk, Collection.Finalize;
    Collection.FinalizeKeepsInv(w.db, b);
    if b in w.gc.unlinked { DeletingIsFree(w.db, b); }
  }

  lemma DeleteKeepsWorld(w: World, b: Digest)
    requires WorldInv(w)
    ensures WorldInv(DeleteFile(w, b)) && WorldInv(Next(w, Unlink(b))) && WorldInv(Next(w, SweepFile(b)))
  {
    hide Inv, UploadsOk;
  }

  lemma NextKeepsWorld(w: World, step: Step)
    requires WorldInv(w)
    ensures WorldInv(Next(w, step))
  {
    hide WorldInv, Apply, Outside, Known, Uploads.Reserve, Uploads.Commit, Collection.Claim, Collection.ClaimAnswer,
         Collection.Finalize;
    match step
    case Transaction(op) => if Outside(op) { TransactionKeepsWorld(w, op); }
    case StartUpload(u, r, a, d, b, data, now) => StartKeepsWorld(w, u, r, a, d, b, data, now);
    case Install(u, at) => InstallKeepsWorld(w, u, at);
    case CommitUpload(u) => CommitKeepsWorld(w, u);
    case CancelUpload(u) => CancelKeepsWorld(w, u);
    case Vanish(u) => CancelKeepsWorld(w, u);
    case ClaimGarbage(before, now, limit, answer) => ClaimKeepsWorld(w, before, now, limit, answer);
    case Unlink(b) => DeleteKeepsWorld(w, b);
    case FinalizeGarbage(b) => FinalizeKeepsWorld(w, b);
    case SweepFile(b) => DeleteKeepsWorld(w, b);
    case ListFiles => SameButSweep(w, Next(w, step));
    case ListRows(_, _) => SameButSweep(w, Next(w, step));
    case StopCollector => StoppedKeepsWorld(w);
  }

  lemma SameButSweep(w: World, v: World)
    requires WorldInv(w) && v == w.(sweep := v.sweep)
    ensures WorldInv(v)
  {
    hide Inv;
  }

  lemma StoppedKeepsWorld(w: World)
    requires WorldInv(w)
    ensures WorldInv(Next(w, StopCollector))
  {
    hide Inv;
  }

  /** Any interleaving whatever, harmful sweeps included. */
  lemma {:induction false} StepsKeepWorld(w: World, steps: seq<Step>)
    requires WorldInv(w)
    ensures WorldInv(Steps(w, steps))
    decreases |steps|
  {
    hide WorldInv, Next;
    if steps != [] {
      StepsKeepWorld(w, steps[..|steps| - 1]);
      NextKeepsWorld(Steps(w, steps[..|steps| - 1]), steps[|steps| - 1]);
    }
  }

  lemma EmptyWorldInv()
    ensures WorldInv(EMPTY_WORLD) && Intact(EMPTY_WORLD)
  {
    EmptyInv();
  }

  lemma RunKeepsWorld(steps: seq<Step>)
    ensures WorldInv(Steps(EMPTY_WORLD, steps))
  {
    hide WorldInv, Steps;
    EmptyWorldInv();
    StepsKeepWorld(EMPTY_WORLD, steps);
  }

  // ---- every step but a harmful deletion keeps the files ----

  /** The block is referenced by no account, and no call can still commit it. */
  ghost predicate Unneeded(w: World, b: Digest) {
    && !Referenced(w.db.accountBlocks, b)
    && forall u :: u in w.uploads && CanCommit(w.db, w.uploads[u]) ==> w.uploads[u].block != b
  }

  /** References shrink, and no call gains what it needs to commit. */
  ghost predicate Tamer(db: Db, after: Db) {
    && after.accountBlocks <= db.accountBlocks
    && Uploads.Sublist(after.reservations, db.reservations)
    && (forall d :: d in db.devices && !db.devices[d].active ==> d in after.devices && !after.devices[d].active)
    && (forall r :: r in db.reservations ==> db.reservations[r].device in db.devices)
  }

  lemma TamerKeepsIntact(w: World, after: Db)
    requires Intact(w) && Tamer(w.db, after)
    ensures Intact(w.(db := after))
  {
    forall u | u in w.uploads && CanCommit(after, w.uploads[u]) ensures CanCommit(w.db, w.uploads[u]) {}
  }

  lemma ReservingDevicesExist(db: Db)
    requires Inv(db)
    ensures forall r :: r in db.reservations ==> db.reservations[r].device in db.devices
  {
    hide GroupsOk, RevisionsOk, ManifestsOk, CodesOk, SessionsOk, BlocksOk, QuotaOk, ReservationsUnique;
  }

  lemma TransactionTamer(db: Db, op: Op)
    requires Inv(db) && Outside(op)
    ensures Tamer(db, Apply(db, op))
  {
    hide Inv, Apply, Outside;
    OutsideQuiet(db, op);
    ReservingDevicesExist(db);
    forall d | d in db.devices && !db.devices[d].active
      ensures d in Apply(db, op).devices && !Apply(db, op).devices[d].active
    {
      Revocation.StepKeepsRevoked(db, op, d);
    }
  }

  lemma CommitKeepsIntact(w: World, u: Id)
    requires WorldInv(w) && Intact(w)
    ensures Intact(Next(w, CommitUpload(u)))
  {
    hide Inv, FilesOk, CollectorOk, Uploads.Commit;
    if u in w.uploads && w.uploads[u].installed {
      var up := w.uploads[u];
      if up.reservation in w.db.reservations {
        ReservingDevicesExist(w.db);
        Uploads.CommitOutcome(w.db, up.reservation, up.now);
        AttachFrame(w.db, up.reservation, up.now);
      } else {
        MissingReservation(w.db, up.reservation, up.now);
      }
    }
  }

  lemma StartKeepsIntact(w: World, u: Id, r: Id, a: Id, d: Id, b: Digest, data: Bytes, now: int)
    requires WorldInv(w) && Intact(w)
    ensures Intact(Next(w, StartUpload(u, r, a, d, b, data, now)))
  {
    hide Inv, FilesOk, CollectorOk, Uploads.Reserve;
    ReserveFrame(w.db, r, a, d, b, |data|, now);
    ReserveKeepsDevices(w.db, r, a, d, b, |data|, now);
  }

  lemma ReserveKeepsDevices(db: Db, r: Id, a: Id, d: Id, b: Digest, size: nat, now: int)
    ensures Uploads.Reserve(db, r, a, d, b, size, now).0.devices == db.devices
  {
    Frames.ReserveFrame(db, r, a, d, b, size, now);
    hide Uploads.Reserve;
  }

  lemma ClaimKeepsIntact(w: World, before: int, now: int, limit: int, answer: set<Digest>)
    requires WorldInv(w) && Intact(w)
    ensures Intact(Next(w, ClaimGarbage(before, now, limit, answer)))
  {
    hide Inv, FilesOk, CollectorOk, UploadsOk, Intact, Collection.ClaimAnswer, Collection.Claim, Purge;
    if w.gc == Collector({}, {}) && Collection.ClaimAnswer(Purge(w.db, now), before, limit, answer) {
      ClaimFrame(w.db, before, now, limit, answer);
      ReservingDevicesExist(w.db);
      TamerKeepsIntact(w, Collection.Claim(w.db, before, now, limit, answer));
      IntactReads(w.(db := Collection.Claim(w.db, before, now, limit, answer)),
                  Next(w, ClaimGarbage(before, now, limit, answer)));
    }
  }

  lemma IntactReads(w: World, v: World)
    requires Intact(w) && v.db == w.db && v.files == w.files && v.uploads == w.uploads
    ensures Intact(v)
  {
  }

  lemma CancelKeepsIntact(w: World, u: Id)
    requires Intact(w)
    ensures Intact(Next(w, CancelUpload(u))) && Intact(Next(w, Vanish(u)))
  {
  }

  lemma FinalizeKeepsIntact(w: World, b: Digest)
    requires WorldInv(w) && Intact(w)
    ensures Intact(Next(w, FinalizeGarbage(b)))
  {
    hide Inv, FilesOk, UploadsOk, Collection.Finalize;
    if b in w.gc.unlinked { DeletingIsFree(w.db, b); }
  }

  /** The file of an object marked deleting is needed by no account and by no upload that can still commit. */
  lemma UnlinkKeepsIntact(w: World, b: Digest)
    requires WorldInv(w) && Intact(w)
    ensures Intact(Next(w, Unlink(b)))
  {
    hide Inv, FilesOk;
    if b in w.gc.claimed { DeletingIsFree(w.db, b); }
  }

  lemma InstallKeepsIntact(w: World, u: Id, at: int)
    requires Intact(w)
    ensures Intact(Next(w, Install(u, at)))
  {
  }

  lemma DeleteKeepsIntact(w: World, b: Digest)
    requires Intact(w) && (b in w.files ==> Unneeded(w, b))
    ensures Intact(DeleteFile(w, b))
  {
    if b in w.files {
      forall p | p in w.db.accountBlocks ensures p.1 != b {
        assert (p.0, p.1) in w.db.accountBlocks;
      }
    } else {
      assert w.files - {b} == w.files;
    }
  }

  /** The step deletes no file that is needed. */
  ghost predicate Harmless(w: World, step: Step) {
    step.SweepFile? && step.block in w.sweep.doomed && step.block in w.files ==> Unneeded(w, step.block)
  }

  lemma NextKeepsIntact(w: World, step: Step)
    requires WorldInv(w) && Intact(w) && Harmless(w, step)
    ensures Intact(Next(w, step))
  {
    hide Inv, FilesOk, UploadsOk, CollectorOk, Intact, Unneeded, Apply, Outside, Known, Uploads.Reserve, Uploads.Commit,
         Collection.Claim, Collection.ClaimAnswer, Collection.Finalize;
    match step
    case Transaction(op) =>
      if Outside(op) {
        TransactionTamer(w.db, op);
        TamerKeepsIntact(w, Apply(w.db, op));
      }
    case StartUpload(u, r, a, d, b, data, now) => StartKeepsIntact(w, u, r, a, d, b, data, now);
    case Install(u, at) => InstallKeepsIntact(w, u, at);
    case CommitUpload(u) => CommitKeepsIntact(w, u);
    case CancelUpload(u) => CancelKeepsIntact(w, u);
    case Vanish(u) => CancelKeepsIntact(w, u);
    case ClaimGarbage(before, now, limit, answer) => ClaimKeepsIntact(w, before, now, limit, answer);
    case Unlink(b) => UnlinkKeepsIntact(w, b);
    case FinalizeGarbage(b) => FinalizeKeepsIntact(w, b);
    case SweepFile(b) =>
      if b in w.sweep.doomed {
        DeleteKeepsIntact(w, b);
        IntactReads(DeleteFile(w, b), Next(w, step));
      }
    case _ => IntactReads(w, Next(w, step));
  }

  /** The run deletes no file that is needed at that moment. */
  ghost predicate Careful(w: World, steps: seq<Step>) {
    forall i :: 0 <= i < |steps| ==> Harmless(Steps(w, steps[..i]), steps[i])
  }

  lemma {:induction false} StepsKeepIntact(w: World, steps: seq<Step>)
    requires WorldInv(w) && Intact(w) && Careful(w, steps)
    ensures Intact(Steps(w, steps))
    decreases |steps|
  {
    hide WorldInv, Intact, Harmless, Next;
    if steps != [] {
      var n := |steps| - 1;
      forall i | 0 <= i < n ensures Harmless(Steps(w, steps[..n][..i]), steps[..n][i]) {
        assert steps[..n][..i] == steps[..i];
      }
      StepsKeepIntact(w, steps[..n]);
      StepsKeepWorld(w, steps[..n]);
      NextKeepsIntact(Steps(w, steps[..n]), steps[n]);
    }
  }

  /** No sweep deletes anything: uploads, the row-based collector and all other calls only. */
  predicate WithoutSweep(steps: seq<Step>) {
    forall i :: 0 <= i < |steps| ==> !steps[i].SweepFile?
  }

  lemma WithoutSweepIsCareful(w: World, steps: seq<Step>)
    requires WithoutSweep(steps)
    ensures Careful(w, steps)
  {
    hide Steps, Unneeded;
  }

  // ---- the theorems of the row-based protocol ----

  lemma IntactIsStored(w: World, a: Id, b: Digest)
    requires WorldInv(w) && Intact(w) && (a, b) in w.db.accountBlocks
    ensures b in w.db.objects && w.db.objects[b] == Object(|b.data|, false, None)
    ensures b in w.files && w.files[b] == b.data
  {
    hide Inv, UploadsOk, CollectorOk;
    ReferencedObject(w.db, a, b);
    assert (a, b).1 in w.files;
    assert Sha256(w.files[b]) == b;
  }

  /** After any interleaving of uploads, one collector and every other call, with any of them stopping anywhere, a block
      that an account references has an active object row and its own bytes on disk. */
  lemma ReferencedBlockIsStored(steps: seq<Step>, a: Id, b: Digest)
    requires WithoutSweep(steps) && (a, b) in Steps(EMPTY_WORLD, steps).db.accountBlocks
    ensures var w := Steps(EMPTY_WORLD, steps);
            && b in w.db.objects && w.db.objects[b] == Object(|b.data|, false, None)
            && b in w.files && w.files[b] == b.data
  {
    hide Steps, WorldInv, Intact, Careful;
    EmptyWorldInv();
    RunKeepsWorld(steps);
    WithoutSweepIsCareful(EMPTY_WORLD, steps);
    StepsKeepIntact(EMPTY_WORLD, steps);
    IntactIsStored(Steps(EMPTY_WORLD, steps), a, b);
  }

  lemma ReferencedObject(db: Db, a: Id, b: Digest)
    requires Inv(db) && (a, b) in db.accountBlocks
    ensures b in db.objects && db.objects[b] == Object(|b.data|, false, None)
  {
    hide GroupsOk, RevisionsOk, ManifestsOk, CodesOk, SessionsOk, BlocksOk, ReservationsOk, QuotaOk;
    Release.LooseBlock(db, a, b);
  }

  // BlocksService.Get: an invisible block is not found, and neither is one without a file.
  ghost function Get(db: Db, files: map<Digest, Bytes>, a: Id, g: Id, b: Digest): Outcome<Bytes> {
    if !Visible(db, a, g, b) || b !in files then Err(BlockNotFound) else Ok(files[b])
  }

  /** The group's members can read exactly the blocks visible to them, and get back the bytes that were hashed. */
  lemma VisibleBlockIsReadable(steps: seq<Step>, a: Id, g: Id, b: Digest)
    requires WithoutSweep(steps)
    ensures var w := Steps(EMPTY_WORLD, steps);
            Get(w.db, w.files, a, g, b) == if Visible(w.db, a, g, b) then Ok(b.data) else Err(BlockNotFound)
  {
    hide Steps, Visible, Inv;
    var w := Steps(EMPTY_WORLD, steps);
    if Visible(w.db, a, g, b) {
      RunKeepsWorld(steps);
      VisibleIsCharged(w.db, a, g, b);
      ReferencedBlockIsStored(steps, a, b);
    }
  }

  lemma VisibleIsCharged(db: Db, a: Id, g: Id, b: Digest)
    requires Inv(db) && Visible(db, a, g, b)
    ensures (a, b) in db.accountBlocks
  {
    hide GroupsOk, RevisionsOk, ManifestsOk, CodesOk, SessionsOk, ObjectsOk, ReservationsOk, QuotaOk;
  }

  lemma ReferencedUnmarked(db: Db, b: Digest)
    requires Inv(db)
    ensures Referenced(db.accountBlocks, b) ==> b in db.objects && db.objects[b].orphanedAt.None?
  {
    hide Inv;
    if Referenced(db.accountBlocks, b) {
      var a :| (a, b) in db.accountBlocks;
      ReferencedObject(db, a, b);
    }
  }
}
