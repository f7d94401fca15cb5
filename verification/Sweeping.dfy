/** The sweep of stray files (internal/service/blocks.go, collectOrphanFiles): exactly when a deletion does harm, a
    run in which one does, and what keeps whole passes harmless. */
module Sweeping {
  import opened Tables
  import opened Integrity
  import opened Machine
  import opened BlockFiles
  import Uploads
  import Collection

  // ---- exactly when ----

  /** Whatever comes next, short of another sweep, every block that an account references has its file. */
  ghost predicate StaysStored(w: World) {
    forall more: seq<Step> | WithoutSweep(more) :: Stored(Steps(w, more))
  }

  ghost predicate Stored(w: World) {
    ReferencedFilesOk(w.files, w.db.accountBlocks)
  }

  lemma IntactStaysStored(w: World)
    requires WorldInv(w) && Intact(w)
    ensures StaysStored(w)
  {
    hide WorldInv, Careful, Steps, WithoutSweep;
    forall more: seq<Step> | WithoutSweep(more) ensures Stored(Steps(w, more)) {
      WithoutSweepIsCareful(w, more);
      StepsKeepIntact(w, more);
    }
  }

  /** A call that can commit does commit, and its block is then referenced. */
  lemma ReadyCallCommits(w: World, u: Id)
    requires WorldInv(w) && u in w.uploads && CanCommit(w.db, w.uploads[u])
    ensures var r := w.db.reservations[w.uploads[u].reservation];
            var after := Next(w, CommitUpload(u));
            (r.account, w.uploads[u].block) in after.db.accountBlocks && after.files == w.files
  {
    hide Inv, FilesOk, CollectorOk, Uploads.Commit;
    var up := w.uploads[u];
    Uploads.CommitOutcome(w.db, up.reservation, up.now);
    AttachFrame(w.db, up.reservation, up.now);
  }

  lemma OneStep(w: World, step: Step)
    ensures Steps(w, [step]) == Next(w, step) && Steps(w, []) == w
  {
    hide Next;
    assert [step][..0] == [];
  }

  lemma StoredIsIntact(w: World)
    requires WorldInv(w) && StaysStored(w)
    ensures Intact(w)
  {
    hide WorldInv, CanCommit, Steps, Next;
    OneStep(w, ListFiles);
    assert WithoutSweep([]) && Stored(Steps(w, []));
    forall u | u in w.uploads && CanCommit(w.db, w.uploads[u]) ensures w.uploads[u].block in w.files {
      var step := CommitUpload(u);
      ReadyCallCommits(w, u);
      OneStep(w, step);
      assert WithoutSweep([step]) && Stored(Steps(w, [step]));
      BlockOfReady(w, u);
    }
  }

  lemma BlockOfReady(w: World, u: Id)
    requires u in w.uploads && CanCommit(w.db, w.uploads[u])
    ensures w.uploads[u].reservation in w.db.reservations
    ensures Stored(Next(w, CommitUpload(u))) ==>
              forall a :: (a, w.uploads[u].block) in Next(w, CommitUpload(u)).db.accountBlocks ==>
                w.uploads[u].block in Next(w, CommitUpload(u)).files
  {
    hide Next;
    forall a | Stored(Next(w, CommitUpload(u))) && (a, w.uploads[u].block) in Next(w, CommitUpload(u)).db.accountBlocks
      ensures w.uploads[u].block in Next(w, CommitUpload(u)).files
    {
      assert (a, w.uploads[u].block).1 in Next(w, CommitUpload(u)).files;
    }
  }

  lemma StoredIff(w: World)
    requires WorldInv(w)
    ensures StaysStored(w) <==> Intact(w)
  {
    hide WorldInv, StaysStored, Intact;
    if Intact(w) { IntactStaysStored(w); }
    if StaysStored(w) { StoredIsIntact(w); }
  }

  /** In any state of any run, whatever sweeps it contains: all referenced blocks will keep their files exactly when
      each has its file now and so has the block of every call that can still commit. */
  lemma StaysStoredIffIntact(steps: seq<Step>)
    ensures StaysStored(Steps(EMPTY_WORLD, steps)) <==> Intact(Steps(EMPTY_WORLD, steps))
  {
    hide Steps, WorldInv, StaysStored, Intact;
    RunKeepsWorld(steps);
    StoredIff(Steps(EMPTY_WORLD, steps));
  }

  lemma DeletionHarms(w: World, b: Digest)
    requires Intact(w)
    ensures Intact(DeleteFile(w, b)) <==> b !in w.files || Unneeded(w, b)
  {
    if b !in w.files || Unneeded(w, b) {
      DeleteKeepsIntact(w, b);
    } else if Referenced(w.db.accountBlocks, b) {
      var a :| (a, b) in w.db.accountBlocks;
      assert (a, b).1 !in DeleteFile(w, b).files;
    } else {
      var u :| u in w.uploads && CanCommit(w.db, w.uploads[u]) && w.uploads[u].block == b;
      assert DeleteFile(w, b).uploads[u].block !in DeleteFile(w, b).files;
    }
  }

  /** In any state of any run that is still in order, deleting a file does harm now or later exactly when the file
      is there and some account references the block or some installed call for it still has its reservation row and
      an active device. The sweep's own deletions are such deletions. */
  lemma SweepIsSafeIff(steps: seq<Step>, b: Digest)
    ensures var w := Steps(EMPTY_WORLD, steps);
            StaysStored(w) ==>
              && (StaysStored(DeleteFile(w, b)) <==> b !in w.files || Unneeded(w, b))
              && (b in w.sweep.doomed ==> (StaysStored(Next(w, SweepFile(b))) <==> b !in w.files || Unneeded(w, b)))
  {
    hide Steps, WorldInv, StaysStored, Intact, Unneeded;
    var w := Steps(EMPTY_WORLD, steps);
    RunKeepsWorld(steps);
    StoredIff(w);
    if StaysStored(w) {
      DeletionHarms(w, b);
      DeleteKeepsWorld(w, b);
      StoredIff(DeleteFile(w, b));
      StoredIff(Next(w, SweepFile(b)));
      if b in w.sweep.doomed { SameIntact(DeleteFile(w, b), Next(w, SweepFile(b))); }
    }
  }

  lemma SameIntact(w: World, v: World)
    requires v.db == w.db && v.files == w.files && v.uploads == w.uploads
    ensures Intact(v) <==> Intact(w)
  {
  }

  // ---- a run in which a deletion does harm ----

  const DATA: Bytes := [0]
  const BLOCK := Sha256(DATA)
  const LATER := 100_000

  // A first upload is abandoned after its file is in place. A day later the sweep lists the file and finds no row for
  // it; then a second upload of the same data begins, finds the file there, and commits after the sweep has deleted
  // it.
  const RACE: seq<Step> := [
    Transaction(Register(1, 100, 1, 1, 0)),
    StartUpload(1, 1, 1, 1, BLOCK, DATA, 0), Install(1, 0), Vanish(1),
    ListFiles, ListRows(LATER, LATER),
    StartUpload(2, 2, 1, 1, BLOCK, DATA, LATER), Install(2, LATER),
    SweepFile(BLOCK),
    CommitUpload(2)]

  ghost function Raced(n: nat): World
    requires n <= |RACE|
  {
    Steps(EMPTY_WORLD, RACE[..n])
  }

  lemma RaceStep(n: nat)
    requires n < |RACE|
    ensures Raced(n + 1) == Next(Raced(n), RACE[n])
  {
    assert RACE[..n + 1][..n] == RACE[..n];
  }

  const OWNER := Account(100, 0)
  const PHONE := Device(1, Some(1), true, None)

  /** The database of the race between its transactions: one account, one device, nothing stored, and these
      reservations. */
  function RaceDb(reservations: map<Id, Reservation>): Db {
    Db(map[1 := OWNER], map[1 := Group(1, 1, 0)], map[1 := PHONE], map[1 := 0], map[], map[], map[], map[], {}, {},
       reservations)
  }

  lemma RaceReserves(reservations: map<Id, Reservation>, rid: Id, now: int)
    requires rid !in reservations && forall r :: r in reservations ==> reservations[r].expiresAt <= now
    ensures var row := Reservation(1, 1, BLOCK, 1, now + RESERVATION_SECONDS);
            Uploads.Reserve(RaceDb(reservations), rid, 1, 1, BLOCK, 1, now) == (RaceDb(map[rid := row]), Ok(row))
  {
    var p := Purge(RaceDb(reservations), now);
    assert p.reservations == map[];
    assert PendingCharges({}, map[], 1) == map[];
  }

  lemma RaceBegins()
    ensures var first := Reservation(1, 1, BLOCK, 1, RESERVATION_SECONDS);
            Raced(4) == World(RaceDb(map[1 := first]), map[BLOCK := DATA], map[BLOCK := 0], map[], Collector({}, {}),
                              Sweeper(map[], {}))
  {
    assert RACE[..0] == [];
    RaceStep(0);
    assert Raced(1).db == RaceDb(map[]);
    RaceStep(1);
    RaceReserves(map[], 1, 0);
    RaceStep(2);
    RaceStep(3);
  }

  lemma RaceListed()
    ensures var first := Reservation(1, 1, BLOCK, 1, RESERVATION_SECONDS);
            Raced(6) == World(RaceDb(map[1 := first]), map[BLOCK := DATA], map[BLOCK := 0], map[],
                              Collector({}, {}), Sweeper(map[], {BLOCK}))
  {
    hide Steps;
    RaceBegins();
    RaceStep(4);
    RaceStep(5);
    assert Known(Raced(5).db, LATER) == {};
    assert Raced(6).sweep.doomed == {BLOCK};
  }

  lemma RaceStartsAgain()
    ensures var second := Reservation(1, 1, BLOCK, 1, LATER + RESERVATION_SECONDS);
            Raced(8) == World(RaceDb(map[2 := second]), map[BLOCK := DATA], map[BLOCK := 0],
                              map[2 := Upload(2, BLOCK, DATA, LATER, true)], Collector({}, {}), Sweeper(map[], {BLOCK}))
  {
    hide Steps, Uploads.Reserve, Known, Sweepable;
    RaceListed();
    RaceStep(6);
    RaceReserves(Raced(6).db.reservations, 2, LATER);
    RaceStep(7);
  }

  /** The sweep does harm in a run of the protocol: it passes both of its guards, the commit succeeds, and the account
      references a block that is not on disk. */
  lemma SweepRace()
    ensures var w := Steps(EMPTY_WORLD, RACE);
            (1, BLOCK) in w.db.accountBlocks && BLOCK !in w.files
  {
    hide Steps;
    RaceStartsAgain();
    RaceStep(8);
    RaceStep(9);
    assert RACE[..10] == RACE;
  }

  // ---- whole passes ----

  /** Step i is the row listing that a sweep at step j works from. */
  predicate LastListing(steps: seq<Step>, i: nat, j: nat)
    requires j <= |steps|
  {
    i < j && steps[i].ListRows? && forall k :: i < k < j ==> !steps[k].ListRows?
  }

  /** No call in flight for the block still has its reservation row. */
  ghost predicate NobodyHolds(w: World, b: Digest) {
    forall u :: u in w.uploads && w.uploads[u].block == b ==> w.uploads[u].reservation !in w.db.reservations
  }

  predicate Starts(step: Step, b: Digest) {
    step.StartUpload? && step.block == b
  }

  /** At every file the sweep deletes: when the rows were listed no call in flight for it had outlived its
      reservation without the row being purged, and no upload of it has started since. */
  ghost predicate Undisturbed(steps: seq<Step>) {
    forall i: nat, j: nat | i < j < |steps| && steps[j].SweepFile? && LastListing(steps, i, j)
                            && steps[j].block in Steps(EMPTY_WORLD, steps[..j]).sweep.doomed ::
      && NobodyHolds(Steps(EMPTY_WORLD, steps[..i]), steps[j].block)
      && forall k :: i < k < j ==> !Starts(steps[k], steps[j].block)
  }

  /** The block has no object row, and nobody in flight can give it one. */
  ghost predicate Dead(w: World, b: Digest) {
    b !in w.db.objects && NobodyHolds(w, b)
  }

  lemma QuietKeepsDead(w: World, after: Db, b: Digest)
    requires Dead(w, b) && Quiet(w.db, after)
    ensures Dead(w.(db := after), b)
  {
  }

  lemma StartKeepsDead(w: World, u: Id, r: Id, a: Id, d: Id, c: Digest, data: Bytes, now: int, b: Digest)
    requires Dead(w, b) && c != b
    ensures Dead(Next(w, StartUpload(u, r, a, d, c, data, now)), b)
  {
    ReserveFrame(w.db, r, a, d, c, |data|, now);
    hide Uploads.Reserve;
  }

  lemma CommitKeepsDead(w: World, u: Id, b: Digest)
    requires WorldInv(w) && Dead(w, b)
    ensures Dead(Next(w, CommitUpload(u)), b)
  {
    hide Inv, FilesOk, CollectorOk, Uploads.Commit;
    if u in w.uploads {
      var up := w.uploads[u];
      if up.reservation in w.db.reservations {
        CommittedObjects(w.db, up.reservation, up.now);
      } else {
        MissingReservation(w.db, up.reservation, up.now);
      }
    }
  }

  lemma CommittedObjects(db: Db, r: Id, now: int)
    requires r in db.reservations
    ensures var after := Uploads.Commit(db, r, now).0;
            && after.objects.Keys <= db.objects.Keys + {db.reservations[r].block}
            && Uploads.Sublist(after.reservations, db.reservations)
  {
    Uploads.CommitPaths(db, r, now);
    Uploads.SublistRefl(db.reservations);
    hide Uploads.Commit;
    assert Uploads.Commit(db, r, now).1.Ok? || Uploads.Commit(db, r, now).1.Err?;
  }

  lemma CollectKeepsDead(w: World, step: Step, b: Digest)
    requires Dead(w, b) && (step.ClaimGarbage? || step.FinalizeGarbage?)
    ensures Dead(Next(w, step), b)
  {
    match step
    case ClaimGarbage(before, now, limit, answer) =>
      Collection.ClaimPaths(w.db, before, now, limit, answer);
      Collection.ClaimKeepsMarks(w.db, before, now, limit, answer);
      hide Collection.Claim, Collection.ClaimAnswer, Collection.MarkDeleting;
    case FinalizeGarbage(c) =>
      Collection.FinalizePaths(w.db, c);
      hide Collection.Finalize;
  }

  lemma NextKeepsDead(w: World, step: Step, b: Digest)
    requires WorldInv(w) && Dead(w, b) && !Starts(step, b)
    ensures Dead(Next(w, step), b)
  {
    hide WorldInv, Apply, Outside, Known, Uploads.Reserve, Uploads.Commit, Collection.Claim, Collection.ClaimAnswer,
         Collection.Finalize;
    match step
    case Transaction(op) =>
      if Outside(op) {
        OutsideQuiet(w.db, op);
        QuietKeepsDead(w, Apply(w.db, op), b);
      }
    case StartUpload(u, r, a, d, c, data, now) => StartKeepsDead(w, u, r, a, d, c, data, now, b);
    case CommitUpload(u) => CommitKeepsDead(w, u, b);
    case ClaimGarbage(_, _, _, _) => CollectKeepsDead(w, step, b);
    case FinalizeGarbage(_) => CollectKeepsDead(w, step, b);
    case _ =>
  }

  lemma {:induction false} StepsKeepDead(w: World, steps: seq<Step>, b: Digest)
    requires WorldInv(w) && Dead(w, b) && forall k :: 0 <= k < |steps| ==> !Starts(steps[k], b)
    ensures Dead(Steps(w, steps), b)
    decreases |steps|
  {
    hide WorldInv, Dead, Next;
    if steps != [] {
      var before := steps[..|steps| - 1];
      StepsKeepDead(w, before, b);
      StepsKeepWorld(w, before);
      NextKeepsDead(Steps(w, before), steps[|steps| - 1], b);
    }
  }

  lemma DeadIsUnneeded(w: World, b: Digest)
    requires WorldInv(w) && Dead(w, b)
    ensures Unneeded(w, b)
  {
    hide Inv, FilesOk, CollectorOk, UploadsOk;
    ReferencedUnmarked(w.db, b);
  }

  /** What the sweep is about to delete was unknown when the rows were last listed. */
  lemma {:induction false} DoomedSince(steps: seq<Step>, n: nat, b: Digest) returns (i: nat)
    requires n <= |steps| && b in Steps(EMPTY_WORLD, steps[..n]).sweep.doomed
    ensures LastListing(steps, i, n) && b !in Known(Steps(EMPTY_WORLD, steps[..i]).db, steps[i].now)
    decreases n
  {
    hide Known, Apply, Outside, Uploads.Reserve, Uploads.Commit, Collection.Claim, Collection.ClaimAnswer,
         Collection.Finalize;
    assert steps[..0] == [];
    assert steps[..n][..n - 1] == steps[..n - 1];
    if steps[n - 1].ListRows? {
      i := n - 1;
    } else {
      i := DoomedSince(steps, n - 1, b);
    }
  }

  lemma SweepIsHarmless(steps: seq<Step>, j: nat)
    requires j < |steps| && Undisturbed(steps)
    ensures Harmless(Steps(EMPTY_WORLD, steps[..j]), steps[j])
  {
    hide Steps, WorldInv, Dead, Unneeded, NobodyHolds, LastListing;
    var w := Steps(EMPTY_WORLD, steps[..j]);
    if steps[j].SweepFile? && steps[j].block in w.sweep.doomed {
      var b := steps[j].block;
      var i := DoomedSince(steps, j, b);
      ListingBefore(steps, i, j);
      var start := Steps(EMPTY_WORLD, steps[..i]);
      RunKeepsWorld(steps[..i]);
      RunKeepsWorld(steps[..j]);
      UnknownIsDead(start, steps[i], b);
      StepsKeepDead(start, steps[i..j], b);
      StepsAppend(EMPTY_WORLD, steps[..i], steps[i..j]);
      assert steps[..i] + steps[i..j] == steps[..j];
      DeadIsUnneeded(w, b);
    }
  }

  lemma ListingBefore(steps: seq<Step>, i: nat, j: nat)
    requires j <= |steps| && LastListing(steps, i, j)
    ensures i < j && steps[i].ListRows?
  {
  }

  lemma UnknownIsDead(w: World, step: Step, b: Digest)
    requires step.ListRows? && b !in Known(w.db, step.now) && NobodyHolds(w, b)
    ensures Dead(w, b)
  {
  }

  /** Whole runs, with any number of passes that each delete any number of files: while every deletion is
      undisturbed, every referenced block has an active row and its own bytes on disk. */
  lemma UndisturbedSweepsAreSafe(steps: seq<Step>, a: Id, b: Digest)
    requires Undisturbed(steps) && (a, b) in Steps(EMPTY_WORLD, steps).db.accountBlocks
    ensures var w := Steps(EMPTY_WORLD, steps);
            && b in w.db.objects && w.db.objects[b] == Object(|b.data|, false, None)
            && b in w.files && w.files[b] == b.data
  {
    hide Steps, WorldInv, Intact, Harmless, Undisturbed;
    forall j | 0 <= j < |steps| ensures Harmless(Steps(EMPTY_WORLD, steps[..j]), steps[j]) {
      SweepIsHarmless(steps, j);
    }
    EmptyWorldInv();
    RunKeepsWorld(steps);
    StepsKeepIntact(EMPTY_WORLD, steps);
    IntactIsStored(Steps(EMPTY_WORLD, steps), a, b);
  }
}
