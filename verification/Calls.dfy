/** Run without interference, the service calls are sequences of the steps that BlockFiles interleaves. */
module Calls {
  import opened Tables
  import opened Integrity
  import opened Totals
  import opened BlockFiles
  import Collection
  import Grace
  import Pruning
  import Uploads

  /** A database and a block directory with no call in flight. */
  ghost function Idle(db: Db, files: map<Digest, Bytes>, times: map<Digest, int>): World {
    World(db, files, times, map[], Collector({}, {}), Sweeper(map[], {}))
  }

  lemma TwoSteps(w: World, x: Step, y: Step)
    ensures Steps(w, [x, y]) == Next(Next(w, x), y)
  {
    hide Next;
    assert [x, y][..1] == [x] && [x][..0] == [];
    assert Steps(w, [x]) == Next(w, x);
  }

  lemma ThreeSteps(w: World, x: Step, y: Step, z: Step)
    ensures Steps(w, [x, y, z]) == Next(Next(Next(w, x), y), z)
  {
    hide Next;
    assert [x, y, z][..2] == [x, y];
    TwoSteps(w, x, y);
  }

  // ---- an upload ----

  function PutSteps(u: Id, rid: Id, a: Id, d: Id, b: Digest, data: Bytes, now: int): seq<Step> {
    [StartUpload(u, rid, a, d, b, data, now), Install(u, now), CommitUpload(u)]
  }

  function FailedPutSteps(u: Id, rid: Id, a: Id, d: Id, b: Digest, data: Bytes, now: int): seq<Step> {
    [StartUpload(u, rid, a, d, b, data, now), CancelUpload(u)]
  }

  /** A put whose reservation is granted is reserve, install and commit. */
  lemma PutIsSteps(w: World, u: Id, rid: Id, a: Id, d: Id, b: Digest, data: Bytes, now: int)
    requires Inv(w.db) && w.uploads == map[] && Sha256(data) == b
    requires Uploads.Reserve(w.db, rid, a, d, b, |data|, now).1.Ok? && rid !in w.db.reservations
    ensures Steps(w, PutSteps(u, rid, a, d, b, data, now))
         == w.(db := Uploads.Commit(Uploads.Reserve(w.db, rid, a, d, b, |data|, now).0, rid, now).0,
               files := if b in w.files then w.files else w.files[b := data],
               times := if b in w.files then w.times else w.times[b := now])
  {
    hide Inv, Uploads.Reserve, Uploads.Commit;
    FreshCommits(w.db, rid, a, d, b, now);
    ThreeSteps(w, StartUpload(u, rid, a, d, b, data, now), Install(u, now), CommitUpload(u));
    assert forall up: Upload :: map[u := up] - {u} == map[];
  }

  /** With a failing disk it is reserve and cancel. */
  lemma FailedPutIsSteps(w: World, u: Id, rid: Id, a: Id, d: Id, b: Digest, data: Bytes, now: int)
    requires w.uploads == map[] && Sha256(data) == b
    requires Uploads.Reserve(w.db, rid, a, d, b, |data|, now).1.Ok? && rid !in w.db.reservations
    ensures Steps(w, FailedPutSteps(u, rid, a, d, b, data, now)) == w.(db := Purge(w.db, now))
  {
    hide Uploads.Reserve, Uploads.Cancel, Purge;
    Uploads.CancelUndoesReserve(w.db, rid, a, d, b, |data|, now, now);
    TwoSteps(w, StartUpload(u, rid, a, d, b, data, now), CancelUpload(u));
    assert forall up: Upload :: map[u := up] - {u} == map[];
  }

  lemma FreshCommits(db: Db, rid: Id, a: Id, d: Id, b: Digest, now: int)
    requires Inv(db) && Uploads.Reserve(db, rid, a, d, b, |b.data|, now).1.Ok?
    ensures Uploads.Commit(Uploads.Reserve(db, rid, a, d, b, |b.data|, now).0, rid, now).1.Ok?
  {
    hide Inv, Uploads.Commit, Total, PendingCharges, Uploads.HasReservation;
    Uploads.ReserveKeepsInv(db, rid, a, d, b, now);
    Uploads.CommitOutcome(Uploads.Reserve(db, rid, a, d, b, |b.data|, now).0, rid, now);
  }

  // ---- a collection ----

  // The steps for one claimed id.
  function RowStep(b: Digest, stuck: set<Digest>, failing: set<Digest>): seq<Step> {
    if b in stuck then [] else if b in failing then [Unlink(b)] else [Unlink(b), FinalizeGarbage(b)]
  }

  /** For each claimed id in turn: the file, unless it cannot be deleted, and then the row, unless that fails. */
  function RowSteps(ids: seq<Digest>, stuck: set<Digest>, failing: set<Digest>): seq<Step>
    decreases |ids|
  {
    if ids == [] then []
    else
      var n := |ids| - 1;
      RowSteps(ids[..n], stuck, failing) + RowStep(ids[n], stuck, failing)
  }

  function CollectSteps(ids: seq<Digest>, now: int, stuck: set<Digest>, failing: set<Digest>): seq<Step> {
    [ClaimGarbage(now - 86_400, now, 256, Pruning.Elements(ids))] + RowSteps(ids, stuck, failing) + [StopCollector]
  }

  /** The world once the collector, holding `all`, has gone through the ids. */
  ghost function Collecting(w: World, all: set<Digest>, E: set<Digest>, stuck: set<Digest>,
                            failing: set<Digest>): World
  {
    var gone := E - stuck;
    w.(db := w.db.(objects := w.db.objects - (gone - failing)), files := w.files - gone, times := w.times - gone,
       gc := Collector(all - gone, gone * failing))
  }

  lemma OneRow(w: World, b: Digest, stuck: set<Digest>, failing: set<Digest>)
    requires b in w.gc.claimed && b !in w.gc.unlinked && b in w.db.objects && w.db.objects[b].deleting && Inv(w.db)
    ensures Steps(w, RowStep(b, stuck, failing))
            == if b in stuck then w
               else if b in failing
               then DeleteFile(w, b).(gc := Collector(w.gc.claimed - {b}, w.gc.unlinked + {b}))
               else DeleteFile(w, b).(db := w.db.(objects := w.db.objects - {b}),
                                      gc := Collector(w.gc.claimed - {b}, w.gc.unlinked))
  {
    hide Inv, Collection.Finalize, Purge, Known, Sweepable, Uploads.Reserve, Uploads.Commit, Collection.Claim,
         Collection.ClaimAnswer;
    DeletingIsFree(w.db, b);
    if b !in stuck {
      if b in failing {
        assert [Unlink(b)][..0] == [];
      } else {
        TwoSteps(w, Unlink(b), FinalizeGarbage(b));
        assert w.gc.unlinked + {b} - {b} == w.gc.unlinked;
      }
    }
  }

  lemma NextCollecting(w: World, all: set<Digest>, E: set<Digest>, b: Digest, stuck: set<Digest>, failing: set<Digest>)
    requires b in all && b !in E && E <= all
    ensures var mid, after := Collecting(w, all, E, stuck, failing), Collecting(w, all, E + {b}, stuck, failing);
            after
            == if b in stuck then mid
               else if b in failing
               then DeleteFile(mid, b).(gc := Collector(mid.gc.claimed - {b}, mid.gc.unlinked + {b}))
               else DeleteFile(mid, b).(db := mid.db.(objects := mid.db.objects - {b}),
                                        gc := Collector(mid.gc.claimed - {b}, mid.gc.unlinked))
  {
    var gone := E - stuck;
    if b in stuck {
      assert E + {b} - stuck == gone;
    } else {
      assert E + {b} - stuck == gone + {b};
      assert all - (gone + {b}) == all - gone - {b};
      if b in failing {
        assert gone + {b} - failing == gone - failing;
        assert (gone + {b}) * failing == gone * failing + {b};
      } else {
        assert gone + {b} - failing == gone - failing + {b};
        assert (gone + {b}) * failing == gone * failing;
      }
    }
  }

  lemma FewerObjectsInv(db: Db, gone: set<Digest>)
    requires Inv(db) && forall b :: b in gone ==> b in db.objects && db.objects[b].deleting
    ensures Inv(db.(objects := db.objects - gone))
    decreases |gone|
  {
    hide Inv;
    if gone == {} {
      assert db.objects - {} == db.objects;
    } else {
      var b :| b in gone;
      FewerObjectsInv(db, gone - {b});
      var mid := db.(objects := db.objects - (gone - {b}));
      Collection.FinalizeKeepsInv(mid, b);
      DeletingIsFree(mid, b);
      assert db.objects - (gone - {b}) - {b} == db.objects - gone;
    }
  }

  lemma {:induction false} RowsAreSteps(w: World, ids: seq<Digest>, stuck: set<Digest>, failing: set<Digest>)
    requires Inv(w.db) && w.gc.unlinked == {} && Pruning.Elements(ids) <= w.gc.claimed
    requires |ids| == |Pruning.Elements(ids)|
    requires forall b :: b in Pruning.Elements(ids) ==> b in w.db.objects && w.db.objects[b].deleting
    ensures Steps(w, RowSteps(ids, stuck, failing))
         == Collecting(w, w.gc.claimed, Pruning.Elements(ids), stuck, failing)
    decreases |ids|
  {
    if ids == [] {
      NothingCollected(w, stuck, failing);
    } else {
      var n := |ids| - 1;
      var b, E := ids[n], Pruning.Elements(ids[..n]);
      Pruning.LastIsNew(ids);
      hide Inv, Next, Collecting, Pruning.Elements;
      RowsAreSteps(w, ids[..n], stuck, failing);
      FewerObjectsInv(w.db, E - stuck - failing);
      var mid := Collecting(w, w.gc.claimed, E, stuck, failing);
      StillClaimed(w, E, b, stuck, failing);
      OneRow(mid, b, stuck, failing);
      NextCollecting(w, w.gc.claimed, E, b, stuck, failing);
      StepsAppend(w, RowSteps(ids[..n], stuck, failing), RowStep(b, stuck, failing));
    }
  }

  lemma NothingCollected(w: World, stuck: set<Digest>, failing: set<Digest>)
    requires w.gc.unlinked == {}
    ensures Collecting(w, w.gc.claimed, {}, stuck, failing) == w && Pruning.Elements([]) == {}
  {
    assert {} - stuck == {};
    assert w.db.objects - {} == w.db.objects && w.files - {} == w.files && w.times - {} == w.times;
    assert w.gc.claimed - {} == w.gc.claimed;
  }

  lemma StillClaimed(w: World, E: set<Digest>, b: Digest, stuck: set<Digest>, failing: set<Digest>)
    requires b in w.gc.claimed && b !in E && b in w.db.objects
    ensures var mid := Collecting(w, w.gc.claimed, E, stuck, failing);
            && b in mid.gc.claimed && b !in mid.gc.unlinked
            && b in mid.db.objects && mid.db.objects[b] == w.db.objects[b]
            && mid.db == w.db.(objects := w.db.objects - (E - stuck - failing))
  {
  }

  /** A collection of rows is the claim, the two steps for each claimed id whose file and row can be deleted, and the
      end of the collector. */
  lemma CollectIsSteps(db: Db, files: map<Digest, Bytes>, times: map<Digest, int>, ids: seq<Digest>, now: int,
                       stuck: set<Digest>, failing: set<Digest>)
    requires Inv(db) && |ids| == |Pruning.Elements(ids)|
    requires Collection.ClaimAnswer(Purge(db, now), now - 86_400, 256, Pruning.Elements(ids))
    ensures var gone := Pruning.Elements(ids) - stuck;
            Steps(Idle(db, files, times), CollectSteps(ids, now, stuck, failing))
            == Idle(Grace.Collected(db, now - 86_400, now, Pruning.Elements(ids), gone - failing),
                    files - gone, times - gone)
  {
    hide Inv, Next, Pruning.Elements, RowSteps, Collection.Claim, Collection.ClaimAnswer;
    var w, E := Idle(db, files, times), Pruning.Elements(ids);
    var claim := ClaimGarbage(now - 86_400, now, 256, E);
    var claimed := Next(w, claim);
    Claimed(w, now, E);
    Collection.ClaimKeepsInv(db, now - 86_400, now, 256, E);
    ClaimFrame(db, now - 86_400, now, 256, E);
    RowsAreSteps(claimed, ids, stuck, failing);
    OneStep(w, claim);
    StepsAppend(w, [claim], RowSteps(ids, stuck, failing));
    StepsAppend(w, [claim] + RowSteps(ids, stuck, failing), [StopCollector]);
    OneStep(Steps(w, [claim] + RowSteps(ids, stuck, failing)), StopCollector);
    Stopped(Steps(w, [claim] + RowSteps(ids, stuck, failing)));
  }

  lemma Claimed(w: World, now: int, E: set<Digest>)
    requires w.gc == Collector({}, {}) && Collection.ClaimAnswer(Purge(w.db, now), now - 86_400, 256, E)
    ensures Next(w, ClaimGarbage(now - 86_400, now, 256, E))
         == w.(db := Collection.Claim(w.db, now - 86_400, now, 256, E), gc := Collector(E, {}))
  {
    hide Collection.Claim, Collection.ClaimAnswer;
  }

  lemma Stopped(w: World)
    ensures Next(w, StopCollector) == w.(gc := Collector({}, {}), sweep := Sweeper(map[], {}))
  {
  }

  lemma Listed(w: World, now: int)
    ensures Next(Next(w, ListFiles), ListRows(now, now))
         == w.(sweep := Sweeper(map[], Sweepable(w.times, now, Known(w.db, now))))
  {
    hide Known, Sweepable;
  }

  lemma OneStep(w: World, x: Step)
    ensures Steps(w, [x]) == Next(w, x)
  {
    hide Next;
    assert [x][..0] == [];
  }

  // ---- a sweep ----

  function FileSteps(ids: seq<Digest>): seq<Step> {
    seq(|ids|, i requires 0 <= i < |ids| => SweepFile(ids[i]))
  }

  function SweepSteps(ids: seq<Digest>, now: int): seq<Step> {
    [ListFiles, ListRows(now, now)] + FileSteps(ids) + [StopCollector]
  }

  /** The world once the sweep has deleted the files E. */
  ghost function Sweeping(w: World, E: set<Digest>): World {
    w.(files := w.files - E, times := w.times - E, sweep := Sweeper(w.sweep.listed, w.sweep.doomed - E))
  }

  lemma NextSweeping(w: World, E: set<Digest>, b: Digest)
    requires b in w.sweep.doomed && b !in E
    ensures Sweeping(w, E + {b}) == Next(Sweeping(w, E), SweepFile(b))
  {
    assert w.files - E - {b} == w.files - (E + {b}) && w.times - E - {b} == w.times - (E + {b});
    assert w.sweep.doomed - E - {b} == w.sweep.doomed - (E + {b});
  }

  lemma NothingSwept(w: World)
    ensures Sweeping(w, {}) == w
  {
    assert w.files - {} == w.files && w.times - {} == w.times && w.sweep.doomed - {} == w.sweep.doomed;
  }

  lemma {:induction false} FilesAreSteps(w: World, ids: seq<Digest>)
    requires Pruning.Elements(ids) <= w.sweep.doomed && |ids| == |Pruning.Elements(ids)|
    ensures Steps(w, FileSteps(ids)) == Sweeping(w, Pruning.Elements(ids))
    decreases |ids|
  {
    hide Next, Sweeping;
    if ids == [] {
      NothingSwept(w);
      assert Pruning.Elements(ids) == {};
    } else {
      var n := |ids| - 1;
      Pruning.LastIsNew(ids);
      FilesAreSteps(w, ids[..n]);
      assert FileSteps(ids) == FileSteps(ids[..n]) + [SweepFile(ids[n])];
      StepsAppend(w, FileSteps(ids[..n]), [SweepFile(ids[n])]);
      OneStep(Steps(w, FileSteps(ids[..n])), SweepFile(ids[n]));
      NextSweeping(w, Pruning.Elements(ids[..n]), ids[n]);
    }
  }

  /** A sweep is its two listings and a step for each stray file that can be deleted. */
  lemma SweepIsSteps(db: Db, files: map<Digest, Bytes>, times: map<Digest, int>, ids: seq<Digest>, now: int)
    requires |ids| == |Pruning.Elements(ids)|
    requires forall b :: b in Pruning.Elements(ids) ==> Stray(times, db, now, now, b)
    ensures Steps(Idle(db, files, times), SweepSteps(ids, now))
         == Idle(db, files - Pruning.Elements(ids), times - Pruning.Elements(ids))
  {
    SweepsStrays(times, db, now, now);
    hide Next, Pruning.Elements, FileSteps, Known, Sweepable, Stray;
    var w := Idle(db, files, times);
    var lists := [ListFiles, ListRows(now, now)];
    TwoSteps(w, ListFiles, ListRows(now, now));
    Listed(w, now);
    FilesAreSteps(Steps(w, lists), ids);
    StepsAppend(w, lists, FileSteps(ids));
    StepsAppend(w, lists + FileSteps(ids), [StopCollector]);
    OneStep(Steps(w, lists + FileSteps(ids)), StopCollector);
    Stopped(Steps(w, lists + FileSteps(ids)));
  }
}
