/** When garbage is collected: not before its grace period, and completely within a bounded number of rounds. */
module Grace {
  import opened Tables
  import opened Integrity
  import opened Machine
  import opened Collection
  import Uploads
  import Release
  import Pruning
  import Frames
  import BlockFiles

  // ---- the orphan mark is the time of the last release ----

  predicate Releasing(op: Op) {
    op.PruneBatch? || op.ReleaseBatch?
  }

  function ReleaseTime(op: Op): int
    requires Releasing(op)
  {
    op.now
  }

  /** How one operation moves one object between referenced and marked. */
  ghost predicate MarkStep(db: Db, after: Db, op: Op, b: Digest) {
    && (Referenced(db.accountBlocks, b) && !Referenced(after.accountBlocks, b) ==>
          Releasing(op) && b in after.objects && after.objects[b].orphanedAt == Some(ReleaseTime(op)))
    && (!Referenced(db.accountBlocks, b) && !Referenced(after.accountBlocks, b) && b in after.objects ==>
          b in db.objects && after.objects[b].orphanedAt == db.objects[b].orphanedAt)
  }

  lemma SameMarks(db: Db, after: Db, op: Op, b: Digest)
    requires after.accountBlocks == db.accountBlocks
    requires b in after.objects ==> b in db.objects && after.objects[b].orphanedAt == db.objects[b].orphanedAt
    ensures MarkStep(db, after, op, b)
  {
  }

  lemma PruneMarks(db: Db, a: Id, D: set<Id>, ids: seq<Digest>, now: int, op: Op, b: Digest)
    requires Inv(db) && Releasing(op) && ReleaseTime(op) == now
    ensures MarkStep(db, Release.PruneAll(db, a, D, ids, now), op, b)
  {
    Pruning.PruneAllIsOneShot(db, a, D, ids, now);
    var after := Release.PruneAll(db, a, D, ids, now);
    BlockFiles.ReferencedUnmarked(db, b);
    hide Inv, Release.PruneAll, Release.SizeOf, Release.Discharge, Pruning.Elements, Release.Detached;
    var F := Release.Freed(db, a, D, Pruning.Elements(ids));
    assert b in F ==> (a, b) in db.accountBlocks;
    hide Release.Freed, Release.Orphan, Release.Uncharged, Referenced;
    OrphanMarks(db.objects, db.accountBlocks, a, F, now, b);
  }

  lemma OrphanMarks(objects: map<Digest, Object>, accountBlocks: set<(Id, Digest)>, a: Id, F: set<Digest>, now: int,
                    b: Digest)
    requires b in F ==> (a, b) in accountBlocks
    requires Referenced(accountBlocks, b) ==> b in objects
    ensures var left := Release.Uncharged(accountBlocks, a, F);
            var after := Release.Orphan(objects, left, F, now);
            && (Referenced(accountBlocks, b) && !Referenced(left, b) ==> b in after && after[b].orphanedAt == Some(now))
            && (!Referenced(accountBlocks, b) && b in after ==>
                  b in objects && after[b].orphanedAt == objects[b].orphanedAt)
  {
    var left := Release.Uncharged(accountBlocks, a, F);
    assert forall x :: (x, b) in left <==> (x, b) in accountBlocks && !(x == a && b in F);
  }

  lemma CommitMarks(db: Db, r: Id, now: int, op: Op, b: Digest)
    requires op == Commit(r, now)
    ensures MarkStep(db, Uploads.Commit(db, r, now).0, op, b)
  {
    var (after, out) := Uploads.Commit(db, r, now);
    if out.Ok? {
      var row := db.reservations[r];
      assert (row.account, row.block) in after.accountBlocks;
      assert forall x :: (x, b) in db.accountBlocks ==> (x, b) in after.accountBlocks;
    }
  }

  lemma FinalizeMarks(db: Db, c: Digest, op: Op, b: Digest)
    requires Inv(db)
    ensures MarkStep(db, Collection.Finalize(db, c).0, op, b)
  {
    FinalizeEffect(db, c);
    hide Inv, Reserved;
    SameMarks(db, Collection.Finalize(db, c).0, op, b);
    hide MarkStep;
  }

  lemma ClaimMarks(db: Db, before: int, now: int, limit: int, answer: set<Digest>, op: Op, b: Digest)
    ensures MarkStep(db, Collection.Claim(db, before, now, limit, answer), op, b)
  {
    ClaimKeepsMarks(db, before, now, limit, answer);
    hide Collection.Claim, MarkStep, Referenced;
    SameMarks(db, Collection.Claim(db, before, now, limit, answer), op, b);
  }

  lemma StepMarks(db: Db, op: Op, b: Digest)
    requires Inv(db)
    ensures MarkStep(db, Apply(db, op), op, b)
  {
    hide Inv, MarkStep, Referenced;
    match op
    case PruneBatch(a, d, g, revision, blocks, now) =>
      SameMarks(db, db, op, b);
      PruneMarks(db, a, GroupDevices(db, a, g), blocks, now, op, b);
      hide Release.PruneAll;
    case ReleaseBatch(a, blocks, now) => PruneMarks(db, a, {}, blocks, now, op, b); hide Release.PruneAll;
    case Commit(r, now) => CommitMarks(db, r, now, op, b); hide Uploads.Commit;
    case Claim(before, now, limit, answer) => ClaimMarks(db, before, now, limit, answer, op, b); hide Collection.Claim;
    case Finalize(c) => FinalizeMarks(db, c, op, b); hide Collection.Finalize;
    case Reserve(r, a, d, c, now) => ReserveMarks(db, r, a, d, c, now, op, b); hide Uploads.Reserve;
    case Cancel(_) => SameMarks(db, Apply(db, op), op, b);
    case _ =>
      hide Apply;
      Frames.GroupsFrame(db, op);
      SameMarks(db, Apply(db, op), op, b);
  }

  lemma ReserveMarks(db: Db, r: Id, a: Id, d: Id, c: Digest, now: int, op: Op, b: Digest)
    ensures MarkStep(db, Uploads.Reserve(db, r, a, d, c, |c.data|, now).0, op, b)
  {
    BlockFiles.ReserveFrame(db, r, a, d, c, |c.data|, now);
    hide Uploads.Reserve, MarkStep, Referenced;
    SameMarks(db, Uploads.Reserve(db, r, a, d, c, |c.data|, now).0, op, b);
  }

  /** Operation i released b, and nothing after it referenced b again. */
  ghost predicate LastRelease(db: Db, ops: seq<Op>, b: Digest, i: nat) {
    && i < |ops| && Releasing(ops[i])
    && Referenced(Run(db, ops[..i]).accountBlocks, b)
    && (forall j :: i < j <= |ops| ==> !Referenced(Run(db, ops[..j]).accountBlocks, b))
  }

  lemma ExtendRelease(db: Db, ops: seq<Op>, b: Digest, i: nat)
    requires ops != [] && LastRelease(db, ops[..|ops| - 1], b, i) && !Referenced(Run(db, ops).accountBlocks, b)
    ensures LastRelease(db, ops, b, i) && ops[i] == ops[..|ops| - 1][i]
  {
    var before := ops[..|ops| - 1];
    assert before[..i] == ops[..i];
    forall j | i < j <= |ops| ensures !Referenced(Run(db, ops[..j]).accountBlocks, b) {
      if j < |ops| { assert before[..j] == ops[..j]; } else { assert ops[..j] == ops; }
    }
    hide Run, Referenced;
  }

  /** An object that no account references carries the time of the operation that last released it. */
  lemma {:induction false} MarkIsLastRelease(db: Db, ops: seq<Op>, b: Digest) returns (i: nat)
    requires Inv(db) && b !in db.objects
    requires !Referenced(Run(db, ops).accountBlocks, b) && b in Run(db, ops).objects
    ensures LastRelease(db, ops, b, i) && Run(db, ops).objects[b].orphanedAt == Some(ReleaseTime(ops[i]))
    decreases |ops|
  {
    hide Inv, Apply, Referenced, LastRelease;
    var before := ops[..|ops| - 1];
    var last := Run(db, before);
    RunKeepsInv(db, before);
    StepMarks(last, ops[|ops| - 1], b);
    if Referenced(last.accountBlocks, b) {
      i := |ops| - 1;
      ReleasedLast(db, ops, b);
    } else {
      i := MarkIsLastRelease(db, before, b);
      ExtendRelease(db, ops, b, i);
    }
  }

  lemma ReleasedLast(db: Db, ops: seq<Op>, b: Digest)
    requires ops != [] && Releasing(ops[|ops| - 1])
    requires Referenced(Run(db, ops[..|ops| - 1]).accountBlocks, b) && !Referenced(Run(db, ops).accountBlocks, b)
    ensures LastRelease(db, ops, b, |ops| - 1)
  {
    assert ops[..|ops|] == ops;
    hide Run, Referenced;
  }

  /** A claim at `now` whose SELECT answers `answer`, whatever the limit: each id is of an object that no account
      references and that either was claimed before and is still to be deleted, or was last released at least 86400
      seconds ago. */
  lemma ClaimedAfterGrace(ops: seq<Op>, now: int, limit: int, answer: set<Digest>, b: Digest)
    ensures var db := Run(EMPTY_DB, ops);
            ClaimAnswer(Purge(db, now), now - 86_400, limit, answer) && b in answer ==>
              && b in db.objects && !Referenced(db.accountBlocks, b)
              && (db.objects[b].deleting
                  || exists i: nat :: LastRelease(EMPTY_DB, ops, b, i) && ReleaseTime(ops[i]) + 86_400 <= now)
  {
    EmptyInv();
    hide Inv, Run, Referenced, Reserved, LastRelease, Purge;
    var db := Run(EMPTY_DB, ops);
    Uploads.PurgeKeepsTables(db, now);
    if ClaimAnswer(Purge(db, now), now - GRACE_SECONDS, limit, answer) && b in answer {
      assert Collectible(Purge(db, now), b, now - GRACE_SECONDS);
      if !db.objects[b].deleting {
        var i := MarkIsLastRelease(EMPTY_DB, ops, b);
        ReleasedBefore(ops, b, i);
      }
    }
  }

  lemma ReleasedBefore(ops: seq<Op>, b: Digest, i: nat)
    requires LastRelease(EMPTY_DB, ops, b, i)
    ensures i < |ops| && Releasing(ops[i])
  {
  }

  // ---- nothing goes before its grace period ----

  /** An operation marks an object deleting only by a claim whose answer names it. */
  ghost predicate DeletingStep(db: Db, after: Db, op: Op, b: Digest) {
    b in after.objects && after.objects[b].deleting ==>
      && b in db.objects
      && (db.objects[b].deleting
          || (op.Claim? && ClaimAnswer(Purge(db, op.now), op.before, op.limit, op.answer) && b in op.answer))
  }

  /** An operation removes an object row only by finalising it, which needs the mark. */
  ghost predicate RemovalStep(db: Db, after: Db, op: Op, b: Digest) {
    b in db.objects && b !in after.objects ==> op == Finalize(b) && db.objects[b].deleting
  }

  ghost predicate ObjectStep(db: Db, after: Db, op: Op, b: Digest) {
    DeletingStep(db, after, op, b) && RemovalStep(db, after, op, b)
  }

  lemma SameObjects(db: Db, after: Db, op: Op, b: Digest)
    requires after.objects == db.objects
    ensures ObjectStep(db, after, op, b)
  {
  }

  lemma ClaimObjects(db: Db, op: Op, b: Digest)
    requires op.Claim?
    ensures ObjectStep(db, Collection.Claim(db, op.before, op.now, op.limit, op.answer), op, b)
  {
    hide ClaimAnswer, Referenced, Reserved;
  }

  lemma PruneObjects(db: Db, a: Id, D: set<Id>, ids: seq<Digest>, now: int, op: Op, b: Digest)
    requires Inv(db)
    ensures ObjectStep(db, Release.PruneAll(db, a, D, ids, now), op, b)
  {
    Pruning.PruneAllIsOneShot(db, a, D, ids, now);
    hide Inv, Release.PruneAll, Release.Freed, Release.Uncharged, Release.SizeOf, Release.Discharge, Referenced,
         Release.Detached;
  }

  lemma CommitObjects(db: Db, r: Id, now: int, op: Op, b: Digest)
    ensures ObjectStep(db, Uploads.Commit(db, r, now).0, op, b)
  {
    Uploads.CommitPaths(db, r, now);
    hide Uploads.Commit;
    assert Uploads.Commit(db, r, now).1.Ok? || Uploads.Commit(db, r, now).1.Err?;
  }

  lemma FinalizeObjects(db: Db, c: Digest, b: Digest)
    ensures ObjectStep(db, Collection.Finalize(db, c).0, Finalize(c), b)
  {
    hide Referenced, Reserved;
  }

  lemma KeptObjects(db: Db, after: Db)
    requires Frames.KeepsBlocks(db, after)
    ensures after.objects == db.objects
  {
  }

  lemma StepObjects(db: Db, op: Op, b: Digest)
    requires Inv(db)
    ensures ObjectStep(db, Apply(db, op), op, b)
  {
    hide Inv, ObjectStep, Release.PruneAll, Uploads.Commit, Uploads.Reserve, Collection.Claim, Collection.Finalize,
         Frames.KeepsBlocks;
    match op
    case PruneBatch(a, d, g, revision, blocks, now) =>
      SameObjects(db, db, op, b);
      PruneObjects(db, a, GroupDevices(db, a, g), blocks, now, op, b);
    case ReleaseBatch(a, blocks, now) => PruneObjects(db, a, {}, blocks, now, op, b);
    case Commit(r, now) => CommitObjects(db, r, now, op, b);
    case Claim(_, _, _, _) => ClaimObjects(db, op, b);
    case Finalize(c) => FinalizeObjects(db, c, b);
    case Reserve(r, a, d, c, now) =>
      BlockFiles.ReserveFrame(db, r, a, d, c, |c.data|, now);
      SameObjects(db, Apply(db, op), op, b);
    case Cancel(_) => SameObjects(db, Apply(db, op), op, b);
    case _ =>
      hide Apply;
      Frames.GroupsFrame(db, op);
      KeptObjects(db, Apply(db, op));
      SameObjects(db, Apply(db, op), op, b);
  }

  /** The collector claims what was orphaned a grace period ago. */
  predicate CollectorClaims(ops: seq<Op>) {
    forall m :: 0 <= m < |ops| && ops[m].Claim? ==> ops[m].before == ops[m].now - 86_400
  }

  /** Operation i is the block's last release, and claim m came at least a grace period after it. */
  ghost predicate ClaimedLate(ops: seq<Op>, b: Digest, i: nat, m: nat) {
    && LastRelease(EMPTY_DB, ops, b, i) && i < m < |ops|
    && ops[m].Claim? && ReleaseTime(ops[i]) + 86_400 <= ops[m].now
  }

  /** An object marked deleting was claimed a grace period or more after its last release, and nothing has referenced it
      since that release. */
  lemma {:induction false} DeletingWasClaimed(ops: seq<Op>, b: Digest) returns (i: nat, m: nat)
    requires CollectorClaims(ops) && b in Run(EMPTY_DB, ops).objects && Run(EMPTY_DB, ops).objects[b].deleting
    ensures ClaimedLate(ops, b, i, m)
    decreases |ops|
  {
    hide Inv, Apply, Referenced, LastRelease, ClaimAnswer;
    var before := ops[..|ops| - 1];
    var op := ops[|ops| - 1];
    var last := Run(EMPTY_DB, before);
    RunInv(before);
    RunInv(ops);
    StepObjects(last, op, b);
    DeletingIsUnreferenced(Run(EMPTY_DB, ops), b);
    if last.objects[b].deleting {
      i, m := DeletingWasClaimed(before, b);
      ExtendRelease(EMPTY_DB, ops, b, i);
    } else {
      m := |ops| - 1;
      i := ClaimRelease(ops, b);
    }
  }

  lemma DeletingIsUnreferenced(db: Db, b: Digest)
    requires Inv(db) && b in db.objects && db.objects[b].deleting
    ensures !Referenced(db.accountBlocks, b)
  {
    hide Inv;
    BlockFiles.DeletingIsFree(db, b);
  }

  lemma ClaimRelease(ops: seq<Op>, b: Digest) returns (i: nat)
    requires ops != [] && CollectorClaims(ops) && !Referenced(Run(EMPTY_DB, ops).accountBlocks, b)
    requires var op, last := ops[|ops| - 1], Run(EMPTY_DB, ops[..|ops| - 1]);
             && op.Claim? && ClaimAnswer(Purge(last, op.now), op.before, op.limit, op.answer) && b in op.answer
             && b in last.objects && !last.objects[b].deleting
    ensures ClaimedLate(ops, b, i, |ops| - 1)
  {
    hide Inv, Run, Referenced, ClaimAnswer;
    var op, before := ops[|ops| - 1], ops[..|ops| - 1];
    ClaimedAfterGrace(before, op.now, op.limit, op.answer, b);
    i :| LastRelease(EMPTY_DB, before, b, i) && ReleaseTime(before[i]) + GRACE_SECONDS <= op.now;
    ExtendRelease(EMPTY_DB, ops, b, i);
  }

  /** Over any run, with uploads, prunes and collections interleaved as they please: an object row disappears only
      when a block that no account has referenced since some release is finalised, after a claim that came at least
      86400 seconds after that release. */
  lemma RemovedAfterGrace(ops: seq<Op>, j: nat, b: Digest)
    requires j < |ops| && CollectorClaims(ops)
    ensures b in At(ops, j).objects && b !in At(ops, j + 1).objects ==>
              ops[j] == Finalize(b) && exists i: nat, m: nat :: ClaimedLate(ops[..j], b, i, m)
  {
    hide Inv, Run, Apply, ClaimedLate;
    if b in At(ops, j).objects && b !in At(ops, j + 1).objects {
      AtInv(ops, j);
      Advance(ops, j);
      StepObjects(At(ops, j), ops[j], b);
      var i, m := DeletingWasClaimed(ops[..j], b);
    }
  }

  // ---- progress ----

  /** One collection with nothing in between: the claim, and the rows of those claimed ids whose deletion went
      through. */
  ghost function Collected(db: Db, before: int, now: int, ids: set<Digest>, done: set<Digest>): Db {
    var claimed := Collection.Claim(db, before, now, CLAIM_LIMIT, ids);
    claimed.(objects := claimed.objects - done)
  }

  /** One without any failure. */
  ghost function Round(db: Db, before: int, now: int, ids: set<Digest>): Db {
    Collected(db, before, now, ids, ids)
  }

  ghost function Rounds(db: Db, before: int, now: int, answers: seq<set<Digest>>): Db
    decreases |answers|
  {
    if answers == [] then db
    else Round(Rounds(db, before, now, answers[..|answers| - 1]), before, now, answers[|answers| - 1])
  }

  /** Every answer is one the claiming SELECT could give in the state it is asked in. */
  ghost predicate Answers(db: Db, before: int, now: int, answers: seq<set<Digest>>) {
    forall i :: 0 <= i < |answers| ==>
      ClaimAnswer(Purge(Rounds(db, before, now, answers[..i]), now), before, CLAIM_LIMIT, answers[i])
  }

  /** What is left to collect, once expired reservations are gone. */
  ghost function Backlog(db: Db, before: int, now: int): set<Digest> {
    AllCollectible(Purge(db, now), before)
  }

  lemma RoundShrinksBacklog(db: Db, before: int, now: int, ids: set<Digest>)
    requires ClaimAnswer(Purge(db, now), before, CLAIM_LIMIT, ids)
    ensures Backlog(Round(db, before, now, ids), before, now) == Backlog(db, before, now) - ids
    ensures |ids| == if |Backlog(db, before, now)| <= 256 then |Backlog(db, before, now)| else 256
    ensures ids <= Backlog(db, before, now)
  {
    var p := Purge(db, now);
    var after := Round(db, before, now, ids);
    assert Purge(after, now).reservations == p.reservations;
    assert after.accountBlocks == p.accountBlocks;
    hide Referenced, Reserved;
    forall b ensures b in Backlog(after, before, now) <==> b in Backlog(db, before, now) && b !in ids {}
  }

  /** n collectible objects are gone after any k rounds with 256 k >= n. */
  lemma {:induction false} BacklogCleared(db: Db, before: int, now: int, answers: seq<set<Digest>>)
    requires Answers(db, before, now, answers)
    ensures var n := |Backlog(db, before, now)|;
            |Backlog(Rounds(db, before, now, answers), before, now)|
            == if n <= 256 * |answers| then 0 else n - 256 * |answers|
    decreases |answers|
  {
    if answers == [] {
    } else {
      var firsts := answers[..|answers| - 1];
      var last := answers[|answers| - 1];
      forall i | 0 <= i < |firsts|
        ensures ClaimAnswer(Purge(Rounds(db, before, now, firsts[..i]), now), before, CLAIM_LIMIT, firsts[i])
      {
        assert firsts[..i] == answers[..i] && firsts[i] == answers[i];
      }
      hide Round, ClaimAnswer, Purge, Backlog;
      BacklogCleared(db, before, now, firsts);
      var mid := Rounds(db, before, now, firsts);
      assert ClaimAnswer(Purge(mid, now), before, CLAIM_LIMIT, last);
      RoundShrinksBacklog(mid, before, now, last);
      var all := Backlog(mid, before, now);
      assert |all - last| == |all| - |last|;
    }
  }
}
