/** A prune cut into batches, with any other operations between them. */
module Batches {
  import opened Tables
  import opened Integrity
  import opened Machine
  import opened Holdings
  import Release
  import Pruning
  import Revisions
  import Frames

  datatype Prune = Prune(account: Id, device: Id, group: Id, revision: int, now: int, batches: seq<seq<Digest>>)

  function Batch(c: Prune, k: nat): Op
    requires k < |c.batches|
  {
    PruneBatch(c.account, c.device, c.group, c.revision, c.batches[k], c.now)
  }

  /** Operation at[k] of the run is the call's batch k, and it passed its check. Other operations lie in between as they
      please; the call may have stopped after these batches. */
  ghost predicate Ran(ops: seq<Op>, c: Prune, at: seq<nat>) {
    && |at| <= |c.batches|
    && (forall k :: 0 <= k < |at| ==> at[k] < |ops| && ops[at[k]] == Batch(c, k))
    && (forall k :: 0 <= k < |at| ==> SeesRevision(At(ops, at[k]), c.device, c.account, c.group, c.revision))
    && (forall j, k :: 0 <= j < k < |at| ==> at[j] < at[k])
  }

  /** A device of the group commits an upload of the block. */
  ghost predicate MemberUploads(db: Db, op: Op, a: Id, g: Id, b: Digest) {
    exists d :: InGroup(db, d, a, g) && Attaches(db, op, d, b)
  }

  // ---- what the group still sees ----

  lemma StaysUnseen(db: Db, op: Op, a: Id, g: Id, b: Digest)
    requires Inv(db) && !Visible(db, a, g, b) && !MemberUploads(db, op, a, g, b)
    requires Members(Apply(db, op).devices, g) == Members(db.devices, g)
    ensures !Visible(Apply(db, op), a, g, b)
  {
    hide Inv, Apply, Attaches;
    forall d | InGroup(Apply(db, op), d, a, g) ensures (d, b) !in Apply(db, op).deviceBlocks {
      assert d in Members(Apply(db, op).devices, g);
      NewRowIsCommit(db, op, d, b);
      assert InGroup(db, d, a, g);
    }
  }

  /** A batch whose check passes is a prune of the group's devices. */
  lemma AppliedBatch(db: Db, op: Op)
    requires op.PruneBatch? && SeesRevision(db, op.device, op.account, op.group, op.revision)
    ensures Apply(db, op)
         == Release.PruneAll(db, op.account, GroupDevices(db, op.account, op.group), op.blocks, op.now)
  {
    hide Release.PruneAll, SeesRevision, GroupDevices;
  }

  lemma BatchHides(db: Db, op: Op, b: Digest)
    requires Inv(db) && op.PruneBatch? && b in op.blocks
    requires SeesRevision(db, op.device, op.account, op.group, op.revision)
    ensures !Visible(Apply(db, op), op.account, op.group, b)
  {
    var D := GroupDevices(db, op.account, op.group);
    hide Inv, Apply, Release.PruneAll, SeesRevision, GroupDevices, Release.Orphan, Release.SizeOf, Release.Discharge,
         Release.Freed, Release.Uncharged;
    Pruning.PruneAllIsOneShot(db, op.account, D, op.blocks, op.now);
    AppliedBatch(db, op);
    forall d | InGroup(Apply(db, op), d, op.account, op.group) ensures (d, b) !in Apply(db, op).deviceBlocks {
      InGroupDevices(db, d, op.account, op.group);
    }
  }

  lemma InGroupDevices(db: Db, d: Id, a: Id, g: Id)
    ensures d in GroupDevices(db, a, g) <==> InGroup(db, d, a, g)
  {
  }

  ghost predicate NotCreated(ops: seq<Op>, i: nat, j: nat, g: Id)
    requires i <= j <= |ops|
  {
    forall m :: i <= m < j ==> !Revisions.Creates(ops[m], g)
  }

  /** Between two checks that saw the same revision the members never changed. */
  lemma SameMembersBetween(ops: seq<Op>, i: nat, m: nat, j: nat, g: Id)
    requires i <= m <= j <= |ops| && NotCreated(ops, i, j, g)
    requires g in At(ops, i).groups && g in At(ops, j).groups
    requires At(ops, i).groups[g].revision == At(ops, j).groups[g].revision
    ensures Members(At(ops, m).devices, g) == Members(At(ops, i).devices, g)
  {
    hide Run, Members;
    Revisions.LaterAdvances(ops, i, m, g);
    Revisions.LaterAdvances(ops, m, j, g);
  }

  /** ... so what was hidden stays hidden until a member uploads it. */
  lemma {:induction false} UnseenBetween(ops: seq<Op>, i: nat, m: nat, j: nat, a: Id, g: Id, b: Digest)
    requires i <= m <= j <= |ops| && NotCreated(ops, i, j, g)
    requires g in At(ops, i).groups && g in At(ops, j).groups
    requires At(ops, i).groups[g].revision == At(ops, j).groups[g].revision
    requires !Visible(At(ops, i), a, g, b) && forall n :: i <= n < m ==> !MemberUploads(At(ops, n), ops[n], a, g, b)
    ensures !Visible(At(ops, m), a, g, b)
    decreases m
  {
    hide Inv, At, Apply, Visible, MemberUploads, Members, NotCreated;
    if i < m {
      UnseenBetween(ops, i, m - 1, j, a, g, b);
      SameMembersBetween(ops, i, m - 1, j, g);
      SameMembersBetween(ops, i, m, j, g);
      AtInv(ops, m - 1);
      Advance(ops, m - 1);
      StaysUnseen(At(ops, m - 1), ops[m - 1], a, g, b);
    }
  }

  /** A batch moves no device and no group. */
  lemma BatchKeepsGroup(db: Db, op: Op, g: Id)
    requires op.PruneBatch?
    ensures Apply(db, op).groups == db.groups && Members(Apply(db, op).devices, g) == Members(db.devices, g)
  {
    hide Apply, Members;
    Frames.BlocksFrame(db, op);
  }

  lemma BatchUploadsNothing(db: Db, op: Op, a: Id, g: Id, b: Digest)
    requires op.PruneBatch?
    ensures !MemberUploads(db, op, a, g, b)
  {
  }

  ghost predicate UploadedBetween(ops: seq<Op>, i: nat, j: nat, a: Id, g: Id, b: Digest)
    requires i <= j <= |ops|
  {
    exists m :: i <= m < j && MemberUploads(At(ops, m), ops[m], a, g, b)
  }

  /** Two batches of one call, the later its last so far: what the earlier one hid is still hidden after the later one,
      unless a member uploaded it in between. */
  lemma HiddenUntilUploaded(ops: seq<Op>, i: nat, j: nat, b: Digest)
    requires i <= j < |ops| && ops[i].PruneBatch? && ops[j].PruneBatch? && b in ops[i].blocks
    requires ops[j].account == ops[i].account && ops[j].group == ops[i].group && ops[j].revision == ops[i].revision
    requires SeesRevision(At(ops, i), ops[i].device, ops[i].account, ops[i].group, ops[i].revision)
    requires SeesRevision(At(ops, j), ops[j].device, ops[i].account, ops[i].group, ops[i].revision)
    requires NotCreated(ops, i, j, ops[i].group)
    ensures Visible(At(ops, j + 1), ops[i].account, ops[i].group, b) ==>
              UploadedBetween(ops, i, j, ops[i].account, ops[i].group, b)
  {
    hide Inv, At, Apply, Visible, MemberUploads, Members, NotCreated, InGroup;
    var a, g := ops[i].account, ops[i].group;
    AtInv(ops, i);
    Advance(ops, i);
    BatchHides(At(ops, i), ops[i], b);
    if i < j && !UploadedBetween(ops, i, j, a, g, b) {
      BatchKeepsGroup(At(ops, i), ops[i], g);
      LaterNotCreated(ops, i, j, g);
      UnseenBetween(ops, i + 1, j, j, a, g, b);
      AtInv(ops, j);
      Advance(ops, j);
      BatchKeepsGroup(At(ops, j), ops[j], g);
      BatchUploadsNothing(At(ops, j), ops[j], a, g, b);
      StaysUnseen(At(ops, j), ops[j], a, g, b);
    }
  }

  lemma LaterNotCreated(ops: seq<Op>, i: nat, j: nat, g: Id)
    requires i < j <= |ops| && NotCreated(ops, i, j, g)
    ensures NotCreated(ops, i + 1, j, g)
  {
  }

  /** The call offered up exactly what the group saw in some earlier state and does not keep, each block once. */
  ghost predicate Offers(db: Db, c: Prune, keep: set<Digest>) {
    && (forall b :: b in Pruning.Candidates(db, c.account, c.group, keep)
          <==> exists k :: 0 <= k < |c.batches| && b in c.batches[k])
    && Disjoint(c)
  }

  predicate Disjoint(c: Prune) {
    forall j, k :: 0 <= j < k < |c.batches| ==> Pruning.Elements(c.batches[j]) !! Pruning.Elements(c.batches[k])
  }

  /** A prune all of whose batches passed, with anything in between: right after its last batch the group sees
      nothing that it saw when the candidates were read, except what the call keeps and what a member uploaded while
      it ran. */
  lemma PrunedStaysUnseen(ops: seq<Op>, c: Prune, read: nat, keep: set<Digest>, at: seq<nat>, b: Digest)
    requires Ran(ops, c, at) && |at| == |c.batches| > 0 && read <= at[0] && Offers(At(ops, read), c, keep)
    requires NotCreated(ops, at[0], at[|at| - 1], c.group)
    ensures Visible(At(ops, at[|at| - 1] + 1), c.account, c.group, b) ==>
              || b in keep
              || !Visible(At(ops, read), c.account, c.group, b)
              || UploadedBetween(ops, at[0], at[|at| - 1], c.account, c.group, b)
  {
    hide At, Visible, MemberUploads, NotCreated, SeesRevision, Disjoint, Pruning.Candidates;
    Pruning.CandidatesAreVisible(At(ops, read), c.account, c.group, keep, b);
    if Visible(At(ops, read), c.account, c.group, b) && b !in keep {
      var k :| 0 <= k < |c.batches| && b in c.batches[k];
      var i, j := at[k], at[|at| - 1];
      assert ops[i] == Batch(c, k) && ops[j] == Batch(c, |at| - 1);
      FewerNotCreated(ops, at[0], i, j, c.group);
      HiddenUntilUploaded(ops, i, j, b);
    }
  }

  lemma FewerNotCreated(ops: seq<Op>, i: nat, m: nat, j: nat, g: Id)
    requires i <= m <= j <= |ops| && NotCreated(ops, i, j, g)
    ensures NotCreated(ops, m, j, g)
  {
  }

  // ---- what the call reports ----

  function Used(db: Db, a: Id): int {
    if a in db.accounts then db.accounts[a].used else 0
  }

  /** What the call's own batches took off the account's counter. */
  ghost function Reclaimed(ops: seq<Op>, c: Prune, at: seq<nat>): int
    requires Ran(ops, c, at)
    decreases |at|
  {
    if at == [] then 0
    else
      var n := |at| - 1;
      Reclaimed(ops, c, at[..n]) + Used(At(ops, at[n]), c.account) - Used(At(ops, at[n] + 1), c.account)
  }

  /** The blocks that batch k found held by nobody outside the group. */
  ghost function FreedByBatch(ops: seq<Op>, c: Prune, at: seq<nat>, k: nat): set<Digest>
    requires Ran(ops, c, at) && k < |at|
  {
    var db := At(ops, at[k]);
    Release.Freed(db, c.account, GroupDevices(db, c.account, c.group), Pruning.Elements(c.batches[k]))
  }

  ghost function FreedByCall(ops: seq<Op>, c: Prune, at: seq<nat>): set<Digest>
    requires Ran(ops, c, at)
  {
    set k, b | 0 <= k < |at| && b in FreedByBatch(ops, c, at, k) :: b
  }

  lemma FreedSoFar(ops: seq<Op>, c: Prune, at: seq<nat>)
    requires Ran(ops, c, at) && at != []
    ensures Ran(ops, c, at[..|at| - 1])
    ensures FreedByCall(ops, c, at) == FreedByCall(ops, c, at[..|at| - 1]) + FreedByBatch(ops, c, at, |at| - 1)
    ensures Disjoint(c) ==> FreedByCall(ops, c, at[..|at| - 1]) !! FreedByBatch(ops, c, at, |at| - 1)
  {
    hide At, SeesRevision, GroupDevices, Release.LooseWithout, Pruning.Elements;
    var before := at[..|at| - 1];
    assert forall k :: 0 <= k < |before| ==> before[k] == at[k];
    assert forall k :: 0 <= k < |before| ==> FreedByBatch(ops, c, before, k) == FreedByBatch(ops, c, at, k);
  }

  lemma BatchPays(db: Db, op: Op)
    requires Inv(db) && op.PruneBatch? && SeesRevision(db, op.device, op.account, op.group, op.revision)
    ensures Used(db, op.account) - Used(Apply(db, op), op.account)
         == Release.SizeOf(Release.Freed(db, op.account, GroupDevices(db, op.account, op.group),
                                         Pruning.Elements(op.blocks)))
  {
    hide Inv, Apply, Release.PruneAll, Release.PruneSet, GroupDevices, Release.SizeOf, Release.Freed, Pruning.Elements;
    var D := GroupDevices(db, op.account, op.group);
    DeviceHasAccount(db, op.device);
    Pruning.PruneAllIsOneShot(db, op.account, D, op.blocks, op.now);
    Pruning.PruneSetPays(db, op.account, D, Pruning.Elements(op.blocks), op.now);
    AppliedBatch(db, op);
  }

  /** Whether the call went through or stopped after some batches: what its own batches took off the counter is the
      sizes of the blocks they freed, each counted once, whatever other operations did to the counter in between. */
  lemma {:induction false} ReclaimedIsFreed(ops: seq<Op>, c: Prune, at: seq<nat>)
    requires Ran(ops, c, at) && Disjoint(c)
    ensures Reclaimed(ops, c, at) == Release.SizeOf(FreedByCall(ops, c, at))
    decreases |at|
  {
    hide Inv, At, Apply, SeesRevision, FreedByCall, Release.SizeOf, Release.Freed, Used, Disjoint;
    if at == [] {
      assert FreedByCall(ops, c, at) == {} by { NothingFreed(ops, c); }
      Release.SizeOfAdd({}, Sha256([]));
    } else {
      var n := |at| - 1;
      FreedSoFar(ops, c, at);
      ReclaimedIsFreed(ops, c, at[..n]);
      AtInv(ops, at[n]);
      Advance(ops, at[n]);
      assert ops[at[n]] == Batch(c, n);
      BatchPays(At(ops, at[n]), ops[at[n]]);
      Release.SizeOfUnion(FreedByCall(ops, c, at[..n]), FreedByBatch(ops, c, at, n));
    }
  }

  lemma NothingFreed(ops: seq<Op>, c: Prune)
    ensures FreedByCall(ops, c, []) == {}
  {
  }
}
