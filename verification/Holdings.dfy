/** Who holds a block, over whole runs: which operations add and remove device rows and charges, and the charges that a
    discard leaves behind when it stops before its clean-up. */
module Holdings {
  import opened Tables
  import opened Integrity
  import opened Machine
  import SyncGroups
  import Uploads
  import Merging
  import Release
  import Pruning
  import Discarding
  import Collection
  import Documents
  import Frames

  /** The operation is a commit that gives device d the block. */
  ghost predicate Attaches(db: Db, op: Op, d: Id, b: Digest) {
    && op.Commit? && op.reservation in db.reservations
    && db.reservations[op.reservation].device == d && db.reservations[op.reservation].block == b
    && Uploads.Commit(db, op.reservation, op.now).1.Ok?
  }

  /** The operation releases blocks of account a, this one among them; a prune batch only if it passes its check. */
  ghost predicate Releases(db: Db, op: Op, a: Id, b: Digest) {
    && (op.PruneBatch? || op.ReleaseBatch?) && op.account == a && b in op.blocks
    && (op.PruneBatch? ==> SeesRevision(db, op.device, a, op.group, op.revision))
  }

  // ---- one operation ----

  /** No device row is new, and devices stay with their accounts. */
  ghost predicate NoNewRows(db: Db, after: Db) {
    && after.deviceBlocks <= db.deviceBlocks
    && forall d :: d in db.devices ==> d in after.devices && after.devices[d].account == db.devices[d].account
  }

  lemma EnrollNoNewRows(db: Db, a: Id, d: Id, g: Id, now: int)
    ensures NoNewRows(db, SyncGroups.Enroll(db, a, d, g, now).0)
  {
    SyncGroups.EnrollPaths(db, a, d, g, now);
    hide SyncGroups.Enroll;
    assert SyncGroups.Enroll(db, a, d, g, now).1.Ok? || SyncGroups.Enroll(db, a, d, g, now).1.Err?;
  }

  lemma RegisterNoNewRows(db: Db, a: Id, quota: int, d: Id, g: Id, now: int)
    ensures NoNewRows(db, SyncGroups.Register(db, a, quota, d, g, now).0)
  {
    SyncGroups.RegisterPaths(db, a, quota, d, g, now);
    EnrollNoNewRows(db.(accounts := db.accounts[a := Account(quota, 0)]), a, d, g, now);
    hide SyncGroups.Register, SyncGroups.Enroll;
  }

  lemma RedeemRowNoNewRows(db: Db, a: Id, redeemer: Id, c: Id, now: int)
    requires c in db.codes && SessionsOk(db.groups, db.sessions)
    ensures NoNewRows(db, SyncGroups.RedeemCode(db, a, redeemer, c, now).0)
  {
    hide SyncGroups.RedeemCode, SyncGroups.MergeGroups, SessionsOk, Merging.Redeemable, GroupDevices;
    Merging.RedeemPaths(db, a, redeemer, c, now);
    var out := SyncGroups.RedeemCode(db, a, redeemer, c, now).1;
    if out.Ok? && !out.value.alreadyJoined {
      Merging.MergeDevicesAndSessions(db, a, out.value.canonical, out.value.removed.value, out.value.revision, c, now);
    }
  }

  lemma RedeemNoNewRows(db: Db, a: Id, redeemer: Id, mac: Bytes, now: int)
    requires Inv(db)
    ensures NoNewRows(db, SyncGroups.Redeem(db, a, redeemer, mac, now).0)
  {
    Discarding.InvSessions(db);
    hide Inv, SyncGroups.RedeemCode, SessionsOk;
    var c := SyncGroups.RedeemCases(db, a, redeemer, mac, now);
    hide SyncGroups.Redeem;
    if c.Some? { RedeemRowNoNewRows(db, a, redeemer, c.value, now); }
  }

  lemma DiscardNoNewRows(db: Db, a: Id, caller: Id, g: Id, revision: int, now: int)
    requires Inv(db)
    ensures NoNewRows(db, Discarding.DiscardGroups(db, a, caller, g, revision, now).0)
  {
    hide RevisionsOk, ManifestsOk, CodesOk, BlocksOk, ReservationsOk, QuotaOk, GroupsOk, SessionsOk,
         Discarding.OtherDevices, Discarding.OtherGroups, Discarding.OtherSessionBytes, Discarding.OtherBlocks,
         Discarding.Discard;
    if SeesRevision(db, caller, a, g, revision) {
      Discarding.DiscardEffect(db, a, g, now);
    }
  }

  lemma PruneNoNewRows(db: Db, a: Id, D: set<Id>, ids: seq<Digest>, now: int)
    requires Inv(db)
    ensures NoNewRows(db, Release.PruneAll(db, a, D, ids, now))
  {
    Pruning.PruneAllIsOneShot(db, a, D, ids, now);
    hide Inv, Release.PruneAll, Release.Freed, Release.Uncharged, Release.Orphan, Release.SizeOf, Release.Discharge;
  }

  lemma BlockOpsAddNoRows(db: Db, op: Op)
    requires Inv(db) && Frames.TouchesBlocks(op) && !op.Commit?
    ensures NoNewRows(db, Apply(db, op))
  {
    hide Inv, Uploads.Reserve, Collection.Claim, Collection.Finalize, Release.PruneAll, SeesRevision, GroupDevices;
    match op
    case Reserve(r, a, d, b, now) => Uploads.ReservePaths(db, r, a, d, b, |b.data|, now);
    case Cancel(_) =>
    case PruneBatch(a, d, g, revision, blocks, now) => PruneNoNewRows(db, a, GroupDevices(db, a, g), blocks, now);
    case ReleaseBatch(a, blocks, now) => PruneNoNewRows(db, a, {}, blocks, now);
    case Claim(before, now, limit, answer) => Collection.ClaimPaths(db, before, now, limit, answer);
    case Finalize(b) => Collection.FinalizePaths(db, b);
  }

  lemma DocumentsAddNoRows(db: Db, op: Op)
    requires op.PutManifest? || op.PutSession? || op.DeleteSession? || op.ReplaceCode? || op.Revoke?
    ensures NoNewRows(db, Apply(db, op))
  {
    hide SyncGroups.Revoke, SyncGroups.ReplaceCode, Documents.PutManifest, Documents.PutSession,
         Documents.DeleteSession;
    match op
    case Revoke(a, caller, g, target, now) => SyncGroups.RevokePaths(db, a, caller, g, target, now);
    case PutManifest(d, base, ciphertext) => Documents.PutManifestPaths(db, d, base, ciphertext);
    case ReplaceCode(c, row, now) =>
      SyncGroups.ReplaceCodePaths(db, c, row, now);
      assert SyncGroups.ReplaceCode(db, c, row, now).1.Ok? || SyncGroups.ReplaceCode(db, c, row, now).1.Err?;
    case PutSession(a, g, d, s, base, ciphertext, now) =>
      Documents.PutSessionPaths(db, a, g, d, s, base, ciphertext, now);
    case DeleteSession(a, g, d, s, base) => Documents.DeleteSessionPaths(db, a, g, d, s, base);
  }

  /** Only a commit adds a device row. */
  lemma OthersAddNoRows(db: Db, op: Op)
    requires Inv(db) && !op.Commit?
    ensures NoNewRows(db, Apply(db, op))
  {
    hide Inv, NoNewRows, SyncGroups.Register, SyncGroups.Enroll, SyncGroups.Redeem, Discarding.DiscardGroups;
    match op
    case Register(a, quota, d, g, now) => RegisterNoNewRows(db, a, quota, d, g, now);
    case Enroll(a, d, g, now) => EnrollNoNewRows(db, a, d, g, now);
    case Redeem(a, redeemer, mac, now) => RedeemNoNewRows(db, a, redeemer, mac, now);
    case DiscardGroups(a, caller, g, revision, now) => DiscardNoNewRows(db, a, caller, g, revision, now);
    case _ =>
      hide Apply;
      if Frames.TouchesBlocks(op) { BlockOpsAddNoRows(db, op); } else { DocumentsAddNoRows(db, op); }
  }

  lemma CommitRows(db: Db, r: Id, now: int, d: Id, b: Digest)
    ensures var (after, out) := Uploads.Commit(db, r, now);
            && after.devices == db.devices && db.accountBlocks <= after.accountBlocks
            && ((d, b) in after.deviceBlocks <==> (d, b) in db.deviceBlocks || Attaches(db, Commit(r, now), d, b))
  {
    Uploads.CommitPaths(db, r, now);
    hide Uploads.Commit;
    assert Uploads.Commit(db, r, now).1.Ok? || Uploads.Commit(db, r, now).1.Err?;
  }

  /** A device comes to hold a block only by a commit of its own reservation, and never changes its account. */
  lemma NewRowIsCommit(db: Db, op: Op, d: Id, b: Digest)
    requires Inv(db)
    ensures (d, b) in Apply(db, op).deviceBlocks && (d, b) !in db.deviceBlocks ==> Attaches(db, op, d, b)
    ensures d in db.devices ==> d in Apply(db, op).devices && Apply(db, op).devices[d].account == db.devices[d].account
  {
    hide Inv, Apply, Attaches;
    if op.Commit? {
      CommitRows(db, op.reservation, op.now, d, b);
      AppliedCommit(db, op);
    } else {
      OthersAddNoRows(db, op);
    }
  }

  lemma AppliedCommit(db: Db, op: Op)
    requires op.Commit?
    ensures Apply(db, op) == Uploads.Commit(db, op.reservation, op.now).0 && op == Commit(op.reservation, op.now)
  {
    hide Uploads.Commit;
  }

  lemma PruneUncharges(db: Db, x: Id, D: set<Id>, ids: seq<Digest>, now: int, a: Id, b: Digest)
    requires Inv(db) && !(x == a && b in ids) && (a, b) in db.accountBlocks
    ensures (a, b) in Release.PruneAll(db, x, D, ids, now).accountBlocks
  {
    Pruning.PruneAllIsOneShot(db, x, D, ids, now);
    hide Inv, Release.PruneAll, Release.LooseWithout, Release.Orphan, Release.SizeOf, Release.Discharge,
         Release.Detached;
  }

  /** An account is discharged of a block only by a release batch or a prune batch of its own that names the block. */
  lemma ChargeStays(db: Db, op: Op, a: Id, b: Digest)
    requires Inv(db) && (a, b) in db.accountBlocks && !Releases(db, op, a, b)
    ensures (a, b) in Apply(db, op).accountBlocks
  {
    hide Inv, Uploads.Reserve, Uploads.Commit, Collection.Claim, Collection.Finalize, Release.PruneAll, Purge,
         SeesRevision, GroupDevices, Frames.KeepsBlocks, Uploads.Sublist;
    match op
    case Reserve(r, x, d, c, now) =>
      Uploads.ReservePaths(db, r, x, d, c, |c.data|, now);
      Uploads.PurgeKeepsTables(db, now);
    case Cancel(_) =>
    case Commit(r, now) => CommitRows(db, r, now, a, b);
    case PruneBatch(x, d, g, revision, blocks, now) =>
      if SeesRevision(db, d, x, g, revision) { PruneUncharges(db, x, GroupDevices(db, x, g), blocks, now, a, b); }
    case ReleaseBatch(x, blocks, now) => PruneUncharges(db, x, {}, blocks, now, a, b);
    case Claim(before, now, limit, answer) => Collection.ClaimKeepsMarks(db, before, now, limit, answer);
    case Finalize(c) => FinalizeDischargesNobody(db, c);
    case _ => hide Apply; Frames.GroupsFrame(db, op); KeptCharges(db, Apply(db, op));
  }

  lemma LooseIsReleased(db: Db, op: Op, a: Id, b: Digest)
    requires Inv(db) && Release.Loose(db, a, b) && Releases(db, op, a, b)
    ensures (a, b) !in Apply(db, op).accountBlocks
  {
    hide Inv, Release.PruneAll, GroupDevices, SeesRevision;
    var D := if op.PruneBatch? then GroupDevices(db, a, op.group) else {};
    Pruning.PruneAllIsOneShot(db, a, D, op.blocks, op.now);
    LooseIsFreed(db, a, D, Pruning.Elements(op.blocks), op.now, b);
    assert Apply(db, op) == Release.PruneAll(db, a, D, op.blocks, op.now);
    hide Apply, Release.PruneSet, Release.Loose;
  }

  lemma LooseIsFreed(db: Db, a: Id, D: set<Id>, S: set<Digest>, now: int, b: Digest)
    requires Release.Loose(db, a, b) && b in S
    ensures (a, b) !in Release.PruneSet(db, a, D, S, now).accountBlocks
  {
    hide Release.Orphan, Release.SizeOf, Release.Discharge, Release.Detached;
  }

  lemma FinalizeDischargesNobody(db: Db, c: Digest)
    requires Inv(db)
    ensures Collection.Finalize(db, c).0.accountBlocks == db.accountBlocks
  {
    hide Inv, Collection.Finalizable, Collection.DeleteObject;
    Collection.FinalizeEffect(db, c);
  }

  lemma KeptCharges(db: Db, after: Db)
    requires Frames.KeepsBlocks(db, after)
    ensures after.accountBlocks == db.accountBlocks
  {
  }

  /** The operation is a commit that attaches the block for the account. */
  ghost predicate Reattaches(db: Db, op: Op, a: Id, b: Digest) {
    exists d :: InAccount(db, d, a) && Attaches(db, op, d, b)
  }

  // ---- loose blocks ----

  /** A loose block stays loose, and charged, under exactly the operations that neither attach it again nor release
      it. */
  lemma LooseStep(db: Db, op: Op, a: Id, b: Digest)
    requires Inv(db) && Release.Loose(db, a, b)
    ensures Release.Loose(Apply(db, op), a, b) <==> !Releases(db, op, a, b) && !Reattaches(db, op, a, b)
  {
    hide Inv, Apply, Attaches, Releases;
    if Releases(db, op, a, b) {
      LooseIsReleased(db, op, a, b);
    } else if d :| InAccount(db, d, a) && Attaches(db, op, d, b) {
      NewRowIsCommit(db, op, d, b);
      AttachedRow(db, op, d, b);
      assert InAccount(Apply(db, op), d, a);
    } else {
      ChargeStays(db, op, a, b);
      forall d | InAccount(Apply(db, op), d, a) ensures (d, b) !in Apply(db, op).deviceBlocks {
        NewRowIsCommit(db, op, d, b);
        if (d, b) in db.deviceBlocks { RowHasCharge(db, d, b); }
        else if Attaches(db, op, d, b) { AttachesToDevice(db, op, d, b); }
      }
    }
  }

  lemma AttachedRow(db: Db, op: Op, d: Id, b: Digest)
    requires Attaches(db, op, d, b)
    ensures (d, b) in Apply(db, op).deviceBlocks
  {
    hide Attaches, Apply;
    AttachIsCommit(db, op, d, b);
    CommitRows(db, op.reservation, op.now, d, b);
    AppliedCommit(db, op);
  }

  lemma AttachIsCommit(db: Db, op: Op, d: Id, b: Digest)
    requires Attaches(db, op, d, b)
    ensures op.Commit?
  {
  }

  lemma AttachesToDevice(db: Db, op: Op, d: Id, b: Digest)
    requires Inv(db) && Attaches(db, op, d, b)
    ensures d in db.devices
  {
    hide GroupsOk, RevisionsOk, ManifestsOk, CodesOk, SessionsOk, BlocksOk, QuotaOk, Uploads.Commit;
  }

  /** No operation from i up to j attaches the block for the account again or releases it. */
  ghost predicate Forgotten(ops: seq<Op>, i: nat, j: nat, a: Id, b: Digest)
    requires i <= j <= |ops|
  {
    forall m :: i <= m < j ==> !Releases(At(ops, m), ops[m], a, b) && !Reattaches(At(ops, m), ops[m], a, b)
  }

  ghost predicate LooseThroughout(ops: seq<Op>, i: nat, j: nat, a: Id, b: Digest)
    requires i <= j <= |ops|
  {
    forall m :: i <= m <= j ==> Release.Loose(At(ops, m), a, b)
  }

  /** Over any stretch of a run a loose block stays charged to its account and held by nobody exactly until the account
      uploads it again or a release names it. */
  lemma {:induction false} LooseUntilReleased(ops: seq<Op>, i: nat, j: nat, a: Id, b: Digest)
    requires i <= j <= |ops| && Release.Loose(At(ops, i), a, b)
    ensures LooseThroughout(ops, i, j, a, b) <==> Forgotten(ops, i, j, a, b)
    decreases j - i
  {
    hide Inv, At, Apply, Release.Loose, Reattaches, Releases;
    if i < j {
      LooseUntilReleased(ops, i, j - 1, a, b);
      AtInv(ops, j - 1);
      if LooseThroughout(ops, i, j - 1, a, b) {
        LooseStep(At(ops, j - 1), ops[j - 1], a, b);
        Advance(ops, j - 1);
      }
    }
  }

  /** Nothing that starts while a block is loose will name it: it is no candidate of any prune or discard of the
      account. */
  lemma LooseIsNoCandidate(db: Db, a: Id, b: Digest, g: Id, keep: set<Digest>)
    requires Release.Loose(db, a, b)
    ensures b !in Pruning.Candidates(db, a, g, keep) && b !in Discarding.OtherBlocks(db, a, g)
  {
  }

  /** What the first transaction of a discard leaves loose: the blocks of the other groups that its own group does
      not hold. */
  lemma DiscardLeavesLoose(db: Db, a: Id, caller: Id, g: Id, revision: int, now: int, b: Digest)
    requires Inv(db) && b in Discarding.OtherBlocks(db, a, g)
    requires Discarding.DiscardGroups(db, a, caller, g, revision, now).1.Ok?
    ensures Release.Loose(Discarding.DiscardGroups(db, a, caller, g, revision, now).0, a, b) <==> !Visible(db, a, g, b)
  {
    hide Inv, Discarding.OtherSessionBytes, Discarding.Discard, Release.Loose, Visible;
    var d :| d in Discarding.OtherDevices(db, a, g) && (d, b) in db.deviceBlocks;
    GroupsAreOwned(db);
    Discarding.DiscardGroupsEffect(db, a, caller, g, revision, now);
    Discarding.DiscardEffect(db, a, g, now);
    RowHasCharge(db, d, b);
    hide Discarding.DiscardGroups;
    OnlyTheGroupHolds(db, Discarding.DiscardGroups(db, a, caller, g, revision, now).0, a, g, now, b);
  }

  lemma GroupsAreOwned(db: Db)
    requires Inv(db)
    ensures GroupsOk(db.accounts, db.groups, db.devices) && SessionsOk(db.groups, db.sessions)
  {
    hide GroupsOk, RevisionsOk, ManifestsOk, CodesOk, SessionsOk, BlocksOk, ReservationsOk, QuotaOk;
  }

  lemma RowHasCharge(db: Db, d: Id, b: Digest)
    requires Inv(db) && (d, b) in db.deviceBlocks
    ensures d in db.devices && db.devices[d].group.Some? && (db.devices[d].account, b) in db.accountBlocks
  {
    hide GroupsOk, RevisionsOk, ManifestsOk, CodesOk, SessionsOk, ObjectsOk, ReservationsOk, QuotaOk;
  }

  lemma OnlyTheGroupHolds(db: Db, after: Db, a: Id, g: Id, now: int, b: Digest)
    requires Inv(db) && (a, b) in db.accountBlocks && after.accountBlocks == db.accountBlocks
    requires after.devices == Discarding.LoneDevices(db, a, g, now)
    requires after.deviceBlocks == set p | p in db.deviceBlocks && p.0 !in Discarding.OtherDevices(db, a, g)
    ensures Release.Loose(after, a, b) <==> !Visible(db, a, g, b)
  {
    hide Inv;
    if d :| InAccount(after, d, a) && (d, b) in after.deviceBlocks {
      RowHasCharge(db, d, b);
      assert InGroup(db, d, a, g);
    }
    if d :| InGroup(db, d, a, g) && (d, b) in db.deviceBlocks {
      assert InAccount(after, d, a) && (d, b) in after.deviceBlocks;
    }
  }

  /** A discard and its whole clean-up, with nothing in between. */
  ghost function DiscardedWhole(db: Db, a: Id, caller: Id, g: Id, revision: int, now: int): Db {
    Release.PruneSet(Discarding.DiscardGroups(db, a, caller, g, revision, now).0, a, {},
                     Discarding.OtherBlocks(db, a, g), now)
  }

  /** Some device of the account holds the block and is in a group other than g; revoked devices count. */
  ghost predicate HeldElsewhere(db: Db, a: Id, g: Id, b: Digest) {
    exists d :: InAccount(db, d, a) && db.devices[d].group.Some? && db.devices[d].group != Some(g)
                && (d, b) in db.deviceBlocks
  }

  lemma OtherBlocksAreHeldElsewhere(db: Db, a: Id, g: Id, b: Digest)
    ensures b in Discarding.OtherBlocks(db, a, g) <==> HeldElsewhere(db, a, g, b)
  {
    if HeldElsewhere(db, a, g, b) {
      var d :| InAccount(db, d, a) && db.devices[d].group.Some? && db.devices[d].group != Some(g)
               && (d, b) in db.deviceBlocks;
      assert (d, b).1 in Discarding.OtherBlocks(db, a, g);
    }
  }

  /** A discard that runs to its end releases exactly what only the discarded devices held, and leaves no block loose
      that was not loose before. */
  lemma WholeDiscardLeaksNothing(db: Db, a: Id, caller: Id, g: Id, revision: int, now: int, x: Id, b: Digest)
    requires Inv(db) && SeesRevision(db, caller, a, g, revision)
    ensures var after := DiscardedWhole(db, a, caller, g, revision, now);
            && ((x, b) in after.accountBlocks <==>
                  (x, b) in db.accountBlocks && (x == a && HeldElsewhere(db, a, g, b) ==> Visible(db, a, g, b)))
            && (Release.Loose(after, a, b) ==> Release.Loose(db, a, b))
  {
    hide Inv, Discarding.DiscardGroups, Discarding.OtherBlocks, Visible, HeldElsewhere, Discarding.OtherDevices;
    var mid := Discarding.DiscardGroups(db, a, caller, g, revision, now).0;
    Discarding.DiscardOutcome(db, a, caller, g, revision, now);
    OtherBlocksAreHeldElsewhere(db, a, g, b);
    DiscardKeepsCharges(db, a, caller, g, revision, now);
    CleanedCharges(mid, a, Discarding.OtherBlocks(db, a, g), now, x, b);
    if HeldElsewhere(db, a, g, b) {
      DiscardLeavesLoose(db, a, caller, g, revision, now, b);
    } else {
      UnaffectedLoose(db, a, caller, g, revision, now, b);
    }
    hide Release.Loose, Release.PruneSet;
  }

  lemma DiscardKeepsCharges(db: Db, a: Id, caller: Id, g: Id, revision: int, now: int)
    requires Inv(db) && SeesRevision(db, caller, a, g, revision)
    ensures Discarding.DiscardGroups(db, a, caller, g, revision, now).0.accountBlocks == db.accountBlocks
  {
    hide Inv, Discarding.DiscardGroups, Discarding.OnlyGroup, Discarding.OthersKept, Discarding.HasOtherSyncData,
         Discarding.OtherSessionBytes, Discarding.OtherBlocks, Discarding.OtherDevices, SeesRevision;
    Discarding.DiscardIsExact(db, a, caller, g, revision, now);
  }

  /** The clean-up detaches nothing and releases the loose blocks among its candidates. */
  lemma CleanedCharges(db: Db, a: Id, S: set<Digest>, now: int, x: Id, b: Digest)
    ensures var after := Release.PruneSet(db, a, {}, S, now);
            && ((x, b) in after.accountBlocks <==>
                  (x, b) in db.accountBlocks && !(x == a && b in S && Release.Loose(db, a, b)))
            && (Release.Loose(after, a, b) <==> Release.Loose(db, a, b) && b !in S)
  {
    hide Release.Orphan, Release.SizeOf, Release.Discharge;
    assert Release.Detached(db.deviceBlocks, {}, S) == db.deviceBlocks;
    assert Release.LooseWithout(db, a, {}, b) <==> Release.Loose(db, a, b);
    assert forall d :: InAccount(Release.PruneSet(db, a, {}, S, now), d, a) <==> InAccount(db, d, a);
  }

  /** The first transaction makes no other block loose. */
  lemma UnaffectedLoose(db: Db, a: Id, caller: Id, g: Id, revision: int, now: int, b: Digest)
    requires Inv(db) && SeesRevision(db, caller, a, g, revision) && !HeldElsewhere(db, a, g, b)
    ensures Release.Loose(Discarding.DiscardGroups(db, a, caller, g, revision, now).0, a, b) ==> Release.Loose(db, a, b)
  {
    hide Inv, Discarding.OtherSessionBytes, Discarding.Discard, Discarding.OtherGroups, Release.Loose;
    GroupsAreOwned(db);
    Discarding.DiscardEffect(db, a, g, now);
    Discarding.DiscardKeepsAccounts(db, a, g, now);
    if Discarding.OtherDevices(db, a, g) != {} { Discarding.DiscardGroupsEffect(db, a, caller, g, revision, now); }
    var after := Discarding.DiscardGroups(db, a, caller, g, revision, now).0;
    hide Discarding.DiscardGroups;
    StillHeld(db, after, a, g, now, b);
  }

  lemma StillHeld(db: Db, after: Db, a: Id, g: Id, now: int, b: Digest)
    requires Inv(db) && !HeldElsewhere(db, a, g, b) && after.accountBlocks == db.accountBlocks
    requires after == db
          || (after.devices == Discarding.LoneDevices(db, a, g, now)
              && after.deviceBlocks == set p | p in db.deviceBlocks && p.0 !in Discarding.OtherDevices(db, a, g))
    ensures Release.Loose(after, a, b) ==> Release.Loose(db, a, b)
  {
    hide Inv;
    if d :| InAccount(db, d, a) && (d, b) in db.deviceBlocks {
      RowHasCharge(db, d, b);
      assert InAccount(after, d, a) && (d, b) in after.deviceBlocks;
    }
  }

  /** A discard that stops before its clean-up leaks: every block that only the discarded groups held stays charged,
      held by no device, through any operations that neither upload it again for the account nor release it. By
      LooseIsNoCandidate no prune or discard that starts meanwhile names it, a repeated discard included. */
  lemma StoppedDiscardLeaks(ops: seq<Op>, i: nat, j: nat, b: Digest)
    requires i < j <= |ops| && ops[i].DiscardGroups?
    ensures var op, db, later := ops[i], At(ops, i), At(ops, j);
            && Discarding.DiscardGroups(db, op.account, op.caller, op.group, op.revision, op.now).1.Ok?
            && HeldElsewhere(db, op.account, op.group, b) && !Visible(db, op.account, op.group, b)
            && Forgotten(ops, i + 1, j, op.account, b) ==>
              && (op.account, b) in later.accountBlocks && !HeldByDevice(later, op.account, b)
              && op.account in later.accounts && |b.data| <= later.accounts[op.account].used
  {
    hide Inv, At, Forgotten, Discarding.DiscardGroups, Discarding.OtherBlocks, Visible, HeldElsewhere;
    var op, db, a := ops[i], At(ops, i), ops[i].account;
    if && Discarding.DiscardGroups(db, a, op.caller, op.group, op.revision, op.now).1.Ok?
       && HeldElsewhere(db, a, op.group, b) && !Visible(db, a, op.group, b)
       && Forgotten(ops, i + 1, j, a, b) {
      OtherBlocksAreHeldElsewhere(db, a, op.group, b);
      AtInv(ops, i);
      Advance(ops, i);
      DiscardLeavesLoose(db, a, op.caller, op.group, op.revision, op.now, b);
      LooseUntilReleased(ops, i + 1, j, a, b);
      AtInv(ops, j);
      ChargedIsPaid(At(ops, j), a, b);
    }
  }

  lemma ChargedIsPaid(db: Db, a: Id, b: Digest)
    requires Inv(db) && (a, b) in db.accountBlocks
    ensures a in db.accounts && |b.data| <= db.accounts[a].used
  {
    hide GroupsOk, RevisionsOk, ManifestsOk, CodesOk, SessionsOk, BlocksOk, ReservationsOk, QuotaOk;
    Release.LooseBlock(db, a, b);
    Release.ChargedBlockFits(db, a, b);
  }
}
