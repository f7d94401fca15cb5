/** Manifest rows and heads are an append-only log per device, over any run. */
module ManifestLog {
  import opened Tables
  import opened Integrity
  import opened Machine
  import opened Documents
  import SyncGroups
  import Discarding
  import Frames

  /** In every state the stored versions of a device are exactly 1 up to its head, and the devices with a log are
      those in a group. */
  lemma VersionsAreContiguous(ops: seq<Op>, d: Id, v: int)
    ensures var db := Run(EMPTY_DB, ops);
            && ((d, v) in db.manifests <==> d in db.heads && 1 <= v <= db.heads[d])
            && (d in db.heads <==> d in db.devices && db.devices[d].group.Some?)
  {
    hide Inv, Run;
    RunInv(ops);
    InvManifests(Run(EMPTY_DB, ops));
  }

  lemma InvManifests(db: Db)
    requires Inv(db)
    ensures ManifestsOk(db.devices, db.heads, db.manifests)
  {
    hide GroupsOk, RevisionsOk, ManifestsOk, CodesOk, SessionsOk, BlocksOk, ReservationsOk, QuotaOk;
  }

  /** Every answer to a write in a reachable state. The insert never collides, and a stale base is a conflict that tells
      the head, unless it is the retry of exactly the last accepted ciphertext. Only an accepted write changes
      anything. */
  lemma PutManifestOutcome(db: Db, d: Id, base: int, ciphertext: Bytes)
    requires Inv(db)
    ensures var (after, out) := Documents.PutManifest(db, d, base, ciphertext);
            && (d in db.heads <==> d in db.devices && db.devices[d].group.Some?)
            && out == (if d !in db.heads then Err(NoRow)
                       else if !db.devices[d].active then Err(InactiveDevice)
                       else if base == db.heads[d] then Ok(Documents.ManifestPut(base + 1, base + 1, false, false))
                       else if IsRetry(db, d, base, ciphertext)
                       then Ok(Documents.ManifestPut(base + 1, base + 1, false, true))
                       else Ok(Documents.ManifestPut(0, db.heads[d], true, false)))
            && (out.Ok? && base == db.heads[d] ==> Accepted(db, after, d, base, ciphertext))
            && (!(out.Ok? && base == db.heads[d]) ==> after == db)
  {
    hide GroupsOk, RevisionsOk, CodesOk, SessionsOk, BlocksOk, ReservationsOk, QuotaOk;
  }

  /** The ciphertext is the one that base + 1, the current head, already holds. */
  predicate IsRetry(db: Db, d: Id, base: int, ciphertext: Bytes)
    requires d in db.heads
  {
    base + 1 == db.heads[d] && (d, base + 1) in db.manifests && db.manifests[(d, base + 1)].ciphertext == ciphertext
  }

  /** The write went in as version base + 1 and touched nothing else. */
  predicate Accepted(db: Db, after: Db, d: Id, base: int, ciphertext: Bytes) {
    && d in db.heads && db.heads[d] == base
    && after == db.(manifests := db.manifests[(d, base + 1) := Manifest(ciphertext, Sha256(ciphertext))],
                    heads := db.heads[d := base + 1])
  }

  /** An immediate retry of the write just accepted answers with its version and changes nothing. */
  lemma RetryIsIdempotent(db: Db, d: Id, base: int, ciphertext: Bytes)
    requires Inv(db) && Documents.PutManifest(db, d, base, ciphertext).1.Ok?
    requires Documents.PutManifest(db, d, base, ciphertext).0 != db
    ensures var after := Documents.PutManifest(db, d, base, ciphertext).0;
            Documents.PutManifest(after, d, base, ciphertext)
            == (after, Ok(ManifestPut(base + 1, base + 1, false, true)))
  {
    hide GroupsOk, RevisionsOk, CodesOk, SessionsOk, BlocksOk, ReservationsOk, QuotaOk;
  }

  // ---- append-only ----

  /** The log of d has only grown, or d has lost it for good. */
  ghost predicate LogGrows(db: Db, after: Db, d: Id) {
    d in db.devices ==>
      && d in after.devices
      && (d in after.heads ==>
            && d in db.heads && db.heads[d] <= after.heads[d]
            && forall v :: (d, v) in db.manifests ==>
                 (d, v) in after.manifests && after.manifests[(d, v)] == db.manifests[(d, v)])
  }

  lemma LogGrowsTrans(x: Db, y: Db, z: Db, d: Id)
    requires LogGrows(x, y, d) && LogGrows(y, z, d)
    ensures LogGrows(x, z, d)
  {
  }

  lemma PutManifestGrows(db: Db, x: Id, base: int, ciphertext: Bytes, d: Id)
    ensures LogGrows(db, Documents.PutManifest(db, x, base, ciphertext).0, d)
  {
  }

  lemma DiscardGrows(db: Db, a: Id, caller: Id, g: Id, revision: int, now: int, d: Id)
    ensures LogGrows(db, Discarding.DiscardGroups(db, a, caller, g, revision, now).0, d)
  {
    DiscardLogs(db, a, g, now);
    hide Discarding.OtherDevices, Discarding.OtherBlocks, Discarding.OtherSessionBytes, Discarding.Discard,
         SeesRevision;
  }

  lemma DiscardLogs(db: Db, a: Id, g: Id, now: int)
    ensures var after, gone := Discarding.Discard(db, a, g, now), Discarding.OtherDevices(db, a, g);
            && after.devices.Keys == db.devices.Keys && after.heads == db.heads - gone
            && after.manifests == map k | k in db.manifests && k.0 !in gone :: db.manifests[k]
  {
    hide Discarding.OtherDevices, Discarding.OtherGroups;
  }

  predicate Untouched(db: Db, after: Db) {
    after.heads == db.heads && after.manifests == db.manifests && after.devices.Keys == db.devices.Keys
  }

  lemma EnrollGrows(db: Db, op: Op, d: Id)
    requires op.Register? || op.Enroll?
    ensures LogGrows(db, Apply(db, op), d)
  {
    hide SyncGroups.Register, SyncGroups.Enroll;
    match op
    case Register(a, quota, x, g, now) =>
      SyncGroups.RegisterPaths(db, a, quota, x, g, now);
      SyncGroups.EnrollPaths(db.(accounts := db.accounts[a := Account(quota, 0)]), a, x, g, now);
    case Enroll(a, x, g, now) =>
      SyncGroups.EnrollPaths(db, a, x, g, now);
      assert SyncGroups.Enroll(db, a, x, g, now).1.Ok? || SyncGroups.Enroll(db, a, x, g, now).1.Err?;
  }

  lemma StepGrows(db: Db, op: Op, d: Id)
    ensures LogGrows(db, Apply(db, op), d)
  {
    hide LogGrows, Frames.KeepsBlocks, Documents.PutSession, Documents.DeleteSession, SyncGroups.ReplaceCode,
         SyncGroups.Revoke, SyncGroups.Redeem, Documents.PutManifest, Discarding.DiscardGroups;
    match op
    case PutManifest(x, base, ciphertext) => PutManifestGrows(db, x, base, ciphertext, d);
    case DiscardGroups(a, caller, g, revision, now) => DiscardGrows(db, a, caller, g, revision, now, d);
    case Register(_, _, _, _, _) => EnrollGrows(db, op, d); hide Apply;
    case Enroll(_, _, _, _) => EnrollGrows(db, op, d); hide Apply;
    case Redeem(a, redeemer, mac, now) =>
      Frames.RedeemFrame(db, a, redeemer, mac, now);
      UntouchedGrows(db, Apply(db, op), d);
    case ReplaceCode(c, row, now) => Frames.ReplaceCodeFrame(db, c, row, now); UntouchedGrows(db, Apply(db, op), d);
    case PutSession(a, g, x, s, base, ciphertext, now) =>
      Frames.PutSessionFrame(db, a, g, x, s, base, ciphertext, now);
      UntouchedGrows(db, Apply(db, op), d);
    case DeleteSession(a, g, x, s, base) =>
      Frames.DeleteSessionFrame(db, a, g, x, s, base);
      UntouchedGrows(db, Apply(db, op), d);
    case Revoke(a, caller, g, target, now) =>
      RevokeUntouched(db, a, caller, g, target, now);
      UntouchedGrows(db, Apply(db, op), d);
    case _ =>
      hide Apply;
      Frames.BlocksFrame(db, op);
      UntouchedGrows(db, Apply(db, op), d);
  }

  lemma RevokeUntouched(db: Db, a: Id, caller: Id, g: Id, target: Id, now: int)
    ensures Untouched(db, SyncGroups.Revoke(db, a, caller, g, target, now).0)
  {
    SyncGroups.RevokePaths(db, a, caller, g, target, now);
    hide SyncGroups.Revoke;
  }

  lemma UntouchedGrows(db: Db, after: Db, d: Id)
    requires Untouched(db, after)
    ensures LogGrows(db, after, d)
  {
  }

  lemma {:induction false} RunGrows(db: Db, ops: seq<Op>, d: Id)
    ensures LogGrows(db, Run(db, ops), d)
    decreases |ops|
  {
    if ops != [] {
      hide LogGrows, Apply;
      var before := ops[..|ops| - 1];
      RunGrows(db, before, d);
      StepGrows(Run(db, before), ops[|ops| - 1], d);
      LogGrowsTrans(db, Run(db, before), Run(db, ops), d);
    }
  }

  /** Operation i of the run is a write that went in as version base + 1 of d. */
  ghost predicate AcceptedAt(ops: seq<Op>, i: nat, d: Id, base: int)
    requires i < |ops|
  {
    && ops[i].PutManifest? && ops[i].device == d && ops[i].base == base
    && Accepted(Run(EMPTY_DB, ops[..i]), Apply(Run(EMPTY_DB, ops[..i]), ops[i]), d, base, ops[i].ciphertext)
  }

  lemma AcceptedStays(db: Db, d: Id, base: int, ciphertext: Bytes, ops: seq<Op>)
    requires Inv(db) && Accepted(db, Documents.PutManifest(db, d, base, ciphertext).0, d, base, ciphertext)
    ensures var later := Run(Documents.PutManifest(db, d, base, ciphertext).0, ops);
            d in later.heads ==>
              && base < later.heads[d]
              && (d, base + 1) in later.manifests && later.manifests[(d, base + 1)].ciphertext == ciphertext
  {
    hide Inv, Documents.PutManifest;
    var after := Documents.PutManifest(db, d, base, ciphertext).0;
    RunGrows(after, ops, d);
    hide Run;
    assert d in db.devices by { HeadHasDevice(db, d); }
    assert (d, base + 1) in after.manifests;
  }

  /** Over any run each base version of a device accepts at most one write, and as long as the device keeps its log the
      version that write created keeps its ciphertext. */
  lemma BaseAcceptedOnce(ops: seq<Op>, i: nat, j: nat, d: Id, base: int)
    requires i < j < |ops|
    ensures AcceptedAt(ops, i, d, base) ==>
              && !AcceptedAt(ops, j, d, base)
              && var later := Run(EMPTY_DB, ops[..j]);
                 d in later.heads ==>
                   (d, base + 1) in later.manifests && later.manifests[(d, base + 1)].ciphertext == ops[i].ciphertext
  {
    hide Inv, Run, Documents.PutManifest;
    if AcceptedAt(ops, i, d, base) {
      RunInv(ops[..i]);
      RunBetween(EMPTY_DB, ops, i, j);
      AcceptedStays(Run(EMPTY_DB, ops[..i]), d, base, ops[i].ciphertext, ops[i + 1..j]);
    }
  }

  lemma HeadHasDevice(db: Db, d: Id)
    requires Inv(db) && d in db.heads
    ensures d in db.devices
  {
    hide GroupsOk, RevisionsOk, CodesOk, SessionsOk, BlocksOk, ReservationsOk, QuotaOk;
  }
}
