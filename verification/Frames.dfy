/** Which tables an operation leaves alone. */
module Frames {
  import opened Tables
  import opened Machine
  import Uploads
  import SyncGroups
  import Merging
  import Release
  import Discarding
  import Collection
  import Documents

  predicate TouchesBlocks(op: Op) {
    op.Reserve? || op.Cancel? || op.Commit? || op.PruneBatch? || op.ReleaseBatch? || op.Claim? || op.Finalize?
  }

  predicate KeepsGroups(db: Db, after: Db) {
    && after.groups == db.groups && after.devices == db.devices && after.codes == db.codes
    && after.heads == db.heads && after.manifests == db.manifests && after.sessions == db.sessions
  }

  ghost predicate KeepsBlocks(db: Db, after: Db) {
    && after.objects == db.objects && after.accountBlocks == db.accountBlocks
    && Uploads.Sublist(after.reservations, db.reservations)
  }

  lemma ReserveFrame(db: Db, r: Id, a: Id, d: Id, b: Digest, size: nat, now: int)
    ensures KeepsGroups(db, Uploads.Reserve(db, r, a, d, b, size, now).0)
  {
    Uploads.ReservePaths(db, r, a, d, b, size, now);
    hide Uploads.Reserve;
  }

  lemma CommitFrame(db: Db, r: Id, now: int)
    ensures KeepsGroups(db, Uploads.Commit(db, r, now).0)
  {
    Uploads.CommitPaths(db, r, now);
    hide Uploads.Commit;
    assert Uploads.Commit(db, r, now).1.Ok? || Uploads.Commit(db, r, now).1.Err?;
  }

  lemma CollectFrame(db: Db, before: int, now: int, limit: int, answer: set<Digest>, b: Digest)
    ensures KeepsGroups(db, Collection.Claim(db, before, now, limit, answer))
    ensures KeepsGroups(db, Collection.Finalize(db, b).0)
  {
    Collection.ClaimPaths(db, before, now, limit, answer);
    Collection.FinalizePaths(db, b);
    hide Collection.Claim, Collection.Finalize;
  }

  lemma PruneFrame(db: Db, a: Id, d: Id, g: Id, revision: int, ids: seq<Digest>, now: int)
    ensures KeepsGroups(db, Release.PruneBatch(db, a, d, g, revision, ids, now).0)
    ensures KeepsGroups(db, Release.ReleaseAll(db, a, ids, now))
  {
    Release.PruneAllFrame(db, a, GroupDevices(db, a, g), ids, now);
    Release.PruneAllFrame(db, a, {}, ids, now);
    hide Release.PruneAll, GroupDevices, InGroup;
  }

  lemma BlocksFrame(db: Db, op: Op)
    requires TouchesBlocks(op)
    ensures KeepsGroups(db, Apply(db, op))
  {
    hide KeepsGroups, Uploads.Reserve, Uploads.Commit, Collection.Claim, Collection.Finalize, Release.PruneBatch,
         Release.ReleaseAll, Uploads.Cancel;
    match op
    case Reserve(r, a, d, b, now) => ReserveFrame(db, r, a, d, b, |b.data|, now);
    case Cancel(r) => CancelFrame(db, r);
    case Commit(r, now) => CommitFrame(db, r, now);
    case PruneBatch(a, d, g, revision, blocks, now) => PruneFrame(db, a, d, g, revision, blocks, now);
    case ReleaseBatch(a, blocks, now) => PruneFrame(db, a, a, a, 0, blocks, now);
    case Claim(before, now, limit, answer) => CollectFrame(db, before, now, limit, answer, Sha256([]));
    case Finalize(b) => CollectFrame(db, 0, 0, 0, {}, b);
  }

  lemma CancelFrame(db: Db, r: Id)
    ensures KeepsGroups(db, Uploads.Cancel(db, r))
  {
  }

  lemma RegisterFrame(db: Db, a: Id, quota: int, d: Id, g: Id, now: int)
    ensures KeepsBlocks(db, SyncGroups.Register(db, a, quota, d, g, now).0)
    ensures KeepsBlocks(db, SyncGroups.Enroll(db, a, d, g, now).0)
  {
    var created := db.(accounts := db.accounts[a := Account(quota, 0)]);
    SyncGroups.RegisterPaths(db, a, quota, d, g, now);
    SyncGroups.EnrollPaths(created, a, d, g, now);
    SyncGroups.EnrollPaths(db, a, d, g, now);
    hide SyncGroups.Register, SyncGroups.Enroll;
    assert SyncGroups.Enroll(db, a, d, g, now).1.Ok? || SyncGroups.Enroll(db, a, d, g, now).1.Err?;
  }

  lemma RevokeFrame(db: Db, a: Id, caller: Id, g: Id, target: Id, now: int)
    ensures KeepsBlocks(db, SyncGroups.Revoke(db, a, caller, g, target, now).0)
    ensures SyncGroups.SameLabels(db.devices, SyncGroups.Revoke(db, a, caller, g, target, now).0.devices)
    ensures SyncGroups.Revoke(db, a, caller, g, target, now).0.groups == db.groups
  {
    SyncGroups.RevokePaths(db, a, caller, g, target, now);
    hide SyncGroups.Revoke;
  }

  lemma ReplaceCodeFrame(db: Db, c: Id, row: Code, now: int)
    ensures var after := SyncGroups.ReplaceCode(db, c, row, now).0;
            KeepsGroups(db.(codes := after.codes), after) && KeepsBlocks(db, after)
  {
    SyncGroups.ReplaceCodePaths(db, c, row, now);
    hide SyncGroups.ReplaceCode, SyncGroups.ExpireCodes;
    assert SyncGroups.ReplaceCode(db, c, row, now).1.Ok? || SyncGroups.ReplaceCode(db, c, row, now).1.Err?;
  }

  lemma MergeGroupsFrame(db: Db, a: Id, winner: Id, loser: Id, revision: int, c: Id, now: int)
    requires c in db.codes && winner in db.groups
    ensures var after := SyncGroups.MergeGroups(db, a, winner, loser, revision, c, now);
            KeepsBlocks(db, after) && after.heads == db.heads && after.manifests == db.manifests
            && after.devices.Keys == db.devices.Keys
  {
    hide SyncGroups.MoveCodes, SyncGroups.MoveSessions, SyncGroups.ConsumeCode;
  }

  lemma RedeemCodeFrame(db: Db, a: Id, redeemer: Id, c: Id, now: int)
    requires c in db.codes
    ensures var after := SyncGroups.RedeemCode(db, a, redeemer, c, now).0;
            KeepsBlocks(db, after) && after.heads == db.heads && after.manifests == db.manifests
            && after.devices.Keys == db.devices.Keys
  {
    Merging.RedeemPaths(db, a, redeemer, c, now);
    hide SyncGroups.RedeemCode, Merging.Redeemable, Merging.MergeReady, SyncGroups.MergeGroups, GroupDevices,
         SyncGroups.ConsumeCode;
    var out := SyncGroups.RedeemCode(db, a, redeemer, c, now).1;
    if out.Ok? && !out.value.alreadyJoined {
      hide KeepsBlocks;
      MergeReadyParts(db, a, out.value.canonical, out.value.removed.value, c);
      MergeGroupsFrame(db, a, out.value.canonical, out.value.removed.value, out.value.revision, c, now);
    }
  }

  lemma MergeReadyParts(db: Db, a: Id, winner: Id, loser: Id, c: Id)
    requires Merging.MergeReady(db, a, winner, loser, c)
    ensures winner in db.groups && c in db.codes
  {
  }

  lemma RedeemFrame(db: Db, a: Id, redeemer: Id, mac: Bytes, now: int)
    ensures var after := SyncGroups.Redeem(db, a, redeemer, mac, now).0;
            KeepsBlocks(db, after) && after.heads == db.heads && after.manifests == db.manifests
            && after.devices.Keys == db.devices.Keys
  {
    hide SyncGroups.RedeemCode;
    var c := SyncGroups.RedeemCases(db, a, redeemer, mac, now);
    hide SyncGroups.Redeem;
    if c.Some? { RedeemCodeFrame(db, a, redeemer, c.value, now); }
  }

  lemma DiscardFrame(db: Db, a: Id, caller: Id, g: Id, revision: int, now: int)
    ensures KeepsBlocks(db, Discarding.DiscardGroups(db, a, caller, g, revision, now).0)
  {
    hide Discarding.OtherDevices, Discarding.OtherBlocks, Discarding.OtherSessionBytes, Discarding.OtherGroups,
         Discarding.RevokeAll;
  }

  lemma PutManifestFrame(db: Db, d: Id, base: int, ciphertext: Bytes)
    ensures var after := Documents.PutManifest(db, d, base, ciphertext).0;
            KeepsBlocks(db, after) && KeepsGroups(db.(heads := after.heads, manifests := after.manifests), after)
  {
    Documents.PutManifestPaths(db, d, base, ciphertext);
    hide Documents.PutManifest;
  }

  lemma PutSessionFrame(db: Db, a: Id, g: Id, d: Id, s: string, base: int, ciphertext: Bytes, now: int)
    ensures var after := Documents.PutSession(db, a, g, d, s, base, ciphertext, now).0;
            KeepsBlocks(db, after) && KeepsGroups(db.(sessions := after.sessions), after)
  {
    Documents.PutSessionPaths(db, a, g, d, s, base, ciphertext, now);
    hide Documents.PutSession;
  }

  lemma DeleteSessionFrame(db: Db, a: Id, g: Id, d: Id, s: string, base: int)
    ensures var after := Documents.DeleteSession(db, a, g, d, s, base).0;
            KeepsBlocks(db, after) && KeepsGroups(db.(sessions := after.sessions), after)
  {
    Documents.DeleteSessionPaths(db, a, g, d, s, base);
    hide Documents.DeleteSession;
  }

  lemma GroupsFrame(db: Db, op: Op)
    requires !TouchesBlocks(op)
    ensures KeepsBlocks(db, Apply(db, op))
  {
    hide KeepsBlocks, KeepsGroups, SyncGroups.Register, SyncGroups.Enroll, SyncGroups.Revoke, SyncGroups.ReplaceCode,
         SyncGroups.Redeem, Discarding.DiscardGroups, Documents.PutManifest, Documents.PutSession,
         Documents.DeleteSession;
    match op
    case Register(a, quota, d, g, now) => RegisterFrame(db, a, quota, d, g, now);
    case Enroll(a, d, g, now) => RegisterFrame(db, a, 0, d, g, now);
    case Revoke(a, caller, g, target, now) => RevokeFrame(db, a, caller, g, target, now);
    case ReplaceCode(c, row, now) => ReplaceCodeFrame(db, c, row, now);
    case Redeem(a, redeemer, mac, now) => RedeemFrame(db, a, redeemer, mac, now);
    case DiscardGroups(a, caller, g, revision, now) => DiscardFrame(db, a, caller, g, revision, now);
    case PutManifest(d, base, ciphertext) => PutManifestFrame(db, d, base, ciphertext);
    case PutSession(a, g, d, s, base, ciphertext, now) => PutSessionFrame(db, a, g, d, s, base, ciphertext, now);
    case DeleteSession(a, g, d, s, base) => DeleteSessionFrame(db, a, g, d, s, base);
  }

  predicate Regroups(op: Op) {
    op.Register? || op.Enroll? || op.Redeem? || op.DiscardGroups?
  }

  /** Groups and the labels of devices: what only enrolment, redemption and discard change. */
  ghost predicate SameGrouping(db: Db, after: Db) {
    after.groups == db.groups && SyncGroups.SameLabels(db.devices, after.devices)
  }

  lemma OthersGrouping(db: Db, op: Op)
    requires !Regroups(op)
    ensures SameGrouping(db, Apply(db, op))
  {
    hide KeepsBlocks, SyncGroups.Revoke, SyncGroups.ReplaceCode, Documents.PutManifest, Documents.PutSession,
         Documents.DeleteSession;
    match op
    case Revoke(a, caller, g, target, now) => RevokeFrame(db, a, caller, g, target, now);
    case ReplaceCode(c, row, now) => ReplaceCodeFrame(db, c, row, now);
    case PutManifest(d, base, ciphertext) => PutManifestFrame(db, d, base, ciphertext);
    case PutSession(a, g, d, s, base, ciphertext, now) => PutSessionFrame(db, a, g, d, s, base, ciphertext, now);
    case DeleteSession(a, g, d, s, base) => DeleteSessionFrame(db, a, g, d, s, base);
    case _ => hide Apply; BlocksFrame(db, op);
  }

  lemma OthersKeepCodes(db: Db, op: Op)
    requires !op.Redeem? && !op.DiscardGroups? && !op.ReplaceCode?
    ensures Apply(db, op).codes == db.codes
  {
    hide KeepsBlocks, Documents.PutManifest, Documents.PutSession, Documents.DeleteSession, SyncGroups.Register,
         SyncGroups.Enroll, SyncGroups.Revoke;
    match op
    case PutManifest(d, base, ciphertext) => PutManifestFrame(db, d, base, ciphertext);
    case PutSession(a, g, d, s, base, ciphertext, now) => PutSessionFrame(db, a, g, d, s, base, ciphertext, now);
    case DeleteSession(a, g, d, s, base) => DeleteSessionFrame(db, a, g, d, s, base);
    case Register(a, quota, d, g, now) =>
      SyncGroups.RegisterPaths(db, a, quota, d, g, now);
      SyncGroups.EnrollPaths(db.(accounts := db.accounts[a := Account(quota, 0)]), a, d, g, now);
    case Enroll(a, d, g, now) =>
      SyncGroups.EnrollPaths(db, a, d, g, now);
      assert SyncGroups.Enroll(db, a, d, g, now).1.Ok? || SyncGroups.Enroll(db, a, d, g, now).1.Err?;
    case Revoke(a, caller, g, target, now) => SyncGroups.RevokePaths(db, a, caller, g, target, now);
    case _ => hide Apply; BlocksFrame(db, op);
  }
}
