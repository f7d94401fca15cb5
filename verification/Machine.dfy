/** The store as a state machine: one operation is one transaction; a run is any sequence of them, with any
    arguments. Calls that span several transactions appear as their transactions, so every interleaving and every
    stop part way is a run. */
module Machine {
  import opened Tables
  import opened Integrity
  import Uploads
  import SyncGroups
  import Merging
  import Release
  import Discarding
  import Collection
  import Documents

  datatype Op =
    | Register(account: Id, quota: int, device: Id, group: Id, now: int)
    | Enroll(account: Id, device: Id, group: Id, now: int)
    | Revoke(account: Id, caller: Id, group: Id, target: Id, now: int)
    | PutManifest(device: Id, base: int, ciphertext: Bytes)
    | ReplaceCode(code: Id, row: Code, now: int)
    | Redeem(account: Id, redeemer: Id, mac: Bytes, now: int)
    | PutSession(account: Id, group: Id, device: Id, session: string, base: int, ciphertext: Bytes, now: int)
    | DeleteSession(account: Id, group: Id, device: Id, session: string, base: int)
    | Reserve(reservation: Id, account: Id, device: Id, block: Digest, now: int)
    | Cancel(reservation: Id)
    | Commit(reservation: Id, now: int)
    | PruneBatch(account: Id, device: Id, group: Id, revision: int, blocks: seq<Digest>, now: int)
    | DiscardGroups(account: Id, caller: Id, group: Id, revision: int, now: int)
    | ReleaseBatch(account: Id, blocks: seq<Digest>, now: int)
    | Claim(before: int, now: int, limit: int, answer: set<Digest>)
    | Finalize(block: Digest)

  ghost function Apply(db: Db, op: Op): Db {
    match op
    case Register(a, quota, d, g, now) => SyncGroups.Register(db, a, quota, d, g, now).0
    case Enroll(a, d, g, now) => SyncGroups.Enroll(db, a, d, g, now).0
    case Revoke(a, caller, g, target, now) => SyncGroups.Revoke(db, a, caller, g, target, now).0
    case PutManifest(d, base, ciphertext) => Documents.PutManifest(db, d, base, ciphertext).0
    case ReplaceCode(c, row, now) => SyncGroups.ReplaceCode(db, c, row, now).0
    case Redeem(a, redeemer, mac, now) => SyncGroups.Redeem(db, a, redeemer, mac, now).0
    case PutSession(a, g, d, s, base, ciphertext, now) => Documents.PutSession(db, a, g, d, s, base, ciphertext, now).0
    case DeleteSession(a, g, d, s, base) => Documents.DeleteSession(db, a, g, d, s, base).0
    case Reserve(r, a, d, b, now) => Uploads.Reserve(db, r, a, d, b, |b.data|, now).0
    case Cancel(r) => Uploads.Cancel(db, r)
    case Commit(r, now) => Uploads.Commit(db, r, now).0
    case PruneBatch(a, d, g, revision, blocks, now) => Release.PruneBatch(db, a, d, g, revision, blocks, now).0
    case DiscardGroups(a, caller, g, revision, now) => Discarding.DiscardGroups(db, a, caller, g, revision, now).0
    case ReleaseBatch(a, blocks, now) => Release.ReleaseAll(db, a, blocks, now)
    case Claim(before, now, limit, answer) => Collection.Claim(db, before, now, limit, answer)
    case Finalize(b) => Collection.Finalize(db, b).0
  }

  ghost function Run(db: Db, ops: seq<Op>): Db
    decreases |ops|
  {
    if ops == [] then db else Apply(Run(db, ops[..|ops| - 1]), ops[|ops| - 1])
  }

  lemma ApplyKeepsInv(db: Db, op: Op)
    requires Inv(db)
    ensures Inv(Apply(db, op))
  {
    hide Inv;
    match op
    case Register(a, quota, d, g, now) => SyncGroups.RegisterKeepsInv(db, a, quota, d, g, now);
    case Enroll(a, d, g, now) => SyncGroups.EnrollKeepsInv(db, a, d, g, now);
    case Revoke(a, caller, g, target, now) => SyncGroups.RevokeKeepsInv(db, a, caller, g, target, now);
    case PutManifest(d, base, ciphertext) => Documents.PutManifestKeepsInv(db, d, base, ciphertext);
    case ReplaceCode(c, row, now) => SyncGroups.ReplaceCodeKeepsInv(db, c, row, now);
    case Redeem(a, redeemer, mac, now) => Merging.RedeemKeepsInv(db, a, redeemer, mac, now);
    case PutSession(a, g, d, s, base, ciphertext, now) =>
      Documents.PutSessionKeepsInv(db, a, g, d, s, base, ciphertext, now);
    case DeleteSession(a, g, d, s, base) => Documents.DeleteSessionKeepsInv(db, a, g, d, s, base);
    case Reserve(r, a, d, b, now) => Uploads.ReserveKeepsInv(db, r, a, d, b, now);
    case Cancel(r) => Uploads.CancelKeepsInv(db, r);
    case Commit(r, now) => Uploads.CommitKeepsInv(db, r, now);
    case PruneBatch(a, d, g, revision, blocks, now) => Release.PruneBatchKeepsInv(db, a, d, g, revision, blocks, now);
    case DiscardGroups(a, caller, g, revision, now) =>
      Discarding.DiscardGroupsKeepsInv(db, a, caller, g, revision, now);
    case ReleaseBatch(a, blocks, now) => Release.PruneAllKeepsInv(db, a, {}, blocks, now);
    case Claim(before, now, limit, answer) => Collection.ClaimKeepsInv(db, before, now, limit, answer);
    case Finalize(b) => Collection.FinalizeKeepsInv(db, b);
  }

  lemma {:induction false} RunKeepsInv(db: Db, ops: seq<Op>)
    requires Inv(db)
    ensures Inv(Run(db, ops))
    decreases |ops|
  {
    hide Inv, Apply;
    if ops != [] {
      RunKeepsInv(db, ops[..|ops| - 1]);
      ApplyKeepsInv(Run(db, ops[..|ops| - 1]), ops[|ops| - 1]);
    }
  }

  lemma {:induction false} RunAppend(db: Db, xs: seq<Op>, ys: seq<Op>)
    ensures Run(db, xs + ys) == Run(Run(db, xs), ys)
    decreases |ys|
  {
    if ys == [] {
      assert xs + ys == xs;
    } else {
      var rest := ys[..|ys| - 1];
      assert (xs + ys)[..|xs + ys| - 1] == xs + rest;
      RunAppend(db, xs, rest);
    }
  }

  /** The state before operation j is reached from the state after operation i by the operations in between. */
  lemma RunBetween(db: Db, ops: seq<Op>, i: nat, j: nat)
    requires i < j < |ops|
    ensures Run(db, ops[..j]) == Run(Apply(Run(db, ops[..i]), ops[i]), ops[i + 1..j])
  {
    hide Apply;
    assert ops[..j] == ops[..i + 1] + ops[i + 1..j];
    RunAppend(db, ops[..i + 1], ops[i + 1..j]);
    assert ops[..i + 1][..i] == ops[..i];
  }

  lemma EmptyInv()
    ensures Inv(EMPTY_DB)
  {
  }

  /** Every state of every run satisfies the invariant. */
  lemma RunInv(ops: seq<Op>)
    ensures Inv(Run(EMPTY_DB, ops))
  {
    EmptyInv();
    hide Inv, Run;
    RunKeepsInv(EMPTY_DB, ops);
  }

  /** The state of a run from the empty store before operation i. */
  ghost function At(ops: seq<Op>, i: nat): Db
    requires i <= |ops|
  {
    Run(EMPTY_DB, ops[..i])
  }

  lemma Advance(ops: seq<Op>, i: nat)
    requires i < |ops|
    ensures At(ops, i + 1) == Apply(At(ops, i), ops[i])
  {
    hide Apply;
    assert ops[..i + 1][..i] == ops[..i];
  }

  lemma AtInv(ops: seq<Op>, i: nat)
    requires i <= |ops|
    ensures Inv(At(ops, i))
  {
    hide Inv, Run;
    RunInv(ops[..i]);
  }
}
