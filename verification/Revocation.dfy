/** A revoked device stays revoked, and nothing it asks for has any effect but to give up its own reservations. */
module Revocation {
  import opened Tables
  import opened Integrity
  import opened Machine
  import SyncGroups
  import Uploads
  import Release
  import Discarding
  import Documents
  import Merging
  import Frames
  import Partition

  predicate Revoked(db: Db, d: Id) {
    d in db.devices && !db.devices[d].active
  }

  /** The device on whose behalf an operation runs. Registration, enrolment, the collector's operations and the clean-up
      batches after a discard, which anybody's discard may have left to do, name none. */
  function Actor(db: Db, op: Op): Option<Id> {
    match op
    case Revoke(_, caller, _, _, _) => Some(caller)
    case PutManifest(d, _, _) => Some(d)
    case ReplaceCode(_, row, _) => Some(row.inviter)
    case Redeem(_, redeemer, _, _) => Some(redeemer)
    case PutSession(_, _, d, _, _, _, _) => Some(d)
    case DeleteSession(_, _, d, _, _) => Some(d)
    case Reserve(_, _, d, _, _) => Some(d)
    case Cancel(r) => if r in db.reservations then Some(db.reservations[r].device) else None
    case Commit(r, _) => if r in db.reservations then Some(db.reservations[r].device) else None
    case PruneBatch(_, d, _, _, _, _) => Some(d)
    case DiscardGroups(_, caller, _, _, _) => Some(caller)
    case _ => None
  }

  /** The reservation rows that the operation gives up. */
  function GivenUp(op: Op): set<Id> {
    if op.Cancel? then {op.reservation} else {}
  }

  /** Whatever a revoked device asks for is refused without effect; it can only cancel a reservation of its own. */
  lemma RevokedActsNoMore(db: Db, op: Op, d: Id)
    requires Revoked(db, d) && Actor(db, op) == Some(d)
    ensures Apply(db, op) == db.(reservations := db.reservations - GivenUp(op))
  {
    if !op.Cancel? {
      RevokedIsRefused(db, op, d);
      assert db.reservations - {} == db.reservations;
      hide Apply;
    }
  }

  lemma RevokedIsRefused(db: Db, op: Op, d: Id)
    requires Revoked(db, d) && Actor(db, op) == Some(d) && !op.Cancel?
    ensures Apply(db, op) == db
  {
    hide SyncGroups.RedeemCode, SyncGroups.ExpireCodes, SyncGroups.OpenCode, Release.PruneAll, GroupDevices,
         Discarding.Discard, Discarding.OtherDevices, Discarding.OtherBlocks, Discarding.OtherSessionBytes,
         Uploads.Attach, Uploads.HasReservation, PendingCharges;
    match op
    case Redeem(a, redeemer, mac, now) => RevokedRedeemsNothing(db, a, redeemer, mac, now);
    case _ =>
  }

  lemma RevokedRedeemsNothing(db: Db, a: Id, redeemer: Id, mac: Bytes, now: int)
    requires Revoked(db, redeemer)
    ensures SyncGroups.Redeem(db, a, redeemer, mac, now).0 == db
  {
    hide SyncGroups.RedeemCode;
    var c := SyncGroups.RedeemCases(db, a, redeemer, mac, now);
    hide SyncGroups.Redeem;
    if c.Some? { RefusedRow(db, a, redeemer, c.value, now); }
  }

  lemma RefusedRow(db: Db, a: Id, redeemer: Id, c: Id, now: int)
    requires c in db.codes && (Revoked(db, redeemer) || Revoked(db, db.codes[c].inviter))
    ensures SyncGroups.RedeemCode(db, a, redeemer, c, now) == (db, Err(InvalidSyncCode))
  {
    hide SyncGroups.MergeGroups, SyncGroups.ConsumeCode, GroupDevices;
  }

  /** The open invitation of a revoked device cannot be redeemed by anyone. */
  lemma RevokedInvitesNobody(db: Db, a: Id, redeemer: Id, mac: Bytes, now: int, c: Id)
    requires Inv(db) && SyncGroups.OpenCode(db.codes, c, a, mac) && Revoked(db, db.codes[c].inviter)
    ensures SyncGroups.Redeem(db, a, redeemer, mac, now) == (db, Err(InvalidSyncCode))
  {
    hide Inv, SyncGroups.RedeemCode, MacsUnique, SessionsOk;
    Partition.InvParts(db);
    Partition.RedeemIsRedeemCode(db, a, redeemer, mac, now, c);
    hide SyncGroups.Redeem;
    RefusedRow(db, a, redeemer, c, now);
  }

  // ---- no operation brings a device back ----

  /** The device is still revoked, since the same time. */
  predicate StillRevoked(db: Db, after: Db, d: Id)
    requires d in db.devices
  {
    && Revoked(after, d)
    && (db.devices[d].revokedAt.Some? ==> after.devices[d].revokedAt == db.devices[d].revokedAt)
  }

  lemma MergeKeepsRevoked(db: Db, a: Id, winner: Id, loser: Id, revision: int, c: Id, now: int, d: Id)
    requires c in db.codes && winner in db.groups && Revoked(db, d)
    ensures StillRevoked(db, SyncGroups.MergeGroups(db, a, winner, loser, revision, c, now), d)
  {
    hide SyncGroups.MoveCodes, SyncGroups.MoveSessions, SyncGroups.ConsumeCode;
  }

  lemma RedeemRowKeepsRevoked(db: Db, a: Id, redeemer: Id, c: Id, now: int, d: Id)
    requires c in db.codes && Revoked(db, d)
    ensures StillRevoked(db, SyncGroups.RedeemCode(db, a, redeemer, c, now).0, d)
  {
    hide SyncGroups.RedeemCode, SyncGroups.MergeGroups, Merging.Redeemable, GroupDevices, SyncGroups.ConsumeCode;
    Merging.RedeemPaths(db, a, redeemer, c, now);
    var out := SyncGroups.RedeemCode(db, a, redeemer, c, now).1;
    if out.Ok? && !out.value.alreadyJoined {
      MergeKeepsRevoked(db, a, out.value.canonical, out.value.removed.value, out.value.revision, c, now, d);
    }
  }

  lemma RedeemKeepsRevoked(db: Db, a: Id, redeemer: Id, mac: Bytes, now: int, d: Id)
    requires Revoked(db, d)
    ensures StillRevoked(db, SyncGroups.Redeem(db, a, redeemer, mac, now).0, d)
  {
    hide SyncGroups.RedeemCode;
    var c := SyncGroups.RedeemCases(db, a, redeemer, mac, now);
    hide SyncGroups.Redeem;
    if c.Some? { RedeemRowKeepsRevoked(db, a, redeemer, c.value, now, d); }
  }

  lemma DiscardKeepsRevoked(db: Db, a: Id, caller: Id, g: Id, revision: int, now: int, d: Id)
    requires Revoked(db, d)
    ensures StillRevoked(db, Discarding.DiscardGroups(db, a, caller, g, revision, now).0, d)
  {
    DiscardedStaysRevoked(db, a, g, now, d);
    hide Discarding.Discard, Discarding.OtherDevices, Discarding.OtherBlocks, Discarding.OtherSessionBytes,
         SeesRevision;
  }

  lemma DiscardedStaysRevoked(db: Db, a: Id, g: Id, now: int, d: Id)
    requires Revoked(db, d)
    ensures StillRevoked(db, Discarding.Discard(db, a, g, now), d)
  {
    hide Discarding.OtherDevices, Discarding.OtherGroups;
  }

  lemma EnrollKeepsRevoked(db: Db, op: Op, d: Id)
    requires (op.Register? || op.Enroll?) && Revoked(db, d)
    ensures StillRevoked(db, Apply(db, op), d)
  {
    hide SyncGroups.Register, SyncGroups.Enroll;
    match op
    case Register(a, quota, x, g, now) =>
      SyncGroups.RegisterPaths(db, a, quota, x, g, now);
      SyncGroups.EnrollPaths(db.(accounts := db.accounts[a := Account(quota, 0)]), a, x, g, now);
    case Enroll(a, x, g, now) =>
      SyncGroups.EnrollPaths(db, a, x, g, now);
      assert SyncGroups.Enroll(db, a, x, g, now).1.Ok? || SyncGroups.Enroll(db, a, x, g, now).1.Err?;
  }

  lemma RevokeKeepsRevoked(db: Db, a: Id, caller: Id, g: Id, target: Id, now: int, d: Id)
    requires Revoked(db, d)
    ensures StillRevoked(db, SyncGroups.Revoke(db, a, caller, g, target, now).0, d)
  {
    SyncGroups.RevokePaths(db, a, caller, g, target, now);
    hide SyncGroups.Revoke;
  }

  lemma StepKeepsRevoked(db: Db, op: Op, d: Id)
    requires Revoked(db, d)
    ensures StillRevoked(db, Apply(db, op), d)
  {
    hide Frames.KeepsBlocks, SyncGroups.Revoke, SyncGroups.Redeem, SyncGroups.ReplaceCode, Documents.PutManifest,
         Documents.PutSession, Documents.DeleteSession, Discarding.DiscardGroups;
    match op
    case Register(_, _, _, _, _) => hide Apply; EnrollKeepsRevoked(db, op, d);
    case Enroll(_, _, _, _) => hide Apply; EnrollKeepsRevoked(db, op, d);
    case Revoke(a, caller, g, target, now) => RevokeKeepsRevoked(db, a, caller, g, target, now, d);
    case Redeem(a, redeemer, mac, now) => RedeemKeepsRevoked(db, a, redeemer, mac, now, d);
    case DiscardGroups(a, caller, g, revision, now) => DiscardKeepsRevoked(db, a, caller, g, revision, now, d);
    case ReplaceCode(c, row, now) => Frames.ReplaceCodeFrame(db, c, row, now);
    case PutManifest(x, base, ciphertext) => Frames.PutManifestFrame(db, x, base, ciphertext);
    case PutSession(a, g, x, s, base, ciphertext, now) => Frames.PutSessionFrame(db, a, g, x, s, base, ciphertext, now);
    case DeleteSession(a, g, x, s, base) => Frames.DeleteSessionFrame(db, a, g, x, s, base);
    case _ => hide Apply; Frames.BlocksFrame(db, op);
  }

  lemma {:induction false} RunKeepsRevoked(db: Db, ops: seq<Op>, d: Id)
    requires Revoked(db, d)
    ensures StillRevoked(db, Run(db, ops), d)
    decreases |ops|
  {
    hide Apply;
    if ops != [] {
      RunKeepsRevoked(db, ops[..|ops| - 1], d);
      StepKeepsRevoked(Run(db, ops[..|ops| - 1]), ops[|ops| - 1], d);
    }
  }

  // ---- the theorems ----

  /** A successful revocation changes one row: an active member of the caller's group is now revoked, in the same
      group. */
  lemma RevokeTakesEffect(ops: seq<Op>, a: Id, caller: Id, g: Id, target: Id, now: int)
    ensures var db := Run(EMPTY_DB, ops);
            var (after, out) := SyncGroups.Revoke(db, a, caller, g, target, now);
            && (out.Ok? <==> InGroup(db, caller, a, g) && db.devices[caller].active)
            && (out.Err? ==> out.error == if InGroup(db, caller, a, g) then InactiveDevice else GroupChanged)
            && (out.Ok? ==> (out.value <==> InGroup(db, target, a, g) && db.devices[target].active))
            && (out == Ok(true) ==>
                  && Revoked(after, target) && InGroup(after, target, a, g)
                  && after.devices[target].revokedAt == Some(now)
                  && after == db.(devices := db.devices[target := Device(a, Some(g), false, Some(now))]))
            && (out != Ok(true) ==> after == db)
  {
    RunInv(ops);
    hide Run, RevisionsOk, ManifestsOk, CodesOk, SessionsOk, BlocksOk, ReservationsOk, QuotaOk;
  }

  lemma RevokedHasTime(db: Db, d: Id)
    requires Inv(db) && Revoked(db, d)
    ensures db.devices[d].revokedAt.Some?
  {
    hide RevisionsOk, ManifestsOk, CodesOk, SessionsOk, BlocksOk, ReservationsOk, QuotaOk;
  }

  /** Over any run: once revoked, a device is revoked for good, since the time first recorded, and every later operation
      on its behalf changes nothing, except that cancelling a reservation of its own removes that one row. */
  lemma RevocationIsFinal(ops: seq<Op>, i: nat, j: nat, d: Id)
    requires i <= j < |ops|
    ensures Revoked(At(ops, i), d) ==>
              && Revoked(At(ops, j), d) && At(ops, j).devices[d].revokedAt == At(ops, i).devices[d].revokedAt
              && (Actor(At(ops, j), ops[j]) == Some(d) ==>
                    At(ops, j + 1) == At(ops, j).(reservations := At(ops, j).reservations - GivenUp(ops[j])))
  {
    hide Apply, Actor, GivenUp, Inv;
    if Revoked(At(ops, i), d) {
      AtInv(ops, i);
      RevokedHasTime(At(ops, i), d);
      RunKeepsRevoked(At(ops, i), ops[i..j], d);
      RunAppend(EMPTY_DB, ops[..i], ops[i..j]);
      assert ops[..i] + ops[i..j] == ops[..j];
      Advance(ops, j);
      if Actor(At(ops, j), ops[j]) == Some(d) { RevokedActsNoMore(At(ops, j), ops[j], d); }
    }
  }
}
