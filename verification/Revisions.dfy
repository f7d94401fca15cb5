/** The revision guard: a group's revision identifies its membership, over any run. */
module Revisions {
  import opened Tables
  import opened Integrity
  import opened Machine
  import SyncGroups
  import Merging
  import Discarding
  import Release
  import Frames

  /** In every state a group of revision r has at least r and at most 2^(r-1) members. */
  lemma RevisionBounds(ops: seq<Op>, g: Id)
    ensures var db := Run(EMPTY_DB, ops);
            g in db.groups ==> 1 <= db.groups[g].revision <= |Members(db.devices, g)| <= Pow2(db.groups[g].revision - 1)
  {
    hide Inv, Run, Members, Pow2;
    RunInv(ops);
    InvRevisions(Run(EMPTY_DB, ops));
  }

  lemma InvRevisions(db: Db)
    requires Inv(db)
    ensures RevisionsOk(db.groups, db.devices)
  {
    hide GroupsOk, RevisionsOk, ManifestsOk, CodesOk, SessionsOk, BlocksOk, ReservationsOk, QuotaOk;
  }

  predicate Creates(op: Op, g: Id) {
    (op.Register? || op.Enroll?) && op.group == g
  }

  /** g survives with a revision no smaller, and with the same members if the revision is the same. */
  ghost predicate Advances(db: Db, after: Db, g: Id) {
    g in db.groups && g in after.groups ==>
      && db.groups[g].revision <= after.groups[g].revision
      && (db.groups[g].revision == after.groups[g].revision ==>
            Members(after.devices, g) == Members(db.devices, g) && after.groups[g] == db.groups[g])
  }

  ghost predicate StaysGone(db: Db, after: Db, g: Id) {
    g !in db.groups ==> g !in after.groups
  }

  lemma EnrollAdvances(db: Db, a: Id, d: Id, h: Id, now: int, g: Id)
    requires g != h
    ensures var after := SyncGroups.Enroll(db, a, d, h, now).0; Advances(db, after, g) && StaysGone(db, after, g)
  {
    var (after, out) := SyncGroups.Enroll(db, a, d, h, now);
    if out.Ok? { assert Members(after.devices, g) == Members(db.devices, g); }
  }

  lemma RegisterAdvances(db: Db, a: Id, quota: int, d: Id, h: Id, now: int, g: Id)
    requires g != h
    ensures var after := SyncGroups.Register(db, a, quota, d, h, now).0;
            Advances(db, after, g) && StaysGone(db, after, g)
  {
    EnrollAdvances(db.(accounts := db.accounts[a := Account(quota, 0)]), a, d, h, now, g);
    hide SyncGroups.Enroll;
  }

  lemma SameGroupingAdvances(db: Db, after: Db, g: Id)
    requires Frames.SameGrouping(db, after)
    ensures Advances(db, after, g) && StaysGone(db, after, g)
  {
    assert Members(after.devices, g) == Members(db.devices, g);
  }

  lemma RedeemAdvances(db: Db, a: Id, redeemer: Id, c: Id, now: int, g: Id)
    requires c in db.codes && SessionsOk(db.groups, db.sessions)
    ensures var after := SyncGroups.RedeemCode(db, a, redeemer, c, now).0;
            Advances(db, after, g) && StaysGone(db, after, g)
  {
    Merging.RedeemPaths(db, a, redeemer, c, now);
    var (after, out) := SyncGroups.RedeemCode(db, a, redeemer, c, now);
    hide SyncGroups.RedeemCode, SyncGroups.MergeGroups, SessionsOk, Merging.Redeemable, GroupDevices;
    if out.Ok? && !out.value.alreadyJoined {
      var w, l := out.value.canonical, out.value.removed.value;
      Merging.MergeDevicesAndSessions(db, a, w, l, out.value.revision, c, now);
      Merging.MovedMembers(db.devices, w, l);
      hide Members, SyncGroups.MoveDevices;
    }
  }

  lemma DiscardAdvances(db: Db, a: Id, caller: Id, h: Id, revision: int, now: int, g: Id)
    requires Inv(db)
    ensures var after := Discarding.DiscardGroups(db, a, caller, h, revision, now).0;
            Advances(db, after, g) && StaysGone(db, after, g)
  {
    hide RevisionsOk, ManifestsOk, CodesOk, BlocksOk, ReservationsOk, QuotaOk, GroupsOk, SessionsOk,
         Discarding.OtherDevices, Discarding.OtherSessionBytes, Discarding.OtherBlocks, Discarding.Discard,
         Discarding.LoneDevices;
    if SeesRevision(db, caller, a, h, revision) {
      Discarding.DiscardEffect(db, a, h, now);
      if g in db.groups && g !in Discarding.OtherGroups(db, a, h) { LoneMembers(db, a, h, now, g); }
    }
  }

  lemma LoneMembers(db: Db, a: Id, h: Id, now: int, g: Id)
    requires GroupsOk(db.accounts, db.groups, db.devices) && OwnedGroup(db, h, a)
    requires g in db.groups && g !in Discarding.OtherGroups(db, a, h)
    ensures Members(Discarding.LoneDevices(db, a, h, now), g) == Members(db.devices, g)
  {
    Discarding.OthersAreTheOtherGroups(db, a, h);
    hide Discarding.OtherDevices, Discarding.OtherGroups;
  }

  lemma StepAdvances(db: Db, op: Op, g: Id)
    requires Inv(db) && !Creates(op, g)
    ensures Advances(db, Apply(db, op), g) && StaysGone(db, Apply(db, op), g)
  {
    hide Inv, Advances, StaysGone;
    match op
    case Register(a, quota, d, h, now) => RegisterAdvances(db, a, quota, d, h, now, g); hide SyncGroups.Register;
    case Enroll(a, d, h, now) => EnrollAdvances(db, a, d, h, now, g); hide SyncGroups.Enroll;
    case Redeem(a, redeemer, mac, now) => AnyRedeemAdvances(db, a, redeemer, mac, now, g); hide SyncGroups.Redeem;
    case DiscardGroups(a, caller, h, revision, now) =>
      DiscardAdvances(db, a, caller, h, revision, now, g);
      hide Discarding.DiscardGroups;
    case _ =>
      Frames.OthersGrouping(db, op);
      hide Apply;
      SameGroupingAdvances(db, Apply(db, op), g);
  }

  lemma AnyRedeemAdvances(db: Db, a: Id, redeemer: Id, mac: Bytes, now: int, g: Id)
    requires Inv(db)
    ensures var after := SyncGroups.Redeem(db, a, redeemer, mac, now).0;
            Advances(db, after, g) && StaysGone(db, after, g)
  {
    Discarding.InvSessions(db);
    AdvancesRefl(db, g);
    hide Inv, SyncGroups.RedeemCode, Advances, StaysGone, SessionsOk;
    var c := SyncGroups.RedeemCases(db, a, redeemer, mac, now);
    hide SyncGroups.Redeem;
    if c.Some? { RedeemAdvances(db, a, redeemer, c.value, now, g); }
  }

  lemma AdvancesRefl(db: Db, g: Id)
    ensures Advances(db, db, g) && StaysGone(db, db, g)
  {
  }

  lemma AdvancesTrans(x: Db, y: Db, z: Db, g: Id)
    requires Advances(x, y, g) && StaysGone(x, y, g) && Advances(y, z, g) && StaysGone(y, z, g)
    ensures Advances(x, z, g) && StaysGone(x, z, g)
  {
  }

  lemma {:induction false} RunAdvances(db: Db, ops: seq<Op>, g: Id)
    requires Inv(db) && forall i :: 0 <= i < |ops| ==> !Creates(ops[i], g)
    ensures Advances(db, Run(db, ops), g) && StaysGone(db, Run(db, ops), g)
    decreases |ops|
  {
    hide Inv, Apply, Advances, StaysGone;
    if ops == [] {
      AdvancesRefl(db, g);
    } else {
      var before := ops[..|ops| - 1];
      RunAdvances(db, before, g);
      RunKeepsInv(db, before);
      StepAdvances(Run(db, before), ops[|ops| - 1], g);
      AdvancesTrans(db, Run(db, before), Run(db, ops), g);
    }
  }

  lemma LaterAdvances(ops: seq<Op>, i: nat, j: nat, g: Id)
    requires i <= j <= |ops| && forall k :: i <= k < j ==> !Creates(ops[k], g)
    ensures Advances(Run(EMPTY_DB, ops[..i]), Run(EMPTY_DB, ops[..j]), g)
    ensures StaysGone(Run(EMPTY_DB, ops[..i]), Run(EMPTY_DB, ops[..j]), g)
  {
    hide Inv, Run, Advances, StaysGone;
    RunInv(ops[..i]);
    RunAdvances(Run(EMPTY_DB, ops[..i]), ops[i..j], g);
    RunAppend(EMPTY_DB, ops[..i], ops[i..j]);
    assert ops[..i] + ops[i..j] == ops[..j];
  }

  /** No ABA: in any two states of a run in which a group exists with the same revision it has the same members.
      Group ids are fresh UUIDs, so no operation in between creates g anew. */
  lemma SameRevisionSameMembers(ops: seq<Op>, i: nat, j: nat, g: Id)
    requires i <= j <= |ops| && forall k :: i <= k < j ==> !Creates(ops[k], g)
    ensures var first, later := Run(EMPTY_DB, ops[..i]), Run(EMPTY_DB, ops[..j]);
            g in first.groups && g in later.groups ==>
              && first.groups[g].revision <= later.groups[g].revision
              && (first.groups[g].revision == later.groups[g].revision ==>
                    Members(later.devices, g) == Members(first.devices, g))
  {
    hide Run, Members;
    LaterAdvances(ops, i, j, g);
  }

  /** A prune batch or a discard whose revision check passes acts on the membership the caller saw, whatever happened in
      between. */
  lemma GuardSeesSameMembers(ops: seq<Op>, i: nat, j: nat, a: Id, d: Id, g: Id, ids: seq<Digest>, now: int)
    requires i <= j <= |ops| && forall k :: i <= k < j ==> !Creates(ops[k], g)
    ensures var first, later := Run(EMPTY_DB, ops[..i]), Run(EMPTY_DB, ops[..j]);
            g in first.groups ==>
              (Release.PruneBatch(later, a, d, g, first.groups[g].revision, ids, now).1.Ok?
               || Discarding.DiscardGroups(later, a, d, g, first.groups[g].revision, now).1.Ok?
               ==> Members(later.devices, g) == Members(first.devices, g))
  {
    hide Run, Members;
    LaterAdvances(ops, i, j, g);
    hide Release.PruneAll, GroupDevices, Discarding.OtherDevices, Discarding.OtherBlocks, Discarding.OtherSessionBytes,
         Discarding.Discard;
  }
}
