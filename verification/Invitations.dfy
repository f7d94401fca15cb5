/** Sync codes over whole runs, and how many merges an account can ever see. */
module Invitations {
  import opened Tables
  import opened Integrity
  import opened Machine
  import SyncGroups
  import Merging
  import Discarding
  import Partition
  import Frames

  /** In every state an inviter has at most one open code, and it names the inviter's own current group. */
  lemma OpenCodesFollowInviters(ops: seq<Op>, c: Id, c': Id)
    ensures var db := Run(EMPTY_DB, ops);
            Unconsumed(db.codes, c) ==>
              && InGroup(db, db.codes[c].inviter, db.codes[c].account, db.codes[c].group)
              && (Unconsumed(db.codes, c') && db.codes[c'].inviter == db.codes[c].inviter ==> c' == c)
  {
    hide Inv, Run;
    RunInv(ops);
    InvCodes(Run(EMPTY_DB, ops));
  }

  lemma InvCodes(db: Db)
    requires Inv(db)
    ensures CodesOk(db.groups, db.devices, db.codes)
  {
    hide GroupsOk, RevisionsOk, ManifestsOk, CodesOk, SessionsOk, BlocksOk, ReservationsOk, QuotaOk;
  }

  /** Some other inviter's unexpired open code of the account has the MAC. */
  ghost predicate Collides(codes: map<Id, Code>, row: Code, now: int) {
    exists o :: SyncGroups.OpenCode(codes, o, row.account, row.mac) && codes[o].expiresAt > now
                && codes[o].inviter != row.inviter
  }

  lemma ExpiredCodes(codes: map<Id, Code>, row: Code, now: int)
    ensures var expired := SyncGroups.ExpireCodes(codes, row.inviter, now);
            && expired.Keys == codes.Keys
            && (forall x :: Unconsumed(expired, x) <==>
                  Unconsumed(codes, x) && codes[x].expiresAt > now && codes[x].inviter != row.inviter)
            && (forall x :: Unconsumed(expired, x) ==> expired[x] == codes[x])
            && (forall x :: x in codes && !Unconsumed(expired, x) ==>
                  expired[x] == if codes[x].consumedAt.Some? then codes[x] else codes[x].(consumedAt := Some(now)))
            && ((exists o :: SyncGroups.OpenCode(expired, o, row.account, row.mac)) <==> Collides(codes, row, now))
  {
    var expired := SyncGroups.ExpireCodes(codes, row.inviter, now);
    forall x
      ensures Unconsumed(expired, x) <==>
                Unconsumed(codes, x) && codes[x].expiresAt > now && codes[x].inviter != row.inviter
    {}
    forall o ensures SyncGroups.OpenCode(expired, o, row.account, row.mac) <==>
      SyncGroups.OpenCode(codes, o, row.account, row.mac) && codes[o].expiresAt > now
      && codes[o].inviter != row.inviter {}
    hide SyncGroups.OpenCode;
  }

  /** After any run a code is refused for exactly three reasons: its inviter is not in the group, is not active, or
      the id or the MAC collides; the group itself always exists. A code that is issued leaves open exactly itself
      and the unexpired codes of other inviters. */
  lemma ReplaceCodeOpens(ops: seq<Op>, c: Id, row: Code, now: int, x: Id)
    ensures var db := Run(EMPTY_DB, ops);
            var (after, out) := SyncGroups.ReplaceCode(db, c, row, now);
            && out == (if !InGroup(db, row.inviter, row.account, row.group) then Err(GroupChanged)
                       else if !db.devices[row.inviter].active then Err(InactiveDevice)
                       else if c in db.codes || Collides(db.codes, row, now) then Err(Constraint)
                       else Ok(()))
            && (out.Err? ==> after == db)
            && (out.Ok? ==>
                  && Unconsumed(after.codes, c) && after.codes[c] == row.(consumedAt := None)
                  && (x != c ==> (Unconsumed(after.codes, x) <==>
                                    Unconsumed(db.codes, x) && db.codes[x].expiresAt > now
                                    && db.codes[x].inviter != row.inviter))
                  && (x != c && Unconsumed(after.codes, x) ==> after.codes[x] == db.codes[x])
                  && after.codes.Keys == db.codes.Keys + {c} && after == db.(codes := after.codes)
                  && (x in db.codes && !Unconsumed(after.codes, x) ==>
                        after.codes[x] == if db.codes[x].consumedAt.Some? then db.codes[x]
                                          else db.codes[x].(consumedAt := Some(now))))
  {
    hide Inv, Run, Collides, SyncGroups.ExpireCodes, SyncGroups.OpenCode;
    RunInv(ops);
    var db := Run(EMPTY_DB, ops);
    if row.inviter in db.devices { DeviceHasAccount(db, row.inviter); }
    ExpiredCodes(db.codes, row, now);
  }

  // ---- a code is redeemed at most once ----

  ghost predicate Redeems(db: Db, op: Op, c: Id) {
    && op.Redeem? && SyncGroups.OpenCode(db.codes, c, op.account, op.mac)
    && SyncGroups.Redeem(db, op.account, op.redeemer, op.mac, op.now).1.Ok?
  }

  predicate Issues(op: Op, c: Id) {
    op.ReplaceCode? && op.code == c
  }

  lemma RedeemSpends(db: Db, op: Op, c: Id)
    requires Inv(db) && Redeems(db, op, c)
    ensures !Unconsumed(Apply(db, op).codes, c)
  {
    Partition.InvParts(db);
    hide Inv, SyncGroups.RedeemCode;
    Partition.RedeemIsRedeemCode(db, op.account, op.redeemer, op.mac, op.now, c);
    hide SyncGroups.Redeem, SessionsOk, MacsUnique;
    RedeemCodeSpends(db, op.account, op.redeemer, c, op.now);
  }

  lemma RedeemCodeSpends(db: Db, a: Id, redeemer: Id, c: Id, now: int)
    requires c in db.codes && SessionsOk(db.groups, db.sessions) && SyncGroups.RedeemCode(db, a, redeemer, c, now).1.Ok?
    ensures !Unconsumed(SyncGroups.RedeemCode(db, a, redeemer, c, now).0.codes, c)
  {
    Merging.RedeemPaths(db, a, redeemer, c, now);
    var (after, out) := SyncGroups.RedeemCode(db, a, redeemer, c, now);
    hide SyncGroups.RedeemCode, SyncGroups.MergeGroups, SessionsOk, GroupDevices, Merging.Redeemable;
    if !out.value.alreadyJoined {
      var w, l := out.value.canonical, out.value.removed.value;
      Merging.MergeDevicesAndSessions(db, a, w, l, out.value.revision, c, now);
      Merging.MergedOpenCodes(db.codes, w, l, c, now);
      hide Merging.MergedCodes;
    }
  }

  ghost predicate StaysSpent(codes: map<Id, Code>, after: map<Id, Code>, c: Id) {
    !Unconsumed(codes, c) ==> !Unconsumed(after, c)
  }

  lemma RedeemKeepsSpent(db: Db, a: Id, redeemer: Id, x: Id, now: int, c: Id)
    requires x in db.codes && SessionsOk(db.groups, db.sessions)
    ensures StaysSpent(db.codes, SyncGroups.RedeemCode(db, a, redeemer, x, now).0.codes, c)
  {
    Merging.RedeemPaths(db, a, redeemer, x, now);
    var (after, out) := SyncGroups.RedeemCode(db, a, redeemer, x, now);
    hide SyncGroups.RedeemCode, SyncGroups.MergeGroups, SessionsOk, GroupDevices, Merging.Redeemable;
    if out.Ok? && !out.value.alreadyJoined {
      var w, l := out.value.canonical, out.value.removed.value;
      Merging.MergeDevicesAndSessions(db, a, w, l, out.value.revision, x, now);
      Merging.MergedOpenCodes(db.codes, w, l, x, now);
      hide Merging.MergedCodes;
    }
  }

  lemma AnyRedeemKeepsSpent(db: Db, a: Id, redeemer: Id, mac: Bytes, now: int, c: Id)
    requires Inv(db)
    ensures StaysSpent(db.codes, SyncGroups.Redeem(db, a, redeemer, mac, now).0.codes, c)
  {
    Partition.InvParts(db);
    hide Inv, SyncGroups.RedeemCode, SessionsOk, MacsUnique;
    var x := SyncGroups.RedeemCases(db, a, redeemer, mac, now);
    hide SyncGroups.Redeem;
    SpentRefl(db.codes, c);
    if x.Some? { RedeemKeepsSpent(db, a, redeemer, x.value, now, c); }
  }

  lemma DiscardKeepsSpent(db: Db, a: Id, caller: Id, g: Id, revision: int, now: int, c: Id)
    ensures StaysSpent(db.codes, Discarding.DiscardGroups(db, a, caller, g, revision, now).0.codes, c)
  {
    hide Discarding.OtherDevices, Discarding.OtherBlocks, Discarding.OtherSessionBytes, Discarding.OtherGroups,
         Discarding.RevokeAll;
  }

  lemma ReplaceKeepsSpent(db: Db, x: Id, row: Code, now: int, c: Id)
    requires c != x
    ensures StaysSpent(db.codes, SyncGroups.ReplaceCode(db, x, row, now).0.codes, c)
  {
    hide SyncGroups.OpenCode;
  }

  lemma StepKeepsSpent(db: Db, op: Op, c: Id)
    requires Inv(db) && !Issues(op, c)
    ensures StaysSpent(db.codes, Apply(db, op).codes, c)
  {
    hide Inv, StaysSpent;
    match op
    case Redeem(a, redeemer, mac, now) => AnyRedeemKeepsSpent(db, a, redeemer, mac, now, c); hide SyncGroups.Redeem;
    case DiscardGroups(a, caller, g, revision, now) =>
      DiscardKeepsSpent(db, a, caller, g, revision, now, c);
      hide Discarding.DiscardGroups;
    case ReplaceCode(x, row, now) => ReplaceKeepsSpent(db, x, row, now, c); hide SyncGroups.ReplaceCode;
    case _ =>
      Frames.OthersKeepCodes(db, op);
      hide Apply;
      SpentRefl(db.codes, c);
  }

  lemma SpentRefl(codes: map<Id, Code>, c: Id)
    ensures StaysSpent(codes, codes, c)
  {
  }

  lemma {:induction false} RunKeepsSpent(db: Db, ops: seq<Op>, c: Id)
    requires Inv(db) && !Unconsumed(db.codes, c) && forall i :: 0 <= i < |ops| ==> !Issues(ops[i], c)
    ensures !Unconsumed(Run(db, ops).codes, c)
    decreases |ops|
  {
    hide Inv, Apply;
    if ops != [] {
      var before := ops[..|ops| - 1];
      RunKeepsSpent(db, before, c);
      RunKeepsInv(db, before);
      StepKeepsSpent(Run(db, before), ops[|ops| - 1], c);
    }
  }

  /** Over any run a code is redeemed at most once. Code ids are fresh UUIDs, so no operation between the two issues
      c anew. */
  lemma CodeRedeemedOnce(ops: seq<Op>, i: nat, j: nat, c: Id)
    requires i < j < |ops| && forall k :: i < k < j ==> !Issues(ops[k], c)
    ensures Redeems(Run(EMPTY_DB, ops[..i]), ops[i], c) ==> !Redeems(Run(EMPTY_DB, ops[..j]), ops[j], c)
  {
    hide Inv, Apply, Run, Redeems, Unconsumed;
    var first := Run(EMPTY_DB, ops[..i]);
    if Redeems(first, ops[i], c) {
      RedeemsOpen(Run(EMPTY_DB, ops[..j]), ops[j], c);
      RunInv(ops[..i]);
      RedeemSpends(first, ops[i], c);
      ApplyKeepsInv(first, ops[i]);
      RunBetween(EMPTY_DB, ops, i, j);
      RunKeepsSpent(Apply(first, ops[i]), ops[i + 1..j], c);
    }
  }

  lemma RedeemsOpen(db: Db, op: Op, c: Id)
    ensures Redeems(db, op, c) ==> Unconsumed(db.codes, c)
  {
    hide SyncGroups.Redeem;
  }

  // ---- counting ----

  function GroupsOf(groups: map<Id, Group>, a: Id): set<Id> {
    set g | g in groups && groups[g].account == a
  }

  ghost predicate Founds(db: Db, op: Op, a: Id) {
    || (op.Register? && op.account == a && SyncGroups.Register(db, a, op.quota, op.device, op.group, op.now).1.Ok?)
    || (op.Enroll? && op.account == a && SyncGroups.Enroll(db, a, op.device, op.group, op.now).1.Ok?)
  }

  ghost predicate Merges(db: Db, op: Op, a: Id) {
    && op.Redeem? && op.account == a
    && var out := SyncGroups.Redeem(db, a, op.redeemer, op.mac, op.now).1;
       out.Ok? && !out.value.alreadyJoined
  }

  ghost function CountFoundings(ops: seq<Op>, a: Id): nat
    decreases |ops|
  {
    if ops == [] then 0
    else
      var before := ops[..|ops| - 1];
      CountFoundings(before, a) + if Founds(Run(EMPTY_DB, before), ops[|ops| - 1], a) then 1 else 0
  }

  ghost function CountMerges(ops: seq<Op>, a: Id): nat
    decreases |ops|
  {
    if ops == [] then 0
    else CountMerges(ops[..|ops| - 1], a) + if Merges(Run(EMPTY_DB, ops[..|ops| - 1]), ops[|ops| - 1], a) then 1 else 0
  }

  /** One step: founding adds a group, merging removes one and leaves one, a discard never removes the last. */
  ghost predicate GroupCountStep(before: set<Id>, after: set<Id>, founds: bool, merges: bool) {
    && |after| + (if merges then 1 else 0) <= |before| + (if founds then 1 else 0)
    && (before != {} || founds ==> after != {})
    && (merges ==> before != {})
  }

  lemma FoundingCount(groups: map<Id, Group>, a: Id, x: Id, g: Id, now: int)
    requires g !in groups
    ensures GroupCountStep(GroupsOf(groups, a), GroupsOf(groups[g := Group(x, 1, now)], a), x == a, false)
  {
    var after := GroupsOf(groups[g := Group(x, 1, now)], a);
    assert after == if x == a then GroupsOf(groups, a) + {g} else GroupsOf(groups, a);
  }

  lemma MergeCount(groups: map<Id, Group>, a: Id, x: Id, w: Id, l: Id, revision: int)
    requires w != l && w in groups && l in groups && groups[w].account == x && groups[l].account == x
    ensures GroupCountStep(GroupsOf(groups, a), GroupsOf(groups[w := groups[w].(revision := revision)] - {l}, a),
                           false, x == a)
  {
    var after := GroupsOf(groups[w := groups[w].(revision := revision)] - {l}, a);
    assert after == GroupsOf(groups, a) - {l};
    if x == a { assert w in after && l in GroupsOf(groups, a); }
  }

  lemma SubsetCount(groups: map<Id, Group>, after: map<Id, Group>, a: Id, x: Id, g: Id)
    requires after.Keys <= groups.Keys && (forall h :: h in after ==> after[h] == groups[h])
    requires (forall h :: h in groups && groups[h].account != x ==> h in after) && g in after && groups[g].account == x
    ensures GroupCountStep(GroupsOf(groups, a), GroupsOf(after, a), false, false)
  {
    var big, small := GroupsOf(groups, a), GroupsOf(after, a);
    assert big == small + (big - small);
    if x == a { assert g in small; } else { assert small == big; }
  }

  lemma EnrollCount(db: Db, x: Id, d: Id, g: Id, now: int, a: Id)
    ensures var (after, out) := SyncGroups.Enroll(db, x, d, g, now);
            GroupCountStep(GroupsOf(db.groups, a), GroupsOf(after.groups, a), x == a && out.Ok?, false)
  {
    hide GroupsOf, GroupCountStep;
    if g !in db.groups { FoundingCount(db.groups, a, x, g, now); }
    SameCount(db.groups, a);
  }

  lemma SameCount(groups: map<Id, Group>, a: Id)
    ensures GroupCountStep(GroupsOf(groups, a), GroupsOf(groups, a), false, false)
  {
  }

  lemma RegisterCount(db: Db, x: Id, quota: int, d: Id, g: Id, now: int, a: Id)
    ensures var (after, out) := SyncGroups.Register(db, x, quota, d, g, now);
            GroupCountStep(GroupsOf(db.groups, a), GroupsOf(after.groups, a), x == a && out.Ok?, false)
  {
    EnrollCount(db.(accounts := db.accounts[x := Account(quota, 0)]), x, d, g, now, a);
    SameCount(db.groups, a);
    hide SyncGroups.Enroll, GroupsOf, GroupCountStep;
  }

  lemma RedeemCount(db: Db, x: Id, redeemer: Id, c: Id, now: int, a: Id)
    requires c in db.codes && SessionsOk(db.groups, db.sessions)
    ensures var (after, out) := SyncGroups.RedeemCode(db, x, redeemer, c, now);
            GroupCountStep(GroupsOf(db.groups, a), GroupsOf(after.groups, a), false,
                           x == a && out.Ok? && !out.value.alreadyJoined)
  {
    Merging.RedeemPaths(db, x, redeemer, c, now);
    var (after, out) := SyncGroups.RedeemCode(db, x, redeemer, c, now);
    hide SyncGroups.RedeemCode, SyncGroups.MergeGroups, SessionsOk, GroupDevices, Merging.Redeemable, GroupsOf,
         GroupCountStep;
    SameCount(db.groups, a);
    if out.Ok? && !out.value.alreadyJoined {
      var w, l := out.value.canonical, out.value.removed.value;
      Merging.MergeDevicesAndSessions(db, x, w, l, out.value.revision, c, now);
      MergeCount(db.groups, a, x, w, l, out.value.revision);
    }
  }

  lemma AnyRedeemCount(db: Db, x: Id, redeemer: Id, mac: Bytes, now: int, a: Id)
    requires SessionsOk(db.groups, db.sessions)
    ensures var (after, out) := SyncGroups.Redeem(db, x, redeemer, mac, now);
            GroupCountStep(GroupsOf(db.groups, a), GroupsOf(after.groups, a), false,
                           x == a && out.Ok? && !out.value.alreadyJoined)
  {
    hide SyncGroups.RedeemCode, GroupsOf, GroupCountStep, SessionsOk;
    SameCount(db.groups, a);
    var c := SyncGroups.RedeemCases(db, x, redeemer, mac, now);
    hide SyncGroups.Redeem;
    if c.Some? { RedeemCount(db, x, redeemer, c.value, now, a); }
  }

  lemma DiscardCount(db: Db, x: Id, caller: Id, g: Id, revision: int, now: int, a: Id)
    ensures var after := Discarding.DiscardGroups(db, x, caller, g, revision, now).0;
            GroupCountStep(GroupsOf(db.groups, a), GroupsOf(after.groups, a), false, false)
  {
    SameCount(db.groups, a);
    hide GroupsOf, GroupCountStep, Discarding.OtherDevices, Discarding.OtherBlocks, Discarding.OtherSessionBytes,
         Discarding.RevokeAll;
    if SeesRevision(db, caller, x, g, revision) {
      SubsetCount(db.groups, db.groups - Discarding.OtherGroups(db, x, g), a, x, g);
    }
  }

  lemma StepCount(db: Db, op: Op, a: Id)
    requires Inv(db)
    ensures GroupCountStep(GroupsOf(db.groups, a), GroupsOf(Apply(db, op).groups, a), Founds(db, op, a),
                           Merges(db, op, a))
  {
    Partition.InvParts(db);
    hide Inv, GroupCountStep, SessionsOk, MacsUnique, GroupsOf;
    match op
    case Register(x, quota, d, g, now) => RegisterCount(db, x, quota, d, g, now, a); hide SyncGroups.Register;
    case Enroll(x, d, g, now) => EnrollCount(db, x, d, g, now, a); hide SyncGroups.Enroll;
    case Redeem(x, redeemer, mac, now) => AnyRedeemCount(db, x, redeemer, mac, now, a); hide SyncGroups.Redeem;
    case DiscardGroups(x, caller, g, revision, now) =>
      DiscardCount(db, x, caller, g, revision, now, a);
      hide Discarding.DiscardGroups;
    case _ =>
      Frames.OthersGrouping(db, op);
      hide Apply;
      SameCount(db.groups, a);
  }

  lemma {:induction false} RunCount(ops: seq<Op>, a: Id)
    ensures var groups := GroupsOf(Run(EMPTY_DB, ops).groups, a);
            && |groups| + CountMerges(ops, a) <= CountFoundings(ops, a)
            && (CountFoundings(ops, a) > 0 ==> groups != {})
    decreases |ops|
  {
    if ops == [] {
      assert GroupsOf(EMPTY_DB.groups, a) == {};
    } else {
      hide Inv, Apply, Founds, Merges, GroupsOf;
      var before := ops[..|ops| - 1];
      RunCount(before, a);
      EmptyInv();
      RunKeepsInv(EMPTY_DB, before);
      StepCount(Run(EMPTY_DB, before), ops[|ops| - 1], a);
    }
  }

  /** An account's merges never exceed its enrolments minus one. */
  lemma MergesBounded(ops: seq<Op>, a: Id)
    ensures CountMerges(ops, a) == 0 || CountMerges(ops, a) <= CountFoundings(ops, a) - 1
  {
    RunCount(ops, a);
    hide Run, CountMerges, CountFoundings, GroupsOf;
  }
}
