/** Merging as union-find: the group a device ends up in does not depend on the order of the redemptions. */
module Partition {
  import opened Tables
  import opened Integrity
  import opened SyncGroups
  import opened Machine
  import opened Frames
  import Merging
  import Discarding

  /** The group a device was enrolled with. */
  datatype Founding = Founding(group: Id, createdAt: int)

  /** What a run has done to the grouping: who founded which group, and which inviter and redeemer were joined. */
  datatype History = History(founded: map<Id, Founding>, joined: set<(Id, Id)>)

  ghost predicate Closed(joined: set<(Id, Id)>, S: set<Id>) {
    forall p :: p in joined ==> (p.0 in S <==> p.1 in S)
  }

  /** e is in the connected component of d: in every set that contains d and is closed under the joined pairs. */
  ghost predicate Connected(joined: set<(Id, Id)>, d: Id, e: Id) {
    forall S: set<Id> :: Closed(joined, S) && d in S ==> e in S
  }

  // The pair a redemption joins, if it succeeds.
  ghost function JoinedPair(db: Db, op: Op): set<(Id, Id)> {
    if op.Redeem? && SyncGroups.Redeem(db, op.account, op.redeemer, op.mac, op.now).1.Ok? then
      var c :| OpenCode(db.codes, c, op.account, op.mac);
      {(db.codes[c].inviter, op.redeemer)}
    else {}
  }

  ghost function Founded(db: Db, op: Op): map<Id, Founding> {
    if op.Register? && SyncGroups.Register(db, op.account, op.quota, op.device, op.group, op.now).1.Ok?
    then map[op.device := Founding(op.group, op.now)]
    else if op.Enroll? && SyncGroups.Enroll(db, op.account, op.device, op.group, op.now).1.Ok?
    then map[op.device := Founding(op.group, op.now)]
    else map[]
  }

  ghost function Record(ops: seq<Op>): History
    decreases |ops|
  {
    if ops == [] then History(map[], {})
    else
      var before := Record(ops[..|ops| - 1]);
      var db := Run(EMPTY_DB, ops[..|ops| - 1]);
      var op := ops[|ops| - 1];
      History(before.founded + Founded(db, op), before.joined + JoinedPair(db, op))
  }

  predicate NotAfter(x: Founding, y: Founding) {
    x == y || Precedes(x.createdAt, x.group, y.createdAt, y.group)
  }

  /** g, with its creation time, is the least founding of d's connected component. */
  ghost predicate Canonical(h: History, d: Id, g: Founding) {
    && (exists e :: e in h.founded && Connected(h.joined, d, e) && h.founded[e] == g)
    && (forall e :: e in h.founded && Connected(h.joined, d, e) ==> NotAfter(g, h.founded[e]))
  }

  // ---- the invariant ----

  ghost predicate SameGroup(devices: map<Id, Device>, d: Id, e: Id) {
    d in devices && e in devices && devices[d].group == devices[e].group
  }

  ghost predicate JoinedOk(devices: map<Id, Device>, joined: set<(Id, Id)>) {
    && (forall p :: p in joined ==> SameGroup(devices, p.0, p.1))
    && (forall d, e :: SameGroup(devices, d, e) && devices[d].group.Some? ==> Connected(joined, d, e))
  }

  ghost predicate FoundedOk(groups: map<Id, Group>, devices: map<Id, Device>, founded: map<Id, Founding>) {
    && founded.Keys == devices.Keys
    && (forall d :: d in devices && devices[d].group.Some? ==> devices[d].group.value in groups)
    && (forall d :: d in devices && devices[d].group.Some? ==>
          NotAfter(Founding(devices[d].group.value, groups[devices[d].group.value].createdAt), founded[d]))
    && (forall g :: g in groups ==> HasFounder(groups, devices, founded, g))
  }

  ghost predicate HasFounder(groups: map<Id, Group>, devices: map<Id, Device>, founded: map<Id, Founding>, g: Id)
    requires g in groups
  {
    exists e :: e in devices && e in founded && devices[e].group == Some(g)
                && founded[e] == Founding(g, groups[g].createdAt)
  }

  ghost predicate PartitionOk(db: Db, h: History) {
    JoinedOk(db.devices, h.joined) && FoundedOk(db.groups, db.devices, h.founded)
  }

  /** The component of a device is exactly the membership of its group. */
  lemma ComponentIsGroup(devices: map<Id, Device>, joined: set<(Id, Id)>, d: Id, e: Id)
    requires JoinedOk(devices, joined) && d in devices && devices[d].group.Some?
    ensures Connected(joined, d, e) <==> SameGroup(devices, d, e)
  {
    if Connected(joined, d, e) {
      var S := Members(devices, devices[d].group.value);
      assert Closed(joined, S) && d in S;
    }
  }

  lemma GroupIsCanonical(db: Db, h: History, d: Id)
    requires PartitionOk(db, h) && d in db.devices && db.devices[d].group.Some?
    ensures var g := db.devices[d].group.value; Canonical(h, d, Founding(g, db.groups[g].createdAt))
  {
    var g := db.devices[d].group.value;
    forall e ensures Connected(h.joined, d, e) <==> SameGroup(db.devices, d, e) {
      ComponentIsGroup(db.devices, h.joined, d, e);
    }
    hide Connected;
    assert HasFounder(db.groups, db.devices, h.founded, g);
  }

  lemma SameGroupingKeeps(db: Db, after: Db, h: History)
    requires SameGrouping(db, after) && PartitionOk(db, h)
    ensures PartitionOk(after, h)
  {
    hide Connected;
    assert forall d, e :: SameGroup(after.devices, d, e) <==> SameGroup(db.devices, d, e);
    hide SameGroup;
    forall g | g in after.groups ensures HasFounder(after.groups, after.devices, h.founded, g) {
      assert HasFounder(db.groups, db.devices, h.founded, g);
    }
  }

  lemma EnrollKeepsJoined(devices: map<Id, Device>, joined: set<(Id, Id)>, d: Id, row: Device)
    requires JoinedOk(devices, joined) && d !in devices && row.group.Some?
    requires forall e :: e in devices ==> devices[e].group != row.group
    ensures JoinedOk(devices[d := row], joined)
  {
    forall x, y | SameGroup(devices[d := row], x, y) && devices[d := row][x].group.Some?
      ensures Connected(joined, x, y)
    {
      if x != y { assert SameGroup(devices, x, y); }
    }
  }

  lemma EnrollKeepsFounded(db: Db, founded: map<Id, Founding>, a: Id, d: Id, g: Id, now: int)
    requires FoundedOk(db.groups, db.devices, founded) && g !in db.groups && d !in db.devices
    ensures FoundedOk(db.groups[g := Group(a, 1, now)], db.devices[d := Device(a, Some(g), true, None)],
                      founded[d := Founding(g, now)])
  {
    var groups := db.groups[g := Group(a, 1, now)];
    var devices := db.devices[d := Device(a, Some(g), true, None)];
    var after := founded[d := Founding(g, now)];
    forall h | h in groups ensures HasFounder(groups, devices, after, h) {
      if h == g {
        assert d in devices && after[d] == Founding(g, now);
      } else {
        assert HasFounder(db.groups, db.devices, founded, h);
        var e :| e in db.devices && e in founded && db.devices[e].group == Some(h)
                 && founded[e] == Founding(h, db.groups[h].createdAt);
        assert devices[e].group == Some(h) && after[e] == founded[e];
      }
    }
  }

  /** Two groups become one, and one pair across them is joined: components merge the same way. */
  lemma MergeKeepsJoined(devices: map<Id, Device>, joined: set<(Id, Id)>, winner: Id, loser: Id, i: Id, r: Id)
    requires JoinedOk(devices, joined) && winner != loser && i in devices && r in devices
    requires devices[i].group.Some? && devices[r].group.Some?
    requires (devices[i].group == Some(winner) && devices[r].group == Some(loser))
          || (devices[i].group == Some(loser) && devices[r].group == Some(winner))
    ensures JoinedOk(MoveDevices(devices, winner, loser), joined + {(i, r)})
  {
    var after := MoveDevices(devices, winner, loser);
    var more := joined + {(i, r)};
    forall d, e | SameGroup(after, d, e) && after[d].group.Some?
      ensures Connected(more, d, e)
    {
      forall S | Closed(more, S) && d in S ensures e in S {
        assert Closed(joined, S);
        assert (i, r) in more;
        if SameGroup(devices, d, e) {
          assert Connected(joined, d, e);
        } else if SameGroup(devices, d, i) {
          assert Connected(joined, d, i) && SameGroup(devices, r, e) && Connected(joined, r, e);
        } else {
          assert SameGroup(devices, d, r) && Connected(joined, d, r) && SameGroup(devices, i, e)
                 && Connected(joined, i, e);
        }
      }
    }
  }

  lemma RejoinKeepsJoined(devices: map<Id, Device>, joined: set<(Id, Id)>, i: Id, r: Id)
    requires JoinedOk(devices, joined) && SameGroup(devices, i, r)
    ensures JoinedOk(devices, joined + {(i, r)})
  {
    var more := joined + {(i, r)};
    forall d, e | SameGroup(devices, d, e) && devices[d].group.Some? ensures Connected(more, d, e) {
      assert Connected(joined, d, e);
      forall S | Closed(more, S) && d in S ensures e in S { assert Closed(joined, S); }
    }
  }

  lemma MergeKeepsFounded(db: Db, founded: map<Id, Founding>, winner: Id, loser: Id, revision: int)
    requires FoundedOk(db.groups, db.devices, founded) && winner != loser && winner in db.groups && loser in db.groups
    requires Precedes(db.groups[winner].createdAt, winner, db.groups[loser].createdAt, loser)
    ensures FoundedOk(db.groups[winner := db.groups[winner].(revision := revision)] - {loser},
                      MoveDevices(db.devices, winner, loser), founded)
  {
    var groups := db.groups[winner := db.groups[winner].(revision := revision)] - {loser};
    var devices := MoveDevices(db.devices, winner, loser);
    forall g | g in groups ensures HasFounder(groups, devices, founded, g) {
      FounderStays(db, founded, winner, loser, revision, g);
    }
    hide HasFounder;
  }

  lemma FounderStays(db: Db, founded: map<Id, Founding>, winner: Id, loser: Id, revision: int, g: Id)
    requires winner != loser && winner in db.groups && g in db.groups && g != loser
    requires HasFounder(db.groups, db.devices, founded, g)
    ensures HasFounder(db.groups[winner := db.groups[winner].(revision := revision)] - {loser},
                       MoveDevices(db.devices, winner, loser), founded, g)
  {
    var e :| e in db.devices && e in founded && db.devices[e].group == Some(g)
             && founded[e] == Founding(g, db.groups[g].createdAt);
    assert MoveDevices(db.devices, winner, loser)[e].group == Some(g);
  }

  lemma RedeemKeepsPartition(db: Db, h: History, op: Op)
    requires op.Redeem? && MacsUnique(db.codes) && SessionsOk(db.groups, db.sessions) && PartitionOk(db, h)
    ensures PartitionOk(Apply(db, op), History(h.founded, h.joined + JoinedPair(db, op)))
  {
    hide SessionsOk, RedeemCode, MacsUnique, PartitionOk;
    if SyncGroups.Redeem(db, op.account, op.redeemer, op.mac, op.now).1.Err? {
      RedeemRefused(db, op);
      assert h.joined + {} == h.joined;
    } else {
      var c :| OpenCode(db.codes, c, op.account, op.mac) && JoinedPair(db, op) == {(db.codes[c].inviter, op.redeemer)};
      RedeemIsRedeemCode(db, op.account, op.redeemer, op.mac, op.now, c);
      RedeemCodeKeepsPartition(db, h, op.account, op.redeemer, c, op.now);
    }
  }

  lemma InvParts(db: Db)
    requires Inv(db)
    ensures MacsUnique(db.codes) && SessionsOk(db.groups, db.sessions)
  {
    hide GroupsOk, RevisionsOk, ManifestsOk, SessionsOk, BlocksOk, ReservationsOk, QuotaOk, MacsUnique;
  }

  lemma RedeemRefused(db: Db, op: Op)
    requires op.Redeem? && SyncGroups.Redeem(db, op.account, op.redeemer, op.mac, op.now).1.Err?
    ensures Apply(db, op) == db && JoinedPair(db, op) == {}
  {
    hide GroupDevices, MergeGroups;
  }

  /** The unique index makes the code that the SELECT finds unambiguous. */
  lemma RedeemIsRedeemCode(db: Db, a: Id, redeemer: Id, mac: Bytes, now: int, c: Id)
    requires MacsUnique(db.codes) && OpenCode(db.codes, c, a, mac)
    ensures SyncGroups.Redeem(db, a, redeemer, mac, now) == RedeemCode(db, a, redeemer, c, now)
  {
    hide RedeemCode;
  }

  lemma RedeemCodeKeepsPartition(db: Db, h: History, a: Id, redeemer: Id, c: Id, now: int)
    requires c in db.codes && SessionsOk(db.groups, db.sessions) && PartitionOk(db, h)
    requires RedeemCode(db, a, redeemer, c, now).1.Ok?
    ensures PartitionOk(RedeemCode(db, a, redeemer, c, now).0,
                        History(h.founded, h.joined + {(db.codes[c].inviter, redeemer)}))
  {
    Merging.RedeemPaths(db, a, redeemer, c, now);
    var (after, out) := RedeemCode(db, a, redeemer, c, now);
    hide RedeemCode, JoinedOk, FoundedOk, SessionsOk, MergeGroups;
    var i := db.codes[c].inviter;
    if out.value.alreadyJoined {
      RejoinKeepsJoined(db.devices, h.joined, i, redeemer);
    } else {
      var w, l := out.value.canonical, out.value.removed.value;
      Merging.MergeDevicesAndSessions(db, a, w, l, out.value.revision, c, now);
      MergeKeepsJoined(db.devices, h.joined, w, l, i, redeemer);
      MergeKeepsFounded(db, h.founded, w, l, out.value.revision);
    }
  }

  lemma EnrollKeepsPartition(db: Db, h: History, a: Id, d: Id, g: Id, now: int)
    requires PartitionOk(db, h) && SyncGroups.Enroll(db, a, d, g, now).1.Ok?
    ensures PartitionOk(SyncGroups.Enroll(db, a, d, g, now).0,
                        History(h.founded + map[d := Founding(g, now)], h.joined))
  {
    NewGroupIsEmpty(db, h, g);
    hide JoinedOk, FoundedOk;
    EnrollKeepsJoined(db.devices, h.joined, d, Device(a, Some(g), true, None));
    EnrollKeepsFounded(db, h.founded, a, d, g, now);
    AddFounding(h.founded, d, Founding(g, now));
  }

  lemma AddFounding(founded: map<Id, Founding>, d: Id, f: Founding)
    ensures founded + map[d := f] == founded[d := f]
  {
  }

  lemma NewGroupIsEmpty(db: Db, h: History, g: Id)
    requires FoundedOk(db.groups, db.devices, h.founded) && g !in db.groups
    ensures forall e :: e in db.devices ==> db.devices[e].group != Some(g)
  {
  }

  /** A discard takes whole components out of their groups. */
  lemma DiscardKeepsJoined(db: Db, joined: set<(Id, Id)>, a: Id, g: Id, now: int)
    requires GroupsOk(db.accounts, db.groups, db.devices) && OwnedGroup(db, g, a) && JoinedOk(db.devices, joined)
    ensures JoinedOk(Discarding.LoneDevices(db, a, g, now), joined)
  {
    Discarding.OthersAreTheOtherGroups(db, a, g);
    hide Connected, Discarding.OtherDevices, Discarding.OtherGroups;
    var after := Discarding.LoneDevices(db, a, g, now);
    forall d, e | SameGroup(db.devices, d, e) ensures SameGroup(after, d, e) {
      NotOther(db, a, g, d);
      NotOther(db, a, g, e);
    }
    forall d, e | SameGroup(after, d, e) && after[d].group.Some?
      ensures SameGroup(db.devices, d, e) && db.devices[d].group.Some?
    {}
  }

  lemma NotOther(db: Db, a: Id, g: Id, d: Id)
    ensures d in db.devices && db.devices[d].group.None? ==> d !in Discarding.OtherDevices(db, a, g)
  {
  }

  lemma DiscardKeepsFounded(db: Db, founded: map<Id, Founding>, a: Id, g: Id, now: int)
    requires GroupsOk(db.accounts, db.groups, db.devices) && OwnedGroup(db, g, a)
    requires FoundedOk(db.groups, db.devices, founded)
    ensures FoundedOk(db.groups - Discarding.OtherGroups(db, a, g), Discarding.LoneDevices(db, a, g, now), founded)
  {
    Discarding.OthersAreTheOtherGroups(db, a, g);
    hide Discarding.OtherDevices, Discarding.OtherGroups, GroupsOk;
    var groups, devices := db.groups - Discarding.OtherGroups(db, a, g), Discarding.LoneDevices(db, a, g, now);
    forall h | h in groups ensures HasFounder(groups, devices, founded, h) {
      assert HasFounder(db.groups, db.devices, founded, h);
      var e :| e in db.devices && e in founded && db.devices[e].group == Some(h)
               && founded[e] == Founding(h, db.groups[h].createdAt);
      assert devices[e].group == Some(h);
    }
  }

  lemma DiscardKeepsPartition(db: Db, h: History, a: Id, caller: Id, g: Id, revision: int, now: int)
    requires Inv(db) && PartitionOk(db, h)
    ensures PartitionOk(Discarding.DiscardGroups(db, a, caller, g, revision, now).0, h)
  {
    hide RevisionsOk, ManifestsOk, CodesOk, BlocksOk, ReservationsOk, QuotaOk, GroupsOk, SessionsOk, JoinedOk,
         FoundedOk, Discarding.OtherDevices, Discarding.OtherSessionBytes, Discarding.OtherBlocks, Discarding.Discard,
         Discarding.LoneDevices;
    if SeesRevision(db, caller, a, g, revision) {
      Discarding.DiscardEffect(db, a, g, now);
      DiscardKeepsJoined(db, h.joined, a, g, now);
      DiscardKeepsFounded(db, h.founded, a, g, now);
    }
  }

  lemma StepKeepsPartition(db: Db, h: History, op: Op)
    requires Inv(db) && PartitionOk(db, h)
    ensures PartitionOk(Apply(db, op), History(h.founded + Founded(db, op), h.joined + JoinedPair(db, op)))
  {
    hide Inv, PartitionOk, SyncGroups.Enroll, Discarding.DiscardGroups;
    assert h.joined + {} == h.joined && h.founded + map[] == h.founded;
    match op
    case Register(a, quota, d, g, now) =>
      if a !in db.accounts && quota >= 0 {
        SamePartition(db, db.(accounts := db.accounts[a := Account(quota, 0)]), h);
        RegisterIsEnroll(db, h, a, quota, d, g, now);
      }
    case Enroll(a, d, g, now) =>
      EnrollRefused(db, a, d, g, now);
      if SyncGroups.Enroll(db, a, d, g, now).1.Ok? { EnrollKeepsPartition(db, h, a, d, g, now); }
    case Redeem(_, _, _, _) =>
      InvParts(db);
      hide Apply;
      RedeemKeepsPartition(db, h, op);
    case DiscardGroups(a, caller, g, revision, now) => DiscardKeepsPartition(db, h, a, caller, g, revision, now);
    case _ =>
      OthersGrouping(db, op);
      hide Apply;
      SameGroupingKeeps(db, Apply(db, op), h);
  }

  lemma SamePartition(db: Db, after: Db, h: History)
    requires PartitionOk(db, h) && after.groups == db.groups && after.devices == db.devices
    ensures PartitionOk(after, h)
  {
    hide JoinedOk, FoundedOk;
  }

  lemma EnrollRefused(db: Db, a: Id, d: Id, g: Id, now: int)
    ensures SyncGroups.Enroll(db, a, d, g, now).1.Err? ==> SyncGroups.Enroll(db, a, d, g, now).0 == db
  {
  }

  lemma RegisterIsEnroll(db: Db, h: History, a: Id, quota: int, d: Id, g: Id, now: int)
    requires a !in db.accounts && quota >= 0
    requires PartitionOk(db.(accounts := db.accounts[a := Account(quota, 0)]), h) && PartitionOk(db, h)
    ensures var (after, out) := SyncGroups.Register(db, a, quota, d, g, now);
            PartitionOk(after, History(h.founded + (if out.Ok? then map[d := Founding(g, now)] else map[]), h.joined))
  {
    hide PartitionOk, SyncGroups.Enroll;
    var created := db.(accounts := db.accounts[a := Account(quota, 0)]);
    if SyncGroups.Enroll(created, a, d, g, now).1.Ok? {
      EnrollKeepsPartition(created, h, a, d, g, now);
    } else {
      assert h.founded + map[] == h.founded;
    }
  }

  lemma {:induction false} RunKeepsPartition(ops: seq<Op>)
    ensures PartitionOk(Run(EMPTY_DB, ops), Record(ops))
    decreases |ops|
  {
    if ops == [] {
    } else {
      hide Inv, PartitionOk, Apply, Founded, JoinedPair;
      var before := ops[..|ops| - 1];
      RunKeepsPartition(before);
      EmptyInv();
      RunKeepsInv(EMPTY_DB, before);
      StepKeepsPartition(Run(EMPTY_DB, before), Record(before), ops[|ops| - 1]);
    }
  }

  // ---- the theorems ----

  /** A device without a group is connected only to devices without a group. */
  lemma GrouplessComponent(devices: map<Id, Device>, joined: set<(Id, Id)>, d: Id, e: Id)
    requires JoinedOk(devices, joined) && d in devices && devices[d].group.None? && Connected(joined, d, e)
    ensures e in devices && devices[e].group.None?
  {
    var S := set x | x in devices && devices[x].group.None?;
    assert Closed(joined, S) && d in S;
  }

  /** After any run, discards included: two devices share a group exactly when redemptions connect them and the
      component has not been discarded; the group is the oldest founding of its component; and a discard takes
      components whole. */
  lemma GroupsAreComponents(ops: seq<Op>, d: Id)
    ensures var db, h := Run(EMPTY_DB, ops), Record(ops);
            d in db.devices ==>
              match db.devices[d].group
              case Some(g) =>
                && g in db.groups && Canonical(h, d, Founding(g, db.groups[g].createdAt))
                && (forall e :: Connected(h.joined, d, e) <==> e in db.devices && db.devices[e].group == Some(g))
              case None =>
                forall e :: Connected(h.joined, d, e) ==> e in db.devices && db.devices[e].group.None?
  {
    hide Run, Record, Canonical, Connected;
    RunKeepsPartition(ops);
    var db, h := Run(EMPTY_DB, ops), Record(ops);
    if d in db.devices {
      match db.devices[d].group
      case Some(g) =>
        GroupIsCanonical(db, h, d);
        forall e ensures Connected(h.joined, d, e) <==> SameGroup(db.devices, d, e) {
          ComponentIsGroup(db.devices, h.joined, d, e);
        }
      case None =>
        forall e | Connected(h.joined, d, e) ensures e in db.devices && db.devices[e].group.None? {
          GrouplessComponent(db.devices, h.joined, d, e);
        }
    }
  }

  ghost predicate SamePairs(x: set<(Id, Id)>, y: set<(Id, Id)>) {
    && (forall p :: p in x ==> p in y || (p.1, p.0) in y)
    && (forall p :: p in y ==> p in x || (p.1, p.0) in x)
  }

  lemma SamePairsSameComponents(x: set<(Id, Id)>, y: set<(Id, Id)>, d: Id, e: Id)
    requires SamePairs(x, y)
    ensures Connected(x, d, e) <==> Connected(y, d, e)
  {
    forall S: set<Id> ensures Closed(x, S) <==> Closed(y, S) {}
  }

  lemma CanonicalUnique(h: History, h': History, d: Id, g: Founding, g': Founding)
    requires h.founded == h'.founded && SamePairs(h.joined, h'.joined)
    requires Canonical(h, d, g) && Canonical(h', d, g')
    ensures g == g'
  {
    forall e ensures Connected(h.joined, d, e) <==> Connected(h'.joined, d, e) {
      SamePairsSameComponents(h.joined, h'.joined, d, e);
    }
    hide Connected, SamePairs;
  }

  /** Two runs with the same foundings that joined the same pairs, in any order and either direction and with any
      discards, put a device that has a group in both in the same group. */
  lemma MergeOrderIrrelevant(ops: seq<Op>, ops': seq<Op>, d: Id)
    requires Record(ops).founded == Record(ops').founded && SamePairs(Record(ops).joined, Record(ops').joined)
    ensures var x, y := Run(EMPTY_DB, ops).devices, Run(EMPTY_DB, ops').devices;
            d in x && d in y && x[d].group.Some? && y[d].group.Some? ==> x[d].group == y[d].group
  {
    hide Canonical, Run, Record, Connected, SamePairs;
    GroupsAreComponents(ops, d);
    GroupsAreComponents(ops', d);
    var db, db' := Run(EMPTY_DB, ops), Run(EMPTY_DB, ops');
    if d in db.devices && d in db'.devices && db.devices[d].group.Some? && db'.devices[d].group.Some? {
      var g, g' := db.devices[d].group.value, db'.devices[d].group.value;
      CanonicalUnique(Record(ops), Record(ops'), d, Founding(g, db.groups[g].createdAt),
                      Founding(g', db'.groups[g'].createdAt));
    }
  }
}
