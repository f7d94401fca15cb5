/** Discarding every other sync group of the account (internal/db/queries.go, DiscardOtherGroups). */
module Discarding {
  import opened Tables
  import opened Totals
  import opened Integrity
  import opened SyncGroups
  import opened Release

  // `account_id = a AND sync_group_id <> g`: NULL groups do not match.
  function OtherDevices(db: Db, a: Id, g: Id): set<Id> {
    set d | d in db.devices && db.devices[d].account == a && db.devices[d].group.Some? && db.devices[d].group.value != g
  }

  function OtherGroups(db: Db, a: Id, g: Id): set<Id> {
    set h | h in db.groups && db.groups[h].account == a && h != g
  }

  function OtherSessions(db: Db, a: Id, g: Id): set<(Id, string)> {
    set k | k in db.sessions && k.0 == a && db.sessions[k].group != g
  }

  ghost function OtherSessionBytes(db: Db, a: Id, g: Id): nat {
    Total(SessionSizes(db.sessions, OtherSessions(db, a, g)))
  }

  function SessionSizes(sessions: map<(Id, string), Session>, keys: set<(Id, string)>): map<(Id, string), nat> {
    map k | k in keys && k in sessions :: |sessions[k].ciphertext|
  }

  function OtherBlocks(db: Db, a: Id, g: Id): set<Digest> {
    set p | p in db.deviceBlocks && p.0 in OtherDevices(db, a, g) :: p.1
  }

  datatype Discarded = Discarded(revoked: set<Id>, candidates: set<Digest>, sessionBytes: nat)

  function RevokeAll(devices: map<Id, Device>, others: set<Id>, now: int): map<Id, Device> {
    map d | d in devices :: if d in others then RevokeRow(devices[d], now) else devices[d]
  }

  // The statements of the first transaction up to the cascading DELETE.
  function Discard(db: Db, a: Id, g: Id, now: int): Db {
    DeleteGroups(DropDevices(db, OtherDevices(db, a, g), now), OtherGroups(db, a, g))
  }

  // Manifests, heads and block rows of the devices go; the devices stay, revoked.
  function DropDevices(db: Db, others: set<Id>, now: int): Db {
    db.(manifests := map k | k in db.manifests && k.0 !in others :: db.manifests[k],
        heads := map d | d in db.heads && d !in others :: db.heads[d],
        deviceBlocks := (set p | p in db.deviceBlocks && p.0 !in others),
        devices := RevokeAll(db.devices, others, now))
  }

  // The first transaction of DiscardOtherGroups.
  ghost function DiscardGroups(db: Db, a: Id, caller: Id, g: Id, revision: int, now: int): (Db, Outcome<Discarded>) {
    if !SeesRevision(db, caller, a, g, revision) then (db, Err(GroupChanged))
    else if OtherDevices(db, a, g) == {} then (db, Ok(Discarded({}, {}, 0)))
    else
      var bytes := OtherSessionBytes(db, a, g);
      var out := Discarded(OtherDevices(db, a, g), OtherBlocks(db, a, g), bytes);
      var after := Discard(db, a, g, now);
      if bytes == 0 || a !in db.accounts then (after, Ok(out))
      else if db.accounts[a].used - bytes < 0 then (db, Err(Constraint))
      else (after.(accounts := Discharge(db.accounts, a, bytes)), Ok(out))
  }

  // ---- invariants ----

  /** The devices as the discard leaves them: the others are revoked and in no group. */
  function LoneDevices(db: Db, a: Id, g: Id, now: int): map<Id, Device> {
    map d | d in db.devices ::
      if d in OtherDevices(db, a, g) then RevokeRow(db.devices[d], now).(group := None) else db.devices[d]
  }

  lemma OthersAreTheOtherGroups(db: Db, a: Id, g: Id)
    requires GroupsOk(db.accounts, db.groups, db.devices) && OwnedGroup(db, g, a)
    ensures forall d :: d in db.devices && db.devices[d].group.Some? ==>
              (d in OtherDevices(db, a, g) <==> db.devices[d].group.value in OtherGroups(db, a, g))
  {
  }

  lemma DiscardEffect(db: Db, a: Id, g: Id, now: int)
    requires GroupsOk(db.accounts, db.groups, db.devices) && SessionsOk(db.groups, db.sessions) && OwnedGroup(db, g, a)
    ensures var after := Discard(db, a, g, now);
            && after.groups == db.groups - OtherGroups(db, a, g)
            && after.devices == LoneDevices(db, a, g, now)
            && after.sessions == db.sessions - OtherSessions(db, a, g)
            && after.accounts == db.accounts && after.objects == db.objects
            && after.accountBlocks == db.accountBlocks && after.reservations == db.reservations
            && after.heads == db.heads - OtherDevices(db, a, g)
            && after.manifests == (map k | k in db.manifests && k.0 !in OtherDevices(db, a, g) :: db.manifests[k])
            && after.deviceBlocks == (set p | p in db.deviceBlocks && p.0 !in OtherDevices(db, a, g))
            && after.codes == (map c | c in db.codes && db.codes[c].group !in OtherGroups(db, a, g) :: db.codes[c])
  {
    OthersAreTheOtherGroups(db, a, g);
    DiscardedSessions(db, a, g);
    hide OtherDevices, OtherGroups, OtherSessions, GroupsOk, SessionsOk;
  }

  lemma DiscardedSessions(db: Db, a: Id, g: Id)
    requires SessionsOk(db.groups, db.sessions) && OwnedGroup(db, g, a)
    ensures forall k :: k in db.sessions ==>
              (k in OtherSessions(db, a, g) <==> db.sessions[k].group in OtherGroups(db, a, g))
  {
  }

  lemma DiscardKeepsGroups(db: Db, a: Id, g: Id, now: int)
    requires GroupsOk(db.accounts, db.groups, db.devices) && OwnedGroup(db, g, a)
    ensures GroupsOk(db.accounts, db.groups - OtherGroups(db, a, g), LoneDevices(db, a, g, now))
  {
    OthersAreTheOtherGroups(db, a, g);
    hide OtherDevices, OtherGroups;
  }

  lemma DiscardKeepsRevisions(db: Db, a: Id, g: Id, now: int)
    requires GroupsOk(db.accounts, db.groups, db.devices) && OwnedGroup(db, g, a) && RevisionsOk(db.groups, db.devices)
    ensures RevisionsOk(db.groups - OtherGroups(db, a, g), LoneDevices(db, a, g, now))
  {
    OthersAreTheOtherGroups(db, a, g);
    hide OtherDevices, OtherGroups;
    forall h | h in db.groups && h !in OtherGroups(db, a, g)
      ensures Members(LoneDevices(db, a, g, now), h) == Members(db.devices, h)
    {
    }
    hide GroupsOk, Members, Pow2, LoneDevices;
  }

  lemma DiscardKeepsManifests(db: Db, a: Id, g: Id, now: int)
    requires ManifestsOk(db.devices, db.heads, db.manifests)
    ensures ManifestsOk(LoneDevices(db, a, g, now), db.heads - OtherDevices(db, a, g),
                        map k | k in db.manifests && k.0 !in OtherDevices(db, a, g) :: db.manifests[k])
  {
    hide OtherDevices;
  }

  lemma DiscardKeepsCodes(db: Db, a: Id, g: Id, now: int)
    requires GroupsOk(db.accounts, db.groups, db.devices) && OwnedGroup(db, g, a)
    requires CodesOk(db.groups, db.devices, db.codes)
    ensures CodesOk(db.groups - OtherGroups(db, a, g), LoneDevices(db, a, g, now),
                    map c | c in db.codes && db.codes[c].group !in OtherGroups(db, a, g) :: db.codes[c])
  {
    var after := map c | c in db.codes && db.codes[c].group !in OtherGroups(db, a, g) :: db.codes[c];
    FewerCodesOk(db, after);
    OthersAreTheOtherGroups(db, a, g);
    hide OtherDevices, OtherGroups, GroupsOk, MacsUnique, InvitersUnique;
  }

  lemma FewerCodesOk(db: Db, kept: map<Id, Code>)
    requires CodesOk(db.groups, db.devices, db.codes)
    requires forall c :: c in kept ==> c in db.codes && kept[c] == db.codes[c]
    ensures CodesOk(db.groups, db.devices, kept)
  {
    assert forall c :: Unconsumed(kept, c) ==> Unconsumed(db.codes, c);
  }

  lemma DiscardKeepsBlocks(db: Db, a: Id, g: Id, now: int)
    requires BlocksOk(db.accounts, db.devices, db.objects, db.accountBlocks, db.deviceBlocks)
    ensures BlocksOk(db.accounts, LoneDevices(db, a, g, now), db.objects, db.accountBlocks,
                     set p | p in db.deviceBlocks && p.0 !in OtherDevices(db, a, g))
  {
    hide OtherDevices, ObjectsOk;
  }

  lemma DiscardKeepsReservations(db: Db, a: Id, g: Id, now: int)
    requires ReservationsOk(db.accounts, db.devices, db.objects, db.reservations)
    ensures ReservationsOk(db.accounts, LoneDevices(db, a, g, now), db.objects, db.reservations)
  {
    hide OtherDevices, ReservationsUnique;
  }

  /** The bytes summed before the cascade are exactly the charges of the rows the cascade removes. */
  lemma DiscardedCharges(db: Db, a: Id, g: Id, x: Id)
    ensures Total(SessionCharges(db.sessions - OtherSessions(db, a, g), x))
            + (if x == a then OtherSessionBytes(db, a, g) else 0)
         == Total(SessionCharges(db.sessions, x))
  {
    var gone := OtherSessions(db, a, g);
    var all := SessionCharges(db.sessions, x);
    if x == a {
      TotalSplit(all, gone);
      assert all - gone == SessionCharges(db.sessions - gone, x);
      assert (map k | k in gone :: all[k]) == SessionSizes(db.sessions, gone);
    } else {
      assert all == SessionCharges(db.sessions - gone, x);
    }
  }

  lemma DiscardKeepsQuota(db: Db, a: Id, g: Id)
    requires QuotaOk(db.accounts, db.accountBlocks, db.sessions, db.reservations) && a in db.accounts
    ensures OtherSessionBytes(db, a, g) <= db.accounts[a].used
    ensures QuotaOk(Discharge(db.accounts, a, OtherSessionBytes(db, a, g)), db.accountBlocks,
                    db.sessions - OtherSessions(db, a, g), db.reservations)
  {
    hide Total, BlockCharges, SessionCharges, PendingCharges, OtherSessions, OtherSessionBytes;
    var accounts := Discharge(db.accounts, a, OtherSessionBytes(db, a, g));
    forall x | x in accounts
      ensures AccountQuotaOk(accounts[x], x, db.accountBlocks, db.sessions - OtherSessions(db, a, g), db.reservations)
    {
      assert AccountQuotaOk(db.accounts[x], x, db.accountBlocks, db.sessions, db.reservations);
      DiscardedCharges(db, a, g, x);
    }
    assert AccountQuotaOk(db.accounts[a], a, db.accountBlocks, db.sessions, db.reservations);
    DiscardedCharges(db, a, g, a);
  }

  lemma DischargeKeepsRows(db: Db, a: Id, bytes: nat)
    requires a in db.accounts
    requires GroupsOk(db.accounts, db.groups, db.devices)
    requires BlocksOk(db.accounts, db.devices, db.objects, db.accountBlocks, db.deviceBlocks)
    requires ReservationsOk(db.accounts, db.devices, db.objects, db.reservations)
    ensures var accounts := Discharge(db.accounts, a, bytes);
            && GroupsOk(accounts, db.groups, db.devices)
            && BlocksOk(accounts, db.devices, db.objects, db.accountBlocks, db.deviceBlocks)
            && ReservationsOk(accounts, db.devices, db.objects, db.reservations)
  {
    hide ObjectsOk, ReservationsUnique;
  }

  lemma DiscardKeepsSessions(db: Db, a: Id, g: Id)
    requires SessionsOk(db.groups, db.sessions) && OwnedGroup(db, g, a)
    ensures SessionsOk(db.groups - OtherGroups(db, a, g), db.sessions - OtherSessions(db, a, g))
  {
    DiscardedSessions(db, a, g);
    hide OtherGroups, OtherSessions;
  }

  /** The whole first transaction in a reachable state: the CHECK on used_bytes cannot fail, and one formula covers
      the case of no session bytes. */
  lemma DiscardGroupsEffect(db: Db, a: Id, caller: Id, g: Id, revision: int, now: int)
    requires Inv(db) && SeesRevision(db, caller, a, g, revision) && OtherDevices(db, a, g) != {}
    ensures a in db.accounts && DiscardGroups(db, a, caller, g, revision, now).1.Ok?
    ensures OtherSessionBytes(db, a, g) <= db.accounts[a].used
    ensures DiscardGroups(db, a, caller, g, revision, now).0
         == Discard(db, a, g, now).(accounts := Discharge(db.accounts, a, OtherSessionBytes(db, a, g)))
  {
    hide RevisionsOk, ManifestsOk, CodesOk, BlocksOk, ReservationsOk, QuotaOk, OtherSessionBytes, OtherDevices,
         OtherBlocks, Discard, SessionsOk;
    assert a in db.accounts;
    DiscardKeepsQuota(db, a, g);
    DiscardKeepsAccounts(db, a, g, now);
    assert OtherSessionBytes(db, a, g) == 0 ==> Discharge(db.accounts, a, 0) == db.accounts;
  }

  lemma DiscardKeepsAccounts(db: Db, a: Id, g: Id, now: int)
    ensures Discard(db, a, g, now).accounts == db.accounts
  {
  }

  lemma DiscardGroupsKeepsInv(db: Db, a: Id, caller: Id, g: Id, revision: int, now: int)
    requires Inv(db)
    ensures Inv(DiscardGroups(db, a, caller, g, revision, now).0)
  {
    hide GroupsOk, RevisionsOk, ManifestsOk, CodesOk, SessionsOk, BlocksOk, ReservationsOk, QuotaOk,
         OtherDevices, OtherGroups, OtherSessions, OtherSessionBytes, OtherBlocks, Discard, LoneDevices, Discharge;
    if SeesRevision(db, caller, a, g, revision) && OtherDevices(db, a, g) != {} {
      DiscardGroupsEffect(db, a, caller, g, revision, now);
      DiscardEffect(db, a, g, now);
      DiscardKeepsGroups(db, a, g, now);
      DiscardKeepsRevisions(db, a, g, now);
      DiscardKeepsManifests(db, a, g, now);
      DiscardKeepsCodes(db, a, g, now);
      DiscardKeepsSessions(db, a, g);
      DiscardKeepsBlocks(db, a, g, now);
      DiscardKeepsReservations(db, a, g, now);
      DiscardKeepsQuota(db, a, g);
      DischargeKeepsRows(Discard(db, a, g, now), a, OtherSessionBytes(db, a, g));
    }
  }

  // ---- exactness ----

  // HasOtherSyncData
  ghost predicate HasOtherSyncData(db: Db, a: Id, g: Id) {
    || (exists d :: d in OtherDevices(db, a, g) && d in db.heads && db.heads[d] > 0)
    || (exists p :: p in db.deviceBlocks && p.0 in OtherDevices(db, a, g))
    || (exists k :: k in OtherSessions(db, a, g))
  }

  ghost predicate OnlyGroup(db: Db, a: Id, g: Id) {
    && (forall h :: OwnedGroup(db, h, a) <==> h == g)
    && (forall d :: InAccount(db, d, a) ==>
          db.devices[d].group == Some(g) || (db.devices[d].group.None? && !db.devices[d].active))
  }

  /** Devices and groups outside the discarded ones are as they were, and so is every row that does not belong to
      one. */
  ghost predicate OthersKept(db: Db, after: Db, a: Id, g: Id) {
    && (forall d :: d in db.devices && (db.devices[d].account != a || db.devices[d].group == Some(g)) ==>
          d in after.devices && after.devices[d] == db.devices[d])
    && (forall h :: h in db.groups && (db.groups[h].account != a || h == g) ==>
          h in after.groups && after.groups[h] == db.groups[h])
    && (forall k :: k in after.sessions <==> k in db.sessions && (k.0 != a || db.sessions[k].group == g))
    && (forall k :: k in after.sessions ==> after.sessions[k] == db.sessions[k])
    && after.heads == db.heads - OtherDevices(db, a, g)
    && after.manifests == (map k | k in db.manifests && k.0 !in OtherDevices(db, a, g) :: db.manifests[k])
    && after.deviceBlocks == (set p | p in db.deviceBlocks && p.0 !in OtherDevices(db, a, g))
    && after.codes == (map c | c in db.codes && db.codes[c].group !in OtherGroups(db, a, g) :: db.codes[c])
    && after.objects == db.objects && after.accountBlocks == db.accountBlocks && after.reservations == db.reservations
    && (forall x :: x in db.accounts && x != a ==> x in after.accounts && after.accounts[x] == db.accounts[x])
  }

  lemma NoOtherDevicesNoOtherGroups(db: Db, a: Id, g: Id)
    requires GroupsOk(db.accounts, db.groups, db.devices) && RevisionsOk(db.groups, db.devices) && OwnedGroup(db, g, a)
    requires OtherDevices(db, a, g) == {}
    ensures OtherGroups(db, a, g) == {}
  {
    forall h | h in OtherGroups(db, a, g) ensures false {
      var d := MemberOfOther(db, a, g, h);
    }
  }

  lemma MemberOfOther(db: Db, a: Id, g: Id, h: Id) returns (d: Id)
    requires GroupsOk(db.accounts, db.groups, db.devices) && RevisionsOk(db.groups, db.devices)
    requires h in OtherGroups(db, a, g)
    ensures d in OtherDevices(db, a, g)
  {
    d :| d in Members(db.devices, h);
  }

  lemma DiscardLeaves(db: Db, a: Id, g: Id, now: int)
    requires GroupsOk(db.accounts, db.groups, db.devices) && SessionsOk(db.groups, db.sessions) && OwnedGroup(db, g, a)
    ensures OnlyGroup(Discard(db, a, g, now), a, g) && OthersKept(db, Discard(db, a, g, now), a, g)
  {
    DiscardEffect(db, a, g, now);
    hide Discard;
  }

  lemma OnlyGroupHasNoOtherData(db: Db, a: Id, g: Id)
    requires OnlyGroup(db, a, g) && SessionsOk(db.groups, db.sessions)
    ensures !HasOtherSyncData(db, a, g)
  {
    assert OtherDevices(db, a, g) == {};
    forall k | k in OtherSessions(db, a, g) ensures false {
      assert OwnedGroup(db, db.sessions[k].group, a);
    }
  }

  lemma AlreadyAlone(db: Db, a: Id, g: Id)
    requires Inv(db) && OwnedGroup(db, g, a) && OtherDevices(db, a, g) == {}
    ensures OnlyGroup(db, a, g) && OthersKept(db, db, a, g) && OtherSessionBytes(db, a, g) == 0
  {
    hide ManifestsOk, CodesOk, BlocksOk, ReservationsOk, QuotaOk;
    NoOtherDevicesNoOtherGroups(db, a, g);
    hide RevisionsOk;
    forall h ensures OwnedGroup(db, h, a) <==> h == g {
      assert OwnedGroup(db, h, a) && h != g ==> h in OtherGroups(db, a, g);
    }
    forall d | InAccount(db, d, a) && db.devices[d].group != Some(g) ensures db.devices[d].group.None? {
      assert db.devices[d].group.Some? ==> d in OtherDevices(db, a, g);
    }
    forall k | k in db.sessions && k.0 == a ensures db.sessions[k].group == g {
      assert OwnedGroup(db, db.sessions[k].group, a);
    }
    assert OtherSessions(db, a, g) == {};
    assert SessionSizes(db.sessions, {}) == map[];
  }

  lemma DischargedOthersKept(db: Db, mid: Db, a: Id, g: Id, bytes: nat)
    requires OthersKept(db, mid, a, g) && a in mid.accounts
    ensures OthersKept(db, mid.(accounts := Discharge(mid.accounts, a, bytes)), a, g)
  {
  }

  lemma DiscardOutcome(db: Db, a: Id, caller: Id, g: Id, revision: int, now: int)
    requires Inv(db)
    ensures var out := DiscardGroups(db, a, caller, g, revision, now).1;
            && (out.Ok? <==> SeesRevision(db, caller, a, g, revision))
            && (out.Err? ==> out.error == GroupChanged)
            && (out.Ok? && OtherDevices(db, a, g) != {} ==>
                  out.value == Discarded(OtherDevices(db, a, g), OtherBlocks(db, a, g), OtherSessionBytes(db, a, g)))
            && (out.Ok? && OtherDevices(db, a, g) == {} ==> out.value == Discarded({}, {}, 0))
  {
    hide Inv, OtherDevices, OtherBlocks, OtherSessionBytes, Discard;
    if SeesRevision(db, caller, a, g, revision) && OtherDevices(db, a, g) != {} {
      DiscardGroupsEffect(db, a, caller, g, revision, now);
    }
  }

  lemma DiscardLeavesInv(db: Db, a: Id, g: Id, now: int)
    requires Inv(db) && OwnedGroup(db, g, a)
    ensures OnlyGroup(Discard(db, a, g, now), a, g) && OthersKept(db, Discard(db, a, g, now), a, g)
    ensures Discard(db, a, g, now).accountBlocks == db.accountBlocks
  {
    hide RevisionsOk, ManifestsOk, CodesOk, BlocksOk, ReservationsOk, QuotaOk, OnlyGroup, OthersKept, GroupsOk,
         SessionsOk;
    DiscardLeaves(db, a, g, now);
  }

  ghost predicate Exact(db: Db, after: Db, a: Id, g: Id) {
    && OnlyGroup(after, a, g) && OthersKept(db, after, a, g)
    && a in db.accounts && a in after.accounts
    && after.accounts[a].used == db.accounts[a].used - OtherSessionBytes(db, a, g)
    && after.accountBlocks == db.accountBlocks
  }

  lemma AloneIsExact(db: Db, a: Id, g: Id)
    requires Inv(db) && OwnedGroup(db, g, a) && OtherDevices(db, a, g) == {}
    ensures Exact(db, db, a, g)
    ensures OtherDevices(db, a, g) == {} && OtherBlocks(db, a, g) == {} && OtherSessionBytes(db, a, g) == 0
  {
    GroupHasAccount(db, a, g);
    AlreadyAlone(db, a, g);
    hide Inv, OnlyGroup, OthersKept, OtherSessionBytes;
  }

  lemma OthersDiscardedIsExact(db: Db, a: Id, caller: Id, g: Id, revision: int, now: int)
    requires Inv(db) && SeesRevision(db, caller, a, g, revision) && OtherDevices(db, a, g) != {}
    ensures Exact(db, DiscardGroups(db, a, caller, g, revision, now).0, a, g)
  {
    hide Inv, OnlyGroup, OthersKept, OtherSessionBytes, OtherDevices, OtherBlocks, Discard, DiscardGroups;
    DiscardGroupsEffect(db, a, caller, g, revision, now);
    DiscardLeavesInv(db, a, g, now);
    DiscardKeepsAccounts(db, a, g, now);
    var mid := Discard(db, a, g, now);
    DischargedOthersKept(db, mid, a, g, OtherSessionBytes(db, a, g));
    DischargedOnlyGroup(mid, a, g, Discharge(mid.accounts, a, OtherSessionBytes(db, a, g)));
  }

  lemma DischargedOnlyGroup(db: Db, a: Id, g: Id, accounts: map<Id, Account>)
    requires OnlyGroup(db, a, g)
    ensures OnlyGroup(db.(accounts := accounts), a, g)
  {
    assert forall h :: OwnedGroup(db.(accounts := accounts), h, a) <==> OwnedGroup(db, h, a);
    assert forall d :: InAccount(db.(accounts := accounts), d, a) <==> InAccount(db, d, a);
  }

  /** After a successful discard only the caller's group remains, all other devices are revoked and in no group,
      there is no other sync data, the rest of the store is as it was, and the counter fell by exactly the session
      bytes removed. */
  lemma DiscardIsExact(db: Db, a: Id, caller: Id, g: Id, revision: int, now: int)
    requires Inv(db) && SeesRevision(db, caller, a, g, revision)
    ensures var (after, out) := DiscardGroups(db, a, caller, g, revision, now);
            && Exact(db, after, a, g) && !HasOtherSyncData(after, a, g)
            && out == Ok(Discarded(OtherDevices(db, a, g), OtherBlocks(db, a, g), OtherSessionBytes(db, a, g)))
  {
    var (after, out) := DiscardGroups(db, a, caller, g, revision, now);
    DiscardOutcome(db, a, caller, g, revision, now);
    DiscardGroupsKeepsInv(db, a, caller, g, revision, now);
    InvSessions(after);
    hide Inv, OtherSessionBytes, Discard, OtherBlocks, OtherDevices, HasOtherSyncData, OnlyGroup, OthersKept,
         SessionsOk;
    if OtherDevices(db, a, g) == {} {
      AloneIsExact(db, a, g);
    } else {
      hide DiscardGroups;
      OthersDiscardedIsExact(db, a, caller, g, revision, now);
    }
    OnlyGroupHasNoOtherData(after, a, g);
  }

  lemma DiscardAccounts(db: Db, a: Id, caller: Id, g: Id, revision: int, now: int)
    ensures var after := DiscardGroups(db, a, caller, g, revision, now).0;
            || after.accounts == db.accounts
            || (a in db.accounts && after.accounts == Discharge(db.accounts, a, OtherSessionBytes(db, a, g)))
  {
    DiscardKeepsAccounts(db, a, g, now);
    hide Discard, OtherDevices, OtherBlocks, OtherSessionBytes, Discharge, SeesRevision;
  }

  lemma GroupHasAccount(db: Db, a: Id, g: Id)
    requires Inv(db) && OwnedGroup(db, g, a)
    ensures a in db.accounts
  {
    hide RevisionsOk, ManifestsOk, CodesOk, SessionsOk, BlocksOk, ReservationsOk, QuotaOk;
  }

  lemma InvSessions(db: Db)
    requires Inv(db)
    ensures SessionsOk(db.groups, db.sessions)
  {
    hide GroupsOk, RevisionsOk, ManifestsOk, CodesOk, SessionsOk, BlocksOk, ReservationsOk, QuotaOk;
  }
}
