/** Redeeming a sync code merges two groups: what the merge keeps and what it conserves. */
module Merging {
  import opened Tables
  import opened Totals
  import opened Integrity
  import opened SyncGroups

  /** The facts RedeemCode has established when it reaches the merge. */
  ghost predicate MergeReady(db: Db, a: Id, winner: Id, loser: Id, c: Id) {
    && winner != loser && OwnedGroup(db, winner, a) && OwnedGroup(db, loser, a)
    && Unconsumed(db.codes, c) && (db.codes[c].group == winner || db.codes[c].group == loser)
  }

  function MergedCodes(codes: map<Id, Code>, winner: Id, loser: Id, c: Id, now: int): map<Id, Code>
    requires c in codes
  {
    var moved := ConsumeCode(MoveCodes(codes, winner, loser), c, now);
    map x | x in moved && moved[x].group != loser :: moved[x]
  }

  lemma MergeDevicesAndSessions(db: Db, a: Id, winner: Id, loser: Id, revision: int, c: Id, now: int)
    requires MergeReady(db, a, winner, loser, c) && SessionsOk(db.groups, db.sessions)
    ensures var after := MergeGroups(db, a, winner, loser, revision, c, now);
            && after.devices == MoveDevices(db.devices, winner, loser)
            && after.sessions == MoveSessions(db.sessions, a, winner, loser)
            && after.groups == db.groups[winner := db.groups[winner].(revision := revision)] - {loser}
            && after.codes == MergedCodes(db.codes, winner, loser, c, now)
            && after.accounts == db.accounts && after.heads == db.heads && after.manifests == db.manifests
            && after.objects == db.objects && after.accountBlocks == db.accountBlocks
            && after.deviceBlocks == db.deviceBlocks && after.reservations == db.reservations
  {
    hide MoveCodes, ConsumeCode;
  }

  lemma MovedMembers(devices: map<Id, Device>, winner: Id, loser: Id)
    requires winner != loser
    ensures Members(MoveDevices(devices, winner, loser), winner) == Members(devices, winner) + Members(devices, loser)
    ensures |Members(MoveDevices(devices, winner, loser), winner)|
            == |Members(devices, winner)| + |Members(devices, loser)|
    ensures forall g :: g != winner && g != loser ==>
              Members(MoveDevices(devices, winner, loser), g) == Members(devices, g)
  {
    assert Members(devices, winner) !! Members(devices, loser);
  }

  lemma {:induction false} Pow2Monotone(m: nat, n: nat)
    requires m <= n
    ensures Pow2(m) <= Pow2(n)
  {
    if m < n { Pow2Monotone(m, n - 1); }
  }

  /** One merge step of the bound r <= n <= 2^(r-1). */
  lemma MergeKeepsBounds(r1: int, n1: int, r2: int, n2: int)
    requires 1 <= r1 <= n1 <= Pow2(r1 - 1) && 1 <= r2 <= n2 <= Pow2(r2 - 1)
    ensures var r := (if r1 < r2 then r2 else r1) + 1; 1 <= r <= n1 + n2 <= Pow2(r - 1)
  {
    var r := (if r1 < r2 then r2 else r1) + 1;
    Pow2Monotone(r1 - 1, r - 2);
    Pow2Monotone(r2 - 1, r - 2);
  }

  function NextRevision(r1: int, r2: int): int {
    (if r1 < r2 then r2 else r1) + 1
  }

  lemma MergeKeepsRevisions(db: Db, winner: Id, loser: Id, revision: int)
    requires RevisionsOk(db.groups, db.devices) && winner != loser && winner in db.groups && loser in db.groups
    requires revision == NextRevision(db.groups[winner].revision, db.groups[loser].revision)
    ensures RevisionsOk(db.groups[winner := db.groups[winner].(revision := revision)] - {loser},
                        MoveDevices(db.devices, winner, loser))
  {
    hide MoveDevices, Members, Pow2;
    MovedMembers(db.devices, winner, loser);
    MergeKeepsBounds(db.groups[winner].revision, |Members(db.devices, winner)|,
                     db.groups[loser].revision, |Members(db.devices, loser)|);
  }

  lemma MergeKeepsGroups(db: Db, a: Id, winner: Id, loser: Id, revision: int)
    requires GroupsOk(db.accounts, db.groups, db.devices)
    requires winner != loser && OwnedGroup(db, winner, a) && OwnedGroup(db, loser, a)
    ensures GroupsOk(db.accounts, db.groups[winner := db.groups[winner].(revision := revision)] - {loser},
                     MoveDevices(db.devices, winner, loser))
    ensures SameShape(db.devices, MoveDevices(db.devices, winner, loser))
  {
  }

  lemma MergeKeepsSessions(db: Db, a: Id, winner: Id, loser: Id, revision: int)
    requires SessionsOk(db.groups, db.sessions)
    requires winner != loser && OwnedGroup(db, winner, a) && OwnedGroup(db, loser, a)
    ensures SessionsOk(db.groups[winner := db.groups[winner].(revision := revision)] - {loser},
                       MoveSessions(db.sessions, a, winner, loser))
  {
  }

  lemma MovedCharges(sessions: map<(Id, string), Session>, a: Id, winner: Id, loser: Id, x: Id)
    ensures SessionCharges(MoveSessions(sessions, a, winner, loser), x) == SessionCharges(sessions, x)
  {
  }

  lemma MergeKeepsQuota(db: Db, a: Id, winner: Id, loser: Id)
    requires QuotaOk(db.accounts, db.accountBlocks, db.sessions, db.reservations)
    ensures QuotaOk(db.accounts, db.accountBlocks, MoveSessions(db.sessions, a, winner, loser), db.reservations)
  {
    hide Total, BlockCharges, SessionCharges, PendingCharges, MoveSessions;
    var moved := MoveSessions(db.sessions, a, winner, loser);
    forall x | x in db.accounts
      ensures AccountQuotaOk(db.accounts[x], x, db.accountBlocks, moved, db.reservations)
    {
      assert AccountQuotaOk(db.accounts[x], x, db.accountBlocks, db.sessions, db.reservations);
      MovedCharges(db.sessions, a, winner, loser, x);
    }
  }

  /** The open codes after the merge are the open codes before it, except the redeemed one; no open code is cascaded. */
  lemma MergedOpenCodes(codes: map<Id, Code>, winner: Id, loser: Id, c: Id, now: int)
    requires winner != loser && Unconsumed(codes, c)
    ensures var after := MergedCodes(codes, winner, loser, c, now);
            && (forall x :: Unconsumed(after, x) <==> Unconsumed(codes, x) && x != c)
            && (forall x :: Unconsumed(after, x) ==>
                  after[x] == if codes[x].group == loser then codes[x].(group := winner) else codes[x])
            && (forall x :: x in after ==> x in codes && after[x].inviter == codes[x].inviter)
            && (forall x :: x in after ==> after[x].group == if codes[x].group == loser then winner else codes[x].group)
  {
  }

  lemma MergeKeepsCodes(db: Db, a: Id, winner: Id, loser: Id, revision: int, c: Id, now: int)
    requires MergeReady(db, a, winner, loser, c) && CodesOk(db.groups, db.devices, db.codes)
    ensures CodesOk(db.groups[winner := db.groups[winner].(revision := revision)] - {loser},
                    MoveDevices(db.devices, winner, loser), MergedCodes(db.codes, winner, loser, c, now))
  {
    MergedCodesFollow(db.devices, db.codes, winner, loser, c, now) by { hide MacsUnique, InvitersUnique; }
    MergedCodesUnique(db.codes, winner, loser, c, now);
    MergedCodesStay(db, winner, loser, revision, c, now);
    hide MergedCodes, MacsUnique, InvitersUnique, MoveDevices, Unconsumed, OwnedGroup;
  }

  lemma MergedCodesStay(db: Db, winner: Id, loser: Id, revision: int, c: Id, now: int)
    requires winner != loser && winner in db.groups && Unconsumed(db.codes, c)
    requires forall x :: x in db.codes ==> db.codes[x].group in db.groups && db.codes[x].inviter in db.devices
    ensures var after := MergedCodes(db.codes, winner, loser, c, now);
            forall x :: x in after ==>
              && after[x].group in db.groups[winner := db.groups[winner].(revision := revision)] - {loser}
              && after[x].inviter in MoveDevices(db.devices, winner, loser)
  {
    MergedOpenCodes(db.codes, winner, loser, c, now);
    hide MergedCodes;
  }

  /** An open code still names its inviter's group: both moved, or neither. */
  lemma MergedCodesFollow(devices: map<Id, Device>, codes: map<Id, Code>, winner: Id, loser: Id, c: Id, now: int)
    requires winner != loser && Unconsumed(codes, c)
    requires forall x :: x in codes ==> codes[x].inviter in devices
    requires forall x :: Unconsumed(codes, x) ==>
               devices[codes[x].inviter].group == Some(codes[x].group)
               && devices[codes[x].inviter].account == codes[x].account
    ensures var after, moved := MergedCodes(codes, winner, loser, c, now), MoveDevices(devices, winner, loser);
            && moved.Keys == devices.Keys
            && forall x :: Unconsumed(after, x) ==>
                 moved[after[x].inviter].group == Some(after[x].group)
                 && moved[after[x].inviter].account == after[x].account
  {
    MergedOpenCodes(codes, winner, loser, c, now);
    hide MergedCodes;
  }

  lemma MergedCodesUnique(codes: map<Id, Code>, winner: Id, loser: Id, c: Id, now: int)
    requires winner != loser && Unconsumed(codes, c) && MacsUnique(codes) && InvitersUnique(codes)
    ensures MacsUnique(MergedCodes(codes, winner, loser, c, now))
    ensures InvitersUnique(MergedCodes(codes, winner, loser, c, now))
  {
    MergedOpenCodes(codes, winner, loser, c, now);
    hide MergedCodes;
  }

  lemma MergeKeepsInv(db: Db, a: Id, winner: Id, loser: Id, revision: int, c: Id, now: int)
    requires Inv(db) && MergeReady(db, a, winner, loser, c)
    requires revision == NextRevision(db.groups[winner].revision, db.groups[loser].revision)
    ensures Inv(MergeGroups(db, a, winner, loser, revision, c, now))
  {
    hide GroupsOk, RevisionsOk, ManifestsOk, CodesOk, SessionsOk, BlocksOk, ReservationsOk, QuotaOk, SameShape,
         MergedCodes, MoveDevices, MoveSessions;
    MergeDevicesAndSessions(db, a, winner, loser, revision, c, now);
    hide MergeGroups;
    MergeKeepsRevisions(db, winner, loser, revision);
    MergeKeepsGroups(db, a, winner, loser, revision);
    MergeKeepsSessions(db, a, winner, loser, revision);
    MergeKeepsQuota(db, a, winner, loser);
    MergeKeepsCodes(db, a, winner, loser, revision, c, now);
    SameShapeKeepsRows(db, MoveDevices(db.devices, winner, loser));
  }

  lemma ConsumeKeepsInv(db: Db, c: Id, now: int)
    requires Inv(db) && c in db.codes
    ensures Inv(db.(codes := ConsumeCode(db.codes, c, now)))
  {
    hide GroupsOk, RevisionsOk, ManifestsOk, SessionsOk, BlocksOk, ReservationsOk, QuotaOk;
    var after := ConsumeCode(db.codes, c, now);
    assert forall x :: Unconsumed(after, x) ==> Unconsumed(db.codes, x) && after[x] == db.codes[x];
    assert CodesOk(db.groups, db.devices, after);
    hide CodesOk;
  }

  /** What RedeemCode has checked whenever it succeeds. */
  predicate Redeemable(db: Db, a: Id, redeemer: Id, c: Id, now: int) {
    && Unconsumed(db.codes, c) && now < db.codes[c].expiresAt
    && InGroup(db, db.codes[c].inviter, a, db.codes[c].group) && db.devices[db.codes[c].inviter].active
    && InAccount(db, redeemer, a) && db.devices[redeemer].active && db.devices[redeemer].group.Some?
  }

  ghost predicate JoinedAlready(db: Db, a: Id, redeemer: Id, c: Id, now: int, after: Db, out: Merge)
    requires c in db.codes && redeemer in db.devices
  {
    && after == db.(codes := ConsumeCode(db.codes, c, now))
    && db.devices[redeemer].group == Some(db.codes[c].group) && out.canonical == db.codes[c].group
    && out.canonical in db.groups && out.removed == None && out.revision == db.groups[out.canonical].revision
    && out.affected == GroupDevices(after, a, out.canonical)
  }

  ghost predicate Merged(db: Db, a: Id, redeemer: Id, c: Id, now: int, after: Db, out: Merge)
    requires c in db.codes && redeemer in db.devices
  {
    && out.removed.Some?
    && var w, l := out.canonical, out.removed.value;
       && MergeReady(db, a, w, l, c)
       && db.devices[redeemer].group == Some(if w == db.codes[c].group then l else w)
       && Precedes(db.groups[w].createdAt, w, db.groups[l].createdAt, l)
       && out.revision == NextRevision(db.groups[w].revision, db.groups[l].revision)
       && after == MergeGroups(db, a, w, l, out.revision, c, now)
       && out.affected == GroupDevices(after, a, w)
  }

  /** RedeemCode takes one of three paths; each is named by its result. */
  lemma RedeemPaths(db: Db, a: Id, redeemer: Id, c: Id, now: int)
    requires c in db.codes
    ensures var (after, out) := RedeemCode(db, a, redeemer, c, now);
            && (out.Err? ==> after == db)
            && (out.Ok? ==> Redeemable(db, a, redeemer, c, now))
            && (out.Ok? && out.value.alreadyJoined ==> JoinedAlready(db, a, redeemer, c, now, after, out.value))
            && (out.Ok? && !out.value.alreadyJoined ==> Merged(db, a, redeemer, c, now, after, out.value))
  {
    hide MergeGroups, ConsumeCode;
  }

  lemma RedeemKeepsInv(db: Db, a: Id, redeemer: Id, mac: Bytes, now: int)
    requires Inv(db)
    ensures Inv(Redeem(db, a, redeemer, mac, now).0)
  {
    hide Inv, RedeemCode, MergeReady, ConsumeCode, MergeGroups;
    var found := RedeemCases(db, a, redeemer, mac, now);
    hide Redeem;
    if found.Some? {
      var c := found.value;
      RedeemPaths(db, a, redeemer, c, now);
      var out := RedeemCode(db, a, redeemer, c, now).1;
      if out.Ok? {
        if out.value.alreadyJoined {
          ConsumeKeepsInv(db, c, now);
        } else {
          MergeKeepsInv(db, a, out.value.canonical, out.value.removed.value, out.value.revision, c, now);
        }
      }
    }
  }

  // ---- conservation ----

  predicate ManifestVisible(db: Db, a: Id, g: Id, d: Id, version: int) {
    InGroup(db, d, a, g) && (d, version) in db.manifests
  }

  predicate SessionVisible(db: Db, a: Id, g: Id, s: string) {
    (a, s) in db.sessions && db.sessions[(a, s)].group == g
  }

  lemma MovedInGroup(db: Db, after: Db, winner: Id, loser: Id)
    requires winner != loser && after.devices == MoveDevices(db.devices, winner, loser)
    ensures forall d, x :: InGroup(after, d, x, winner) <==> InGroup(db, d, x, winner) || InGroup(db, d, x, loser)
    ensures forall d, x :: !InGroup(after, d, x, loser)
    ensures forall d, x, h :: h != winner && h != loser ==> (InGroup(after, d, x, h) <==> InGroup(db, d, x, h))
  {
  }

  /** What the surviving group can read is exactly the union of what the two groups could read; every other group reads
      what it read; no ciphertext, manifest or byte count changes; no session and no other open code is lost. */
  lemma MergeConserves(db: Db, a: Id, redeemer: Id, c: Id, now: int)
    requires Inv(db) && c in db.codes && RedeemCode(db, a, redeemer, c, now).1.Ok?
    requires !RedeemCode(db, a, redeemer, c, now).1.value.alreadyJoined
    ensures var (after, out) := RedeemCode(db, a, redeemer, c, now);
            out.value.removed.Some? && Conserved(db, after, a, out.value.canonical, out.value.removed.value, c)
  {
    RedeemPaths(db, a, redeemer, c, now);
    var (after, out) := RedeemCode(db, a, redeemer, c, now);
    hide RedeemCode, Redeemable, Conserved, MergeGroups, MoveDevices, MoveSessions, MergedCodes,
         GroupsOk, RevisionsOk, ManifestsOk, CodesOk, SessionsOk, BlocksOk, ReservationsOk, QuotaOk;
    MergeDevicesAndSessions(db, a, out.value.canonical, out.value.removed.value, out.value.revision, c, now);
    MergeGroupsConserves(db, after, a, out.value.canonical, out.value.removed.value, c, now);
  }

  ghost predicate Conserved(db: Db, after: Db, a: Id, winner: Id, loser: Id, c: Id) {
    && (forall b :: Visible(after, a, winner, b) <==> Visible(db, a, winner, b) || Visible(db, a, loser, b))
    && (forall d, v :: ManifestVisible(after, a, winner, d, v) <==>
          ManifestVisible(db, a, winner, d, v) || ManifestVisible(db, a, loser, d, v))
    && (forall s :: SessionVisible(after, a, winner, s) <==>
          SessionVisible(db, a, winner, s) || SessionVisible(db, a, loser, s))
    && Untouched(db, after, winner, loser)
    && after.manifests == db.manifests && after.heads == db.heads && after.accounts == db.accounts
    && after.deviceBlocks == db.deviceBlocks && after.accountBlocks == db.accountBlocks
    && after.objects == db.objects && after.reservations == db.reservations
    && after.sessions.Keys == db.sessions.Keys
    && (forall k :: k in db.sessions ==> after.sessions[k] == db.sessions[k].(group := after.sessions[k].group))
    && (forall x :: Unconsumed(after.codes, x) <==> Unconsumed(db.codes, x) && x != c)
  }

  /** Every group but the two, in every account, reads what it read. */
  ghost predicate Untouched(db: Db, after: Db, winner: Id, loser: Id) {
    forall x, h | h != winner && h != loser ::
      && (forall b :: Visible(after, x, h, b) <==> Visible(db, x, h, b))
      && (forall d, v :: ManifestVisible(after, x, h, d, v) <==> ManifestVisible(db, x, h, d, v))
      && (forall s :: SessionVisible(after, x, h, s) <==> SessionVisible(db, x, h, s))
      && (OwnedGroup(after, h, x) <==> OwnedGroup(db, h, x))
  }

  lemma BlocksConserved(db: Db, after: Db, a: Id, winner: Id, loser: Id)
    requires winner != loser && after.devices == MoveDevices(db.devices, winner, loser)
    requires after.deviceBlocks == db.deviceBlocks
    ensures forall b :: Visible(after, a, winner, b) <==> Visible(db, a, winner, b) || Visible(db, a, loser, b)
    ensures forall x, h, b :: h != winner && h != loser ==> (Visible(after, x, h, b) <==> Visible(db, x, h, b))
  {
    MovedInGroup(db, after, winner, loser);
    hide MoveDevices, InGroup;
  }

  lemma RowsConserved(db: Db, after: Db, a: Id, winner: Id, loser: Id)
    requires winner != loser && after.devices == MoveDevices(db.devices, winner, loser)
    requires after.manifests == db.manifests
    requires after.sessions == MoveSessions(db.sessions, a, winner, loser)
    requires SessionsOk(db.groups, db.sessions) && OwnedGroup(db, winner, a) && OwnedGroup(db, loser, a)
    ensures forall d, v :: ManifestVisible(after, a, winner, d, v) <==>
              ManifestVisible(db, a, winner, d, v) || ManifestVisible(db, a, loser, d, v)
    ensures forall x, h, d, v :: h != winner && h != loser ==>
              (ManifestVisible(after, x, h, d, v) <==> ManifestVisible(db, x, h, d, v))
    ensures forall s :: SessionVisible(after, a, winner, s) <==>
              SessionVisible(db, a, winner, s) || SessionVisible(db, a, loser, s)
    ensures forall x, h, s :: h != winner && h != loser ==>
              (SessionVisible(after, x, h, s) <==> SessionVisible(db, x, h, s))
    ensures after.sessions.Keys == db.sessions.Keys
    ensures forall k :: k in db.sessions ==> after.sessions[k] == db.sessions[k].(group := after.sessions[k].group)
  {
    MovedInGroup(db, after, winner, loser);
    hide MoveDevices, InGroup;
  }

  lemma OthersUntouched(db: Db, after: Db, a: Id, winner: Id, loser: Id)
    requires winner != loser && SessionsOk(db.groups, db.sessions) && OwnedGroup(db, winner, a)
    requires OwnedGroup(db, loser, a)
    requires after.devices == MoveDevices(db.devices, winner, loser)
    requires after.sessions == MoveSessions(db.sessions, a, winner, loser)
    requires exists revision :: after.groups == db.groups[winner := db.groups[winner].(revision := revision)] - {loser}
    requires after.manifests == db.manifests && after.deviceBlocks == db.deviceBlocks
    ensures Untouched(db, after, winner, loser)
  {
    BlocksConserved(db, after, a, winner, loser);
    RowsConserved(db, after, a, winner, loser);
    assert forall h, x :: h != winner && h != loser ==> (OwnedGroup(after, h, x) <==> OwnedGroup(db, h, x));
    hide Visible, ManifestVisible, SessionVisible, OwnedGroup, MoveDevices, MoveSessions, SessionsOk;
  }

  lemma MergeGroupsConserves(db: Db, after: Db, a: Id, winner: Id, loser: Id, c: Id, now: int)
    requires MergeReady(db, a, winner, loser, c) && SessionsOk(db.groups, db.sessions)
    requires after.devices == MoveDevices(db.devices, winner, loser)
    requires after.sessions == MoveSessions(db.sessions, a, winner, loser)
    requires exists revision :: after.groups == db.groups[winner := db.groups[winner].(revision := revision)] - {loser}
    requires after.codes == MergedCodes(db.codes, winner, loser, c, now)
    requires after.manifests == db.manifests && after.heads == db.heads && after.accounts == db.accounts
    requires after.deviceBlocks == db.deviceBlocks && after.accountBlocks == db.accountBlocks
    requires after.objects == db.objects && after.reservations == db.reservations
    ensures Conserved(db, after, a, winner, loser, c)
  {
    BlocksConserved(db, after, a, winner, loser);
    RowsConserved(db, after, a, winner, loser);
    MergedOpenCodes(db.codes, winner, loser, c, now);
    OthersUntouched(db, after, a, winner, loser);
    hide Untouched, Visible, ManifestVisible, SessionVisible, OwnedGroup, MoveDevices, MoveSessions, MergedCodes,
         SessionsOk, Unconsumed, MergeReady;
  }
}
