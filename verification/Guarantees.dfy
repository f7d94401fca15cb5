/** What holds of the store after every run: the main results as statements about `Run(EMPTY_DB, ops)` for any `ops`. */
module Guarantees {
  import opened Tables
  import opened Totals
  import opened Integrity
  import opened Machine
  import Uploads
  import SyncGroups
  import Merging
  import Release
  import Pruning
  import Discarding
  import Collection
  import Documents
  import BlockFiles
  import Partition
  import SessionLog

  lemma QuotaOf(db: Db, a: Id)
    requires Inv(db) && a in db.accounts
    ensures AccountQuotaOk(db.accounts[a], a, db.accountBlocks, db.sessions, db.reservations)
  {
    hide GroupsOk, RevisionsOk, ManifestsOk, CodesOk, SessionsOk, BlocksOk, ReservationsOk, AccountQuotaOk;
  }

  /** The counter is exactly the bytes of the account's blocks and sessions, and together with the reservations for
      blocks not yet held it never exceeds the quota. */
  lemma UsedBytesAreExact(ops: seq<Op>, a: Id)
    ensures var db := Run(EMPTY_DB, ops);
            a in db.accounts ==>
              && db.accounts[a].used == Total(BlockCharges(db.accountBlocks, a)) + Total(SessionCharges(db.sessions, a))
              && 0 <= db.accounts[a].used
              && db.accounts[a].used + Total(PendingCharges(db.accountBlocks, db.reservations, a))
                 <= db.accounts[a].quota
  {
    RunInv(ops);
    hide Inv, Run, Total, BlockCharges, SessionCharges, PendingCharges;
    if a in Run(EMPTY_DB, ops).accounts { QuotaOf(Run(EMPTY_DB, ops), a); }
  }

  /** The reservation is not yet expired. */
  predicate Live(db: Db, r: Id, now: int) {
    r in db.reservations && db.reservations[r].expiresAt > now
  }

  /** The block is being deleted, or the account has a live reservation for it. */
  ghost predicate Busy(db: Db, a: Id, b: Digest, now: int) {
    || (b in db.objects && db.objects[b].deleting)
    || exists r :: Live(db, r, now) && db.reservations[r].account == a && db.reservations[r].block == b
  }

  /** Bytes of the account's blocks, of its sessions, and of its live reservations for blocks it does not hold. */
  ghost function Committed(db: Db, a: Id, now: int): nat {
    Total(BlockCharges(db.accountBlocks, a)) + Total(SessionCharges(db.sessions, a))
    + Total(PendingCharges(db.accountBlocks, Purge(db, now).reservations, a))
  }

  /** After any run a fresh id is refused for exactly three reasons, checked in this order: the device is not an
      active one of the account, the block is busy, or it is new to the account and does not fit beside everything
      stored and reserved. A missing account row or a collision of ids is never met. A reservation granted is the
      only change besides the purge of expired ones. */
  lemma ReserveIsGrantedExactly(ops: seq<Op>, rid: Id, a: Id, d: Id, b: Digest, now: int)
    ensures var db := Run(EMPTY_DB, ops);
            var (after, out) := Uploads.Reserve(db, rid, a, d, b, |b.data|, now);
            rid !in db.reservations ==>
              && (InAccount(db, d, a) ==> a in db.accounts)
              && (if !(InAccount(db, d, a) && db.devices[d].active) then out == Err(InvalidUploadDevice)
                  else if Busy(db, a, b, now) then out == Err(UploadInProgress)
                  else if (a, b) !in db.accountBlocks && Committed(db, a, now) + |b.data| > db.accounts[a].quota
                  then out == Err(QuotaExceeded)
                  else out == Ok(Reservation(a, d, b, |b.data|, now + 300)))
              && (out.Err? ==> after == db)
              && (out.Ok? ==> forall r :: r in after.reservations <==> r == rid || Live(db, r, now))
              && (out.Ok? ==> after == db.(reservations := after.reservations) && after.reservations[rid] == out.value)
              && (out.Ok? ==> forall r :: Live(db, r, now) ==> after.reservations[r] == db.reservations[r])
  {
    hide Run, Inv, Total, BlockCharges, SessionCharges, PendingCharges, Uploads.Reserve;
    RunInv(ops);
    var db := Run(EMPTY_DB, ops);
    if rid !in db.reservations {
      ReserveAnswers(db, rid, a, d, b, now);
      Uploads.ReservePaths(db, rid, a, d, b, |b.data|, now);
      Uploads.PurgeKeepsTables(db, now);
    }
  }

  lemma ReserveAnswers(db: Db, rid: Id, a: Id, d: Id, b: Digest, now: int)
    requires Inv(db) && rid !in db.reservations
    ensures InAccount(db, d, a) ==> a in db.accounts
    ensures var out := Uploads.Reserve(db, rid, a, d, b, |b.data|, now).1;
            if !(InAccount(db, d, a) && db.devices[d].active) then out == Err(InvalidUploadDevice)
            else if Busy(db, a, b, now) then out == Err(UploadInProgress)
            else if (a, b) !in db.accountBlocks && Committed(db, a, now) + |b.data| > db.accounts[a].quota
            then out == Err(QuotaExceeded)
            else out == Ok(Reservation(a, d, b, |b.data|, now + 300))
  {
    hide Inv, Total, BlockCharges, SessionCharges, PendingCharges;
    if InAccount(db, d, a) {
      DeviceHasAccount(db, d);
      QuotaOf(db, a);
    }
    LiveReservation(db, a, b, now);
    hide Purge, Uploads.HasReservation, Live;
    Uploads.PurgeKeepsTables(db, now);
    assert rid !in Purge(db, now).reservations by { PurgeKeepsNone(db, rid, now); }
  }

  lemma PurgeKeepsNone(db: Db, rid: Id, now: int)
    requires rid !in db.reservations
    ensures rid !in Purge(db, now).reservations
  {
  }

  lemma LiveReservation(db: Db, a: Id, b: Digest, now: int)
    ensures Uploads.HasReservation(Purge(db, now).reservations, a, b)
       <==> exists r :: Live(db, r, now) && db.reservations[r].account == a && db.reservations[r].block == b
  {
    var kept := Purge(db, now).reservations;
    if r :| Live(db, r, now) && db.reservations[r].account == a && db.reservations[r].block == b {
      assert r in kept;
    }
    if r :| r in kept && kept[r].account == a && kept[r].block == b {
      assert Live(db, r, now);
    }
  }

  /** After any run the three checks of a session writer come down to two: membership, then activity. The group of a
      member always exists and is the account's, so the third refusal is never met. */
  lemma WriterIsActiveMember(ops: seq<Op>, a: Id, g: Id, d: Id)
    ensures var db := Run(EMPTY_DB, ops);
            Documents.WriterError(db, a, g, d) ==
              if !InGroup(db, d, a, g) then Some(GroupChanged)
              else if !db.devices[d].active then Some(InactiveDevice) else None
  {
    hide Run, Inv;
    RunInv(ops);
    var db := Run(EMPTY_DB, ops);
    if d in db.devices { DeviceHasAccount(db, d); }
  }

  /** An unexpired open code of the account with the MAC, and its inviter still active. */
  ghost predicate Invites(db: Db, a: Id, mac: Bytes, c: Id, now: int) {
    && SyncGroups.OpenCode(db.codes, c, a, mac) && now < db.codes[c].expiresAt
    && db.codes[c].inviter in db.devices && db.devices[db.codes[c].inviter].active
  }

  /** After any run a redemption goes through exactly when an active device of the account presents the MAC of an
      unexpired open code whose inviter is still active. Inviter and redeemer are then in one group of the account:
      the older of their two groups, or the one with the smaller id. The answer carries that group's revision and
      devices as they are afterwards, and the rows that change are those that Rejoined lists. Every other refusal in
      the code is never met, and a refusal changes nothing. */
  lemma RedeemIsGrantedExactly(ops: seq<Op>, a: Id, redeemer: Id, mac: Bytes, now: int)
    ensures var db := Run(EMPTY_DB, ops);
            var (after, out) := SyncGroups.Redeem(db, a, redeemer, mac, now);
            && (out.Ok? <==>
                  && InAccount(db, redeemer, a) && db.devices[redeemer].active
                  && exists c :: Invites(db, a, mac, c, now))
            && (out.Err? ==> after == db && out.error == InvalidSyncCode)
            && (out.Ok? ==> forall c :: Invites(db, a, mac, c, now) ==>
                  && Joined(db, after, redeemer, c, out.value)
                  && Reported(after, a, out.value)
                  && Rejoined(db, after, c, now, out.value))
  {
    hide Run, Inv, Joined, Reported, Rejoined, Invites, SyncGroups.Redeem;
    RunInv(ops);
    var db := Run(EMPTY_DB, ops);
    var found := SyncGroups.RedeemCases(db, a, redeemer, mac, now);
    if found.Some? {
      RedeemRowExactly(db, a, redeemer, mac, found.value, now);
      forall c | Invites(db, a, mac, c, now) ensures c == found.value {
        OneOpenCode(db, a, mac, c, found.value, now);
      }
    } else {
      NobodyInvites(db, a, mac, now);
    }
  }

  /** Both devices are now in one group, which is the lesser of the two they were in. */
  ghost predicate Joined(db: Db, after: Db, redeemer: Id, c: Id, merge: SyncGroups.Merge) {
    && c in db.codes && db.codes[c].inviter in db.devices && redeemer in db.devices
    && db.devices[db.codes[c].inviter].group.Some? && db.devices[redeemer].group.Some?
    && var i, r := db.devices[db.codes[c].inviter].group.value, db.devices[redeemer].group.value;
       && i in db.groups && r in db.groups
       && db.codes[c].inviter in after.devices && after.devices[db.codes[c].inviter].group == Some(merge.canonical)
       && redeemer in after.devices && after.devices[redeemer].group == Some(merge.canonical)
       && (merge.alreadyJoined <==> i == r)
       && var rightIsOlder := db.groups[r].createdAt < db.groups[i].createdAt
                              || (db.groups[r].createdAt == db.groups[i].createdAt && r < i);
          && merge.canonical == (if rightIsOlder then r else i)
          && merge.removed == (if i == r then None else if rightIsOlder then Some(i) else Some(r))
  }

  /** The answer names the joint group as the merge leaves it: its revision, and all its devices, revoked ones too. */
  ghost predicate Reported(after: Db, a: Id, merge: SyncGroups.Merge) {
    && merge.canonical in after.groups && merge.revision == after.groups[merge.canonical].revision
    && forall d :: d in merge.affected <==> InGroup(after, d, a, merge.canonical)
  }

  /** The code is spent. If there was a second group, it is gone with its spent codes: its devices, sessions and open
      codes are the joint group's, whose revision is one more than the larger of the two. No other row changes. */
  ghost predicate Rejoined(db: Db, after: Db, c: Id, now: int, merge: SyncGroups.Merge) {
    var w := merge.canonical;
    && w in db.groups && c in db.codes && (merge.removed.Some? ==> merge.removed.value in db.groups)
    && after.groups.Keys == db.groups.Keys - (if merge.removed.Some? then {merge.removed.value} else {})
    && (forall h :: h in after.groups ==>
          after.groups[h].account == db.groups[h].account && after.groups[h].createdAt == db.groups[h].createdAt
          && after.groups[h].revision == if h == w && merge.removed.Some?
                                         then 1 + Release.Max(db.groups[w].revision,
                                                              db.groups[merge.removed.value].revision)
                                         else db.groups[h].revision)
    && after.devices.Keys == db.devices.Keys && after.sessions.Keys == db.sessions.Keys
    && (forall d :: d in db.devices ==>
          after.devices[d] == db.devices[d].(group := if db.devices[d].group == merge.removed && merge.removed.Some?
                                                      then Some(w) else db.devices[d].group))
    && (forall k :: k in db.sessions ==>
          after.sessions[k] == db.sessions[k].(group := if Some(db.sessions[k].group) == merge.removed then w
                                                        else db.sessions[k].group))
    && c in after.codes && after.codes[c].consumedAt == Some(now)
    && (forall x :: x in after.codes && x != c ==>
          x in db.codes
          && after.codes[x] == db.codes[x].(group := if Some(db.codes[x].group) == merge.removed then w
                                                     else db.codes[x].group))
    && (forall x :: x in db.codes ==>
          (x !in after.codes <==> db.codes[x].consumedAt.Some? && Some(db.codes[x].group) == merge.removed))
    && after == db.(groups := after.groups, devices := after.devices, sessions := after.sessions, codes := after.codes)
  }

  lemma OneOpenCode(db: Db, a: Id, mac: Bytes, c: Id, c': Id, now: int)
    requires Inv(db) && Invites(db, a, mac, c, now) && SyncGroups.OpenCode(db.codes, c', a, mac)
    ensures c == c'
  {
    hide Inv, SessionsOk;
    Partition.InvParts(db);
  }

  lemma NobodyInvites(db: Db, a: Id, mac: Bytes, now: int)
    requires forall c :: !SyncGroups.OpenCode(db.codes, c, a, mac)
    ensures forall c :: !Invites(db, a, mac, c, now)
  {
    hide SyncGroups.OpenCode;
  }

  lemma OpenCodeInGroup(db: Db, c: Id)
    requires Inv(db) && Unconsumed(db.codes, c)
    ensures InGroup(db, db.codes[c].inviter, db.codes[c].account, db.codes[c].group)
  {
    hide GroupsOk, RevisionsOk, ManifestsOk, SessionsOk, BlocksOk, ReservationsOk, QuotaOk, InvitersUnique, MacsUnique;
  }

  lemma RedeemRowExactly(db: Db, a: Id, redeemer: Id, mac: Bytes, c: Id, now: int)
    requires Inv(db) && SyncGroups.OpenCode(db.codes, c, a, mac)
    ensures var (after, out) := SyncGroups.RedeemCode(db, a, redeemer, c, now);
            && (out.Ok? <==> InAccount(db, redeemer, a) && db.devices[redeemer].active && Invites(db, a, mac, c, now))
            && (out.Err? ==> after == db && out.error == InvalidSyncCode)
            && (out.Ok? ==>
                  && Joined(db, after, redeemer, c, out.value)
                  && Reported(after, a, out.value)
                  && Rejoined(db, after, c, now, out.value))
  {
    hide Inv, Joined, Reported, Rejoined;
    OpenCodeInGroup(db, c);
    RedeemAnswers(db, a, redeemer, mac, c, now);
    if SyncGroups.RedeemCode(db, a, redeemer, c, now).1.Ok? {
      RedeemJoins(db, a, redeemer, c, now);
      RedeemRows(db, a, redeemer, c, now);
    }
    hide SyncGroups.RedeemCode;
  }

  lemma RedeemAnswers(db: Db, a: Id, redeemer: Id, mac: Bytes, c: Id, now: int)
    requires Inv(db) && SyncGroups.OpenCode(db.codes, c, a, mac)
    ensures var (after, out) := SyncGroups.RedeemCode(db, a, redeemer, c, now);
            && (out.Ok? <==> InAccount(db, redeemer, a) && db.devices[redeemer].active && Invites(db, a, mac, c, now))
            && (out.Err? ==> after == db && out.error == InvalidSyncCode)
  {
    hide Inv, SyncGroups.MergeGroups, SyncGroups.ConsumeCode, GroupDevices;
    OpenCodeInGroup(db, c);
    DeviceHasAccount(db, db.codes[c].inviter);
    if redeemer in db.devices { DeviceHasAccount(db, redeemer); }
  }

  lemma RedeemJoins(db: Db, a: Id, redeemer: Id, c: Id, now: int)
    requires Inv(db) && c in db.codes && SyncGroups.RedeemCode(db, a, redeemer, c, now).1.Ok?
    ensures var (after, out) := SyncGroups.RedeemCode(db, a, redeemer, c, now);
            Joined(db, after, redeemer, c, out.value) && Reported(after, a, out.value)
  {
    hide Inv, SyncGroups.RedeemCode, SyncGroups.MergeGroups, SessionsOk, SyncGroups.ConsumeCode;
    Merging.RedeemPaths(db, a, redeemer, c, now);
    Discarding.InvSessions(db);
    DeviceHasAccount(db, redeemer);
    var out := SyncGroups.RedeemCode(db, a, redeemer, c, now).1.value;
    if !out.alreadyJoined {
      Merging.MergeDevicesAndSessions(db, a, out.canonical, out.removed.value, out.revision, c, now);
    }
  }

  lemma RedeemRows(db: Db, a: Id, redeemer: Id, c: Id, now: int)
    requires Inv(db) && c in db.codes && SyncGroups.RedeemCode(db, a, redeemer, c, now).1.Ok?
    ensures var (after, out) := SyncGroups.RedeemCode(db, a, redeemer, c, now); Rejoined(db, after, c, now, out.value)
  {
    hide Inv, SyncGroups.RedeemCode, SyncGroups.MergeGroups, GroupDevices, Rejoined;
    Merging.RedeemPaths(db, a, redeemer, c, now);
    var (after, out) := SyncGroups.RedeemCode(db, a, redeemer, c, now);
    if out.value.alreadyJoined {
      SpentRows(db, c, now, out.value);
    } else {
      MergedRows(db, a, after, c, now, out.value);
    }
  }

  lemma SpentRows(db: Db, c: Id, now: int, merge: SyncGroups.Merge)
    requires Unconsumed(db.codes, c) && merge.canonical in db.groups && merge.removed == None
    ensures Rejoined(db, db.(codes := SyncGroups.ConsumeCode(db.codes, c, now)), c, now, merge)
  {
  }

  lemma MergedRows(db: Db, a: Id, after: Db, c: Id, now: int, merge: SyncGroups.Merge)
    requires Inv(db) && c in db.codes && merge.removed.Some? && merge.canonical in db.groups
    requires var w, l := merge.canonical, merge.removed.value;
             && Merging.MergeReady(db, a, w, l, c)
             && merge.revision == Merging.NextRevision(db.groups[w].revision, db.groups[l].revision)
             && after == SyncGroups.MergeGroups(db, a, w, l, merge.revision, c, now)
    ensures Rejoined(db, after, c, now, merge)
  {
    hide Inv, SyncGroups.MergeGroups, SyncGroups.MoveSessions, SessionsOk, Merging.MergedCodes;
    Discarding.InvSessions(db);
    Merging.MergeDevicesAndSessions(db, a, merge.canonical, merge.removed.value, merge.revision, c, now);
    MergedSessions(db, a, merge.canonical, merge.removed.value);
    MergedCodeRows(db.codes, merge.canonical, merge.removed.value, c, now);
  }

  lemma MergedSessions(db: Db, a: Id, w: Id, l: Id)
    requires SessionsOk(db.groups, db.sessions) && OwnedGroup(db, l, a)
    ensures var after := SyncGroups.MoveSessions(db.sessions, a, w, l);
            && after.Keys == db.sessions.Keys
            && forall k :: k in db.sessions ==>
                 after[k] == db.sessions[k].(group := if db.sessions[k].group == l then w else db.sessions[k].group)
  {
  }

  lemma MergedCodeRows(codes: map<Id, Code>, w: Id, l: Id, c: Id, now: int)
    requires Unconsumed(codes, c) && w != l
    ensures var after := Merging.MergedCodes(codes, w, l, c, now);
            && c in after && after[c].consumedAt == Some(now)
            && (forall x :: x in after && x != c ==>
                  x in codes && after[x] == codes[x].(group := if codes[x].group == l then w else codes[x].group))
            && (forall x :: x in codes ==> (x !in after <==> codes[x].consumedAt.Some? && codes[x].group == l))
  {
  }

  /** A commit of an existing reservation is refused only for expiry or a revoked device; never for quota, size or
      deletion. */
  lemma CommitNeverFailsOnQuota(ops: seq<Op>, rid: Id, now: int)
    ensures var db := Run(EMPTY_DB, ops);
            rid in db.reservations ==>
              var r, out := db.reservations[rid], Uploads.Commit(db, rid, now).1;
              && r.device in db.devices
              && (out.Ok? <==> now < r.expiresAt && db.devices[r.device].active)
              && (out.Err? ==> out.error == if r.expiresAt <= now then ReservationExpired else InvalidUploadDevice)
  {
    RunInv(ops);
    hide Inv, Run, Uploads.Commit;
    var db := Run(EMPTY_DB, ops);
    if rid in db.reservations {
      ReservingDeviceExists(db, rid);
      Uploads.CommitOutcome(db, rid, now);
    }
  }

  lemma ReservingDeviceExists(db: Db, rid: Id)
    requires Inv(db) && rid in db.reservations
    ensures db.reservations[rid].device in db.devices
  {
    hide GroupsOk, RevisionsOk, ManifestsOk, CodesOk, SessionsOk, BlocksOk, QuotaOk;
  }

  /** The life of a block: device rows need an account row, account rows an active object, the orphan mark is absent
      exactly while some account references the object, and a deleting object has neither references nor
      reservations. */
  lemma BlockLifecycle(ops: seq<Op>, a: Id, d: Id, b: Digest, r: Id)
    ensures var db := Run(EMPTY_DB, ops);
            && ((d, b) in db.deviceBlocks && InAccount(db, d, a) ==> (a, b) in db.accountBlocks)
            && ((a, b) in db.accountBlocks ==> b in db.objects && db.objects[b] == Object(|b.data|, false, None))
            && (b in db.objects ==> (db.objects[b].orphanedAt.None? <==> Referenced(db.accountBlocks, b)))
            && (b in db.objects && db.objects[b].deleting ==> (a, b) !in db.accountBlocks)
            && (b in db.objects && db.objects[b].deleting && r in db.reservations ==> db.reservations[r].block != b)
  {
    RunInv(ops);
    var db := Run(EMPTY_DB, ops);
    hide Run;
    DeviceRowsNeedAccountRows(db, a, d, b);
    if (a, b) in db.accountBlocks { BlockFiles.ReferencedObject(db, a, b); }
    MarkedIffUnreferenced(db, b);
    if b in db.objects && db.objects[b].deleting { BlockFiles.DeletingIsFree(db, b); }
    hide Inv, Referenced;
  }

  lemma DeviceRowsNeedAccountRows(db: Db, a: Id, d: Id, b: Digest)
    requires Inv(db)
    ensures (d, b) in db.deviceBlocks && InAccount(db, d, a) ==> (a, b) in db.accountBlocks
  {
    hide GroupsOk, RevisionsOk, ManifestsOk, CodesOk, SessionsOk, ObjectsOk, ReservationsOk, QuotaOk;
  }

  lemma MarkedIffUnreferenced(db: Db, b: Digest)
    requires Inv(db)
    ensures b in db.objects ==> (db.objects[b].orphanedAt.None? <==> Referenced(db.accountBlocks, b))
  {
    hide GroupsOk, RevisionsOk, ManifestsOk, CodesOk, SessionsOk, ReservationsOk, QuotaOk, Referenced;
  }

  /** Finalising succeeds on every object marked deleting, and its cascade removes no account or device row. */
  lemma FinalizeAlwaysSucceeds(ops: seq<Op>, b: Digest)
    ensures var db := Run(EMPTY_DB, ops);
            Collection.Finalize(db, b) ==
              if b in db.objects && db.objects[b].deleting
              then (db.(objects := db.objects - {b}), true) else (db, false)
  {
    RunInv(ops);
    var db := Run(EMPTY_DB, ops);
    hide Inv, Run, Collection.Finalizable, Collection.DeleteObject;
    Collection.FinalizeEffect(db, b);
  }

  /** Releasing a block subtracts exactly its size: the clamp `MAX(0, ...)` never acts. */
  lemma ReleaseNeverClamps(ops: seq<Op>, a: Id, b: Digest, now: int)
    ensures var db := Run(EMPTY_DB, ops);
            Release.Loose(db, a, b) ==>
              && a in db.accounts && |b.data| <= db.accounts[a].used
              && Release.ReleaseBlock(db, a, b, now).accounts
                 == db.accounts[a := db.accounts[a].(used := db.accounts[a].used - |b.data|)]
  {
    RunInv(ops);
    var db := Run(EMPTY_DB, ops);
    hide Inv, Run, Release.Loose, Release.ReleaseBlock, Referenced;
    if Release.Loose(db, a, b) { Release.ReleaseEffect(db, a, b, now); }
  }

  /** However it is cut up and ordered, a prune of the devices D over `ids` is the one-shot set difference, and the
      account's counter falls by exactly the sizes of the blocks freed. */
  lemma PruneIsSetDifference(ops: seq<Op>, a: Id, D: set<Id>, ids: seq<Digest>, now: int)
    ensures var db := Run(EMPTY_DB, ops);
            var S := Pruning.Elements(ids);
            && Release.PruneAll(db, a, D, ids, now) == Release.PruneSet(db, a, D, S, now)
            && Pruning.Paid(db, Release.PruneAll(db, a, D, ids, now), a,
                            if a in db.accounts then Release.SizeOf(Release.Freed(db, a, D, S)) else 0)
  {
    RunInv(ops);
    var db := Run(EMPTY_DB, ops);
    hide Inv, Run, Release.PruneAll, Release.PruneSet, Pruning.Paid, Release.SizeOf, Release.Freed;
    Pruning.PruneAllIsOneShot(db, a, D, ids, now);
    Pruning.PruneSetPays(db, a, D, Pruning.Elements(ids), now);
  }

  /** A release batch, in whatever state it runs, leaves every block that some device of the account holds. */
  lemma ReleaseKeepsHeldBlocks(ops: seq<Op>, a: Id, ids: seq<Digest>, now: int, d: Id, b: Digest)
    ensures var db := Run(EMPTY_DB, ops);
            InAccount(db, d, a) && (d, b) in db.deviceBlocks ==>
              (a, b) in Release.ReleaseAll(db, a, ids, now).accountBlocks
  {
    RunInv(ops);
    var db := Run(EMPTY_DB, ops);
    hide Inv, Run, Release.ReleaseAll;
    if InAccount(db, d, a) && (d, b) in db.deviceBlocks {
      DeviceRowsNeedAccountRows(db, a, d, b);
      assert HeldByDevice(db, a, b);
      Pruning.HeldBlocksSurvive(db, a, ids, now, b);
    }
  }

  /** A discard that passes its check leaves the account with the caller's group alone and with no other sync data,
      keeps everything else, and lowers the counter by exactly the session bytes that its cascade removed. */
  lemma DiscardLeavesOnlyTheCallersGroup(ops: seq<Op>, a: Id, caller: Id, g: Id, revision: int, now: int)
    ensures var db := Run(EMPTY_DB, ops);
            var (after, out) := Discarding.DiscardGroups(db, a, caller, g, revision, now);
            && (out.Ok? <==> SeesRevision(db, caller, a, g, revision))
            && (out.Err? ==> after == db && out.error == GroupChanged)
            && (out.Ok? ==> Discarding.Exact(db, after, a, g) && !Discarding.HasOtherSyncData(after, a, g))
            && (out.Ok? ==>
                  out.value == Discarding.Discarded(Discarding.OtherDevices(db, a, g), Discarding.OtherBlocks(db, a, g),
                                                    Discarding.OtherSessionBytes(db, a, g)))
  {
    RunInv(ops);
    var db := Run(EMPTY_DB, ops);
    hide Inv, Run, Discarding.Exact, Discarding.HasOtherSyncData, Discarding.OtherDevices, Discarding.OtherBlocks,
         Discarding.OtherSessionBytes, SeesRevision;
    Discarding.DiscardOutcome(db, a, caller, g, revision, now);
    if SeesRevision(db, caller, a, g, revision) {
      hide Discarding.DiscardGroups;
      Discarding.DiscardIsExact(db, a, caller, g, revision, now);
    }
  }

  /** After any run a put has exactly these answers, tested in this order: the writer is not a member of the group, is
      revoked, the id belongs to a session of another group, the base is not the current version, the growth does not
      fit beside everything stored and reserved, or the size is out of bounds. Only a put that passes them all writes:
      the session, and the counter by the exact difference. A version conflict purges expired reservations, and every
      error leaves the store as it was. */
  lemma SessionPutIsExact(ops: seq<Op>, a: Id, g: Id, d: Id, s: string, base: int, ciphertext: Bytes, now: int)
    ensures var db := Run(EMPTY_DB, ops);
            var (after, out) := Documents.PutSession(db, a, g, d, s, base, ciphertext, now);
            var p := Purge(db, now);
            && (InGroup(db, d, a, g) ==> a in db.accounts)
            && out == (if !InGroup(db, d, a, g) then Err(GroupChanged)
                       else if !db.devices[d].active then Err(InactiveDevice)
                       else if (a, s) in db.sessions && db.sessions[(a, s)].group != g then Err(SessionIdConflict)
                       else if base != SessionLog.Version(db, (a, s))
                       then Ok(Documents.SessionPut(0, SessionLog.Version(db, (a, s)), 0, true))
                       else if !MayTake(db, p, a, s, |ciphertext|) then Err(QuotaExceeded)
                       else if !(1 <= |ciphertext| <= 4_194_304) then Err(Constraint)
                       else Ok(Documents.SessionPut(base + 1, base + 1, |ciphertext|, false)))
            && (out.Err? ==> after == db)
            && (out.Ok? && out.value.conflict ==> after == p)
            && (out.Ok? && !out.value.conflict ==>
                  var used := db.accounts[a].used + |ciphertext| - Documents.SessionBytes(db.sessions, (a, s));
                  after == p.(sessions := p.sessions[(a, s) := Session(g, base + 1, ciphertext)],
                              accounts := p.accounts[a := p.accounts[a].(used := used)]))
  {
    RunInv(ops);
    var db := Run(EMPTY_DB, ops);
    WriterIsActiveMember(ops, a, g, d);
    hide Inv, Run, Total, PendingCharges, InGroup, Documents.WriterError;
    if InGroup(db, d, a, g) {
      MemberHasAccount(db, d, a, g);
      if (a, s) in db.sessions { SessionFits(db, a, s); } else { UsedIsNatural(db, a); }
    }
  }

  /** The session may take this size: it does not grow, or the growth fits beside everything stored and reserved. */
  ghost predicate MayTake(db: Db, p: Db, a: Id, s: string, size: nat)
    requires a in db.accounts
  {
    var growth := size - Documents.SessionBytes(db.sessions, (a, s));
    || growth <= 0
    || db.accounts[a].used + Total(PendingCharges(p.accountBlocks, p.reservations, a)) + growth <= db.accounts[a].quota
  }

  lemma MemberHasAccount(db: Db, d: Id, a: Id, g: Id)
    requires Inv(db) && InGroup(db, d, a, g)
    ensures a in db.accounts && OwnedGroup(db, g, a)
  {
    hide Inv;
    DeviceHasAccount(db, d);
  }

  lemma SessionFits(db: Db, a: Id, s: string)
    requires Inv(db) && (a, s) in db.sessions && a in db.accounts
    ensures |db.sessions[(a, s)].ciphertext| <= db.accounts[a].used
  {
    hide GroupsOk, RevisionsOk, ManifestsOk, CodesOk, SessionsOk, BlocksOk, ReservationsOk, QuotaOk;
    Documents.ChargedSessionFits(db, (a, s));
  }

  lemma UsedIsNatural(db: Db, a: Id)
    requires Inv(db) && a in db.accounts
    ensures 0 <= db.accounts[a].used
  {
    hide Inv, Total, BlockCharges, SessionCharges, PendingCharges;
    QuotaOf(db, a);
  }

  /** After any run a delete fails only for a writer who is not a member or is revoked. Otherwise it removes the session
      exactly when it is the group's and the version is current, and gives back exactly its bytes; a stale version is
      reported as a conflict, and a session that is not the group's as nothing to delete. */
  lemma SessionDeleteIsExact(ops: seq<Op>, a: Id, g: Id, d: Id, s: string, base: int)
    ensures var db := Run(EMPTY_DB, ops);
            var (after, out) := Documents.DeleteSession(db, a, g, d, s, base);
            var version, size := SessionLog.Version(db, (a, s)), Documents.SessionBytes(db.sessions, (a, s));
            && (InGroup(db, d, a, g) ==> a in db.accounts)
            && out == (if !InGroup(db, d, a, g) then Err(GroupChanged)
                       else if !db.devices[d].active then Err(InactiveDevice)
                       else if (a, s) !in db.sessions || db.sessions[(a, s)].group != g
                       then Ok(Documents.SessionDelete(false, 0, 0, false))
                       else if version != base then Ok(Documents.SessionDelete(false, version, 0, true))
                       else Ok(Documents.SessionDelete(true, 0, size, false)))
            && (!(out.Ok? && out.value.deleted) ==> after == db)
            && (out.Ok? && out.value.deleted ==>
                  after == db.(sessions := db.sessions - {(a, s)},
                               accounts := db.accounts[a := db.accounts[a].(used := db.accounts[a].used - size)]))
  {
    RunInv(ops);
    var db := Run(EMPTY_DB, ops);
    WriterIsActiveMember(ops, a, g, d);
    hide Inv, Run, InGroup, Documents.WriterError;
    if InGroup(db, d, a, g) {
      MemberHasAccount(db, d, a, g);
      if (a, s) in db.sessions { SessionFits(db, a, s); }
    }
  }

  /** A merge conserves what the two groups could read and disturbs no other group. */
  lemma MergeConservesData(ops: seq<Op>, a: Id, redeemer: Id, c: Id, now: int)
    ensures var db := Run(EMPTY_DB, ops);
            c in db.codes ==>
              var (after, out) := SyncGroups.RedeemCode(db, a, redeemer, c, now);
              out.Ok? && !out.value.alreadyJoined ==>
                out.value.removed.Some?
                && Merging.Conserved(db, after, a, out.value.canonical, out.value.removed.value, c)
  {
    RunInv(ops);
    var db := Run(EMPTY_DB, ops);
    hide Inv, Run, Merging.Conserved, SyncGroups.RedeemCode;
    if c in db.codes {
      var out := SyncGroups.RedeemCode(db, a, redeemer, c, now).1;
      if out.Ok? && !out.value.alreadyJoined { Merging.MergeConserves(db, a, redeemer, c, now); }
    }
  }
}
