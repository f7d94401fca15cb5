/** Devices, sync groups and sync codes: enrolment, revocation, invitation, redemption (internal/db/queries.go). */
module SyncGroups {
  import opened Tables
  import opened Integrity

  // CreateDeviceEnrollment
  function Enroll(db: Db, a: Id, d: Id, g: Id, now: int): (Db, Outcome<()>) {
    if g in db.groups || d in db.devices || d in db.heads || a !in db.accounts then (db, Err(Constraint))
    else (db.(groups := db.groups[g := Group(a, 1, now)],
              devices := db.devices[d := Device(a, Some(g), true, None)],
              heads := db.heads[d := 0]), Ok(()))
  }

  // The registration transaction: the account row, then its first device.
  function Register(db: Db, a: Id, quota: int, d: Id, g: Id, now: int): (Db, Outcome<()>) {
    if a in db.accounts || quota < 0 then (db, Err(Constraint))
    else
      var (after, out) := Enroll(db.(accounts := db.accounts[a := Account(quota, 0)]), a, d, g, now);
      if out.Err? then (db, out) else (after, out)
  }

  function RevokeRow(row: Device, now: int): Device {
    row.(active := false, revokedAt := if row.revokedAt.Some? then row.revokedAt else Some(now))
  }

  // RevokeDevice
  function Revoke(db: Db, a: Id, caller: Id, g: Id, target: Id, now: int): (Db, Outcome<bool>) {
    if !InGroup(db, caller, a, g) then (db, Err(GroupChanged))
    else if !db.devices[caller].active then (db, Err(InactiveDevice))
    else if InGroup(db, target, a, g) && db.devices[target].active
    then (db.(devices := db.devices[target := RevokeRow(db.devices[target], now)]), Ok(true))
    else (db, Ok(false))
  }

  // The two UPDATE statements before the INSERT: every expired code, and every code of this inviter.
  function ExpireCodes(codes: map<Id, Code>, inviter: Id, now: int): map<Id, Code> {
    map c | c in codes ::
      if codes[c].consumedAt.None? && (codes[c].expiresAt <= now || codes[c].inviter == inviter)
      then codes[c].(consumedAt := Some(now)) else codes[c]
  }

  ghost predicate OpenCode(codes: map<Id, Code>, c: Id, a: Id, mac: Bytes) {
    Unconsumed(codes, c) && codes[c].account == a && codes[c].mac == mac
  }

  // ReplaceSyncCode
  ghost function ReplaceCode(db: Db, c: Id, row: Code, now: int): (Db, Outcome<()>) {
    if !InGroup(db, row.inviter, row.account, row.group) then (db, Err(GroupChanged))
    else if !db.devices[row.inviter].active then (db, Err(InactiveDevice))
    else if !OwnedGroup(db, row.group, row.account) then (db, Err(GroupChanged))
    else
      var codes := ExpireCodes(db.codes, row.inviter, now);
      if c in codes || exists o :: OpenCode(codes, o, row.account, row.mac) then (db, Err(Constraint))
      else (db.(codes := codes[c := row.(consumedAt := None)]), Ok(()))
  }

  datatype Merge = Merge(alreadyJoined: bool, canonical: Id, removed: Option<Id>, revision: int, affected: set<Id>)

  /** Group a precedes group b: older, or as old with the smaller id. */
  predicate Precedes(aCreated: int, a: Id, bCreated: int, b: Id) {
    aCreated < bCreated || (aCreated == bCreated && a < b)
  }

  function ConsumeCode(codes: map<Id, Code>, c: Id, now: int): map<Id, Code>
    requires c in codes
  {
    if codes[c].consumedAt.Some? then codes else codes[c := codes[c].(consumedAt := Some(now))]
  }

  function MoveDevices(devices: map<Id, Device>, winner: Id, loser: Id): map<Id, Device> {
    map d | d in devices :: if devices[d].group == Some(loser) then devices[d].(group := Some(winner)) else devices[d]
  }

  function MoveCodes(codes: map<Id, Code>, winner: Id, loser: Id): map<Id, Code> {
    map c | c in codes ::
      if codes[c].group == loser && codes[c].consumedAt.None? then codes[c].(group := winner) else codes[c]
  }

  function MoveSessions(sessions: map<(Id, string), Session>, a: Id, winner: Id,
                        loser: Id): map<(Id, string), Session>
  {
    map k | k in sessions ::
      if k.0 == a && sessions[k].group == loser then sessions[k].(group := winner) else sessions[k]
  }

  // The statements of the merge, in order, up to and including the cascade.
  function MergeGroups(db: Db, a: Id, winner: Id, loser: Id, revision: int, c: Id, now: int): Db
    requires c in db.codes && winner in db.groups
  {
    DeleteGroups(
      db.(devices := MoveDevices(db.devices, winner, loser),
          codes := ConsumeCode(MoveCodes(db.codes, winner, loser), c, now),
          groups := db.groups[winner := db.groups[winner].(revision := revision)],
          sessions := MoveSessions(db.sessions, a, winner, loser)),
      {loser})
  }

  predicate RightWins(left: Group, leftId: Id, right: Group, rightId: Id) {
    Precedes(right.createdAt, rightId, left.createdAt, leftId)
  }

  // RedeemSyncCode once the row of code c has been read.
  function RedeemCode(db: Db, a: Id, redeemer: Id, c: Id, now: int): (Db, Outcome<Merge>)
    requires c in db.codes
  {
    var code := db.codes[c];
    if code.consumedAt.Some? || code.expiresAt <= now then (db, Err(InvalidSyncCode))
    else if !InGroup(db, code.inviter, a, code.group) || !db.devices[code.inviter].active
    then (db, Err(InvalidSyncCode))
    else if !InAccount(db, redeemer, a) || !db.devices[redeemer].active || db.devices[redeemer].group.None?
    then (db, Err(InvalidSyncCode))
    else
      var left, right := code.group, db.devices[redeemer].group.value;
      if left == right then
        if left !in db.groups then (db, Err(NoRow))
        else (db.(codes := ConsumeCode(db.codes, c, now)),
              Ok(Merge(true, left, None, db.groups[left].revision, GroupDevices(db, a, left))))
      else if !OwnedGroup(db, left, a) || !OwnedGroup(db, right, a) then (db, Err(InvalidSyncCode))
      else
        var rightWins := RightWins(db.groups[left], left, db.groups[right], right);
        var winner, loser := if rightWins then right else left, if rightWins then left else right;
        var lr, rr := db.groups[left].revision, db.groups[right].revision;
        var revision := (if lr < rr then rr else lr) + 1;
        var after := MergeGroups(db, a, winner, loser, revision, c, now);
        (after, Ok(Merge(false, winner, Some(loser), revision, GroupDevices(after, a, winner))))
  }

  ghost function Redeem(db: Db, a: Id, redeemer: Id, mac: Bytes, now: int): (Db, Outcome<Merge>) {
    if c :| OpenCode(db.codes, c, a, mac) then RedeemCode(db, a, redeemer, c, now)
    else (db, Err(InvalidSyncCode))
  }

  lemma RevokePaths(db: Db, a: Id, caller: Id, g: Id, target: Id, now: int)
    ensures var after := Revoke(db, a, caller, g, target, now).0;
            || after == db
            || (target in db.devices
                && after == db.(devices := db.devices[target := RevokeRow(db.devices[target], now)]))
  {
    hide RevokeRow;
  }

  lemma EnrollPaths(db: Db, a: Id, d: Id, g: Id, now: int)
    ensures var (after, out) := Enroll(db, a, d, g, now);
            && (out.Err? ==> after == db)
            && (out.Ok? ==> g !in db.groups && d !in db.devices && d !in db.heads && a in db.accounts)
            && (out.Ok? ==> after == db.(groups := db.groups[g := Group(a, 1, now)],
                                         devices := db.devices[d := Device(a, Some(g), true, None)],
                                         heads := db.heads[d := 0]))
  {
  }

  lemma RegisterPaths(db: Db, a: Id, quota: int, d: Id, g: Id, now: int)
    ensures var (after, out) := Register(db, a, quota, d, g, now);
            var created := db.(accounts := db.accounts[a := Account(quota, 0)]);
            after == db || (a !in db.accounts && Enroll(created, a, d, g, now).1.Ok?
                            && after == Enroll(created, a, d, g, now).0)
  {
    hide Enroll;
  }

  lemma ReplaceCodePaths(db: Db, c: Id, row: Code, now: int)
    ensures var (after, out) := ReplaceCode(db, c, row, now);
            && (out.Err? ==> after == db)
            && (out.Ok? ==>
                  after == db.(codes := ExpireCodes(db.codes, row.inviter, now)[c := row.(consumedAt := None)]))
  {
    hide ExpireCodes, OpenCode, InGroup;
  }

  /** Either some open code answers to the MAC and the redemption is that of its row, or it is refused. */
  lemma RedeemCases(db: Db, a: Id, redeemer: Id, mac: Bytes, now: int) returns (c: Option<Id>)
    ensures c.Some? ==>
              OpenCode(db.codes, c.value, a, mac)
              && Redeem(db, a, redeemer, mac, now) == RedeemCode(db, a, redeemer, c.value, now)
    ensures c.None? ==>
              && Redeem(db, a, redeemer, mac, now) == (db, Err(InvalidSyncCode))
              && forall x :: !OpenCode(db.codes, x, a, mac)
  {
    hide RedeemCode;
    if x :| OpenCode(db.codes, x, a, mac) && Redeem(db, a, redeemer, mac, now) == RedeemCode(db, a, redeemer, x, now) {
      c := Some(x);
    } else {
      c := None;
    }
  }

  // ---- invariants ----

  lemma RevokeLabels(db: Db, a: Id, caller: Id, g: Id, target: Id, now: int)
    requires GroupsOk(db.accounts, db.groups, db.devices)
    ensures var after := Revoke(db, a, caller, g, target, now).0;
            GroupsOk(after.accounts, after.groups, after.devices) && SameLabels(db.devices, after.devices)
  {
    RevokePaths(db, a, caller, g, target, now);
    hide Revoke;
  }

  lemma RevokeKeepsInv(db: Db, a: Id, caller: Id, g: Id, target: Id, now: int)
    requires Inv(db)
    ensures Inv(Revoke(db, a, caller, g, target, now).0)
  {
    hide GroupsOk, RevisionsOk, ManifestsOk, CodesOk, SessionsOk, BlocksOk, ReservationsOk, QuotaOk, RevokeRow;
    var after := Revoke(db, a, caller, g, target, now).0;
    RevokeLabels(db, a, caller, g, target, now);
    SameLabelsKeepMembers(db, after.devices);
    SameShapeKeepsRows(db, after.devices);
    hide SameLabels;
    SameLabelsKeepCodes(db, after.devices);
  }

  /** Devices keep their account, and a group stays a group. */
  ghost predicate SameShape(devices: map<Id, Device>, devices': map<Id, Device>) {
    && devices'.Keys == devices.Keys
    && forall d :: d in devices ==>
         devices'[d].account == devices[d].account && (devices'[d].group.Some? <==> devices[d].group.Some?)
  }

  ghost predicate SameLabels(devices: map<Id, Device>, devices': map<Id, Device>) {
    && devices'.Keys == devices.Keys
    && forall d :: d in devices ==> devices'[d].account == devices[d].account && devices'[d].group == devices[d].group
  }

  lemma SameShapeKeepsRows(db: Db, devices: map<Id, Device>)
    requires SameShape(db.devices, devices)
    requires ManifestsOk(db.devices, db.heads, db.manifests)
    requires BlocksOk(db.accounts, db.devices, db.objects, db.accountBlocks, db.deviceBlocks)
    requires ReservationsOk(db.accounts, db.devices, db.objects, db.reservations)
    ensures ManifestsOk(devices, db.heads, db.manifests)
    ensures BlocksOk(db.accounts, devices, db.objects, db.accountBlocks, db.deviceBlocks)
    ensures ReservationsOk(db.accounts, devices, db.objects, db.reservations)
  {
    hide ObjectsOk, ReservationsUnique;
  }

  lemma SameLabelsKeepMembers(db: Db, devices: map<Id, Device>)
    requires SameLabels(db.devices, devices) && RevisionsOk(db.groups, db.devices)
    ensures RevisionsOk(db.groups, devices)
  {
    forall g | g in db.groups ensures Members(devices, g) == Members(db.devices, g) {}
  }

  lemma SameLabelsKeepCodes(db: Db, devices: map<Id, Device>)
    requires SameLabels(db.devices, devices) && CodesOk(db.groups, db.devices, db.codes)
    ensures CodesOk(db.groups, devices, db.codes)
  {
  }

  lemma EnrollRevisions(db: Db, a: Id, d: Id, g: Id, now: int)
    requires GroupsOk(db.accounts, db.groups, db.devices) && RevisionsOk(db.groups, db.devices)
    requires g !in db.groups && d !in db.devices
    ensures RevisionsOk(db.groups[g := Group(a, 1, now)], db.devices[d := Device(a, Some(g), true, None)])
  {
    var devices := db.devices[d := Device(a, Some(g), true, None)];
    assert Members(devices, g) == {d};
    forall h | h in db.groups && h != g
      ensures Members(devices, h) == Members(db.devices, h)
    {
    }
  }

  lemma EnrollGroups(db: Db, a: Id, d: Id, g: Id, now: int)
    requires GroupsOk(db.accounts, db.groups, db.devices) && Enroll(db, a, d, g, now).1.Ok?
    ensures var after := Enroll(db, a, d, g, now).0; GroupsOk(after.accounts, after.groups, after.devices)
  {
  }

  lemma EnrollManifests(db: Db, a: Id, d: Id, g: Id, now: int)
    requires ManifestsOk(db.devices, db.heads, db.manifests) && Enroll(db, a, d, g, now).1.Ok?
    ensures var after := Enroll(db, a, d, g, now).0; ManifestsOk(after.devices, after.heads, after.manifests)
  {
  }

  lemma EnrollCodes(db: Db, a: Id, d: Id, g: Id, now: int)
    requires CodesOk(db.groups, db.devices, db.codes) && Enroll(db, a, d, g, now).1.Ok?
    ensures var after := Enroll(db, a, d, g, now).0; CodesOk(after.groups, after.devices, after.codes)
  {
    hide MacsUnique, InvitersUnique;
  }

  lemma EnrollOthers(db: Db, a: Id, d: Id, g: Id, now: int)
    requires Inv(db) && Enroll(db, a, d, g, now).1.Ok?
    ensures var after := Enroll(db, a, d, g, now).0;
            && SessionsOk(after.groups, after.sessions)
            && BlocksOk(after.accounts, after.devices, after.objects, after.accountBlocks, after.deviceBlocks)
            && ReservationsOk(after.accounts, after.devices, after.objects, after.reservations)
  {
    hide RevisionsOk, ManifestsOk, CodesOk, QuotaOk, ObjectsOk, ReservationsUnique, GroupsOk;
  }

  lemma EnrollKeepsInv(db: Db, a: Id, d: Id, g: Id, now: int)
    requires Inv(db)
    ensures Inv(Enroll(db, a, d, g, now).0)
  {
    hide GroupsOk, RevisionsOk, ManifestsOk, CodesOk, SessionsOk, BlocksOk, ReservationsOk, QuotaOk;
    if Enroll(db, a, d, g, now).1.Ok? {
      EnrollRevisions(db, a, d, g, now);
      EnrollGroups(db, a, d, g, now);
      EnrollManifests(db, a, d, g, now);
      EnrollCodes(db, a, d, g, now);
      EnrollOthers(db, a, d, g, now);
    }
  }

  lemma NewAccountOk(db: Db, a: Id, quota: int)
    requires Inv(db) && a !in db.accounts && quota >= 0
    ensures var accounts := db.accounts[a := Account(quota, 0)];
            && GroupsOk(accounts, db.groups, db.devices)
            && BlocksOk(accounts, db.devices, db.objects, db.accountBlocks, db.deviceBlocks)
            && ReservationsOk(accounts, db.devices, db.objects, db.reservations)
  {
    hide RevisionsOk, ManifestsOk, CodesOk, SessionsOk, QuotaOk, ObjectsOk, ReservationsUnique;
  }

  /** An account that is not there has no rows to be charged for. */
  lemma NoRowsWithoutAccount(db: Db, a: Id)
    requires GroupsOk(db.accounts, db.groups, db.devices) && SessionsOk(db.groups, db.sessions) && a !in db.accounts
    requires BlocksOk(db.accounts, db.devices, db.objects, db.accountBlocks, db.deviceBlocks)
    requires ReservationsOk(db.accounts, db.devices, db.objects, db.reservations)
    ensures BlockCharges(db.accountBlocks, a) == map[] && SessionCharges(db.sessions, a) == map[]
    ensures PendingCharges(db.accountBlocks, db.reservations, a) == map[]
  {
    hide ObjectsOk, ReservationsUnique;
    assert forall p :: p in db.accountBlocks ==> p.0 != a;
    assert forall k :: k in db.sessions ==> k.0 != a;
    assert forall r :: r in db.reservations ==> db.reservations[r].account != a;
  }

  lemma NewAccountQuota(db: Db, a: Id, quota: int)
    requires Inv(db) && a !in db.accounts && quota >= 0
    ensures QuotaOk(db.accounts[a := Account(quota, 0)], db.accountBlocks, db.sessions, db.reservations)
  {
    hide GroupsOk, RevisionsOk, ManifestsOk, CodesOk, SessionsOk, BlocksOk, ReservationsOk, BlockCharges,
         SessionCharges, PendingCharges;
    NoRowsWithoutAccount(db, a);
    var accounts := db.accounts[a := Account(quota, 0)];
    forall x | x in accounts
      ensures AccountQuotaOk(accounts[x], x, db.accountBlocks, db.sessions, db.reservations)
    {
      if x != a { assert AccountQuotaOk(db.accounts[x], x, db.accountBlocks, db.sessions, db.reservations); }
    }
  }

  lemma RegisterKeepsInv(db: Db, a: Id, quota: int, d: Id, g: Id, now: int)
    requires Inv(db)
    ensures Inv(Register(db, a, quota, d, g, now).0)
  {
    hide GroupsOk, RevisionsOk, ManifestsOk, CodesOk, SessionsOk, BlocksOk, ReservationsOk, QuotaOk;
    if a !in db.accounts && quota >= 0 {
      NewAccountOk(db, a, quota);
      NewAccountQuota(db, a, quota);
      EnrollKeepsInv(db.(accounts := db.accounts[a := Account(quota, 0)]), a, d, g, now);
      hide Enroll;
    }
  }

  lemma ExpireKeepsCodes(db: Db, inviter: Id, now: int)
    requires CodesOk(db.groups, db.devices, db.codes)
    ensures CodesOk(db.groups, db.devices, ExpireCodes(db.codes, inviter, now))
    ensures forall x :: Unconsumed(ExpireCodes(db.codes, inviter, now), x) ==>
              ExpireCodes(db.codes, inviter, now)[x].inviter != inviter
  {
    var expired := ExpireCodes(db.codes, inviter, now);
    assert forall x :: Unconsumed(expired, x) ==> Unconsumed(db.codes, x) && expired[x] == db.codes[x];
  }

  lemma NewCodeKeepsCodes(db: Db, codes: map<Id, Code>, c: Id, row: Code)
    requires CodesOk(db.groups, db.devices, codes) && c !in codes
    requires InGroup(db, row.inviter, row.account, row.group) && row.group in db.groups
    requires forall x :: Unconsumed(codes, x) ==> codes[x].inviter != row.inviter
    requires forall x :: !OpenCode(codes, x, row.account, row.mac)
    ensures CodesOk(db.groups, db.devices, codes[c := row.(consumedAt := None)])
  {
    var after := codes[c := row.(consumedAt := None)];
    assert forall x :: Unconsumed(after, x) ==> x == c || Unconsumed(codes, x);
    forall x | Unconsumed(codes, x) && codes[x].account == row.account
      ensures codes[x].mac != row.mac
    {
      assert !OpenCode(codes, x, row.account, row.mac);
    }
  }

  lemma ReplaceCodeKeepsCodes(db: Db, c: Id, row: Code, now: int)
    requires CodesOk(db.groups, db.devices, db.codes)
    ensures CodesOk(db.groups, db.devices, ReplaceCode(db, c, row, now).0.codes)
  {
    hide CodesOk, OpenCode;
    ExpireKeepsCodes(db, row.inviter, now);
    if ReplaceCode(db, c, row, now).1.Ok? {
      NewCodeKeepsCodes(db, ExpireCodes(db.codes, row.inviter, now), c, row);
    }
  }

  lemma ReplaceCodeKeepsInv(db: Db, c: Id, row: Code, now: int)
    requires Inv(db)
    ensures Inv(ReplaceCode(db, c, row, now).0)
  {
    hide GroupsOk, RevisionsOk, ManifestsOk, CodesOk, SessionsOk, BlocksOk, ReservationsOk, QuotaOk, OpenCode,
         ExpireCodes;
    ReplaceCodeKeepsCodes(db, c, row, now);
  }
}
