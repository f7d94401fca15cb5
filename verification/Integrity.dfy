/** What every reachable database satisfies. Each predicate names the tables it reads and no others. */
module Integrity {
  import opened Tables
  import opened Totals

  ghost predicate GroupsOk(accounts: map<Id, Account>, groups: map<Id, Group>, devices: map<Id, Device>) {
    && (forall g :: g in groups ==> groups[g].account in accounts)
    && (forall d :: d in devices ==> devices[d].account in accounts)
    && (forall d :: d in devices && devices[d].group.Some? ==>
          devices[d].group.value in groups && groups[devices[d].group.value].account == devices[d].account)
    && (forall d :: d in devices ==> (devices[d].active ==> devices[d].group.Some?))
    && (forall d :: d in devices ==> (devices[d].active <==> devices[d].revokedAt.None?))
  }

  function Pow2(n: nat): nat {
    if n == 0 then 1 else 2 * Pow2(n - 1)
  }

  /** A group of revision r was built by merges at most r - 1 deep, and every merge added a device. */
  ghost predicate RevisionsOk(groups: map<Id, Group>, devices: map<Id, Device>) {
    forall g :: g in groups ==>
      1 <= groups[g].revision <= |Members(devices, g)| <= Pow2(groups[g].revision - 1)
  }

  ghost predicate ManifestsOk(devices: map<Id, Device>, heads: map<Id, int>, manifests: map<(Id, int), Manifest>) {
    && (forall d :: d in heads <==> d in devices && devices[d].group.Some?)
    && (forall d :: d in heads ==> heads[d] >= 0)
    && (forall k :: k in manifests <==> k.0 in heads && 1 <= k.1 <= heads[k.0])
    && (forall k :: k in manifests ==> manifests[k].hash == Sha256(manifests[k].ciphertext))
  }

  predicate Unconsumed(codes: map<Id, Code>, c: Id) {
    c in codes && codes[c].consumedAt.None?
  }

  ghost predicate CodesOk(groups: map<Id, Group>, devices: map<Id, Device>, codes: map<Id, Code>) {
    && (forall c :: c in codes ==> codes[c].group in groups && codes[c].inviter in devices)
    && (forall c :: Unconsumed(codes, c) ==>
          devices[codes[c].inviter].group == Some(codes[c].group)
          && devices[codes[c].inviter].account == codes[c].account)
    && InvitersUnique(codes)
    && MacsUnique(codes)
  }

  ghost predicate InvitersUnique(codes: map<Id, Code>) {
    forall c, c' | Unconsumed(codes, c) && Unconsumed(codes, c') :: codes[c].inviter == codes[c'].inviter ==> c == c'
  }

  // The partial unique index idx_sync_codes_active_mac.
  ghost predicate MacsUnique(codes: map<Id, Code>) {
    forall c, c' | Unconsumed(codes, c) && Unconsumed(codes, c') ::
      codes[c].account == codes[c'].account && codes[c].mac == codes[c'].mac ==> c == c'
  }

  ghost predicate SessionsOk(groups: map<Id, Group>, sessions: map<(Id, string), Session>) {
    forall k :: k in sessions ==>
      && sessions[k].group in groups && groups[sessions[k].group].account == k.0
      && sessions[k].version >= 1 && 1 <= |sessions[k].ciphertext| <= MAX_SESSION_BYTES
  }

  /** Device rows need account rows, account rows need an active object, and an object carries an orphan mark
      exactly while no account references it. */
  ghost predicate BlocksOk(accounts: map<Id, Account>, devices: map<Id, Device>, objects: map<Digest, Object>,
                           accountBlocks: set<(Id, Digest)>, deviceBlocks: set<(Id, Digest)>) {
    && (forall p :: p in deviceBlocks ==>
          p.0 in devices && devices[p.0].group.Some? && (devices[p.0].account, p.1) in accountBlocks)
    && (forall p :: p in accountBlocks ==> p.0 in accounts && p.1 in objects)
    && ObjectsOk(objects, accountBlocks)
  }

  ghost predicate ObjectsOk(objects: map<Digest, Object>, accountBlocks: set<(Id, Digest)>) {
    forall b :: b in objects ==>
      && objects[b].size == |b.data|
      && (objects[b].orphanedAt.None? <==> Referenced(accountBlocks, b))
      && (objects[b].deleting ==> objects[b].orphanedAt.Some?)
  }

  ghost predicate ReservationsOk(accounts: map<Id, Account>, devices: map<Id, Device>, objects: map<Digest, Object>,
                                 reservations: map<Id, Reservation>) {
    && (forall r :: r in reservations ==>
          && reservations[r].account in accounts
          && reservations[r].device in devices && devices[reservations[r].device].account == reservations[r].account
          && reservations[r].size == |reservations[r].block.data|
          && (reservations[r].block in objects ==> !objects[reservations[r].block].deleting))
    && ReservationsUnique(reservations)
  }

  // The unique index idx_upload_reservations_account_block.
  ghost predicate ReservationsUnique(reservations: map<Id, Reservation>) {
    forall r, r' | r in reservations && r' in reservations ::
      reservations[r].account == reservations[r'].account && reservations[r].block == reservations[r'].block ==> r == r'
  }

  /** The denormalised counter is exact, and with the open reservations it stays inside the quota. */
  ghost predicate QuotaOk(accounts: map<Id, Account>, accountBlocks: set<(Id, Digest)>,
                          sessions: map<(Id, string), Session>, reservations: map<Id, Reservation>) {
    forall a :: a in accounts ==> AccountQuotaOk(accounts[a], a, accountBlocks, sessions, reservations)
  }

  ghost predicate AccountQuotaOk(row: Account, a: Id, accountBlocks: set<(Id, Digest)>,
                                 sessions: map<(Id, string), Session>, reservations: map<Id, Reservation>) {
    && row.used == Total(BlockCharges(accountBlocks, a)) + Total(SessionCharges(sessions, a))
    && row.used + Total(PendingCharges(accountBlocks, reservations, a)) <= row.quota
  }

  ghost predicate Inv(db: Db) {
    && GroupsOk(db.accounts, db.groups, db.devices)
    && RevisionsOk(db.groups, db.devices)
    && ManifestsOk(db.devices, db.heads, db.manifests)
    && CodesOk(db.groups, db.devices, db.codes)
    && SessionsOk(db.groups, db.sessions)
    && BlocksOk(db.accounts, db.devices, db.objects, db.accountBlocks, db.deviceBlocks)
    && ReservationsOk(db.accounts, db.devices, db.objects, db.reservations)
    && QuotaOk(db.accounts, db.accountBlocks, db.sessions, db.reservations)
  }

  lemma DeviceHasAccount(db: Db, d: Id)
    requires Inv(db) && d in db.devices
    ensures db.devices[d].account in db.accounts
    ensures db.devices[d].group.Some? ==> OwnedGroup(db, db.devices[d].group.value, db.devices[d].account)
    ensures db.devices[d].active ==> db.devices[d].group.Some?
  {
    hide RevisionsOk, ManifestsOk, CodesOk, SessionsOk, BlocksOk, ReservationsOk, QuotaOk;
  }
}
