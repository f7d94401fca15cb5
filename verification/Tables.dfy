/** The relay's tables as values. One `Db` value is what one transaction sees. */
module Tables {
  type Byte = x: int | 0 <= x < 256
  type Bytes = seq<Byte>

  /** A UUID, as the 128-bit number that its canonical text spells (text order is number order). */
  newtype Id = x: int | x >= 0

  datatype Option<+T> = None | Some(value: T)

  /** SHA-256 as a free injective function: a digest is known by the bytes it was computed from. */
  datatype Digest = Sha256(data: Bytes)

  datatype Account = Account(quota: int, used: int)
  datatype Group = Group(account: Id, revision: int, createdAt: int)
  datatype Device = Device(account: Id, group: Option<Id>, active: bool, revokedAt: Option<int>)
  datatype Manifest = Manifest(ciphertext: Bytes, hash: Digest)
  datatype Code = Code(account: Id, group: Id, inviter: Id, mac: Bytes,
                       expiresAt: int, consumedAt: Option<int>, createdAt: int)
  datatype Object = Object(size: nat, deleting: bool, orphanedAt: Option<int>)
  datatype Session = Session(group: Id, version: int, ciphertext: Bytes)
  datatype Reservation = Reservation(account: Id, device: Id, block: Digest, size: nat, expiresAt: int)

  datatype Db = Db(
    accounts: map<Id, Account>,
    groups: map<Id, Group>,
    devices: map<Id, Device>,
    heads: map<Id, int>,
    manifests: map<(Id, int), Manifest>,
    codes: map<Id, Code>,
    sessions: map<(Id, string), Session>,
    objects: map<Digest, Object>,
    accountBlocks: set<(Id, Digest)>,
    deviceBlocks: set<(Id, Digest)>,
    reservations: map<Id, Reservation>)

  const EMPTY_DB := Db(map[], map[], map[], map[], map[], map[], map[], map[], {}, {}, map[])

  datatype Error =
    | GroupChanged | InactiveDevice | InvalidSyncCode | QuotaExceeded | UploadInProgress | SessionIdConflict
    | InvalidUploadDevice | ReservationMissing | ReservationExpired | SizeConflict
    | NoRow        // a SELECT that had to find a row found none
    | Constraint   // a PRIMARY KEY, UNIQUE, CHECK or FOREIGN KEY violation
    | CasMissed    // an UPDATE or DELETE guarded by the version just read touched no row
    | HashMismatch | InvalidInput | BlockNotFound
    | DiskError    // the file system refused

  datatype Outcome<+T> = Ok(value: T) | Err(error: Error)

  const MAX_SESSION_BYTES := 4194304
  const RESERVATION_SECONDS := 300
  const PRUNE_BATCH_SIZE := 256
  const CLAIM_LIMIT := 256
  const GRACE_SECONDS := 86400

  predicate InGroup(db: Db, d: Id, a: Id, g: Id) {
    d in db.devices && db.devices[d].account == a && db.devices[d].group == Some(g)
  }

  predicate InAccount(db: Db, d: Id, a: Id) {
    d in db.devices && db.devices[d].account == a
  }

  predicate OwnedGroup(db: Db, g: Id, a: Id) {
    g in db.groups && db.groups[g].account == a
  }

  function Members(devices: map<Id, Device>, g: Id): set<Id> {
    set d | d in devices && devices[d].group == Some(g)
  }

  function GroupDevices(db: Db, a: Id, g: Id): set<Id> {
    set d | d in db.devices && db.devices[d].account == a && db.devices[d].group == Some(g)
  }

  /** What a prune or a discard checks of its caller: an active member of the group, whose revision is the one it
      saw. */
  predicate SeesRevision(db: Db, d: Id, a: Id, g: Id, revision: int) {
    && InGroup(db, d, a, g) && db.devices[d].active
    && OwnedGroup(db, g, a) && db.groups[g].revision == revision
  }

  ghost predicate Referenced(accountBlocks: set<(Id, Digest)>, b: Digest) {
    exists a :: (a, b) in accountBlocks
  }

  /** Some device of the account holds the block. */
  ghost predicate HeldByDevice(db: Db, a: Id, b: Digest) {
    exists d :: InAccount(db, d, a) && (d, b) in db.deviceBlocks
  }

  /** Some device of the group holds the block: the group's members can read it. */
  ghost predicate Visible(db: Db, a: Id, g: Id, b: Digest) {
    exists d :: InGroup(db, d, a, g) && (d, b) in db.deviceBlocks
  }

  // `DELETE FROM upload_reservations WHERE expires_at <= now`
  function Purge(db: Db, now: int): Db {
    db.(reservations := map r | r in db.reservations && db.reservations[r].expiresAt > now :: db.reservations[r])
  }

  // `DELETE FROM sync_groups` for the given groups, with its foreign keys: devices are SET NULL,
  // sync codes and session files CASCADE.
  function DeleteGroups(db: Db, gone: set<Id>): Db {
    db.(groups := db.groups - gone,
        devices := map d | d in db.devices ::
          if db.devices[d].group.Some? && db.devices[d].group.value in gone
          then db.devices[d].(group := None) else db.devices[d],
        codes := map c | c in db.codes && db.codes[c].group !in gone :: db.codes[c],
        sessions := map k | k in db.sessions && db.sessions[k].group !in gone :: db.sessions[k])
  }

  // The rows a quota check or a release sums over.
  function BlockCharges(accountBlocks: set<(Id, Digest)>, a: Id): map<(Id, Digest), nat> {
    map p | p in accountBlocks && p.0 == a :: |p.1.data|
  }

  function SessionCharges(sessions: map<(Id, string), Session>, a: Id): map<(Id, string), nat> {
    map k | k in sessions && k.0 == a :: |sessions[k].ciphertext|
  }

  // Reservations of the account for blocks it does not hold (the NOT EXISTS clause).
  function PendingCharges(accountBlocks: set<(Id, Digest)>, reservations: map<Id, Reservation>, a: Id): map<Id, nat> {
    map r | r in reservations && reservations[r].account == a && (a, reservations[r].block) !in accountBlocks ::
      reservations[r].size
  }
}
