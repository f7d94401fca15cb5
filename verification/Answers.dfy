/** What the transactions answer and do, row by row, in every state that satisfies the invariant: so after any run.
    Guarantees, Invitations, ManifestLog and Revocation have the others. */
module Answers {
  import opened Tables
  import opened Integrity
  import opened Totals
  import Cardinality
  import Uploads
  import SyncGroups
  import Merging
  import Release
  import Pruning
  import Discarding
  import Collection
  import Guarantees
  import Holdings

  // ---- enrolment ----

  /** A new device, alone in a new group of revision 1, with an empty manifest log and nothing to read. */
  ghost predicate Enrolled(db: Db, after: Db, a: Id, d: Id, g: Id, now: int) {
    && after == db.(groups := db.groups[g := Group(a, 1, now)],
                    devices := db.devices[d := Device(a, Some(g), true, None)], heads := db.heads[d := 0])
    && Members(after.devices, g) == {d} && OwnedGroup(after, g, a)
    && (forall x, b :: !Visible(after, x, g, b))
    && (forall x, s :: !Merging.SessionVisible(after, x, g, s))
    && (forall v :: (d, v) !in after.manifests)
  }

  /** An enrolment needs an account and two fresh ids, and then always succeeds. */
  lemma EnrollAnswers(db: Db, a: Id, d: Id, g: Id, now: int)
    requires Inv(db)
    ensures var (after, out) := SyncGroups.Enroll(db, a, d, g, now);
            && out == (if a in db.accounts && d !in db.devices && g !in db.groups then Ok(()) else Err(Constraint))
            && (if out.Ok? then Enrolled(db, after, a, d, g, now) else after == db)
  {
    hide RevisionsOk, CodesOk, ReservationsOk, QuotaOk, ObjectsOk;
  }

  lemma RegisterAnswers(db: Db, a: Id, quota: int, d: Id, g: Id, now: int)
    requires Inv(db)
    ensures var (after, out) := SyncGroups.Register(db, a, quota, d, g, now);
            && out == (if a !in db.accounts && quota >= 0 && d !in db.devices && g !in db.groups then Ok(())
                       else Err(Constraint))
            && (if out.Ok? then Enrolled(db.(accounts := db.accounts[a := Account(quota, 0)]), after, a, d, g, now)
                else after == db)
  {
    if a !in db.accounts && quota >= 0 {
      NewAccountKeepsInv(db, a, quota);
      EnrollAnswers(db.(accounts := db.accounts[a := Account(quota, 0)]), a, d, g, now);
    }
    hide Inv, SyncGroups.Enroll, Enrolled;
  }

  lemma NewAccountKeepsInv(db: Db, a: Id, quota: int)
    requires Inv(db) && a !in db.accounts && quota >= 0
    ensures Inv(db.(accounts := db.accounts[a := Account(quota, 0)]))
  {
    hide GroupsOk, RevisionsOk, ManifestsOk, CodesOk, SessionsOk, BlocksOk, ReservationsOk, QuotaOk;
    SyncGroups.NewAccountOk(db, a, quota);
    SyncGroups.NewAccountQuota(db, a, quota);
  }

  // ---- uploads ----

  /** A commit spends its reservation, and charges the block to the account if it is new there. The report says which of
      the three rows it created. */
  lemma CommitAnswers(db: Db, rid: Id, now: int)
    requires Inv(db)
    ensures var (after, out) := Uploads.Commit(db, rid, now);
            if rid !in db.reservations then out == Err(ReservationMissing) && after == db
            else
              var r := db.reservations[rid];
              && r.device in db.devices && r.account in db.accounts
              && (out.Err? ==> after == db)
              && (out.Ok? <==> now < r.expiresAt && db.devices[r.device].active)
              && (out.Ok? ==>
                    var isNew := (r.account, r.block) !in db.accountBlocks;
                    var used := db.accounts[r.account].used + if isNew then |r.block.data| else 0;
                    && out.value == Uploads.Attached(r.block !in db.objects, isNew,
                                                     (r.device, r.block) !in db.deviceBlocks)
                    && after == db.(objects := db.objects[r.block := Object(|r.block.data|, false, None)],
                                    accounts := db.accounts[r.account := db.accounts[r.account].(used := used)],
                                    accountBlocks := db.accountBlocks + {(r.account, r.block)},
                                    deviceBlocks := db.deviceBlocks + {(r.device, r.block)},
                                    reservations := db.reservations - {rid}))
  {
    hide GroupsOk, RevisionsOk, ManifestsOk, CodesOk, SessionsOk, QuotaOk, ReservationsOk, ObjectsOk;
    if rid in db.reservations {
      Uploads.ReservationUsable(db, rid);
      Uploads.CommitOutcome(db, rid, now);
    }
  }

  lemma CancelAnswers(db: Db, rid: Id)
    ensures var after := Uploads.Cancel(db, rid);
            && after == db.(reservations := after.reservations)
            && forall r :: r in after.reservations <==> r in db.reservations && r != rid
    ensures forall r :: r in Uploads.Cancel(db, rid).reservations ==>
              Uploads.Cancel(db, rid).reservations[r] == db.reservations[r]
  {
  }

  // ---- prunes and clean-ups ----

  /** The devices D let go of the ids. The account is discharged of exactly those ids that none of its other devices
      holds, at their exact sizes, and an object is marked with the time exactly if this took its last reference. */
  ghost predicate Pruned(db: Db, after: Db, a: Id, D: set<Id>, ids: seq<Digest>, now: int) {
    && (forall d, b :: (d, b) in after.deviceBlocks <==> (d, b) in db.deviceBlocks && !(d in D && b in ids))
    && (forall x, b :: (x, b) in after.accountBlocks <==>
          (x, b) in db.accountBlocks && !(x == a && b in ids && OnlyHeldBy(db, a, D, b)))
    && after.objects.Keys == db.objects.Keys
    && (forall b :: b in db.objects ==>
          after.objects[b] == if Referenced(db.accountBlocks, b) && !Referenced(after.accountBlocks, b)
                              then Object(|b.data|, false, Some(now)) else db.objects[b])
    && after == db.(deviceBlocks := after.deviceBlocks, accountBlocks := after.accountBlocks,
                    objects := after.objects, accounts := after.accounts)
    && after.accounts.Keys == db.accounts.Keys
    && (forall x :: x in db.accounts ==>
          after.accounts[x] == db.accounts[x].(used := after.accounts[x].used)
          && after.accounts[x].used
             == Total(BlockCharges(after.accountBlocks, x)) + Total(SessionCharges(db.sessions, x)))
  }

  ghost predicate OnlyHeldBy(db: Db, a: Id, D: set<Id>, b: Digest) {
    forall d :: InAccount(db, d, a) && (d, b) in db.deviceBlocks ==> d in D
  }

  lemma PruneRows(db: Db, a: Id, D: set<Id>, ids: seq<Digest>, now: int)
    requires Inv(db)
    ensures Pruned(db, Release.PruneAll(db, a, D, ids, now), a, D, ids, now)
  {
    hide Inv, Release.PruneAll, Release.PruneSet, Total, BlockCharges, SessionCharges;
    Pruning.PruneAllIsOneShot(db, a, D, ids, now);
    Release.PruneAllKeepsInv(db, a, D, ids, now);
    Release.PruneAllFrame(db, a, D, ids, now);
    var after := Release.PruneAll(db, a, D, ids, now);
    SetRows(db, a, D, Pruning.Elements(ids), now);
    PrunedObjects(db, a, D, Pruning.Elements(ids), now);
    forall x | x in after.accounts
      ensures after.accounts[x].used
           == Total(BlockCharges(after.accountBlocks, x)) + Total(SessionCharges(after.sessions, x))
    {
      Guarantees.QuotaOf(after, x);
    }
  }

  lemma SetRows(db: Db, a: Id, D: set<Id>, S: set<Digest>, now: int)
    ensures var after := Release.PruneSet(db, a, D, S, now);
            && (forall d, b :: (d, b) in after.deviceBlocks <==> (d, b) in db.deviceBlocks && !(d in D && b in S))
            && (forall x, b :: (x, b) in after.accountBlocks <==>
                  (x, b) in db.accountBlocks && !(x == a && b in S && OnlyHeldBy(db, a, D, b)))
            && after.accounts.Keys == db.accounts.Keys
            && (forall x :: x in db.accounts ==>
                  after.accounts[x] == db.accounts[x].(used := after.accounts[x].used))
  {
    hide Release.Orphan, Release.SizeOf;
  }

  lemma PrunedObjects(db: Db, a: Id, D: set<Id>, S: set<Digest>, now: int)
    requires Inv(db)
    ensures var after := Release.PruneSet(db, a, D, S, now);
            && after.objects.Keys == db.objects.Keys
            && forall b :: b in db.objects ==>
                 after.objects[b] == if Referenced(db.accountBlocks, b) && !Referenced(after.accountBlocks, b)
                                     then Object(|b.data|, false, Some(now)) else db.objects[b]
  {
    hide Inv, Release.SizeOf, Release.LooseWithout, Release.Detached;
    var F := Release.Freed(db, a, D, S);
    var left := Release.Uncharged(db.accountBlocks, a, F);
    forall b | b in db.objects
      ensures b in F ==> Referenced(db.accountBlocks, b)
      ensures b !in F ==> (Referenced(db.accountBlocks, b) <==> Referenced(left, b))
    {
      if b in F { FreedWasCharged(db, a, D, S, b); }
      assert b !in F ==> forall x :: (x, b) in db.accountBlocks <==> (x, b) in left;
    }
    hide Referenced, Release.Freed;
  }

  lemma FreedWasCharged(db: Db, a: Id, D: set<Id>, S: set<Digest>, b: Digest)
    requires b in Release.Freed(db, a, D, S)
    ensures (a, b) in db.accountBlocks
  {
  }

  /** A prune batch needs an active member and the current revision; then its group's devices let go of the ids. */
  lemma PruneBatchAnswers(db: Db, a: Id, d: Id, g: Id, revision: int, ids: seq<Digest>, now: int)
    requires Inv(db)
    ensures var (after, out) := Release.PruneBatch(db, a, d, g, revision, ids, now);
            && out == (if InGroup(db, d, a, g) && db.devices[d].active && g in db.groups
                          && db.groups[g].revision == revision
                       then Ok(()) else Err(GroupChanged))
            && (out.Err? ==> after == db)
            && (out.Ok? ==> exists D :: (forall x :: x in D <==> InGroup(db, x, a, g))
                                        && Pruned(db, after, a, D, ids, now))
  {
    hide Inv, Pruned, Release.PruneAll;
    if InGroup(db, d, a, g) { DeviceHasAccount(db, d); }
    PruneRows(db, a, GroupDevices(db, a, g), ids, now);
  }

  lemma ReleaseBatchAnswers(db: Db, a: Id, ids: seq<Digest>, now: int)
    requires Inv(db)
    ensures Pruned(db, Release.ReleaseAll(db, a, ids, now), a, {}, ids, now)
  {
    hide Inv, Pruned, Release.PruneAll;
    PruneRows(db, a, {}, ids, now);
  }

  // ---- discards ----

  /** Every device of the account that was in another group is revoked, since now unless it was before, and in no
      group. Its manifests and block rows are gone, and so are the other groups with their sessions. */
  lemma DiscardAnswers(db: Db, a: Id, caller: Id, g: Id, revision: int, now: int, d: Id)
    requires Inv(db) && d in db.devices
    ensures var (after, out) := Discarding.DiscardGroups(db, a, caller, g, revision, now);
            var row := db.devices[d];
            var other := row.account == a && row.group.Some? && row.group != Some(g);
            out.Ok? ==>
              && d in after.devices
              && after.devices[d]
                 == (if other then Device(a, None, false, if row.revokedAt.Some? then row.revokedAt else Some(now))
                     else row)
              && (d in after.heads <==> d in db.heads && !other) && (d in after.heads ==> after.heads[d] == db.heads[d])
              && (forall v :: (d, v) in after.manifests <==> (d, v) in db.manifests && !other)
              && (forall b :: (d, b) in after.deviceBlocks <==> (d, b) in db.deviceBlocks && !other)
  {
    hide Inv, Discarding.OtherSessionBytes, Discarding.Discard, Discarding.OtherGroups, Discarding.OtherBlocks;
    Holdings.GroupsAreOwned(db);
    if SeesRevision(db, caller, a, g, revision) {
      Discarding.DiscardEffect(db, a, g, now);
      Discarding.DiscardKeepsAccounts(db, a, g, now);
      if Discarding.OtherDevices(db, a, g) != {} { Discarding.DiscardGroupsEffect(db, a, caller, g, revision, now); }
      assert d in Discarding.OtherDevices(db, a, g) ==> Discarding.OtherDevices(db, a, g) != {};
    }
  }

  // ---- the collector's claim ----

  /** What a claim may take: an object without any reference, orphaned by the deadline or claimed before, for which no
      upload holds a live reservation. */
  ghost predicate Claimable(db: Db, b: Digest, before: int, now: int) {
    && b in db.objects && !Referenced(db.accountBlocks, b)
    && (db.objects[b].deleting || (db.objects[b].orphanedAt.Some? && db.objects[b].orphanedAt.value <= before))
    && forall r :: r in db.reservations && db.reservations[r].block == b ==> db.reservations[r].expiresAt <= now
  }

  /** A claim takes claimable objects only, all of them up to the limit (256 for a limit that is not 1 to 1000), the
      earliest marks first. It marks exactly those deleting, purges expired reservations, and changes nothing else. */
  lemma ClaimAnswers(db: Db, before: int, now: int, limit: int, answer: set<Digest>)
    requires Inv(db) && Collection.ClaimAnswer(Purge(db, now), before, limit, answer)
    ensures var after := Collection.Claim(db, before, now, limit, answer);
            var most := if 1 <= limit <= 1000 then limit else 256;
            && (forall b :: b in answer ==> Claimable(db, b, before, now))
            && |answer| <= most
            && (|answer| < most ==> forall b :: Claimable(db, b, before, now) ==> b in answer)
            && (forall b, c :: b in answer && Claimable(db, c, before, now) && c !in answer ==>
                  b in db.objects && c in db.objects
                  && db.objects[b].orphanedAt.Some? && db.objects[c].orphanedAt.Some?
                  && db.objects[b].orphanedAt.value <= db.objects[c].orphanedAt.value)
            && after == db.(objects := after.objects, reservations := after.reservations)
            && after.objects == (map b | b in db.objects ::
                                   if b in answer then db.objects[b].(deleting := true) else db.objects[b])
            && (forall r :: r in after.reservations <==> Guarantees.Live(db, r, now))
            && (forall r :: r in after.reservations ==> after.reservations[r] == db.reservations[r])
  {
    var all := Collection.AllCollectible(Purge(db, now), before);
    forall b ensures Claimable(db, b, before, now) <==> b in all {
      ClaimableMeans(db, b, before, now);
    }
    AnswerOrder(db, before, now, limit, answer);
    hide Inv, Claimable, Referenced, Collection.Reserved, Collection.AllCollectible, Collection.OrphanKey;
    if |answer| == |all| { Cardinality.FullSubset(answer, all); }
    MarkedRows(db, before, now, answer);
  }

  lemma ClaimableMeans(db: Db, b: Digest, before: int, now: int)
    ensures Claimable(db, b, before, now) <==> b in Collection.AllCollectible(Purge(db, now), before)
  {
    hide Referenced;
    var p := Purge(db, now);
    if r :| r in db.reservations && db.reservations[r].block == b && db.reservations[r].expiresAt > now {
      assert r in p.reservations && p.reservations[r].block == b;
    }
  }

  lemma AnswerOrder(db: Db, before: int, now: int, limit: int, answer: set<Digest>)
    requires Inv(db) && Collection.ClaimAnswer(Purge(db, now), before, limit, answer)
    ensures forall b, c :: b in answer && Claimable(db, c, before, now) && c !in answer ==>
              b in db.objects && c in db.objects
              && db.objects[b].orphanedAt.Some? && db.objects[c].orphanedAt.Some?
              && db.objects[b].orphanedAt.value <= db.objects[c].orphanedAt.value
  {
    forall b ensures Claimable(db, b, before, now) <==> b in Collection.AllCollectible(Purge(db, now), before) {
      ClaimableMeans(db, b, before, now);
    }
    forall b | Claimable(db, b, before, now) ensures b in db.objects && db.objects[b].orphanedAt.Some? {
      Guarantees.MarkedIffUnreferenced(db, b);
    }
    hide Inv, Claimable, Referenced, Collection.Reserved, Collection.AllCollectible;
  }

  lemma MarkedRows(db: Db, before: int, now: int, answer: set<Digest>)
    requires forall b :: b in answer ==> b in Collection.AllCollectible(Purge(db, now), before)
    ensures Collection.MarkDeleting(Purge(db, now), answer)
         == map b | b in db.objects :: if b in answer then db.objects[b].(deleting := true) else db.objects[b]
  {
    hide Referenced, Collection.Reserved;
  }
}
