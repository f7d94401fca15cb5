/** Session files over whole runs: versions count the accepted writes, and start over only after a loss. */
module SessionLog {
  import opened Tables
  import opened Integrity
  import opened Machine
  import opened Totals
  import SyncGroups
  import Merging
  import Discarding
  import Documents
  import Frames
  import Uploads

  /** 0 for a session that is not there. */
  function Version(db: Db, k: (Id, string)): int {
    if k in db.sessions then db.sessions[k].version else 0
  }

  /** The operation is a put of this session that goes in at `base`. */
  ghost predicate Accepts(db: Db, op: Op, k: (Id, string), base: int) {
    && op.PutSession? && (op.account, op.session) == k && op.base == base
    && var out := Documents.PutSession(db, op.account, op.group, op.device, op.session, op.base, op.ciphertext,
                                       op.now).1;
       out.Ok? && !out.value.conflict
  }

  ghost predicate Puts(db: Db, op: Op, k: (Id, string)) {
    op.PutSession? && Accepts(db, op, k, op.base)
  }

  /** The operation takes the session away. */
  ghost predicate Loses(db: Db, op: Op, k: (Id, string)) {
    k in db.sessions && k !in Apply(db, op).sessions
  }

  /** Every operation either loses the session or moves its version by one per accepted put. */
  ghost predicate Counts(db: Db, op: Op, k: (Id, string)) {
    !Loses(db, op, k) ==> Version(Apply(db, op), k) == Version(db, k) + if Puts(db, op, k) then 1 else 0
  }

  lemma PutWrites(db: Db, a: Id, g: Id, d: Id, s: string, base: int, ciphertext: Bytes, now: int)
    ensures var (after, out) := Documents.PutSession(db, a, g, d, s, base, ciphertext, now);
            if out.Ok? && !out.value.conflict
            then base == Version(db, (a, s))
                 && after.sessions == db.sessions[(a, s) := Session(g, base + 1, ciphertext)]
            else after.sessions == db.sessions
  {
    hide Documents.WriterError, Documents.AddUsed, PendingCharges, Total, Purge;
    Uploads.PurgeKeepsTables(db, now);
    assert Purge(db, now).sessions == db.sessions;
  }

  lemma PutMovesVersion(db: Db, a: Id, g: Id, d: Id, s: string, base: int, ciphertext: Bytes, now: int, k: (Id, string))
    ensures var (after, out) := Documents.PutSession(db, a, g, d, s, base, ciphertext, now);
            var accepted := k == (a, s) && out.Ok? && !out.value.conflict;
            && (k in db.sessions ==> k in after.sessions)
            && Version(after, k) == Version(db, k) + (if accepted then 1 else 0)
            && (accepted ==> base == Version(db, k))
  {
    hide Documents.PutSession;
    PutWrites(db, a, g, d, s, base, ciphertext, now);
  }

  lemma PutCounts(db: Db, op: Op, k: (Id, string))
    requires op.PutSession?
    ensures Counts(db, op, k) && !Loses(db, op, k)
    ensures Puts(db, op, k) ==> op.base == Version(db, k)
  {
    hide Documents.PutSession;
    PutMovesVersion(db, op.account, op.group, op.device, op.session, op.base, op.ciphertext, op.now, k);
  }

  /** A successful delete that names the session's current version. */
  ghost predicate DeletesCurrent(db: Db, op: Op, k: (Id, string)) {
    && op.DeleteSession? && op.account == k.0 && op.session == k.1 && op.base == Version(db, k)
    && var out := Documents.DeleteSession(db, op.account, op.group, op.device, op.session, op.base).1;
       out.Ok? && out.value.deleted
  }

  /** A successful discard of the group that the session is in. */
  ghost predicate DiscardsGroup(db: Db, op: Op, k: (Id, string)) {
    && op.DiscardGroups? && op.account == k.0 && k in db.sessions && db.sessions[k].group != op.group
    && Discarding.DiscardGroups(db, op.account, op.caller, op.group, op.revision, op.now).1.Ok?
  }

  lemma DeleteCounts(db: Db, op: Op, k: (Id, string))
    requires op.DeleteSession?
    ensures Counts(db, op, k)
    ensures Loses(db, op, k) ==> DeletesCurrent(db, op, k)
  {
    hide Documents.WriterError, Documents.AddUsed;
  }

  lemma DiscardCounts(db: Db, op: Op, k: (Id, string))
    requires op.DiscardGroups? && Inv(db)
    ensures Counts(db, op, k)
    ensures Loses(db, op, k) ==> DiscardsGroup(db, op, k)
  {
    hide RevisionsOk, ManifestsOk, CodesOk, BlocksOk, ReservationsOk, QuotaOk, GroupsOk, SessionsOk,
         Discarding.OtherDevices, Discarding.OtherGroups, Discarding.OtherSessionBytes, Discarding.OtherBlocks,
         Discarding.Discard, Discarding.LoneDevices;
    if SeesRevision(db, op.caller, op.account, op.group, op.revision) {
      Discarding.DiscardEffect(db, op.account, op.group, op.now);
    }
  }

  lemma RedeemCounts(db: Db, op: Op, k: (Id, string))
    requires op.Redeem? && Inv(db)
    ensures Counts(db, op, k) && !Loses(db, op, k)
  {
    hide Inv, SyncGroups.RedeemCode, SyncGroups.Redeem;
    Discarding.InvSessions(db);
    var c := SyncGroups.RedeemCases(db, op.account, op.redeemer, op.mac, op.now);
    if c.Some? { RowCounts(db, op.account, op.redeemer, c.value, op.now, k); }
  }

  lemma RowCounts(db: Db, a: Id, redeemer: Id, c: Id, now: int, k: (Id, string))
    requires c in db.codes && SessionsOk(db.groups, db.sessions)
    ensures var after := SyncGroups.RedeemCode(db, a, redeemer, c, now).0;
            Version(after, k) == Version(db, k) && (k in after.sessions <==> k in db.sessions)
  {
    hide SyncGroups.RedeemCode, SyncGroups.MergeGroups, SyncGroups.ConsumeCode, Merging.Redeemable, SessionsOk;
    Merging.RedeemPaths(db, a, redeemer, c, now);
    var out := SyncGroups.RedeemCode(db, a, redeemer, c, now).1;
    if out.Ok? && !out.value.alreadyJoined {
      Merging.MergeDevicesAndSessions(db, a, out.value.canonical, out.value.removed.value, out.value.revision, c, now);
    }
  }

  lemma SameSessionsCount(db: Db, op: Op, k: (Id, string))
    requires Apply(db, op).sessions == db.sessions && !op.PutSession?
    ensures Counts(db, op, k) && !Loses(db, op, k)
  {
    hide Apply;
  }

  lemma OthersKeepSessions(db: Db, op: Op)
    requires !op.PutSession? && !op.DeleteSession? && !op.DiscardGroups? && !op.Redeem?
    ensures Apply(db, op).sessions == db.sessions
  {
    hide Frames.KeepsBlocks, SyncGroups.Register, SyncGroups.Enroll, SyncGroups.Revoke, SyncGroups.ReplaceCode,
         Documents.PutManifest;
    match op
    case Register(a, quota, d, g, now) =>
      SyncGroups.RegisterPaths(db, a, quota, d, g, now);
      SyncGroups.EnrollPaths(db.(accounts := db.accounts[a := Account(quota, 0)]), a, d, g, now);
    case Enroll(a, d, g, now) =>
      SyncGroups.EnrollPaths(db, a, d, g, now);
      assert SyncGroups.Enroll(db, a, d, g, now).1.Ok? || SyncGroups.Enroll(db, a, d, g, now).1.Err?;
    case Revoke(a, caller, g, target, now) => SyncGroups.RevokePaths(db, a, caller, g, target, now);
    case ReplaceCode(c, row, now) => Frames.ReplaceCodeFrame(db, c, row, now);
    case PutManifest(d, base, ciphertext) => Frames.PutManifestFrame(db, d, base, ciphertext);
    case _ => hide Apply; Frames.BlocksFrame(db, op);
  }

  /** A session is lost only to a successful delete of its current version or to a successful discard of its group. */
  lemma LossIsDeleteOrDiscard(db: Db, op: Op, k: (Id, string))
    requires Inv(db)
    ensures Counts(db, op, k)
    ensures Loses(db, op, k) ==> DeletesCurrent(db, op, k) || DiscardsGroup(db, op, k)
    ensures Puts(db, op, k) ==> op.base == Version(db, k)
  {
    hide Inv, Counts, Loses, Puts, Apply, DeletesCurrent, DiscardsGroup;
    if op.PutSession? {
      PutCounts(db, op, k);
    } else {
      NoPut(db, op, k);
      if op.DeleteSession? { DeleteCounts(db, op, k); }
      else if op.DiscardGroups? { DiscardCounts(db, op, k); }
      else if op.Redeem? { RedeemCounts(db, op, k); }
      else {
        OthersKeepSessions(db, op);
        SameSessionsCount(db, op, k);
      }
    }
  }

  lemma NoPut(db: Db, op: Op, k: (Id, string))
    requires !op.PutSession?
    ensures !Puts(db, op, k)
  {
  }

  // ---- a session belongs to its group ----

  /** The operation is a redemption that merges the session's group into the one the session is in afterwards. */
  ghost predicate MovesSession(db: Db, op: Op, k: (Id, string)) {
    && op.Redeem? && k in db.sessions && k in Apply(db, op).sessions
    && var out := SyncGroups.Redeem(db, op.account, op.redeemer, op.mac, op.now).1;
       && out.Ok? && out.value.removed == Some(db.sessions[k].group)
       && Apply(db, op).sessions[k].group == out.value.canonical
  }

  /** The operation is a put of this session by an active member of its group, accepted at the current version. */
  ghost predicate WritesOwn(db: Db, op: Op, k: (Id, string)) {
    && Puts(db, op, k) && k in db.sessions && op.group == db.sessions[k].group
    && InGroup(db, op.device, k.0, op.group) && db.devices[op.device].active
  }

  /** A session that stays keeps its group unless a merge moves it, and its version and ciphertext unless a member of
      its group writes it. */
  ghost predicate Belongs(db: Db, op: Op, k: (Id, string)) {
    k in db.sessions && k in Apply(db, op).sessions ==>
      var old', new' := db.sessions[k], Apply(db, op).sessions[k];
      && (new'.group != old'.group ==> MovesSession(db, op, k))
      && (new'.version != old'.version || new'.ciphertext != old'.ciphertext ==> WritesOwn(db, op, k))
  }

  lemma SameSessionBelongs(db: Db, op: Op, k: (Id, string))
    requires k in Apply(db, op).sessions && k in db.sessions ==> Apply(db, op).sessions[k] == db.sessions[k]
    ensures Belongs(db, op, k)
  {
    hide Apply, MovesSession, WritesOwn;
  }

  lemma PutBelongs(db: Db, op: Op, k: (Id, string))
    requires op.PutSession?
    ensures Belongs(db, op, k)
  {
    var (after, out) := Documents.PutSession(db, op.account, op.group, op.device, op.session, op.base, op.ciphertext,
                                             op.now);
    PutWrites(db, op.account, op.group, op.device, op.session, op.base, op.ciphertext, op.now);
    PutIsOwn(db, op.account, op.group, op.device, op.session, op.base, op.ciphertext, op.now);
    hide Documents.PutSession, MovesSession;
    assert Apply(db, op) == after;
    hide Apply;
  }

  lemma PutIsOwn(db: Db, a: Id, g: Id, d: Id, s: string, base: int, ciphertext: Bytes, now: int)
    ensures var out := Documents.PutSession(db, a, g, d, s, base, ciphertext, now).1;
            out.Ok? ==>
              && ((a, s) in db.sessions ==> db.sessions[(a, s)].group == g)
              && InGroup(db, d, a, g) && db.devices[d].active
  {
    Uploads.PurgeKeepsTables(db, now);
    hide Documents.AddUsed, PendingCharges, Total, Purge;
  }

  lemma DeleteBelongs(db: Db, op: Op, k: (Id, string))
    requires op.DeleteSession?
    ensures Belongs(db, op, k)
  {
    hide Documents.WriterError, Documents.AddUsed, MovesSession, WritesOwn;
  }

  lemma DiscardBelongs(db: Db, op: Op, k: (Id, string))
    requires op.DiscardGroups? && Inv(db)
    ensures Belongs(db, op, k)
  {
    hide RevisionsOk, ManifestsOk, CodesOk, BlocksOk, ReservationsOk, QuotaOk, GroupsOk, SessionsOk,
         Discarding.OtherDevices, Discarding.OtherGroups, Discarding.OtherSessionBytes, Discarding.OtherBlocks,
         Discarding.Discard, Discarding.LoneDevices, MovesSession, WritesOwn;
    if SeesRevision(db, op.caller, op.account, op.group, op.revision) {
      Discarding.DiscardEffect(db, op.account, op.group, op.now);
    }
  }

  lemma RedeemBelongs(db: Db, op: Op, k: (Id, string))
    requires op.Redeem? && Inv(db)
    ensures Belongs(db, op, k)
  {
    hide Inv, SyncGroups.RedeemCode, SyncGroups.Redeem, WritesOwn;
    Discarding.InvSessions(db);
    var c := SyncGroups.RedeemCases(db, op.account, op.redeemer, op.mac, op.now);
    if c.Some? && k in db.sessions { RowBelongs(db, op.account, op.redeemer, c.value, op.now, k); }
  }

  lemma RowBelongs(db: Db, a: Id, redeemer: Id, c: Id, now: int, k: (Id, string))
    requires c in db.codes && SessionsOk(db.groups, db.sessions) && k in db.sessions
    ensures var (after, out) := SyncGroups.RedeemCode(db, a, redeemer, c, now);
            && k in after.sessions && after.sessions[k] == db.sessions[k].(group := after.sessions[k].group)
            && (after.sessions[k].group != db.sessions[k].group ==>
                  out.Ok? && out.value.removed == Some(db.sessions[k].group)
                  && after.sessions[k].group == out.value.canonical)
  {
    hide SyncGroups.RedeemCode, SyncGroups.MergeGroups, SyncGroups.ConsumeCode, Merging.Redeemable, SessionsOk;
    Merging.RedeemPaths(db, a, redeemer, c, now);
    var out := SyncGroups.RedeemCode(db, a, redeemer, c, now).1;
    if out.Ok? && !out.value.alreadyJoined {
      Merging.MergeDevicesAndSessions(db, a, out.value.canonical, out.value.removed.value, out.value.revision, c, now);
    }
  }

  /** No operation of any kind lets another group touch a session. */
  lemma SessionsBelong(db: Db, op: Op, k: (Id, string))
    requires Inv(db)
    ensures Belongs(db, op, k)
  {
    hide Inv, Apply, Belongs;
    if op.PutSession? { PutBelongs(db, op, k); }
    else if op.DeleteSession? { DeleteBelongs(db, op, k); }
    else if op.DiscardGroups? { DiscardBelongs(db, op, k); }
    else if op.Redeem? { RedeemBelongs(db, op, k); }
    else {
      OthersKeepSessions(db, op);
      SameSessionBelongs(db, op, k);
    }
  }

  // ---- runs ----

  /** Puts of the session accepted by the operations from i up to j. */
  ghost function CountPuts(ops: seq<Op>, i: nat, j: nat, k: (Id, string)): nat
    requires i <= j <= |ops|
    decreases j - i
  {
    if i == j then 0 else CountPuts(ops, i, j - 1, k) + if Puts(At(ops, j - 1), ops[j - 1], k) then 1 else 0
  }

  ghost predicate Kept(ops: seq<Op>, i: nat, j: nat, k: (Id, string))
    requires i <= j <= |ops|
  {
    forall m :: i <= m < j ==> !Loses(At(ops, m), ops[m], k)
  }

  /** Over any stretch of a run that does not lose the session its version rises by exactly one per accepted put. */
  lemma {:induction false} VersionsCountPuts(ops: seq<Op>, i: nat, j: nat, k: (Id, string))
    requires i <= j <= |ops|
    ensures Kept(ops, i, j, k) ==> Version(At(ops, j), k) == Version(At(ops, i), k) + CountPuts(ops, i, j, k)
    decreases j - i
  {
    hide Inv, At, Loses, Puts, Counts, Version, DeletesCurrent, DiscardsGroup;
    if i < j && Kept(ops, i, j, k) {
      VersionsCountPuts(ops, i, j - 1, k);
      Advance(ops, j - 1);
      AtInv(ops, j - 1);
      LossIsDeleteOrDiscard(At(ops, j - 1), ops[j - 1], k);
      StepCounts(At(ops, j - 1), ops[j - 1], k);
    }
  }

  lemma StepCounts(db: Db, op: Op, k: (Id, string))
    requires Counts(db, op, k) && !Loses(db, op, k)
    ensures Version(Apply(db, op), k) == Version(db, k) + if Puts(db, op, k) then 1 else 0
  {
    hide Apply;
  }

  lemma {:induction false} MorePuts(ops: seq<Op>, i: nat, j: nat, k: (Id, string))
    requires i < j <= |ops| && Puts(At(ops, i), ops[i], k)
    ensures CountPuts(ops, i, j, k) >= 1
    decreases j
  {
    hide At, Puts;
    if i + 1 < j { MorePuts(ops, i, j - 1, k); }
  }

  /** Two puts of one session accepted at the same base: in between the session was lost, to a successful delete of its
      current version or to a successful discard of its group. */
  lemma BaseReusedOnlyAfterLoss(ops: seq<Op>, i: nat, j: nat, k: (Id, string), base: int)
    requires i < j < |ops|
    ensures Accepts(At(ops, i), ops[i], k, base) && Accepts(At(ops, j), ops[j], k, base) ==>
              exists m :: i < m < j && Loses(At(ops, m), ops[m], k)
                          && (DeletesCurrent(At(ops, m), ops[m], k) || DiscardsGroup(At(ops, m), ops[m], k))
  {
    hide Inv, At, Loses, Counts, Version, Accepts, Puts, CountPuts, DeletesCurrent, DiscardsGroup;
    if Accepts(At(ops, i), ops[i], k, base) && Accepts(At(ops, j), ops[j], k, base) {
      AcceptedPut(At(ops, i), ops[i], k, base);
      AcceptedPut(At(ops, j), ops[j], k, base);
      AtInv(ops, i);
      AtInv(ops, j);
      LossIsDeleteOrDiscard(At(ops, i), ops[i], k);
      LossIsDeleteOrDiscard(At(ops, j), ops[j], k);
      MorePuts(ops, i, j, k);
      VersionsCountPuts(ops, i, j, k);
      assert !Kept(ops, i, j, k);
      var m :| i <= m < j && Loses(At(ops, m), ops[m], k);
      AtInv(ops, m);
      LossIsDeleteOrDiscard(At(ops, m), ops[m], k);
      LossIsNoPut(At(ops, m), ops[m], k);
    }
  }

  lemma LossIsNoPut(db: Db, op: Op, k: (Id, string))
    requires DeletesCurrent(db, op, k) || DiscardsGroup(db, op, k)
    ensures !op.PutSession?
  {
  }

  /** Over any stretch of a run that does not lose the session: it is in another group afterwards only if a redemption
      merged its group away, and has another version or ciphertext only if a member of its group wrote it. */
  lemma {:induction false} SessionsBelongOverRuns(ops: seq<Op>, i: nat, j: nat, k: (Id, string))
    requires i <= j <= |ops| && Kept(ops, i, j, k) && k in At(ops, i).sessions
    ensures k in At(ops, j).sessions
    ensures At(ops, j).sessions[k].group != At(ops, i).sessions[k].group ==>
              exists m :: i <= m < j && MovesSession(At(ops, m), ops[m], k)
    ensures At(ops, j).sessions[k].(group := 0) != At(ops, i).sessions[k].(group := 0) ==>
              exists m :: i <= m < j && WritesOwn(At(ops, m), ops[m], k)
    decreases j - i
  {
    hide Inv, At, Apply, MovesSession, WritesOwn;
    if i < j {
      SessionsBelongOverRuns(ops, i, j - 1, k);
      Advance(ops, j - 1);
      AtInv(ops, j - 1);
      SessionsBelong(At(ops, j - 1), ops[j - 1], k);
    }
  }

  lemma AcceptedPut(db: Db, op: Op, k: (Id, string), base: int)
    requires Accepts(db, op, k, base)
    ensures Puts(db, op, k) && op.PutSession? && op.base == base
  {
    hide Documents.PutSession;
  }
}
