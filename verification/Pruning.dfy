/** A prune, one block at a time and in batches, is one set difference. */
module Pruning {
  import opened Tables
  import opened Integrity
  import opened Release

  function Elements(ids: seq<Digest>): set<Digest> {
    set b | b in ids
  }

  lemma ElementsAppend(ids: seq<Digest>, b: Digest)
    ensures Elements(ids + [b]) == Elements(ids) + {b}
  {
  }

  lemma ElementsNext(ids: seq<Digest>, i: nat)
    requires i < |ids|
    ensures Elements(ids[..i + 1]) == Elements(ids[..i]) + {ids[i]}
  {
    assert ids[..i + 1] == ids[..i] + [ids[i]];
  }

  lemma {:induction false} ElementsBound(ids: seq<Digest>)
    ensures |Elements(ids)| <= |ids|
    decreases |ids|
  {
    if ids == [] {
      assert Elements(ids) == {};
    } else {
      var n := |ids| - 1;
      ElementsNext(ids, n);
      assert ids[..n + 1] == ids;
      ElementsBound(ids[..n]);
    }
  }

  /** As many distinct elements as positions: no repetition. */
  lemma LastIsNew(ids: seq<Digest>)
    requires ids != [] && |ids| == |Elements(ids)|
    ensures var n := |ids| - 1;
            && ids[n] in Elements(ids) && ids[n] !in Elements(ids[..n])
            && Elements(ids) == Elements(ids[..n]) + {ids[n]} && |ids[..n]| == |Elements(ids[..n])|
  {
    var n := |ids| - 1;
    ElementsNext(ids, n);
    assert ids[..n + 1] == ids;
    ElementsBound(ids[..n]);
  }

  lemma {:induction false} NextIsNew(ids: seq<Digest>, i: nat)
    requires i < |ids| == |Elements(ids)|
    ensures ids[i] in Elements(ids) && ids[i] !in Elements(ids[..i])
    decreases |ids|
  {
    var n := |ids| - 1;
    LastIsNew(ids);
    if i < n {
      assert ids[..n][..i] == ids[..i];
      NextIsNew(ids[..n], i);
    }
  }

  lemma {:induction false} ListOf(S: set<Digest>) returns (ids: seq<Digest>)
    ensures Elements(ids) == S && |ids| == |S|
    decreases |S|
  {
    if S == {} {
      ids := [];
    } else {
      var b :| b in S;
      ids := ListOf(S - {b});
      ElementsAppend(ids, b);
      ids := ids + [b];
    }
  }

  // ---- one block ----

  lemma LooseAfterDetach(db: Db, a: Id, D: set<Id>, b: Digest)
    ensures Loose(Detach(db, D, b), a, b) <==> LooseWithout(db, a, D, b)
  {
    var bare := Detach(db, D, b);
    if (a, b) in db.accountBlocks && !LooseWithout(db, a, D, b) {
      var d :| InAccount(db, d, a) && (d, b) in db.deviceBlocks && d !in D;
      assert InAccount(bare, d, a) && (d, b) in bare.deviceBlocks;
    }
  }

  lemma FreedOne(db: Db, a: Id, D: set<Id>, b: Digest)
    ensures Freed(db, a, D, {b}) == if LooseWithout(db, a, D, b) then {b} else {}
  {
    hide LooseWithout;
  }

  lemma FreeNothing(objects: map<Digest, Object>, accountBlocks: set<(Id, Digest)>, a: Id, now: int)
    ensures Uncharged(accountBlocks, a, {}) == accountBlocks
    ensures Orphan(objects, accountBlocks, {}, now) == objects
  {
  }

  lemma FreeOne(objects: map<Digest, Object>, accountBlocks: set<(Id, Digest)>, a: Id, b: Digest, now: int)
    requires b in objects && objects[b] == Object(|b.data|, false, None)
    ensures Uncharged(accountBlocks, a, {b}) == accountBlocks - {(a, b)}
    ensures Orphan(objects, accountBlocks - {(a, b)}, {b}, now)
         == if Referenced(accountBlocks - {(a, b)}, b) then objects
            else objects[b := Object(|b.data|, false, Some(now))]
  {
    hide Referenced;
  }

  lemma DischargeNothing(accounts: map<Id, Account>, a: Id)
    requires a in accounts
    ensures Discharge(accounts, a, 0) == accounts
  {
  }

  lemma PruneOne(db: Db, a: Id, D: set<Id>, b: Digest, now: int)
    requires Inv(db)
    ensures ReleaseBlock(Detach(db, D, b), a, b, now) == PruneSet(db, a, D, {b}, now)
  {
    hide Inv, LooseWithout, Freed, SizeOf, Orphan, Uncharged, Discharge, HeldByDevice, Detached;
    var bare := Detach(db, D, b);
    DetachKeepsInv(db, D, b);
    LooseAfterDetach(db, a, D, b);
    FreedOne(db, a, D, b);
    SizeOfAdd({}, b);
    assert {} + {b} == {b};
    if LooseWithout(db, a, D, b) {
      ReleaseEffect(bare, a, b, now);
      FreeOne(db.objects, db.accountBlocks, a, b, now);
      hide ReleaseBlock;
    } else {
      FreeNothing(db.objects, db.accountBlocks, a, now);
      if a in db.accounts { DischargeNothing(db.accounts, a); }
    }
  }

  // ---- composition ----

  lemma FreedCompose(db: Db, a: Id, D: set<Id>, b: Digest, T: set<Digest>, now: int)
    ensures var F, G := Freed(db, a, D, {b}), Freed(PruneSet(db, a, D, {b}, now), a, D, T);
            Freed(db, a, D, {b} + T) == F + G && F !! G
  {
    var after := PruneSet(db, a, D, {b}, now);
    FreedOne(db, a, D, b);
    hide Orphan, SizeOf, Discharge;
    forall x | x in T && x != b
      ensures LooseWithout(after, a, D, x) <==> LooseWithout(db, a, D, x)
    {
      assert (a, x) in after.accountBlocks <==> (a, x) in db.accountBlocks;
      assert forall d :: (d, x) in after.deviceBlocks <==> (d, x) in db.deviceBlocks;
      assert forall d :: InAccount(after, d, a) <==> InAccount(db, d, a);
    }
    FreedOnce(db, a, D, b, now);
  }

  /** A block that the first round freed, or that somebody outside D holds, is not freed again. */
  lemma FreedOnce(db: Db, a: Id, D: set<Id>, b: Digest, now: int)
    ensures !LooseWithout(PruneSet(db, a, D, {b}, now), a, D, b)
  {
    var after := PruneSet(db, a, D, {b}, now);
    FreedOne(db, a, D, b);
    hide Orphan, SizeOf, Discharge;
    if (a, b) in db.accountBlocks && !LooseWithout(db, a, D, b) {
      var d :| InAccount(db, d, a) && (d, b) in db.deviceBlocks && d !in D;
      assert InAccount(after, d, a) && (d, b) in after.deviceBlocks;
    }
  }

  lemma UnchargedCompose(accountBlocks: set<(Id, Digest)>, a: Id, F: set<Digest>, G: set<Digest>)
    ensures Uncharged(Uncharged(accountBlocks, a, F), a, G) == Uncharged(accountBlocks, a, F + G)
  {
  }

  lemma OrphanCompose(objects: map<Digest, Object>, accountBlocks: set<(Id, Digest)>, a: Id, F: set<Digest>,
                      G: set<Digest>, now: int)
    requires F !! G
    ensures var left := Uncharged(accountBlocks, a, F);
            var rest := Uncharged(left, a, G);
            Orphan(Orphan(objects, left, F, now), rest, G, now) == Orphan(objects, rest, F + G, now)
  {
    var left := Uncharged(accountBlocks, a, F);
    var rest := Uncharged(left, a, G);
    forall b | b in F ensures Referenced(left, b) <==> Referenced(rest, b) {
      assert forall x :: (x, b) in left <==> (x, b) in rest;
    }
    hide Referenced;
  }

  lemma DeviceBlocksCompose(deviceBlocks: set<(Id, Digest)>, D: set<Id>, S: set<Digest>, T: set<Digest>)
    ensures Detached(Detached(deviceBlocks, D, S), D, T) == Detached(deviceBlocks, D, S + T)
  {
  }

  lemma DischargeCompose(accounts: map<Id, Account>, a: Id, x: nat, y: nat)
    requires a in accounts
    ensures Discharge(Discharge(accounts, a, x), a, y) == Discharge(accounts, a, x + y)
  {
  }

  lemma PruneSetCompose(db: Db, a: Id, D: set<Id>, b: Digest, T: set<Digest>, now: int)
    ensures PruneSet(PruneSet(db, a, D, {b}, now), a, D, T, now) == PruneSet(db, a, D, {b} + T, now)
  {
    var after := PruneSet(db, a, D, {b}, now);
    var F, G := Freed(db, a, D, {b}), Freed(after, a, D, T);
    FreedCompose(db, a, D, b, T, now);
    FreedOne(db, a, D, b);
    UnchargedCompose(db.accountBlocks, a, F, G);
    OrphanCompose(db.objects, db.accountBlocks, a, F, G, now);
    SizeOfUnion(F, G);
    DeviceBlocksCompose(db.deviceBlocks, D, {b}, T);
    if a in db.accounts { DischargeCompose(db.accounts, a, SizeOf(F), SizeOf(G)); }
    hide Freed, LooseWithout, SizeOf, Orphan, Uncharged, Detached, Discharge;
  }

  lemma PruneNothing(db: Db, a: Id, D: set<Id>, now: int)
    ensures PruneSet(db, a, D, {}, now) == db
  {
    assert Freed(db, a, D, {}) == {};
    FreeNothing(db.objects, db.accountBlocks, a, now);
    SizeOfAdd({}, Sha256([]));
    if a in db.accounts { DischargeNothing(db.accounts, a); }
    assert Detached(db.deviceBlocks, D, {}) == db.deviceBlocks;
    hide Detached, Freed, SizeOf, Orphan, Uncharged, Discharge;
  }

  /** The whole prune: whatever the order and however cut into batches, the result is the one-shot set difference. */
  lemma {:induction false} PruneAllIsOneShot(db: Db, a: Id, D: set<Id>, ids: seq<Digest>, now: int)
    requires Inv(db)
    ensures PruneAll(db, a, D, ids, now) == PruneSet(db, a, D, Elements(ids), now)
    decreases |ids|
  {
    hide Inv, ReleaseBlock, Detach, PruneSet;
    if ids == [] {
      PruneNothing(db, a, D, now);
      assert Elements(ids) == {};
    } else {
      var bare := Detach(db, D, ids[0]);
      var next := ReleaseBlock(bare, a, ids[0], now);
      DetachKeepsInv(db, D, ids[0]);
      ReleaseKeepsInv(bare, a, ids[0], now);
      PruneAllIsOneShot(next, a, D, ids[1..], now);
      PruneOne(db, a, D, ids[0], now);
      PruneSetCompose(db, a, D, ids[0], Elements(ids[1..]), now);
      assert Elements(ids) == {ids[0]} + Elements(ids[1..]);
    }
  }

  lemma {:induction false} PruneAllAppend(db: Db, a: Id, D: set<Id>, xs: seq<Digest>, ys: seq<Digest>, now: int)
    ensures PruneAll(db, a, D, xs + ys, now) == PruneAll(PruneAll(db, a, D, xs, now), a, D, ys, now)
    decreases |xs|
  {
    hide ReleaseBlock, Detach;
    if xs == [] {
      assert xs + ys == ys;
    } else {
      assert (xs + ys)[0] == xs[0] && (xs + ys)[1..] == xs[1..] + ys;
      PruneAllAppend(ReleaseBlock(Detach(db, D, xs[0]), a, xs[0], now), a, D, xs[1..], ys, now);
    }
  }

  // ---- what the set difference means ----

  /** The blocks that a prune offers up: visible to the group and not kept. */
  ghost function Candidates(db: Db, a: Id, g: Id, keep: set<Digest>): set<Digest> {
    set p | p in db.deviceBlocks && InGroup(db, p.0, a, g) && p.1 !in keep :: p.1
  }

  lemma CandidatesAreVisible(db: Db, a: Id, g: Id, keep: set<Digest>, b: Digest)
    ensures b in Candidates(db, a, g, keep) <==> Visible(db, a, g, b) && b !in keep
  {
    if Visible(db, a, g, b) && b !in keep {
      var d :| InGroup(db, d, a, g) && (d, b) in db.deviceBlocks;
      assert (d, b).1 in Candidates(db, a, g, keep);
    }
  }

  /** After the prune the group sees exactly what it saw and kept; every other group sees what it saw; and the account
      still pays for exactly the blocks that were kept or that some device outside the group holds. */
  lemma PruneMeaning(db: Db, a: Id, g: Id, keep: set<Digest>, now: int, x: Id, h: Id, b: Digest)
    ensures var after := PruneSet(db, a, GroupDevices(db, a, g), Candidates(db, a, g, keep), now);
            && (Visible(after, a, g, b) <==> Visible(db, a, g, b) && b in keep)
            && (h != g || x != a ==> (Visible(after, x, h, b) <==> Visible(db, x, h, b)))
            && ((a, b) in after.accountBlocks <==>
                  (a, b) in db.accountBlocks && (b in Candidates(db, a, g, keep) ==> HeldOutside(db, a, g, b)))
            && (x != a ==> ((x, b) in after.accountBlocks <==> (x, b) in db.accountBlocks))
  {
    var after := PruneSet(db, a, GroupDevices(db, a, g), Candidates(db, a, g, keep), now);
    CandidatesAreVisible(db, a, g, keep, b);
    VisibleAfter(db, after, a, g, keep, x, h, b);
    FreedMeans(db, a, g, keep, b);
    hide Freed, Candidates, GroupDevices, Orphan, SizeOf, Visible, HeldOutside, Discharge;
  }

  ghost predicate HeldOutside(db: Db, a: Id, g: Id, b: Digest) {
    exists d :: InAccount(db, d, a) && !InGroup(db, d, a, g) && (d, b) in db.deviceBlocks
  }

  lemma VisibleAfter(db: Db, after: Db, a: Id, g: Id, keep: set<Digest>, x: Id, h: Id, b: Digest)
    requires after.devices == db.devices
    requires after.deviceBlocks == Detached(db.deviceBlocks, GroupDevices(db, a, g), Candidates(db, a, g, keep))
    ensures Visible(after, a, g, b) <==> Visible(db, a, g, b) && b in keep
    ensures h != g || x != a ==> (Visible(after, x, h, b) <==> Visible(db, x, h, b))
  {
    CandidatesAreVisible(db, a, g, keep, b);
    hide Candidates;
    assert forall d, y, k :: InGroup(after, d, y, k) <==> InGroup(db, d, y, k);
    assert forall d :: d in GroupDevices(db, a, g) <==> InGroup(db, d, a, g);
    hide GroupDevices;
  }

  lemma FreedMeans(db: Db, a: Id, g: Id, keep: set<Digest>, b: Digest)
    ensures b in Freed(db, a, GroupDevices(db, a, g), Candidates(db, a, g, keep))
       <==> b in Candidates(db, a, g, keep) && (a, b) in db.accountBlocks && !HeldOutside(db, a, g, b)
  {
    hide Candidates;
  }

  // ---- what a prune reports ----

  /** The blocks that lost their last reference between two states. */
  ghost function Lost(before: set<(Id, Digest)>, after: set<(Id, Digest)>): set<Digest> {
    set p | p in before && !Referenced(after, p.1) :: p.1
  }

  /** The account's counter fell by exactly these bytes, and no other counter moved. */
  ghost predicate Paid(before: Db, after: Db, a: Id, bytes: int) {
    && after.accounts.Keys == before.accounts.Keys
    && (forall x :: x in before.accounts ==>
          after.accounts[x] == before.accounts[x].(used := before.accounts[x].used - if x == a then bytes else 0))
    && (a !in before.accounts ==> bytes == 0)
  }

  lemma PaidTrans(x: Db, y: Db, z: Db, a: Id, m: int, n: int)
    requires Paid(x, y, a, m) && Paid(y, z, a, n)
    ensures Paid(x, z, a, m + n)
  {
  }

  lemma LostTrans(x: set<(Id, Digest)>, y: set<(Id, Digest)>, z: set<(Id, Digest)>)
    requires z <= y <= x
    ensures Lost(x, z) == Lost(x, y) + Lost(y, z)
  {
    forall p | p in x
      ensures !Referenced(z, p.1) <==> !Referenced(y, p.1) || (Referenced(y, p.1) && !Referenced(z, p.1))
    {
      if Referenced(z, p.1) {
        var a :| (a, p.1) in z;
        assert (a, p.1) in y;
      }
    }
    forall b | b in Lost(x, z) ensures b in Lost(x, y) || b in Lost(y, z) {
      if Referenced(y, b) {
        var a :| (a, b) in y;
        assert (a, b).1 in Lost(y, z);
      }
    }
    forall b | b in Lost(x, y) ensures b in Lost(x, z) {}
    forall b | b in Lost(y, z) ensures b in Lost(x, z) {}
    hide Referenced;
  }

  lemma ReleaseReports(db: Db, a: Id, b: Digest, now: int)
    requires Inv(db)
    ensures var after := ReleaseBlock(db, a, b, now);
            && Paid(db, after, a, Reclaimed(db, a, b))
            && Lost(db.accountBlocks, after.accountBlocks) == (if Orphaned(db, a, b) then {b} else {})
            && after.accountBlocks <= db.accountBlocks
  {
    hide Inv, HeldByDevice, Lost, Referenced, OrphanIfUnreferenced;
    if Loose(db, a, b) {
      ReleaseEffect(db, a, b, now);
      hide ReleaseBlock;
      LostOne(db.accountBlocks, a, b);
    } else {
      LostNothing(db.accountBlocks);
    }
  }

  lemma LostOne(accountBlocks: set<(Id, Digest)>, a: Id, b: Digest)
    requires (a, b) in accountBlocks
    ensures Lost(accountBlocks, accountBlocks - {(a, b)}) == if Referenced(accountBlocks - {(a, b)}, b) then {} else {b}
  {
    var left := accountBlocks - {(a, b)};
    forall p | p in accountBlocks && p.1 != b ensures Referenced(left, p.1) {
      assert (p.0, p.1) in left;
    }
    assert !Referenced(left, b) ==> (a, b).1 in Lost(accountBlocks, left);
  }

  lemma LostNothing(accountBlocks: set<(Id, Digest)>)
    ensures Lost(accountBlocks, accountBlocks) == {}
  {
    forall p | p in accountBlocks ensures Referenced(accountBlocks, p.1) {
      assert (p.0, p.1) in accountBlocks;
    }
  }

  /** One more id at the end of a prune: its state, its bytes and its orphan. */
  lemma PruneStep(db: Db, a: Id, D: set<Id>, ids: seq<Digest>, i: nat, now: int)
    requires Inv(db) && i < |ids|
    ensures var mid := PruneAll(db, a, D, ids[..i], now);
            var bare := Detach(mid, D, ids[i]);
            var after := PruneAll(db, a, D, ids[..i + 1], now);
            && after == ReleaseBlock(bare, a, ids[i], now)
            && Paid(mid, after, a, Reclaimed(bare, a, ids[i]))
            && Lost(mid.accountBlocks, after.accountBlocks) == (if Orphaned(bare, a, ids[i]) then {ids[i]} else {})
            && after.accountBlocks <= mid.accountBlocks
  {
    hide Inv, PruneAll, ReleaseBlock, Reclaimed, Orphaned, Lost, Paid;
    var mid := PruneAll(db, a, D, ids[..i], now);
    var bare := Detach(mid, D, ids[i]);
    PruneAllAppend(db, a, D, ids[..i], [ids[i]], now);
    assert ids[..i + 1] == ids[..i] + [ids[i]];
    PruneSingle(mid, a, D, ids[i], now);
    PruneAllKeepsInv(db, a, D, ids[..i], now);
    DetachKeepsInv(mid, D, ids[i]);
    ReleaseReports(bare, a, ids[i], now);
    PaidFrame(mid, bare, ReleaseBlock(bare, a, ids[i], now), a, Reclaimed(bare, a, ids[i]));
  }

  lemma PaidFrame(x: Db, y: Db, z: Db, a: Id, bytes: int)
    requires Paid(y, z, a, bytes) && x.accounts == y.accounts
    ensures Paid(x, z, a, bytes)
  {
  }

  lemma PruneSingle(db: Db, a: Id, D: set<Id>, b: Digest, now: int)
    ensures PruneAll(db, a, D, [b], now) == ReleaseBlock(Detach(db, D, b), a, b, now)
  {
    hide ReleaseBlock, Detach;
  }

  /** The bytes reported are the sizes of the blocks freed. */
  lemma PruneSetPays(db: Db, a: Id, D: set<Id>, S: set<Digest>, now: int)
    requires Inv(db)
    ensures Paid(db, PruneSet(db, a, D, S, now), a, if a in db.accounts then SizeOf(Freed(db, a, D, S)) else 0)
    ensures PruneSet(db, a, D, S, now).accountBlocks <= db.accountBlocks
  {
    hide Inv, SizeOf, Freed, Orphan;
  }

  /** No block that some device of the account still holds is released by the clean-up, in whatever state it runs. */
  lemma HeldBlocksSurvive(db: Db, a: Id, ids: seq<Digest>, now: int, b: Digest)
    requires Inv(db) && (a, b) in db.accountBlocks && HeldByDevice(db, a, b)
    ensures (a, b) in ReleaseAll(db, a, ids, now).accountBlocks
  {
    PruneAllIsOneShot(db, a, {}, ids, now);
    hide Inv, PruneAll, Orphan, SizeOf, Discharge;
  }
}
