/** The in-memory store of login and session attempts (internal/auth/challenge.go). */
module Challenges {
  import opened Tables
  import opened Cardinality

  datatype Kind = Connection | Session
  datatype Attempt = Attempt(id: string, kind: Kind, username: string, accountExists: bool, account: string,
                             device: string,
                             authSalt: Bytes, challenge: Bytes, expiresAt: int)

  const TTL := 300_000_000_000   // five minutes in nanoseconds
  const DEFAULT_CAPACITY := 4096

  type Values = map<string, Attempt>

  // cleanupLocked
  function Unexpired(values: Values, now: int): Values {
    map id | id in values && values[id].expiresAt > now :: values[id]
  }

  /** A victim the scan may pick: one that expires first. Which of several equal ones it is depends on map order. */
  predicate Oldest(values: Values, id: string) {
    id in values && forall other :: other in values ==> values[id].expiresAt <= values[other].expiresAt
  }

  /** `victim` is the scan's choice, should there be no room. */
  datatype Call = Create(attempt: Attempt, now: int, victim: string) | Take(id: string, kind: Kind, now: int)

  function Apply(capacity: int, values: Values, call: Call): Values {
    match call
    case Create(a, now, victim) =>
      var kept := Unexpired(values, now);
      (if |kept| >= capacity then kept - {victim} else kept)[a.id := a]
    case Take(id, _, _) => values - {id}
  }

  /** The values after Create, for one of the victims the scan may pick. */
  ghost predicate Created(before: Values, after: Values, capacity: int, a: Attempt, now: int) {
    exists victim ::
      && (|Unexpired(before, now)| >= capacity ==> Oldest(Unexpired(before, now), victim))
      && after == Apply(capacity, before, Create(a, now, victim))
  }

  /** The attempt is stored; of the others the expired ones are gone and the rest as they were, except that a full store
      gave up one of those that expire first. */
  ghost predicate Replaces(before: Values, after: Values, capacity: int, a: Attempt, now: int) {
    && a.id in after && after[a.id] == a
    && (forall x :: x in after && x != a.id ==>
          x in before && after[x] == before[x] && after[x].expiresAt > now)
    && (forall x, y :: Evicted(before, after, a.id, x, now) && Evicted(before, after, a.id, y, now) ==> x == y)
    && (forall x :: Evicted(before, after, a.id, x, now) ==>
          && |Unexpired(before, now)| >= capacity
          && forall y :: y in before && before[y].expiresAt > now ==> before[x].expiresAt <= before[y].expiresAt)
  }

  predicate Evicted(before: Values, after: Values, id: string, x: string, now: int) {
    x != id && x in before && before[x].expiresAt > now && x !in after
  }

  class ChallengeStore {
    const capacity: int
    var values: Values

    ghost predicate Valid()
      reads this
    {
      0 < capacity && |values| <= capacity && forall id :: id in values ==> id != "" && values[id].id == id
    }

    constructor (capacity: int)
      ensures Valid() && values == map[] && this.capacity == if capacity <= 0 then 4096 else capacity
    {
      this.capacity := if capacity <= 0 then DEFAULT_CAPACITY else capacity;
      values := map[];
    }

    /** The id and the challenge are fresh random values; the clock is read once for the expiry and once for the
        clean-up. The attempt is stored for five minutes. Of the others, the expired ones go, and the rest stay as they
        are, except that a full store gives up one of those that expire first. */
    method Create(seed: Attempt, id: string, challenge: Bytes, readAt: int, now: int) returns (a: Attempt)
      requires Valid() && id != ""
      modifies this
      ensures Valid() && a == seed.(id := id, challenge := challenge, expiresAt := readAt + 300_000_000_000)
      ensures Created(old(values), values, capacity, a, now)
      ensures Replaces(old(values), values, capacity, a, now)
    {
      hide Unexpired, Oldest, Created, Replaces;
      a := seed.(id := id, challenge := challenge, expiresAt := readAt + TTL);
      ghost var was := values;
      CleanupLocked(now);
      ghost var kept := values;
      var victim := "";
      if |values| >= capacity {
        victim := FirstToExpire();
        ChosenIsStored(values, victim);
        values := values - {victim};
      }
      values := values[id := a];
      assert values == Apply(capacity, was, Call.Create(a, now, victim));
      StepKeepsCapacity(capacity, was, Call.Create(a, now, victim));
      CreatedRows(capacity, was, a, now, victim);
    }

    static lemma CreatedRows(capacity: int, before: Values, a: Attempt, now: int, victim: string)
      requires var kept := Unexpired(before, now); |kept| >= capacity ==> Oldest(kept, victim)
      ensures Created(before, Apply(capacity, before, Call.Create(a, now, victim)), capacity, a, now)
      ensures Replaces(before, Apply(capacity, before, Call.Create(a, now, victim)), capacity, a, now)
    {
      var after := Apply(capacity, before, Call.Create(a, now, victim));
      forall x | Evicted(before, after, a.id, x, now) ensures x == victim && |Unexpired(before, now)| >= capacity {
        assert x in Unexpired(before, now);
      }
      if Evicted(before, after, a.id, victim, now) {
        forall y | y in before && before[y].expiresAt > now ensures before[victim].expiresAt <= before[y].expiresAt {
          assert y in Unexpired(before, now);
        }
      }
    }

    static lemma ChosenIsStored(values: Values, id: string)
      requires Oldest(values, id)
      ensures id in values
    {
    }

    // The scan over the map.
    method FirstToExpire() returns (oldest: string)
      requires Valid() && values != map[]
      ensures Oldest(values, oldest)
    {
      oldest := "";
      var rest := values.Keys;
      while rest != {}
        invariant rest <= values.Keys && (oldest == "" <==> rest == values.Keys)
        invariant oldest != "" ==> oldest in values && oldest !in rest
        invariant oldest != "" ==> forall id :: id in values && id !in rest ==>
                    values[oldest].expiresAt <= values[id].expiresAt
        decreases |rest|
      {
        var id :| id in rest;
        if oldest == "" || values[id].expiresAt < values[oldest].expiresAt { oldest := id; }
        rest := rest - {id};
      }
    }

    /** An attempt is consumed whether or not the proof that follows succeeds. */
    method Take(id: string, kind: Kind, now: int) returns (out: Option<Attempt>)
      requires Valid()
      modifies this
      ensures Valid() && values == old(values) - {id}
      ensures out == if id in old(values) && old(values)[id].kind == kind && old(values)[id].expiresAt > now
                     then Some(old(values)[id]) else None
    {
      ghost var was := values;
      var found := id in values;
      if found {
        var value := values[id];
        out := if value.kind == kind && value.expiresAt > now then Some(value) else None;
      } else {
        out := None;
      }
      values := values - {id};
      assert values.Keys <= was.Keys;
      SubsetCard(values.Keys, was.Keys);
      assert |values.Keys| == |values| && |was.Keys| == |was|;
    }

    method CleanupLocked(now: int)
      requires Valid()
      modifies this
      ensures Valid() && values == Unexpired(old(values), now)
    {
      ghost var was := values;
      var rest := values.Keys;
      while rest != {}
        invariant rest <= values.Keys <= was.Keys && Valid()
        invariant forall id :: id in values ==> values[id] == was[id]
        invariant forall id :: id in was ==> (id in values <==> id in rest || was[id].expiresAt > now)
        decreases |rest|
      {
        var id :| id in rest;
        if values[id].expiresAt <= now {
          ghost var before := values;
          values := values - {id};
          assert values.Keys <= before.Keys;
          SubsetCard(values.Keys, before.Keys);
          assert |values.Keys| == |values| && |before.Keys| == |before|;
        }
        rest := rest - {id};
      }
    }
  }

  // ---- runs ----

  function Run(capacity: int, calls: seq<Call>): Values
    decreases |calls|
  {
    if calls == [] then map[] else Apply(capacity, Run(capacity, calls[..|calls| - 1]), calls[|calls| - 1])
  }

  /** The scan picks a value that expires first. */
  predicate Scanned(capacity: int, calls: seq<Call>) {
    forall i :: 0 <= i < |calls| && calls[i].Create? ==>
      var kept := Unexpired(Run(capacity, calls[..i]), calls[i].now);
      |kept| >= capacity ==> Oldest(kept, calls[i].victim)
  }

  predicate Succeeds(capacity: int, calls: seq<Call>, i: nat)
    requires i < |calls|
  {
    calls[i].Take? &&
    var values := Run(capacity, calls[..i]);
    calls[i].id in values && values[calls[i].id].kind == calls[i].kind && values[calls[i].id].expiresAt > calls[i].now
  }

  /** The store never holds more than its capacity. */
  lemma {:induction false} CapacityHolds(capacity: int, calls: seq<Call>)
    requires capacity > 0 && Scanned(capacity, calls)
    ensures |Run(capacity, calls)| <= capacity
    decreases |calls|
  {
    if calls != [] {
      var n := |calls| - 1;
      assert calls[..n][..n] == calls[..n];
      forall i | 0 <= i < n && calls[..n][i].Create?
        ensures calls[..n][..i] == calls[..i]
      {
      }
      CapacityHolds(capacity, calls[..n]);
      StepKeepsCapacity(capacity, Run(capacity, calls[..n]), calls[n]);
    }
  }

  lemma StepKeepsCapacity(capacity: int, values: Values, call: Call)
    requires capacity > 0 && |values| <= capacity
    requires call.Create? ==> var kept := Unexpired(values, call.now); |kept| >= capacity ==> call.victim in kept
    ensures |Apply(capacity, values, call)| <= capacity
  {
    var after := Apply(capacity, values, call);
    assert |after.Keys| == |after| && |values.Keys| == |values|;
    match call
    case Create(a, now, victim) =>
      var kept := Unexpired(values, now);
      var room := if |kept| >= capacity then kept - {victim} else kept;
      SubsetCard(kept.Keys, values.Keys);
      assert |kept.Keys| == |kept| && |room.Keys| == |room|;
      if |kept| >= capacity { assert kept.Keys == room.Keys + {victim}; }
      assert after.Keys == room.Keys + {a.id};
    case Take(id, _, _) => SubsetCard(after.Keys, values.Keys);
  }

  /** A value in the store is the last one created under its id, and nobody has asked for it since. */
  lemma {:induction false} StoredSinceCreate(capacity: int, calls: seq<Call>, id: string) returns (i: nat)
    requires id in Run(capacity, calls)
    ensures i < |calls| && calls[i].Create? && calls[i].attempt.id == id && Run(capacity, calls)[id] == calls[i].attempt
    ensures forall j :: i < j < |calls| ==>
              !(calls[j].Take? && calls[j].id == id) && !(calls[j].Create? && calls[j].attempt.id == id)
    decreases |calls|
  {
    var n := |calls| - 1;
    if calls[n].Create? && calls[n].attempt.id == id {
      i := n;
    } else {
      i := StoredSinceCreate(capacity, calls[..n], id);
    }
  }

  /** A successful Take returns the attempt as it was created, of the kind asked for and unexpired, and between the two
      nobody else took it: each created attempt is redeemed at most once, and never after a failed try. */
  lemma TakenOnceAsCreated(capacity: int, calls: seq<Call>, j: nat) returns (i: nat)
    requires j < |calls| && Succeeds(capacity, calls, j)
    ensures i < j && calls[i].Create? && calls[i].attempt == Run(capacity, calls[..j])[calls[j].id]
    ensures calls[i].attempt.id == calls[j].id && calls[i].attempt.kind == calls[j].kind
    ensures calls[j].now < calls[i].attempt.expiresAt
    ensures forall k :: i < k < j ==> !(calls[k].Take? && calls[k].id == calls[j].id)
  {
    i := StoredSinceCreate(capacity, calls[..j], calls[j].id);
    forall k | i < k < j ensures !(calls[k].Take? && calls[k].id == calls[j].id) {
      assert calls[..j][k] == calls[k];
    }
  }

  /** Between the calls i and j nobody asks for the attempt that i created, nobody creates another under its id, and
      it does not expire. */
  predicate LeftAlone(calls: seq<Call>, i: nat, j: nat)
    requires i < j <= |calls| && calls[i].Create?
  {
    var a := calls[i].attempt;
    forall k :: i < k < j ==>
      match calls[k]
      case Create(other, now, _) => other.id != a.id && now < a.expiresAt
      case Take(id, _, _) => id != a.id
  }

  /** Over any run an unexpired attempt that nobody took is lost only to a Create that found the store full of unexpired
      attempts of which none expires before it. */
  lemma {:induction false} LostOnlyWhenFull(capacity: int, calls: seq<Call>, i: nat, j: nat) returns (m: nat)
    requires i < j <= |calls| && calls[i].Create? && LeftAlone(calls, i, j) && Scanned(capacity, calls)
    requires calls[i].attempt.id !in Run(capacity, calls[..j])
    ensures i < m < j && calls[m].Create?
    ensures var kept := Unexpired(Run(capacity, calls[..m]), calls[m].now);
            |kept| >= capacity && Oldest(kept, calls[i].attempt.id) && kept[calls[i].attempt.id] == calls[i].attempt
    decreases j
  {
    hide Run, Apply, Scanned, LeftAlone, Unexpired, Oldest;
    var id := calls[i].attempt.id;
    var last := j - 1;
    RunNext(capacity, calls, last);
    Inserted(capacity, Run(capacity, calls[..i]), calls[i]);
    LeftAloneAt(calls, i, j);
    if id in Run(capacity, calls[..last]) {
      m := last;
      StillAsCreated(capacity, calls, i, m);
      if calls[m].Create? { ScannedAt(capacity, calls, m); }
      LostTo(capacity, Run(capacity, calls[..m]), calls[m], id);
    } else {
      m := LostOnlyWhenFull(capacity, calls, i, last);
    }
  }

  lemma RunNext(capacity: int, calls: seq<Call>, j: nat)
    requires j < |calls|
    ensures Run(capacity, calls[..j + 1]) == Apply(capacity, Run(capacity, calls[..j]), calls[j])
  {
    hide Apply;
    assert calls[..j + 1][..j] == calls[..j];
  }

  lemma Inserted(capacity: int, values: Values, call: Call)
    requires call.Create?
    ensures call.attempt.id in Apply(capacity, values, call)
  {
  }

  lemma LeftAloneAt(calls: seq<Call>, i: nat, j: nat)
    requires i < j <= |calls| && calls[i].Create? && LeftAlone(calls, i, j)
    ensures i < j - 1 ==> LeftAlone(calls, i, j - 1)
    ensures i < j - 1 ==>
              match calls[j - 1]
              case Create(other, now, _) => other.id != calls[i].attempt.id && now < calls[i].attempt.expiresAt
              case Take(id, _, _) => id != calls[i].attempt.id
  {
  }

  lemma ScannedAt(capacity: int, calls: seq<Call>, m: nat)
    requires Scanned(capacity, calls) && m < |calls| && calls[m].Create?
    ensures var kept := Unexpired(Run(capacity, calls[..m]), calls[m].now);
            |kept| >= capacity ==> Oldest(kept, calls[m].victim)
  {
    hide Run, Unexpired, Oldest;
  }

  lemma LostTo(capacity: int, values: Values, call: Call, id: string)
    requires id in values && id !in Apply(capacity, values, call)
    requires match call
             case Create(other, now, _) => other.id != id && now < values[id].expiresAt
             case Take(taken, _, _) => taken != id
    requires call.Create? ==>
               var kept := Unexpired(values, call.now); |kept| >= capacity ==> Oldest(kept, call.victim)
    ensures call.Create?
    ensures var kept := Unexpired(values, call.now); |kept| >= capacity && Oldest(kept, id) && kept[id] == values[id]
  {
    hide Oldest;
  }

  lemma {:induction false} StillAsCreated(capacity: int, calls: seq<Call>, i: nat, j: nat)
    requires i < j <= |calls| && calls[i].Create? && LeftAlone(calls, i, j)
    requires calls[i].attempt.id in Run(capacity, calls[..j])
    ensures Run(capacity, calls[..j])[calls[i].attempt.id] == calls[i].attempt
    decreases j
  {
    assert calls[..j][..j - 1] == calls[..j - 1];
    if i < j - 1 { StillAsCreated(capacity, calls, i, j - 1); }
  }

  /** Attempts created by the calls from i up to j. */
  function CountCreates(calls: seq<Call>, i: nat, j: nat): nat
    requires i <= j <= |calls|
    decreases j - i
  {
    if i == j then 0 else CountCreates(calls, i, j - 1) + if calls[j - 1].Create? then 1 else 0
  }

  function IdsCreated(calls: seq<Call>, i: nat, j: nat): set<string>
    requires i <= j <= |calls|
  {
    set k | i <= k < j && calls[k].Create? :: calls[k].attempt.id
  }

  lemma {:induction false} FewIds(calls: seq<Call>, i: nat, j: nat)
    requires i <= j <= |calls|
    ensures |IdsCreated(calls, i, j)| <= CountCreates(calls, i, j)
    decreases j - i
  {
    if i == j {
      assert IdsCreated(calls, i, j) == {};
    } else {
      var newest := if calls[j - 1].Create? then {calls[j - 1].attempt.id} else {};
      FewIds(calls, i, j - 1);
      SubsetCard(IdsCreated(calls, i, j), IdsCreated(calls, i, j - 1) + newest);
    }
  }

  lemma {:induction false} CountFrom(calls: seq<Call>, i: nat, m: nat, j: nat)
    requires i < m < j <= |calls| && calls[i].Create? && calls[m].Create?
    ensures CountCreates(calls, i, m) <= CountCreates(calls, i + 1, j)
    decreases j
  {
    if m + 1 == j {
      CountAfter(calls, i, m);
    } else {
      CountFrom(calls, i, m, j - 1);
    }
  }

  lemma {:induction false} CountAfter(calls: seq<Call>, i: nat, m: nat)
    requires i < m <= |calls| && calls[i].Create?
    ensures CountCreates(calls, i, m) == CountCreates(calls, i + 1, m) + 1
    decreases m
  {
    if i + 1 < m { CountAfter(calls, i, m - 1); }
  }

  /** Later attempts expire later. */
  predicate Rising(calls: seq<Call>) {
    forall i, j :: 0 <= i < j < |calls| && calls[i].Create? && calls[j].Create? ==>
      calls[i].attempt.expiresAt < calls[j].attempt.expiresAt
  }

  /** Oldest first: while expiries rise, an attempt that is left alone survives every run with fewer than `capacity`
      attempts created after it. */
  lemma SurvivesNewerAttempts(capacity: int, calls: seq<Call>, i: nat, j: nat)
    requires i < j <= |calls| && calls[i].Create? && LeftAlone(calls, i, j) && Scanned(capacity, calls) && Rising(calls)
    requires CountCreates(calls, i + 1, j) < capacity
    ensures calls[i].attempt.id in Run(capacity, calls[..j])
    ensures Run(capacity, calls[..j])[calls[i].attempt.id] == calls[i].attempt
  {
    hide Run, Scanned, LeftAlone, CountCreates;
    if calls[i].attempt.id !in Run(capacity, calls[..j]) {
      var m := LostOnlyWhenFull(capacity, calls, i, j);
      var kept := Unexpired(Run(capacity, calls[..m]), calls[m].now);
      forall id | id in kept.Keys ensures id in IdsCreated(calls, i, m) {
        var k := StoredSinceCreate(capacity, calls[..m], id);
        assert calls[k].attempt.id in IdsCreated(calls, i, m);
      }
      FewIds(calls, i, m);
      SubsetCard(kept.Keys, IdsCreated(calls, i, m));
      assert |kept.Keys| == |kept|;
      CountFrom(calls, i, m, j);
    } else {
      StillAsCreated(capacity, calls, i, j);
    }
  }
}
