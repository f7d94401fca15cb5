/** The limiter over whole runs: it agrees with one that never forgets a grant. */
module RateLimits {
  import opened Limiter
  import opened Cardinality

  datatype Call = Call(key: string, now: int)

  function Table(l: Limits, calls: seq<Call>): map<string, seq<int>>
    decreases |calls|
  {
    if calls == [] then map[]
    else
      var n := |calls| - 1;
      Decide(l, Table(l, calls[..n]), calls[n].key, calls[n].now).0
  }

  function AnswerTo(l: Limits, calls: seq<Call>, c: Call): Answer {
    Decide(l, Table(l, calls), c.key, c.now).1
  }

  /** Every grant the key ever got, in order. */
  function Grants(l: Limits, calls: seq<Call>, key: string): seq<int>
    decreases |calls|
  {
    if calls == [] then []
    else
      var n := |calls| - 1;
      var last := calls[n];
      Grants(l, calls[..n], key) + if last.key == key && AnswerTo(l, calls[..n], last).allowed then [last.now] else []
  }

  /** Times never go back. */
  predicate Ordered(calls: seq<Call>) {
    forall i, j :: 0 <= i < j < |calls| ==> calls[i].now <= calls[j].now
  }

  /** Keys with a grant inside the window that ends at `now`. */
  function Active(l: Limits, calls: seq<Call>, now: int): set<string> {
    set c | c in calls && Fresh(Grants(l, calls, c.key), now - l.window) != [] :: c.key
  }

  /** The answer of a limiter that keeps the whole history and looks only at it. */
  function HistoryAnswer(l: Limits, calls: seq<Call>, c: Call): Answer {
    var recent := Fresh(Grants(l, calls, c.key), c.now - l.window);
    if c.key == "" then Answer(false, 60_000_000_000)
    else if recent != [] && |recent| >= l.max then Answer(false, recent[0] + l.window - c.now)
    else if recent == [] && |Active(l, calls, c.now)| >= l.capacity then Answer(false, l.window)
    else Answer(true, 0)
  }

  // ---- filtering ----

  lemma {:induction false} FreshAppend(xs: seq<int>, ys: seq<int>, cutoff: int)
    ensures Fresh(xs + ys, cutoff) == Fresh(xs, cutoff) + Fresh(ys, cutoff)
    decreases |ys|
  {
    if ys == [] {
      assert xs + ys == xs;
    } else {
      var n := |ys| - 1;
      assert (xs + ys)[..|xs + ys| - 1] == xs + ys[..n];
      FreshAppend(xs, ys[..n], cutoff);
    }
  }

  /** Filtering early never changes a later filtering. */
  lemma {:induction false} FreshTwice(hits: seq<int>, early: int, late: int)
    requires early <= late
    ensures Fresh(Fresh(hits, early), late) == Fresh(hits, late)
    decreases |hits|
  {
    if hits != [] {
      var n := |hits| - 1;
      FreshTwice(hits[..n], early, late);
      FreshAppend(Fresh(hits[..n], early), if hits[n] > early then [hits[n]] else [], late);
      assert Fresh([hits[n]], late) == if hits[n] > late then [hits[n]] else [] by { assert [hits[n]][..0] == []; }
    }
  }

  predicate Sorted(hits: seq<int>) {
    forall i, j :: 0 <= i < j < |hits| ==> hits[i] <= hits[j]
  }

  lemma SortedLast(hits: seq<int>)
    requires Sorted(hits) && hits != []
    ensures Sorted(hits[..|hits| - 1]) && forall i :: 0 <= i < |hits| ==> hits[i] <= hits[|hits| - 1]
  {
  }

  /** Of a sorted list the fresh hits are the suffix that starts at the first fresh one. */
  lemma {:induction false} FreshSuffix(hits: seq<int>, cutoff: int) returns (k: nat)
    requires Sorted(hits)
    ensures k <= |hits| && Fresh(hits, cutoff) == hits[k..]
    ensures k > 0 ==> hits[k - 1] <= cutoff
    ensures k < |hits| ==> hits[k] > cutoff
    decreases |hits|
  {
    hide Sorted;
    if hits == [] {
      k := 0;
    } else {
      var n := |hits| - 1;
      SortedLast(hits);
      if hits[n] <= cutoff {
        NothingIsFresh(hits, cutoff);
        k := |hits|;
      } else {
        k := FreshSuffix(hits[..n], cutoff);
        assert hits[k..] == hits[..n][k..] + [hits[n]];
      }
    }
  }

  lemma SortedUpTo(hits: seq<int>, i: nat, k: nat)
    requires Sorted(hits) && k <= |hits|
    ensures i < k ==> hits[i] <= hits[k - 1]
  {
  }

  lemma {:induction false} NothingIsFresh(hits: seq<int>, cutoff: int)
    requires forall i :: 0 <= i < |hits| ==> hits[i] <= cutoff
    ensures Fresh(hits, cutoff) == []
    decreases |hits|
  {
    if hits != [] { NothingIsFresh(hits[..|hits| - 1], cutoff); }
  }

  // ---- the table is the recent part of the history ----

  lemma RoomHits(l: Limits, table: map<string, seq<int>>, own: string, cutoff: int, key: string)
    ensures var kept := Room(l, table, own, cutoff);
            if key == own then key !in kept
            else Hits(kept, key) == Hits(table, key) || Hits(kept, key) == Fresh(Hits(table, key), cutoff)
  {
  }

  /** What one decision does to one entry: other keys are at most filtered, the key's own entry is filtered, and a grant
      adds its time. */
  lemma DecideHits(l: Limits, table: map<string, seq<int>>, c: Call, key: string)
    requires l.max > 0 && c.key != ""
    ensures var (after, answer) := Decide(l, table, c.key, c.now);
            var recent := Fresh(Hits(table, key), c.now - l.window);
            if key == c.key then Hits(after, key) == recent + if answer.allowed then [c.now] else []
            else Hits(after, key) == Hits(table, key) || Hits(after, key) == recent
  {
    hide Settle, Room, RetryAfter, Fresh;
    var recent := Fresh(Hits(table, c.key), c.now - l.window);
    SettlePaths(l, table, c.key, c.now, recent);
    RoomHits(l, table, c.key, c.now - l.window, key);
    assert recent + [] == recent;
    if recent == [] { assert recent + [c.now] == [c.now]; }
  }

  /** ... as any later filtering sees it. */
  lemma DecideTracks(l: Limits, table: map<string, seq<int>>, c: Call, key: string, at: int)
    requires l.max > 0 && c.now <= at
    ensures var (after, answer) := Decide(l, table, c.key, c.now);
            Fresh(Hits(after, key), at - l.window)
            == Fresh(Hits(table, key) + (if c.key == key && answer.allowed then [c.now] else []), at - l.window)
  {
    hide Decide, Fresh, Hits;
    var (after, answer) := Decide(l, table, c.key, c.now);
    assert Hits(table, key) + [] == Hits(table, key);
    if c.key == "" {
      DecideNoKey(l, table, c.now);
    } else {
      var recent := Fresh(Hits(table, key), c.now - l.window);
      DecideHits(l, table, c, key);
      FreshTwice(Hits(table, key), c.now - l.window, at - l.window);
      FreshAppend(recent, [c.now], at - l.window);
      FreshAppend(Hits(table, key), [c.now], at - l.window);
      assert recent + [] == recent;
    }
  }

  lemma NoHits(key: string)
    ensures Hits(map[], key) == []
  {
  }

  lemma {:induction false} TableTracksGrants(l: Limits, calls: seq<Call>, key: string, at: int)
    requires l.max > 0 && Ordered(calls) && forall c :: c in calls ==> c.now <= at
    ensures Fresh(Hits(Table(l, calls), key), at - l.window) == Fresh(Grants(l, calls, key), at - l.window)
    decreases |calls|
  {
    hide Decide, Hits, Fresh;
    if calls == [] {
      NoHits(key);
    } else {
      var n := |calls| - 1;
      var table := Table(l, calls[..n]);
      var grant := if calls[n].key == key && AnswerTo(l, calls[..n], calls[n]).allowed then [calls[n].now] else [];
      assert calls[n] in calls;
      TableTracksGrants(l, calls[..n], key, at);
      DecideTracks(l, table, calls[n], key, at);
      FreshAppend(Hits(table, key), grant, at - l.window);
      FreshAppend(Grants(l, calls[..n], key), grant, at - l.window);
    }
  }

  // ---- the table is bounded ----

  lemma DecideKeys(l: Limits, table: map<string, seq<int>>, c: Call)
    requires |table| <= l.capacity && l.max > 0
    ensures var after := Decide(l, table, c.key, c.now).0;
            && |after| <= l.capacity
            && forall k :: k in after ==> k in table || (k == c.key && k != "")
  {
    hide Settle, Room, RetryAfter, Fresh;
    if c.key != "" {
      var recent := Fresh(Hits(table, c.key), c.now - l.window);
      SettlePaths(l, table, c.key, c.now, recent);
      RoomShrinks(l, table, c.key, c.now - l.window);
      if |recent| > 0 { KnownKey(table, c.key, c.now - l.window); }
      if c.key in table {
        SameCard(table, table[c.key := recent]);
        SameCard(table, table[c.key := recent + [c.now]]);
      }
    }
  }

  lemma KnownKey(table: map<string, seq<int>>, key: string, cutoff: int)
    requires Fresh(Hits(table, key), cutoff) != []
    ensures key in table
  {
  }

  lemma SameCard(x: map<string, seq<int>>, y: map<string, seq<int>>)
    requires x.Keys == y.Keys
    ensures |x| == |y|
  {
    assert |x.Keys| == |x| && |y.Keys| == |y|;
  }

  lemma RoomShrinks(l: Limits, table: map<string, seq<int>>, key: string, cutoff: int)
    requires |table| <= l.capacity
    ensures Room(l, table, key, cutoff).Keys <= table.Keys - {key} && |Room(l, table, key, cutoff)| <= l.capacity
  {
    var kept := Room(l, table, key, cutoff);
    assert kept.Keys <= table.Keys;
    SubsetCard(kept.Keys, table.Keys);
    assert |kept.Keys| == |kept| && |table.Keys| == |table|;
  }

  /** The table never exceeds its capacity, and holds only keys that were asked for. */
  lemma {:induction false} TableBounded(l: Limits, calls: seq<Call>)
    requires l.max > 0
    ensures |Table(l, calls)| <= l.capacity
    ensures "" !in Table(l, calls) && forall k :: k in Table(l, calls) ==> exists c :: c in calls && c.key == k
    decreases |calls|
  {
    if calls != [] {
      var n := |calls| - 1;
      TableBounded(l, calls[..n]);
      DecideKeys(l, Table(l, calls[..n]), calls[n]);
      hide Decide;
      forall k | k in Table(l, calls) ensures exists c :: c in calls && c.key == k {
        if k == calls[n].key {
          assert calls[n] in calls;
        } else {
          var c :| c in calls[..n] && c.key == k;
          assert c in calls;
        }
      }
    }
  }

  // ---- the theorems ----

  lemma {:induction false} GrantedKeyWasAsked(l: Limits, calls: seq<Call>, key: string)
    requires Grants(l, calls, key) != []
    ensures key != "" && exists c :: c in calls && c.key == key
    decreases |calls|
  {
    hide Settle;
    var n := |calls| - 1;
    if Grants(l, calls[..n], key) != [] {
      GrantedKeyWasAsked(l, calls[..n], key);
      var c :| c in calls[..n] && c.key == key;
      assert c in calls;
    } else {
      assert calls[n] in calls;
    }
  }

  /** When the key has no recent grant, what Room counts are the active keys. */
  lemma RoomCountsActive(l: Limits, calls: seq<Call>, c: Call)
    requires l.max > 0 && Ordered(calls + [c]) && Fresh(Grants(l, calls, c.key), c.now - l.window) == []
    ensures var kept := Room(l, Table(l, calls), c.key, c.now - l.window);
            |kept| >= l.capacity <==> |Active(l, calls, c.now)| >= l.capacity
  {
    hide Room, Cleanup, Active, Fresh, Table, Grants, Ordered;
    var cleaned := Cleanup(Table(l, calls) - {c.key}, c.now - l.window);
    forall k ensures k in cleaned <==> k in Active(l, calls, c.now) {
      ActiveInTable(l, calls, c, k);
    }
    SameSize(cleaned, Active(l, calls, c.now));
    RoomIsCleaned(l, Table(l, calls), c.key, c.now - l.window);
  }

  lemma SameSize(table: map<string, seq<int>>, keys: set<string>)
    requires forall k :: k in table <==> k in keys
    ensures |table| == |keys|
  {
    assert table.Keys == keys;
    assert |table.Keys| == |table|;
  }

  /** Cleaning up only when the table is full makes no difference to whether there is room. */
  lemma RoomIsCleaned(l: Limits, table: map<string, seq<int>>, key: string, cutoff: int)
    ensures |Room(l, table, key, cutoff)| >= l.capacity <==> |Cleanup(table - {key}, cutoff)| >= l.capacity
  {
    hide Fresh;
    var others := table - {key};
    var cleaned := Cleanup(others, cutoff);
    assert cleaned.Keys <= others.Keys;
    hide Cleanup;
    SubsetCard(cleaned.Keys, others.Keys);
    assert |cleaned.Keys| == |cleaned| && |others.Keys| == |others|;
  }

  lemma ActiveMeans(l: Limits, calls: seq<Call>, now: int, k: string)
    ensures k in Active(l, calls, now) <==> Fresh(Grants(l, calls, k), now - l.window) != []
  {
    hide Fresh, Grants;
    if Fresh(Grants(l, calls, k), now - l.window) != [] {
      NothingFresh(now - l.window);
      GrantedKeyWasAsked(l, calls, k);
      var c :| c in calls && c.key == k;
      assert c.key in Active(l, calls, now);
    }
  }

  lemma NothingFresh(cutoff: int)
    ensures Fresh([], cutoff) == []
  {
  }

  lemma CleanupMeans(table: map<string, seq<int>>, own: string, cutoff: int, k: string)
    ensures k in Cleanup(table - {own}, cutoff) <==> k != own && Fresh(Hits(table, k), cutoff) != []
  {
    NothingFresh(cutoff);
    hide Fresh;
  }

  lemma ActiveInTable(l: Limits, calls: seq<Call>, c: Call, k: string)
    requires l.max > 0 && Ordered(calls + [c]) && Fresh(Grants(l, calls, c.key), c.now - l.window) == []
    ensures k in Cleanup(Table(l, calls) - {c.key}, c.now - l.window) <==> k in Active(l, calls, c.now)
  {
    hide Table, Grants, Ordered, Cleanup, Active, Fresh, Hits;
    EarlierCalls(calls, c);
    TableTracksGrants(l, calls, k, c.now);
    ActiveMeans(l, calls, c.now, k);
    CleanupMeans(Table(l, calls), c.key, c.now - l.window, k);
  }

  lemma EarlierCalls(calls: seq<Call>, c: Call)
    requires Ordered(calls + [c])
    ensures Ordered(calls) && forall d :: d in calls ==> d.now <= c.now
  {
    assert forall i :: 0 <= i < |calls| ==> (calls + [c])[i] == calls[i];
    assert (calls + [c])[|calls|] == c;
  }

  /** Refinement: over any calls with non-decreasing times the limiter gives exactly the answer of the one that
      keeps every grant for ever. Filtering in place, cleaning up and dropping entries never change an answer. */
  lemma AgreesWithHistory(l: Limits, calls: seq<Call>, c: Call)
    requires l.max > 0 && l.window > 0 && Ordered(calls + [c])
    ensures AnswerTo(l, calls, c) == HistoryAnswer(l, calls, c)
  {
    hide Settle, Room, Fresh, Hits, Table, Grants, Active, Ordered, RetryAfter;
    var recent := Fresh(Hits(Table(l, calls), c.key), c.now - l.window);
    EarlierCalls(calls, c);
    TableTracksGrants(l, calls, c.key, c.now);
    if recent == [] { RoomCountsActive(l, calls, c); }
    SettlePaths(l, Table(l, calls), c.key, c.now, recent);
    FreshAreFresh(Hits(Table(l, calls), c.key), c.now - l.window);
    assert recent != [] ==> recent[0] in recent;
    RetryIsPositive(recent, l.window, c.now);
  }

  lemma RetryIsPositive(recent: seq<int>, window: int, now: int)
    ensures recent != [] && recent[0] > now - window ==> RetryAfter(recent, window, now) == recent[0] + window - now
  {
  }

  lemma {:induction false} FreshAreFresh(hits: seq<int>, cutoff: int)
    ensures forall x :: x in Fresh(hits, cutoff) ==> x > cutoff
    decreases |hits|
  {
    if hits != [] { FreshAreFresh(hits[..|hits| - 1], cutoff); }
  }

  lemma {:induction false} GrantsSorted(l: Limits, calls: seq<Call>, key: string, at: int)
    requires Ordered(calls) && forall c :: c in calls ==> c.now <= at
    ensures Sorted(Grants(l, calls, key)) && forall x :: x in Grants(l, calls, key) ==> x <= at
    decreases |calls|
  {
    hide Decide, AnswerTo, Sorted;
    if calls == [] {
      NoneSorted();
    } else {
      var n := |calls| - 1;
      var before := Grants(l, calls[..n], key);
      assert calls[n] in calls;
      LastIsLatest(calls);
      GrantsSorted(l, calls[..n], key, calls[n].now);
      SortedAppend(before, calls[n].now);
      assert before + [] == before;
    }
  }

  lemma NoneSorted()
    ensures Sorted([])
  {
  }

  lemma SortedAppend(hits: seq<int>, x: int)
    requires Sorted(hits) && forall y :: y in hits ==> y <= x
    ensures Sorted(hits + [x])
  {
    forall i | 0 <= i < |hits| ensures hits[i] <= x { assert hits[i] in hits; }
  }

  lemma LastIsLatest(calls: seq<Call>)
    requires Ordered(calls) && calls != []
    ensures Ordered(calls[..|calls| - 1]) && forall c :: c in calls[..|calls| - 1] ==> c.now <= calls[|calls| - 1].now
  {
  }

  /** No key gets more than `max` grants in any window: the grant `max` places after another comes at least a window
      later. */
  lemma {:induction false} AtMostMaxPerWindow(l: Limits, calls: seq<Call>, key: string, i: nat)
    requires l.max > 0 && l.window > 0 && Ordered(calls) && i + l.max < |Grants(l, calls, key)|
    ensures Grants(l, calls, key)[i] + l.window <= Grants(l, calls, key)[i + l.max]
    decreases |calls|
  {
    hide Decide, Fresh, Active;
    var n := |calls| - 1;
    var before := Grants(l, calls[..n], key);
    if i + l.max < |before| {
      AtMostMaxPerWindow(l, calls[..n], key, i);
    } else {
      var last := calls[n];
      assert calls[..n] + [last] == calls;
      AgreesWithHistory(l, calls[..n], last);
      EarlierCalls(calls[..n], last);
      GrantsSorted(l, calls[..n], key, last.now);
      hide Sorted;
      var k := FreshSuffix(before, last.now - l.window);
      SortedUpTo(before, i, k);
    }
  }

  lemma {:induction false} EntriesSorted(l: Limits, calls: seq<Call>, key: string, at: int)
    requires l.max > 0 && Ordered(calls) && forall c :: c in calls ==> c.now <= at
    ensures var hits := Hits(Table(l, calls), key);
            Sorted(hits) && |hits| <= l.max && forall x :: x in hits ==> x <= at
    decreases |calls|
  {
    hide Decide, Hits, Fresh, Sorted;
    if calls == [] {
      NoHits(key);
      NoneSorted();
    } else {
      var n := |calls| - 1;
      var c, table := calls[n], Table(l, calls[..n]);
      assert c in calls;
      LastIsLatest(calls);
      EntriesSorted(l, calls[..n], key, c.now);
      if c.key == "" {
        DecideNoKey(l, table, c.now);
      } else {
        EntryStaysSorted(l, table, c, key);
      }
    }
  }

  lemma EntryStaysSorted(l: Limits, table: map<string, seq<int>>, c: Call, key: string)
    requires l.max > 0 && c.key != ""
    requires var hits := Hits(table, key); Sorted(hits) && |hits| <= l.max && forall x :: x in hits ==> x <= c.now
    ensures var hits := Hits(Decide(l, table, c.key, c.now).0, key);
            Sorted(hits) && |hits| <= l.max && forall x :: x in hits ==> x <= c.now
  {
    hide Decide, Hits, Fresh, Sorted;
    var recent := Fresh(Hits(table, key), c.now - l.window);
    FreshSublist(Hits(table, key), c.now - l.window);
    SortedAppend(recent, c.now);
    assert recent + [] == recent;
    DecideHits(l, table, c, key);
    GrantNeedsRoom(l, table, c);
  }

  lemma FreshSublist(hits: seq<int>, cutoff: int)
    requires Sorted(hits)
    ensures var recent := Fresh(hits, cutoff);
            Sorted(recent) && |recent| <= |hits| && forall x :: x in recent ==> x in hits
  {
    hide Fresh;
    var _ := FreshSuffix(hits, cutoff);
  }

  lemma GrantNeedsRoom(l: Limits, table: map<string, seq<int>>, c: Call)
    ensures c.key != "" && Decide(l, table, c.key, c.now).1.allowed ==>
              |Fresh(Hits(table, c.key), c.now - l.window)| < l.max
  {
  }

  lemma FirstExpires(hits: seq<int>, cutoff: int)
    requires Sorted(hits) && hits != []
    ensures |Fresh(hits, cutoff)| <= |hits| && (|Fresh(hits, cutoff)| == |hits| <==> hits[0] > cutoff)
  {
    hide Fresh, Sorted;
    var k := FreshSuffix(hits, cutoff);
    SortedUpTo(hits, 0, k);
  }

  /** What other keys ask for, and a refusal, leaves a key's grants alone. */
  lemma {:induction false} OthersKeepGrants(l: Limits, calls: seq<Call>, c: Call, more: seq<Call>)
    requires !AnswerTo(l, calls, c).allowed && forall d :: d in more ==> d.key != c.key
    ensures Grants(l, calls + [c] + more, c.key) == Grants(l, calls, c.key)
    decreases |more|
  {
    hide Decide, AnswerTo;
    var w := calls + [c] + more;
    if more == [] {
      assert w[..|w| - 1] == calls && w[|w| - 1] == c;
    } else {
      var rest := more[..|more| - 1];
      assert w[..|w| - 1] == calls + [c] + rest && w[|w| - 1] == more[|more| - 1];
      assert more[|more| - 1] in more;
      OthersKeepGrants(l, calls, c, rest);
    }
  }

  /** A key refused for too many grants has exactly `max` recent ones, sorted. */
  lemma RefusedAtMax(l: Limits, calls: seq<Call>, c: Call)
    requires l.max > 0 && l.window > 0 && Ordered(calls + [c]) && c.key != ""
    requires !AnswerTo(l, calls, c).allowed && Fresh(Grants(l, calls, c.key), c.now - l.window) != []
    ensures var recent := Fresh(Grants(l, calls, c.key), c.now - l.window);
            && |recent| == l.max && Sorted(recent) && c.now - l.window < recent[0] <= c.now
            && AnswerTo(l, calls, c).retry == recent[0] + l.window - c.now
  {
    hide AnswerTo, Table, Hits, Fresh, Ordered, Grants, Sorted, Active;
    var recent := Fresh(Grants(l, calls, c.key), c.now - l.window);
    EarlierCalls(calls, c);
    AgreesWithHistory(l, calls, c);
    TableTracksGrants(l, calls, c.key, c.now);
    EntriesSorted(l, calls, c.key, c.now);
    FreshSublist(Hits(Table(l, calls), c.key), c.now - l.window);
    FreshAreFresh(Hits(Table(l, calls), c.key), c.now - l.window);
    assert recent[0] in recent;
  }

  lemma PrefixOrdered(calls: seq<Call>, c: Call, more: seq<Call>, last: Call)
    requires Ordered(calls + [c] + more + [last])
    ensures Ordered(calls + [c]) && c.now <= last.now
  {
    var w := calls + [c] + more + [last];
    assert forall i :: 0 <= i < |calls| + 1 ==> (calls + [c])[i] == w[i];
    assert w[|calls|] == c && w[|w| - 1] == last;
  }

  /** A refusal for too many grants comes with a delay that is positive and exact. Whatever other keys ask for in
      between, the key's next call is refused before the delay has passed; from then on it is granted, unless its
      recent grants are all gone by then and the table has no room for a new key. The branch that turns a
      non-positive delay into a millisecond never acts. */
  lemma RetryIsExact(l: Limits, calls: seq<Call>, c: Call, more: seq<Call>, at: int)
    requires l.max > 0 && l.window > 0 && c.key != "" && Ordered(calls + [c] + more + [Call(c.key, at)])
    requires !AnswerTo(l, calls, c).allowed && Fresh(Grants(l, calls, c.key), c.now - l.window) != []
    requires forall d :: d in more ==> d.key != c.key
    ensures var retry, w := AnswerTo(l, calls, c).retry, calls + [c] + more;
            && 0 < retry <= l.window
            && (AnswerTo(l, w, Call(c.key, at)).allowed <==>
                  && c.now + retry <= at
                  && (Fresh(Grants(l, w, c.key), at - l.window) != [] || |Active(l, w, at)| < l.capacity))
  {
    hide AnswerTo, Fresh, Ordered, Grants, Active, HistoryAnswer;
    PrefixOrdered(calls, c, more, Call(c.key, at));
    OthersKeepGrants(l, calls, c, more);
    SameGrantsLater(l, calls, c, calls + [c] + more, at);
  }

  lemma SameGrantsLater(l: Limits, calls: seq<Call>, c: Call, w: seq<Call>, at: int)
    requires l.max > 0 && l.window > 0 && c.key != "" && c.now <= at
    requires Ordered(calls + [c]) && Ordered(w + [Call(c.key, at)]) && Grants(l, w, c.key) == Grants(l, calls, c.key)
    requires !AnswerTo(l, calls, c).allowed && Fresh(Grants(l, calls, c.key), c.now - l.window) != []
    ensures var retry := AnswerTo(l, calls, c).retry;
            && 0 < retry <= l.window
            && (AnswerTo(l, w, Call(c.key, at)).allowed <==>
                  && c.now + retry <= at
                  && (Fresh(Grants(l, w, c.key), at - l.window) != [] || |Active(l, w, at)| < l.capacity))
  {
    hide AnswerTo, Fresh, Ordered, Grants, Sorted, Active;
    RefusedAtMax(l, calls, c);
    AskedAgain(l, w, Call(c.key, at), c.now - l.window);
  }

  /** The next call of a key that had `max` grants after the cutoff: granted once the first of them is out of the
      window. */
  lemma AskedAgain(l: Limits, calls: seq<Call>, c: Call, cutoff: int)
    requires l.max > 0 && l.window > 0 && c.key != "" && Ordered(calls + [c]) && cutoff <= c.now - l.window
    requires var recent := Fresh(Grants(l, calls, c.key), cutoff); |recent| == l.max && Sorted(recent)
    ensures AnswerTo(l, calls, c).allowed
       <==> Fresh(Grants(l, calls, c.key), cutoff)[0] <= c.now - l.window
            && (Fresh(Grants(l, calls, c.key), c.now - l.window) != [] || |Active(l, calls, c.now)| < l.capacity)
  {
    hide AnswerTo, Fresh, Ordered, Grants, Sorted, Active;
    AgreesWithHistory(l, calls, c);
    FreshTwice(Grants(l, calls, c.key), cutoff, c.now - l.window);
    FirstExpires(Fresh(Grants(l, calls, c.key), cutoff), c.now - l.window);
  }

  /** With nothing in between there is always room, so the delay alone decides. */
  lemma RetryAtOnceIsExact(l: Limits, calls: seq<Call>, c: Call, at: int)
    requires l.max > 0 && l.window > 0 && Ordered(calls + [c]) && c.now <= at && c.key != ""
    requires !AnswerTo(l, calls, c).allowed && Fresh(Grants(l, calls, c.key), c.now - l.window) != []
    ensures AnswerTo(l, calls + [c], Call(c.key, at)).allowed <==> c.now + AnswerTo(l, calls, c).retry <= at
  {
    hide Decide, Hits, Fresh, Ordered, Grants, Sorted;
    var table := Table(l, calls);
    var recent := Fresh(Hits(table, c.key), c.now - l.window);
    EarlierCalls(calls, c);
    TableTracksGrants(l, calls, c.key, c.now);
    EntriesSorted(l, calls, c.key, c.now);
    TableBounded(l, calls);
    FreshSublist(Hits(table, c.key), c.now - l.window);
    FreshAreFresh(Hits(table, c.key), c.now - l.window);
    assert (calls + [c])[..|calls|] == calls;
    assert recent[0] in recent;
    RefusedThenAsked(l, table, c.key, c.now, recent, at);
  }

  /** With other keys in between there may be none: here the key waits out its delay and is turned away all the same. */
  lemma RetryCanFindNoRoom()
    ensures var l, calls, c, z := Limits(1, 10, 1), [Call("k", 0)], Call("k", 5), Call("z", 10);
            && AnswerTo(l, calls, c) == Answer(false, 5)
            && AnswerTo(l, calls + [c] + [z], Call("k", 10)) == Answer(false, 10)
  {
    hide Decide;
    var l, calls, c, z := Limits(1, 10, 1), [Call("k", 0)], Call("k", 5), Call("z", 10);
    assert calls[..0] == [] && (calls + [c])[..1] == calls && (calls + [c] + [z])[..2] == calls + [c];
    FirstEntry("k", 0);
    OneEntry("k", 0, c);
    assert Table(l, calls + [c]) == map["k" := [0]];
    OneEntry("k", 0, z);
    assert Table(l, calls + [c] + [z]) == map["z" := [10]];
    OneEntry("z", 10, Call("k", 10));
  }

  lemma FirstEntry(key: string, now: int)
    requires key != ""
    ensures Decide(Limits(1, 10, 1), map[], key, now) == (map[key := [now]], Answer(true, 0))
  {
    hide Settle, Room;
    NothingFresh(now - 10);
    SettlePaths(Limits(1, 10, 1), map[], key, now, []);
    assert Room(Limits(1, 10, 1), map[], key, now - 10) == map[] by { RoomOfNone(key, now - 10); }
  }

  lemma RoomOfNone(key: string, cutoff: int)
    ensures Room(Limits(1, 10, 1), map[], key, cutoff) == map[]
  {
  }

  /** A table with room for one key, which had one grant. */
  lemma OneEntry(k: string, t: int, c: Call)
    requires c.key != ""
    ensures Decide(Limits(1, 10, 1), map[k := [t]], c.key, c.now) ==
              if t > c.now - 10 then (map[k := [t]], Answer(false, if c.key == k then t + 10 - c.now else 10))
              else (map[c.key := [c.now]], Answer(true, 0))
  {
    hide Settle, Room, Fresh;
    var l, table := Limits(1, 10, 1), map[k := [t]];
    OneFresh(t, c.now - 10);
    NothingFresh(c.now - 10);
    RoomOfOne(k, t, c.key, c.now - 10);
    var recent := Fresh(Hits(table, c.key), c.now - 10);
    SettlePaths(l, table, c.key, c.now, recent);
    assert |table| == 1;
    if c.key != k || t <= c.now - 10 {
      assert recent == [];
    } else {
      assert recent == [t];
      assert table[k := [t]] == table;
    }
  }

  lemma OneFresh(t: int, cutoff: int)
    ensures Fresh([t], cutoff) == if t > cutoff then [t] else []
  {
    assert [t][..0] == [];
  }

  lemma RoomOfOne(k: string, t: int, key: string, cutoff: int)
    ensures Room(Limits(1, 10, 1), map[k := [t]], key, cutoff)
         == if key != k && t > cutoff then map[k := [t]] else map[]
  {
    OneFresh(t, cutoff);
    hide Fresh, Cleanup;
    CleanupOfOne(k, t, cutoff);
    if key != k {
      assert map[k := [t]] - {key} == map[k := [t]];
    } else {
      assert map[k := [t]] - {key} == map[];
    }
  }

  lemma CleanupOfOne(k: string, t: int, cutoff: int)
    ensures Cleanup(map[k := [t]], cutoff) == if t > cutoff then map[k := [t]] else map[]
  {
    OneFresh(t, cutoff);
    hide Fresh;
  }

  lemma RefusedThenAsked(l: Limits, table: map<string, seq<int>>, key: string, now: int, recent: seq<int>, at: int)
    requires l.max > 0 && key != "" && now <= at && |table| <= l.capacity
    requires recent == Fresh(Hits(table, key), now - l.window) && recent != [] && !Decide(l, table, key, now).1.allowed
    requires Sorted(recent) && |recent| <= l.max && recent[0] > now - l.window
    ensures var (after, answer) := Decide(l, table, key, now);
            && answer.retry == recent[0] + l.window - now
            && (Decide(l, after, key, at).1.allowed <==> now + answer.retry <= at)
  {
    hide Fresh, Room, Settle, RetryAfter, Sorted;
    SettlePaths(l, table, key, now, recent);
    RetryIsPositive(recent, l.window, now);
    KnownKey(table, key, now - l.window);
    var after := table[key := recent];
    SameCard(table, after);
    FirstExpires(recent, at - l.window);
    SettlePaths(l, after, key, at, Fresh(recent, at - l.window));
    RoomBelow(l, after, key, at - l.window);
  }

  lemma RoomBelow(l: Limits, table: map<string, seq<int>>, key: string, cutoff: int)
    requires key in table && |table| <= l.capacity
    ensures |Room(l, table, key, cutoff)| < l.capacity
  {
    var others := table - {key};
    assert table.Keys == others.Keys + {key};
    assert |others.Keys| == |others| && |table.Keys| == |table|;
    var kept := Room(l, table, key, cutoff);
    SubsetCard(kept.Keys, others.Keys);
    assert |kept.Keys| == |kept|;
  }
}
