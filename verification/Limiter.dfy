/** The sliding-window limiter (internal/middleware/hashed_limiter.go). Times are nanoseconds; a key stands for its
    SHA-256. */
module Limiter {

  const MINUTE := 60_000_000_000
  const MILLISECOND := 1_000_000
  const DEFAULT_CAPACITY := 100_000

  datatype Limits = Limits(max: int, window: int, capacity: nat)
  datatype Answer = Answer(allowed: bool, retry: int)

  /** The hits that are After the cutoff, in order. */
  function Fresh(hits: seq<int>, cutoff: int): seq<int>
    decreases |hits|
  {
    if hits == [] then []
    else
      var n := |hits| - 1;
      Fresh(hits[..n], cutoff) + if hits[n] > cutoff then [hits[n]] else []
  }

  function Hits(table: map<string, seq<int>>, key: string): seq<int> {
    if key in table then table[key] else []
  }

  function Cleanup(table: map<string, seq<int>>, cutoff: int): map<string, seq<int>> {
    map k | k in table && Fresh(table[k], cutoff) != [] :: Fresh(table[k], cutoff)
  }

  // What is left when the key's empty entry goes and, if the table is still full, every stale entry.
  function Room(l: Limits, table: map<string, seq<int>>, key: string, cutoff: int): map<string, seq<int>> {
    var others := table - {key};
    if |others| >= l.capacity then Cleanup(others, cutoff) else others
  }

  // HashedLimiter.Allow on the table of hits.
  function Decide(l: Limits, table: map<string, seq<int>>, key: string, now: int): (map<string, seq<int>>, Answer) {
    if key == "" then (table, Answer(false, MINUTE))
    else Settle(l, table, key, now, Fresh(Hits(table, key), now - l.window))
  }

  /** The decision once the key's recent hits are known; the table's own entry for the key no longer matters. */
  function Settle(l: Limits, table: map<string, seq<int>>, key: string, now: int,
                  recent: seq<int>): (map<string, seq<int>>, Answer)
  {
    if |recent| >= l.max then (table[key := recent], Answer(false, RetryAfter(recent, l.window, now)))
    else Grant(l, table, key, now, recent)
  }

  // A key without recent hits needs room in the table.
  function Grant(l: Limits, table: map<string, seq<int>>, key: string, now: int,
                 recent: seq<int>): (map<string, seq<int>>, Answer)
  {
    var kept := if recent == [] then Room(l, table, key, now - l.window) else table;
    if recent == [] && |kept| >= l.capacity then (kept, Answer(false, l.window))
    else (kept[key := recent + [now]], Answer(true, 0))
  }

  lemma DecideNoKey(l: Limits, table: map<string, seq<int>>, now: int)
    ensures Decide(l, table, "", now) == (table, Answer(false, MINUTE))
  {
  }

  lemma SettlePaths(l: Limits, table: map<string, seq<int>>, key: string, now: int, recent: seq<int>)
    ensures |recent| >= l.max ==>
              Settle(l, table, key, now, recent)
              == (table[key := recent], Answer(false, RetryAfter(recent, l.window, now)))
    ensures 0 < |recent| < l.max ==>
              Settle(l, table, key, now, recent) == (table[key := recent + [now]], Answer(true, 0))
    ensures 0 == |recent| < l.max ==>
              var kept := Room(l, table, key, now - l.window);
              Settle(l, table, key, now, recent) ==
                if |kept| >= l.capacity then (kept, Answer(false, l.window)) else (kept[key := [now]], Answer(true, 0))
  {
    hide Room, RetryAfter;
    if recent == [] { assert recent + [now] == [now]; }
  }

  function RetryAfter(recent: seq<int>, window: int, now: int): int {
    if recent == [] || recent[0] + window - now <= 0 then MILLISECOND else recent[0] + window - now
  }

  // ---- the code, in place ----

  /** A Go slice over its backing array. */
  datatype Slice = Slice(buf: array<int>, len: nat)

  class HashedLimiter {
    const window: int
    const max: int
    const capacity: nat
    var hits: map<string, Slice>

    function Repr(): set<array<int>>
      reads this
    {
      set k | k in hits :: hits[k].buf
    }

    /** No two keys share a backing array. */
    ghost predicate Valid()
      reads this, Repr()
    {
      && window > 0 && max > 0
      && (forall k :: k in hits ==> hits[k].len <= hits[k].buf.Length)
      && (forall k, k' | k in hits && k' in hits :: hits[k].buf == hits[k'].buf ==> k == k')
    }

    ghost function Table(): (table: map<string, seq<int>>)
      reads this, Repr()
      requires Valid()
      ensures table.Keys == hits.Keys
    {
      map k | k in hits :: hits[k].buf[..hits[k].len]
    }

    function Bounds(): Limits {
      Limits(max, window, capacity)
    }

    constructor (maximum: int, window: int)
      ensures Valid() && Table() == map[] && fresh(Repr())
      ensures Bounds() == Limits(if maximum <= 0 then 1 else maximum, if window <= 0 then 60_000_000_000 else window,
                                 100_000)
    {
      this.max := if maximum <= 0 then 1 else maximum;
      this.window := if window <= 0 then MINUTE else window;
      this.capacity := DEFAULT_CAPACITY;
      hits := map[];
    }

    // From `s[:0]` on, append each hit that is fresh: the array is overwritten from the front.
    static method FilterInPlace(s: Slice, cutoff: int) returns (kept: Slice)
      requires s.len <= s.buf.Length
      modifies s.buf
      ensures kept.buf == s.buf && kept.len <= s.len
      ensures kept.buf[..kept.len] == Fresh(old(s.buf[..s.len]), cutoff)
    {
      ghost var was := s.buf[..s.len];
      var n := 0;
      var i := 0;
      while i < s.len
        invariant 0 <= n <= i <= s.len
        invariant forall k :: i <= k < s.len ==> s.buf[k] == was[k]
        invariant s.buf[..n] == Fresh(was[..i], cutoff)
      {
        assert was[..i + 1][..i] == was[..i];
        assert Fresh(was[..i + 1], cutoff) == Fresh(was[..i], cutoff) + if was[i] > cutoff then [was[i]] else [];
        if s.buf[i] > cutoff {
          s.buf[n] := s.buf[i];
          n := n + 1;
          assert s.buf[..n] == s.buf[..n - 1] + [was[i]];
        }
        i := i + 1;
      }
      assert was[..i] == was;
      return Slice(s.buf, n);
    }

    // Go's append: in place while the array has room, else into a new array.
    static method Append(s: Slice, x: int) returns (r: Slice)
      requires s.len <= s.buf.Length
      modifies s.buf
      ensures r.len == s.len + 1 <= r.buf.Length
      ensures r.buf[..r.len] == old(s.buf[..s.len]) + [x]
      ensures r.buf == s.buf || fresh(r.buf)
    {
      if s.len < s.buf.Length {
        s.buf[s.len] := x;
        return Slice(s.buf, s.len + 1);
      }
      var bigger := new int[2 * s.len + 1];
      forall i | 0 <= i < s.len { bigger[i] := s.buf[i]; }
      bigger[s.len] := x;
      assert bigger[..s.len] == s.buf[..s.len];
      return Slice(bigger, s.len + 1);
    }

    /** No other entry uses the array of s. */
    ghost predicate Free(key: string, s: Slice)
      reads this
    {
      s.buf !in Repr() || (key in hits && hits[key].buf == s.buf)
    }

    /** Setting one entry whose array no other entry uses. */
    method Set(key: string, s: Slice)
      requires Valid() && s.len <= s.buf.Length
      requires Free(key, s)
      modifies `hits
      ensures Valid() && hits == old(hits)[key := s]
      ensures Table() == old(Table())[key := s.buf[..s.len]]
      ensures Repr() <= old(Repr()) + {s.buf}
    {
      hits := hits[key := s];
    }

    method Remove(key: string)
      requires Valid()
      modifies `hits
      ensures Valid() && hits == old(hits) - {key}
      ensures Table() == old(Table()) - {key}
      ensures Repr() <= old(Repr()) && (key in old(hits) ==> old(hits)[key].buf !in Repr())
    {
      hits := hits - {key};
    }

    // The recent hits of the key, filtered in its own array. The entry itself is stale until it is set or removed.
    method FreshHits(key: string, cutoff: int) returns (recent: Slice)
      requires Valid()
      modifies Repr()
      ensures Valid() && recent.len <= recent.buf.Length
      ensures recent.buf[..recent.len] == Fresh(old(Hits(Table(), key)), cutoff)
      ensures Table() - {key} == old(Table()) - {key} && (key in Table() <==> key in old(Table()))
      ensures if key in hits then recent.buf == hits[key].buf else fresh(recent.buf)
      ensures recent.buf in old(Repr()) || fresh(recent.buf)
      ensures Repr() == old(Repr())
    {
      if key in hits {
        assert Hits(Table(), key) == hits[key].buf[..hits[key].len];
        recent := FilterInPlace(hits[key], cutoff);
        assert forall k :: k in hits && k != key ==> hits[k].buf[..hits[k].len] == old(hits[k].buf[..hits[k].len]);
      } else {
        var none := new int[0];
        recent := Slice(none, 0);
      }
    }

    // `l.hits[hash] = append(fresh, now)`
    method AppendHit(key: string, recent: Slice, now: int)
      requires Valid() && recent.len <= recent.buf.Length
      requires Free(key, recent)
      modifies `hits, recent.buf
      ensures Valid() && Table() == old(Table())[key := old(recent.buf[..recent.len]) + [now]]
      ensures Repr() <= old(Repr()) + {hits[key].buf} && (hits[key].buf == recent.buf || fresh(hits[key].buf))
    {
      hide Table, Valid, Repr;
      ghost var was := Table();
      ghost var list := recent.buf[..recent.len];
      var grown := Grow(key, recent, now);
      SetOver(Table(), was, key, list + [now]);
      Set(key, grown);
    }

    method Grow(key: string, recent: Slice, now: int) returns (grown: Slice)
      requires Valid() && recent.len <= recent.buf.Length
      requires Free(key, recent)
      modifies recent.buf
      ensures Valid() && grown.len <= grown.buf.Length && Free(key, grown) && Repr() == old(Repr())
      ensures grown.buf[..grown.len] == old(recent.buf[..recent.len]) + [now]
      ensures grown.buf == recent.buf || fresh(grown.buf)
      ensures Table() - {key} == old(Table()) - {key}
    {
      grown := Append(recent, now);
      assert forall k :: k in hits && k != key ==> hits[k].buf != recent.buf;
      assert forall k :: k in hits && k != key ==> hits[k].buf[..hits[k].len] == old(hits[k].buf[..hits[k].len]);
    }

    static lemma SetOver(x: map<string, seq<int>>, y: map<string, seq<int>>, key: string, hits: seq<int>)
      requires x - {key} == y - {key}
      ensures x[key := hits] == y[key := hits]
    {
      forall k | k != key ensures (k in x <==> k in y) && (k in x ==> x[k] == y[k]) {
        assert k in x <==> k in x - {key};
        assert k in y <==> k in y - {key};
      }
    }

    method Allow(key: string, now: int) returns (allowed: bool, retry: int)
      requires Valid()
      modifies this, Repr()
      ensures Valid() && fresh(Repr() - old(Repr()))
      ensures Table() == Decide(Bounds(), old(Table()), key, now).0
      ensures Answer(allowed, retry) == Decide(Bounds(), old(Table()), key, now).1
    {
      hide Table, Repr, Valid, Decide, Grant;
      if key == "" {
        DecideNoKey(Bounds(), Table(), now);
        return false, MINUTE;
      }
      var recent := Refresh(key, now);
      if recent.len >= max {
        Set(key, recent);
        retry := recent.buf[0] + window - now;
        if retry <= 0 { retry := MILLISECOND; }
        return false, retry;
      }
      allowed, retry := Admit(key, recent, now);
      assert forall o :: o in Repr() ==> o in old(Repr()) || fresh(o);
    }

    // The key's recent hits, and what is left to decide once they are known.
    method Refresh(key: string, now: int) returns (recent: Slice)
      requires Valid() && key != ""
      modifies Repr()
      ensures Valid() && recent.len <= recent.buf.Length && Repr() == old(Repr())
      ensures if key in hits then recent.buf == hits[key].buf else fresh(recent.buf)
      ensures recent.buf in Repr() <==> key in hits
      ensures Settle(Bounds(), Table(), key, now, recent.buf[..recent.len]) == Decide(Bounds(), old(Table()), key, now)
    {
      hide Table, Fresh, Hits, Settle;
      ghost var was := Table();
      recent := FreshHits(key, now - window);
      SettleStale(Bounds(), was, Table(), key, now, recent.buf[..recent.len]);
    }

    // The key's own entry may be stale: it is about to be replaced or removed.
    static lemma SettleStale(l: Limits, was: map<string, seq<int>>, stale: map<string, seq<int>>, key: string,
                             now: int, recent: seq<int>)
      requires l.max > 0 && stale - {key} == was - {key}
      ensures Settle(l, stale, key, now, recent) == Settle(l, was, key, now, recent)
    {
      hide RetryAfter, Settle;
      assert Room(l, stale, key, now - l.window) == Room(l, was, key, now - l.window);
      SettlePaths(l, stale, key, now, recent);
      SettlePaths(l, was, key, now, recent);
      SetOver(stale, was, key, recent);
      SetOver(stale, was, key, recent + [now]);
    }

    // Allow below the maximum: room is made for a key that has no fresh hit, and the hit is appended.
    method Admit(key: string, recent: Slice, now: int) returns (allowed: bool, retry: int)
      requires Valid() && recent.len <= recent.buf.Length
      requires if key in hits then recent.buf == hits[key].buf else recent.buf !in Repr()
      modifies this, Repr(), recent.buf
      ensures Valid() && forall o :: o in Repr() ==> o in old(Repr()) || o == recent.buf || fresh(o)
      ensures Table() == Grant(Bounds(), old(Table()), key, now, old(recent.buf[..recent.len])).0
      ensures Answer(allowed, retry) == Grant(Bounds(), old(Table()), key, now, old(recent.buf[..recent.len])).1
    {
      hide Table, Valid, Repr, Room;
      if recent.len == 0 {
        var full := MakeRoom(key, now - window);
        if full { return false, window; }
      }
      AppendHit(key, recent, now);
      return true, 0;
    }

    // The entry of the key goes, and when the table is full every stale entry with it.
    method MakeRoom(key: string, cutoff: int) returns (full: bool)
      requires Valid()
      modifies this, Repr()
      ensures Valid() && Repr() <= old(Repr()) && (key in old(hits) ==> old(hits)[key].buf !in Repr())
      ensures Table() == Room(Bounds(), old(Table()), key, cutoff) && full == (|Table()| >= capacity)
    {
      hide Table, Valid, Repr, Cleanup;
      Remove(key);
      full := |hits| >= capacity;
      if full {
        CleanupLocked(cutoff);
        full := |hits| >= capacity;
      }
    }

    // Every entry is filtered in place and dropped once nothing in it is fresh.
    method CleanupLocked(cutoff: int)
      requires Valid()
      modifies this, Repr()
      ensures Valid() && Repr() <= old(Repr())
      ensures Table() == Cleanup(old(Table()), cutoff)
    {
      hide Table, Valid, Repr, Cleaned, Hits, Fresh, Cleanup;
      ghost var was := Table();
      var rest := hits.Keys;
      CleanedNone(was, cutoff);
      while rest != {}
        invariant Valid() && Repr() <= old(Repr())
        invariant rest <= hits.Keys && Cleaned(was, Table(), rest, cutoff)
        decreases |rest|
      {
        var key :| key in rest;
        ghost var before := Table();
        CleanedRest(was, before, rest, cutoff, key);
        var recent := FreshHits(key, cutoff);
        if recent.len == 0 { Remove(key); } else { Set(key, recent); }
        CleanedNext(was, before, Table(), rest, cutoff, key);
        rest := rest - {key};
      }
      CleanedAll(was, Table(), cutoff);
    }

    static lemma CleanedRest(was: map<string, seq<int>>, table: map<string, seq<int>>, rest: set<string>, cutoff: int,
                             key: string)
      requires Cleaned(was, table, rest, cutoff) && key in rest
      ensures key in table && key in was && Hits(table, key) == was[key]
    {
    }

    static lemma CleanedNone(was: map<string, seq<int>>, cutoff: int)
      ensures Cleaned(was, was, was.Keys, cutoff)
    {
    }

    static lemma CleanedAll(was: map<string, seq<int>>, table: map<string, seq<int>>, cutoff: int)
      requires Cleaned(was, table, {}, cutoff)
      ensures table == Cleanup(was, cutoff)
    {
    }

    /** All but the entries of `rest` have been cleaned up. */
    static ghost predicate Cleaned(was: map<string, seq<int>>, table: map<string, seq<int>>, rest: set<string>,
                                   cutoff: int)
    {
      && rest <= table.Keys <= was.Keys
      && (forall k :: k in rest ==> table[k] == was[k])
      && (forall k :: k in was && k !in rest ==> (k in table <==> Fresh(was[k], cutoff) != []))
      && (forall k :: k in table && k !in rest ==> table[k] == Fresh(was[k], cutoff))
    }

    static lemma CleanedNext(was: map<string, seq<int>>, before: map<string, seq<int>>, table: map<string, seq<int>>,
                             rest: set<string>, cutoff: int, key: string)
      requires Cleaned(was, before, rest, cutoff) && key in rest
      requires table - {key} == before - {key}
      requires key in table <==> Fresh(was[key], cutoff) != []
      requires key in table ==> table[key] == Fresh(was[key], cutoff)
      ensures Cleaned(was, table, rest - {key}, cutoff)
    {
      forall k | k != key ensures (k in table <==> k in before) && (k in table ==> table[k] == before[k]) {
        assert k in table <==> k in table - {key};
        assert k in before <==> k in before - {key};
      }
    }
  }
}
