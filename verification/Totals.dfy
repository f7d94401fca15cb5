/** The value a `SUM(...)` query returns: the total of a finite column of sizes, and how it moves as rows come and
    go. */
module Totals {

  ghost function Total<K(!new)>(m: map<K, nat>): nat
  {
    if m == map[] then 0
    else
      var k :| k in m;
      m[k] + Total(m - {k})
  }

  lemma {:induction false} TotalRemove<K(!new)>(m: map<K, nat>, k: K)
    requires k in m
    ensures Total(m) == m[k] + Total(m - {k})
    decreases |m|
  {
    var c :| c in m && Total(m) == m[c] + Total(m - {c});
    if c != k {
      TotalRemove(m - {c}, k);
      TotalRemove(m - {k}, c);
      assert m - {c} - {k} == m - {k} - {c};
    }
  }

  lemma TotalInsert<K(!new)>(m: map<K, nat>, k: K, v: nat)
    requires k !in m
    ensures Total(m[k := v]) == Total(m) + v
  {
    TotalRemove(m[k := v], k);
    assert m[k := v] - {k} == m;
  }

  lemma TotalReplace<K(!new)>(m: map<K, nat>, k: K, v: nat)
    requires k in m
    ensures Total(m[k := v]) == Total(m) - m[k] + v
  {
    TotalRemove(m[k := v], k);
    TotalRemove(m, k);
    assert m[k := v] - {k} == m - {k};
  }

  /** A column splits into the rows kept and the rows removed. */
  lemma {:induction false} TotalSplit<K(!new)>(whole: map<K, nat>, removed: set<K>)
    requires removed <= whole.Keys
    ensures Total(whole) == Total(whole - removed) + Total(map k | k in removed :: whole[k])
    decreases |removed|
  {
    var rest := map k | k in removed :: whole[k];
    if removed == {} {
      assert whole - removed == whole;
      assert rest == map[];
    } else {
      var k :| k in removed;
      TotalSplit(whole, removed - {k});
      TotalRemove(whole - (removed - {k}), k);
      assert whole - (removed - {k}) - {k} == whole - removed;
      TotalRemove(rest, k);
      assert rest - {k} == map j | j in removed - {k} :: whole[j];
    }
  }

  /** Dropping rows never raises the total. */
  lemma TotalSubset<K(!new)>(part: map<K, nat>, whole: map<K, nat>)
    requires part.Keys <= whole.Keys && forall k :: k in part ==> part[k] == whole[k]
    ensures Total(part) <= Total(whole)
  {
    TotalSplit(whole, whole.Keys - part.Keys);
    assert whole - (whole.Keys - part.Keys) == part;
  }
}
