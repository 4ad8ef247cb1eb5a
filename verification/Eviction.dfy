/** Bounded maps: the loop that deletes the entry of least rank until few enough
    are left, as the session store and the login throttle both run it. */
module Eviction {
  import opened Collections

  /** A cut of m to at most limit entries: nothing kept ranks below anything
      dropped. Among equal ranks the map's walking order decides. */
  ghost predicate IsCut<V>(m: map<string, V>, cut: map<string, V>, limit: nat, rank: V -> int) {
    && cut.Keys <= m.Keys
    && (forall k :: k in cut ==> cut[k] == m[k])
    && |cut| == (if |m| <= limit then |m| else limit)
    && (forall k, d :: k in cut && d in m && d !in cut ==> rank(m[d]) <= rank(m[k]))
  }

  lemma CutOfSmallIsAll<V>(m: map<string, V>, cut: map<string, V>, limit: nat, rank: V -> int)
    requires IsCut(m, cut, limit, rank) && |m| <= limit
    ensures cut == m
  {
    SubsetSize(cut.Keys, m.Keys);
  }

  /** One pass over the map for an entry of least rank. */
  method LeastKey<V>(m: map<string, V>, rank: V -> int) returns (least: string)
    requires "" !in m && |m| > 0
    ensures least in m && forall k :: k in m ==> rank(m[least]) <= rank(m[k])
  {
    least := "";
    var leastRank := 0;
    var left := m.Keys;
    while left != {}
      invariant left <= m.Keys
      invariant least == "" ==> left == m.Keys
      invariant least != "" ==> least in m && leastRank == rank(m[least])
      invariant least != "" ==> forall k :: k in m && k !in left ==> leastRank <= rank(m[k])
      decreases left
    {
      var key :| key in left;
      if least == "" || rank(m[key]) < leastRank {
        least := key;
        leastRank := rank(m[key]);
      }
      left := left - {key};
    }
    assert least == "" ==> m.Keys == {};
  }

  method EnforceLimit<V>(m: map<string, V>, maxEntries: int, rank: V -> int) returns (cut: map<string, V>)
    requires "" !in m
    ensures IsCut(m, cut, if maxEntries < 0 then 0 else maxEntries, rank)
  {
    var limit: nat := if maxEntries < 0 then 0 else maxEntries;
    cut := m;
    while |cut| > limit
      invariant cut.Keys <= m.Keys && forall k :: k in cut ==> cut[k] == m[k]
      invariant |cut| == |m| || limit <= |cut| <= |m|
      invariant |m| <= limit ==> cut == m
      invariant forall k, d :: k in cut && d in m && d !in cut ==> rank(m[d]) <= rank(m[k])
      decreases |cut|
    {
      var oldest := LeastKey(cut, rank);
      assert (cut - {oldest}).Keys == cut.Keys - {oldest};
      assert |cut.Keys| == |cut|;
      cut := cut - {oldest};
      assert |cut.Keys| == |cut|;
    }
  }
}
