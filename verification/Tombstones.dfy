/**
  Tombstones: the time at which each deleted id was last marked, and their expiry. Marks
  are kept under the string form of the id.
 */
module Tombstones {
  type Marks = map<string, real>

  function Unexpired(m: Marks, now: real, ttl: real): Marks {
    map id | id in m && now - m[id] <= ttl :: m[id]
  }

  /** Drops exactly the marks older than the time to live, and counts them. */
  method Expire(m: Marks, now: real, ttl: real) returns (kept: Marks, n: nat)
    ensures kept == Unexpired(m, now, ttl)
    ensures n == |m| - |kept|
  {
    var todo, expired: set<string> := m.Keys, {};
    while todo != {}
      invariant todo <= m.Keys && expired <= m.Keys
      invariant forall id :: id in m ==> (id in expired <==> id !in todo && now - m[id] > ttl)
    {
      var id :| id in todo;
      if now - m[id] > ttl { expired := expired + {id}; }
      todo := todo - {id};
    }
    n := |expired|;
    kept := m - expired;
    assert kept.Keys == m.Keys - expired;
  }
}
