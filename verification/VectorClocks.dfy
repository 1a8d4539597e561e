/** Vector clocks: one counter per writer; a missing counter reads as zero. */
module VectorClocks {

  type Counters = map<string, int>

  function At(c: Counters, n: string): int {
    if n in c then c[n] else 0
  }

  function Max(x: int, y: int): int {
    if x < y then y else x
  }

  function Ticked(c: Counters, n: string): Counters {
    c[n := At(c, n) + 1]
  }

  function Merged(a: Counters, b: Counters): Counters {
    map n | n in a.Keys + b.Keys :: if n in b then Max(At(a, n), b[n]) else a[n]
  }

  predicate Dominates(a: Counters, b: Counters) {
    if b == map[] then a != map[]
    else (forall n :: n in b ==> b[n] <= At(a, n)) && exists n :: n in a.Keys + b.Keys && At(b, n) < At(a, n)
  }

  /** Counters start at one; tick and merge keep it so. */
  predicate Counted(c: Counters) {
    forall n :: n in c ==> c[n] >= 1
  }

  /** The causal order: counter by counter. */
  ghost predicate Below(a: Counters, b: Counters) {
    forall n :: At(a, n) <= At(b, n)
  }

  class VectorClock {
    var clock: Counters

    constructor (state: Counters)
      ensures clock == state
    {
      clock := state;
    }

    method Tick(node: string)
      modifies this
      ensures clock == Ticked(old(clock), node)
    {
      clock := clock[node := (if node in clock then clock[node] else 0) + 1];
    }

    method Merge(other: VectorClock)
      modifies this
      ensures clock == Merged(old(clock), old(other.clock))
    {
      var theirs := other.clock;
      var todo := theirs.Keys;
      while todo != {}
        invariant todo <= theirs.Keys
        invariant clock == Merged(old(clock), theirs - todo)
      {
        var n :| n in todo;
        clock := clock[n := Max(if n in clock then clock[n] else 0, theirs[n])];
        todo := todo - {n};
      }
      assert theirs - {} == theirs;
    }

    method DominatesOther(other: VectorClock) returns (b: bool)
      ensures b == Dominates(clock, other.clock)
    {
      if other.clock == map[] { return clock != map[]; }
      var todo := other.clock.Keys;
      while todo != {}
        invariant todo <= other.clock.Keys
        invariant forall n :: n in other.clock.Keys - todo ==> other.clock[n] <= At(clock, n)
      {
        var n :| n in todo;
        if At(clock, n) < other.clock[n] { return false; }
        todo := todo - {n};
      }
      b := exists n :: n in clock.Keys + other.clock.Keys && At(other.clock, n) < At(clock, n);
    }
  }

  // ---------- dominance is the strict causal order ----------

  lemma DominatesIsStrict(a: Counters, b: Counters)
    requires Counted(a) && Counted(b)
    ensures Dominates(a, b) <==> Below(b, a) && !Below(a, b)
    ensures Dominates(a, b) <==> Below(b, a) && a != b
  {
    if Below(b, a) && !Below(a, b) {
      var n :| At(b, n) < At(a, n);
      assert n in a.Keys + b.Keys;
    }
    if Below(a, b) && Below(b, a) { BelowBothWays(a, b); }
    if b == map[] && a != map[] {
      var n :| n in a;
      assert At(b, n) < At(a, n);
    }
  }

  lemma BelowBothWays(a: Counters, b: Counters)
    requires Counted(a) && Counted(b) && Below(a, b) && Below(b, a)
    ensures a == b
  {
    forall n ensures n in a <==> n in b {
      assert At(a, n) == At(b, n);
    }
    forall n | n in a ensures a[n] == b[n] {
      assert At(a, n) == At(b, n);
    }
  }

  /** A zero counter breaks the rule: the empty clock is dominated by one that says nothing more. */
  lemma ZeroCounterDominates(n: string)
    ensures var a := map[n := 0]; Dominates(a, map[]) && Below(a, map[])
  {
    assert n in map[n := 0];
  }

  lemma DominatesTransitive(a: Counters, b: Counters, c: Counters)
    requires Counted(a) && Counted(b) && Counted(c) && Dominates(a, b) && Dominates(b, c)
    ensures Dominates(a, c) && !Dominates(c, a)
  {
    DominatesIsStrict(a, b);
    DominatesIsStrict(b, c);
    DominatesIsStrict(a, c);
    DominatesIsStrict(c, a);
    forall n ensures At(c, n) <= At(a, n) { assert At(c, n) <= At(b, n) <= At(a, n); }
  }

  /** A tick is the next clock: it dominates, and lies below every clock above it with more from that writer. */
  lemma TickIsNext(c: Counters, n: string, d: Counters)
    requires Counted(c)
    ensures Counted(Ticked(c, n)) && Dominates(Ticked(c, n), c)
    ensures Below(Ticked(c, n), d) <==> Below(c, d) && At(c, n) < At(d, n)
  {
    var t := Ticked(c, n);
    assert At(t, n) == At(c, n) + 1 && n in t;
    forall m | Below(t, d) ensures At(c, m) <= At(d, m) { assert At(c, m) <= At(t, m); }
    if Below(t, d) { assert At(t, n) <= At(d, n); }
  }

  /** Merge is the least clock above both. */
  lemma MergeIsJoin(a: Counters, b: Counters, c: Counters)
    requires Counted(a) && Counted(b)
    ensures Counted(Merged(a, b)) && Below(a, Merged(a, b)) && Below(b, Merged(a, b))
    ensures Below(Merged(a, b), c) <==> Below(a, c) && Below(b, c)
  {
    var m := Merged(a, b);
    forall n ensures At(m, n) == Max(At(a, n), At(b, n)) { assert n in m <==> n in a.Keys + b.Keys; }
    if Below(m, c) {
      forall n ensures At(a, n) <= At(c, n) && At(b, n) <= At(c, n) { assert At(m, n) <= At(c, n); }
    }
  }

  /** What pull stores, merge then tick, strictly dominates both clocks it came from. */
  lemma MergeTickDominates(a: Counters, b: Counters, node: string)
    requires Counted(a) && Counted(b)
    ensures var m := Ticked(Merged(a, b), node);
            Counted(m) && Dominates(m, a) && Dominates(m, b) && !Dominates(a, m) && !Dominates(b, m)
  {
    var j := Merged(a, b);
    var m := Ticked(j, node);
    MergeIsJoin(a, b, j);
    assert At(j, node) < At(m, node);
    assert Below(a, m) && Below(b, m) && !Below(m, a) && !Below(m, b) by {
      forall n ensures At(j, n) <= At(m, n) && At(a, n) <= At(j, n) && At(b, n) <= At(j, n) {}
      assert At(a, node) < At(m, node) && At(b, node) < At(m, node);
    }
    DominatesIsStrict(m, a);
    DominatesIsStrict(m, b);
    DominatesIsStrict(a, m);
    DominatesIsStrict(b, m);
  }
}
