/**
  The aggregation pipeline: stages applied in turn under a document limit, and the
  rewriter that merges adjacent matches and moves a match ahead of a limit.
 */
module Optimizer {
  import opened Common

  /** A compiled query: what it selects, and where evaluating it raises. */
  datatype Query<!T> = Query(holds: T -> bool, raises: T -> bool)

  /** A stage other than match and limit is any function of its input that may raise. */
  datatype Stage<!T> = Match(query: Query<T>) | Limit(n: nat) | Other(apply: seq<T> -> Option<seq<T>>)

  const MAX_PIPELINE_STAGES: nat := 50

  // ---------- running a pipeline ----------

  function Filter<T>(q: T -> bool, s: seq<T>): seq<T> {
    if s == [] then [] else if q(s[0]) then [s[0]] + Filter(q, s[1..]) else Filter(q, s[1..])
  }

  function Take<T>(n: nat, s: seq<T>): seq<T> {
    if |s| <= n then s else s[..n]
  }

  predicate Raises<T>(q: Query<T>, s: seq<T>) {
    exists i :: 0 <= i < |s| && q.raises(s[i])
  }

  function Apply<T>(stage: Stage<T>, docs: seq<T>): Option<seq<T>> {
    match stage
    case Match(q) => if Raises(q, docs) then None else Some(Filter(q.holds, docs))
    case Limit(n) => Some(Take(n, docs))
    case Other(f) => f(docs)
  }

  /** The documents of a run, and what each `Other` stage was given. */
  datatype Result<T> = Result(docs: seq<T>, calls: seq<seq<T>>)

  /** Every stage's output is held against the limit; `None` when anything raises. */
  function Run<T>(p: seq<Stage<T>>, docs: seq<T>, max: nat): Option<Result<T>> {
    if p == [] then Some(Result(docs, []))
    else
      var out := Apply(p[0], docs);
      if out.None? || |out.value| > max then None
      else
        var rest := Run(p[1..], out.value, max);
        if p[0].Other? && rest.Some? then Some(Result(rest.value.docs, [docs] + rest.value.calls)) else rest
  }

  // ---------- the rewriter ----------

  /** `$and` of two queries: the second is evaluated where the first holds. */
  function Both<T>(p: Query<T>, q: Query<T>): Query<T> {
    Query(d => p.holds(d) && q.holds(d), d => p.raises(d) || (p.holds(d) && q.raises(d)))
  }

  function Rewrite<T>(p: seq<Stage<T>>): seq<Stage<T>> {
    if |p| < 2 then p
    else if p[0].Match? && p[1].Match? then [Match(Both(p[0].query, p[1].query))] + Rewrite(p[2..])
    else if p[0].Limit? && p[1].Match? then [p[1], p[0]] + Rewrite(p[2..])
    else [p[0]] + Rewrite(p[1..])
  }

  lemma RewriteStep<T>(p: seq<Stage<T>>, i: nat)
    requires i < |p|
    ensures Rewrite(p[i..]) ==
      if p[i].Match? && i + 1 < |p| && p[i + 1].Match? then [Match(Both(p[i].query, p[i + 1].query))] + Rewrite(p[i + 2..])
      else if p[i].Limit? && i + 1 < |p| && p[i + 1].Match? then [p[i + 1], p[i]] + Rewrite(p[i + 2..])
      else [p[i]] + Rewrite(p[i + 1..])
  {
    if i + 1 < |p| {
      assert p[i..][1] == p[i + 1] && p[i..][2..] == p[i + 2..] && p[i..][1..] == p[i + 1..];
    } else {
      assert p[i..] == [p[i]] && p[i + 1..] == [];
    }
  }

  method OptimizePipeline<T>(p: seq<Stage<T>>) returns (out: seq<Stage<T>>)
    ensures out == Rewrite(p)
  {
    if |p| < 2 { return p; }
    out := [];
    var i := 0;
    ghost var rest, whole := Rewrite(p), Rewrite(p);
    assert p[0..] == p;
    while i < |p|
      invariant 0 <= i <= |p| && rest == Rewrite(p[i..]) && out + rest == whole
    {
      var step: seq<Stage<T>>;
      RewriteStep(p, i);
      if p[i].Match? && i + 1 < |p| && p[i + 1].Match? {
        step, i := [Match(Both(p[i].query, p[i + 1].query))], i + 2;
      } else if p[i].Limit? && i + 1 < |p| && p[i + 1].Match? {
        step, i := [p[i + 1], p[i]], i + 2;
      } else {
        step, i := [p[i]], i + 1;
      }
      Regroup(out, step, Rewrite(p[i..]));
      out, rest := out + step, Rewrite(p[i..]);
    }
  }

  /** The stage loop of an aggregation; the stage count is checked on the pipeline as given. */
  method Aggregate<T>(p: seq<Stage<T>>, input: seq<T>, max: nat) returns (r: Option<seq<T>>)
    ensures var run := Run(Rewrite(p), input, max);
            r == if |p| > MAX_PIPELINE_STAGES || run.None? then None else Some(run.value.docs)
  {
    if |p| > MAX_PIPELINE_STAGES { return None; }
    var stages := OptimizePipeline(p);
    var docs := input;
    for i := 0 to |stages|
      invariant Run(stages[i..], docs, max).None? <==> Run(Rewrite(p), input, max).None?
      invariant Run(stages[i..], docs, max).Some? ==>
                  Run(stages[i..], docs, max).value.docs == Run(Rewrite(p), input, max).value.docs
    {
      var out := Apply(stages[i], docs);
      if out.None? || |out.value| > max { return None; }
      assert stages[i..][1..] == stages[i + 1..];
      docs := out.value;
    }
    return Some(docs);
  }

  // ---------- merging matches ----------

  lemma {:induction false} FilterShrinks<T>(q: T -> bool, s: seq<T>)
    ensures |Filter(q, s)| <= |s|
  {
    if s != [] { FilterShrinks(q, s[1..]); }
  }

  lemma FilterCons<T>(q: T -> bool, d: T, s: seq<T>)
    ensures Filter(q, [d] + s) == if q(d) then [d] + Filter(q, s) else Filter(q, s)
  {
    assert ([d] + s)[1..] == s;
  }

  lemma {:induction false} FilterTwice<T>(p: Query<T>, q: Query<T>, s: seq<T>)
    ensures Filter(q.holds, Filter(p.holds, s)) == Filter(Both(p, q).holds, s)
    ensures Raises(Both(p, q), s) <==> Raises(p, s) || Raises(q, Filter(p.holds, s))
  {
    if s != [] {
      FilterTwice(p, q, s[1..]);
      assert s == [s[0]] + s[1..];
      FilterCons(p.holds, s[0], s[1..]);
      FilterCons(Both(p, q).holds, s[0], s[1..]);
      RaisesCons(p, s[0], s[1..]);
      RaisesCons(Both(p, q), s[0], s[1..]);
      if p.holds(s[0]) {
        FilterCons(q.holds, s[0], Filter(p.holds, s[1..]));
        RaisesCons(q, s[0], Filter(p.holds, s[1..]));
      }
    }
  }

  lemma RaisesCons<T>(q: Query<T>, d: T, s: seq<T>)
    ensures Raises(q, [d] + s) <==> q.raises(d) || Raises(q, s)
  {
    var t := [d] + s;
    assert t[0] == d && forall i :: 0 <= i < |s| ==> t[i + 1] == s[i];
  }

  ghost predicate NoLimitBeforeMatch<T>(p: seq<Stage<T>>) {
    forall i :: 0 <= i < |p| - 1 && p[i].Limit? ==> !p[i + 1].Match?
  }

  lemma RunCons<T>(s: Stage<T>, rest: seq<Stage<T>>, docs: seq<T>, max: nat)
    ensures var out := Apply(s, docs);
            Run([s] + rest, docs, max) ==
              if out.None? || |out.value| > max then None
              else
                var r := Run(rest, out.value, max);
                if s.Other? && r.Some? then Some(Result(r.value.docs, [docs] + r.value.calls)) else r
  {
    assert ([s] + rest)[1..] == rest;
  }

  /** One merged match does what two adjacent ones do, except that it may get past a limit. */
  lemma MergedMatch<T>(p: seq<Stage<T>>, docs: seq<T>, max: nat)
    requires |p| >= 2 && p[0].Match? && p[1].Match?
    ensures var merged := Run([Match(Both(p[0].query, p[1].query))] + p[2..], docs, max);
            Run(p, docs, max).Some? || |docs| <= max ==> merged == Run(p, docs, max)
  {
    var one := Filter(p[0].query.holds, docs);
    FilterTwice(p[0].query, p[1].query, docs);
    FilterShrinks(p[0].query.holds, docs);
    FilterShrinks(p[1].query.holds, one);
    assert p == [p[0]] + p[1..] && p[1..] == [p[1]] + p[2..];
    RunCons(p[0], p[1..], docs, max);
    RunCons(p[1], p[2..], one, max);
    RunCons(Match(Both(p[0].query, p[1].query)), p[2..], docs, max);
  }

  /**
    Without a limit directly before a match, whenever the original succeeds the
    rewritten pipeline succeeds with the same documents and hands every other stage
    the same input; on an input within the limit the two agree on failure as well.
   */
  lemma {:induction false} RewriteKeepsMeaning<T>(p: seq<Stage<T>>, docs: seq<T>, max: nat)
    requires NoLimitBeforeMatch(p)
    ensures Run(p, docs, max).Some? || |docs| <= max ==> Run(Rewrite(p), docs, max) == Run(p, docs, max)
    decreases |p|, 0
  {
    if |p| >= 2 && (Run(p, docs, max).Some? || |docs| <= max) {
      if p[0].Match? && p[1].Match? {
        MergedMatch(p, docs, max);
        var both := Both(p[0].query, p[1].query);
        StepAgrees(Match(both), p[2..], docs, max);
      } else {
        StepAgrees(p[0], p[1..], docs, max);
        assert p == [p[0]] + p[1..];
      }
    }
  }

  lemma {:induction false} StepAgrees<T>(s: Stage<T>, rest: seq<Stage<T>>, docs: seq<T>, max: nat)
    requires NoLimitBeforeMatch(rest)
    ensures Run([s] + Rewrite(rest), docs, max) == Run([s] + rest, docs, max)
    decreases |rest|, 1
  {
    RunCons(s, rest, docs, max);
    RunCons(s, Rewrite(rest), docs, max);
    var out := Apply(s, docs);
    if out.Some? && |out.value| <= max { RewriteKeepsMeaning(rest, out.value, max); }
  }

  // ---------- moving a match ahead of a limit ----------

  ghost predicate SwapIsExact<T>(n: nat, q: T -> bool, docs: seq<T>) {
    || (forall i :: 0 <= i < |docs| && i < n ==> q(docs[i]))
    || (forall i :: n <= i < |docs| ==> !q(docs[i]))
  }

  lemma {:induction false} FilterConcat<T>(q: T -> bool, a: seq<T>, b: seq<T>)
    ensures Filter(q, a + b) == Filter(q, a) + Filter(q, b)
  {
    if a == [] {
      assert a + b == b;
    } else {
      FilterConcat(q, a[1..], b);
      assert (a + b)[1..] == a[1..] + b;
      Regroup([a[0]], Filter(q, a[1..]), Filter(q, b));
    }
  }

  /**
    Limit-then-match gives a prefix of match-then-limit; they are equal exactly when
    the documents within the limit all match or none beyond it does.
   */
  lemma SwapGrows<T>(n: nat, q: T -> bool, docs: seq<T>)
    ensures Filter(q, Take(n, docs)) <= Take(n, Filter(q, docs))
    ensures Filter(q, Take(n, docs)) == Take(n, Filter(q, docs)) <==> SwapIsExact(n, q, docs)
  {
    if n < |docs| {
      var a, b := docs[..n], docs[n..];
      assert docs == a + b;
      FilterConcat(q, a, b);
      FilterShrinks(q, a);
      AllPass(q, a);
      NonePass(q, b);
      PrefixOfConcat(n, Filter(q, a), Filter(q, b));
      SplitExact(n, q, docs);
    } else {
      FilterShrinks(q, docs);
      assert SwapIsExact(n, q, docs);
    }
  }

  lemma SplitExact<T>(n: nat, q: T -> bool, docs: seq<T>)
    requires n < |docs|
    ensures var a, b := docs[..n], docs[n..];
            SwapIsExact(n, q, docs) <==> (forall i :: 0 <= i < |a| ==> q(a[i])) || (forall i :: 0 <= i < |b| ==> !q(b[i]))
  {
    var a, b := docs[..n], docs[n..];
    assert (forall i :: 0 <= i < |a| ==> q(a[i])) <==> (forall i :: 0 <= i < |docs| && i < n ==> q(docs[i])) by {
      assert forall i :: 0 <= i < n ==> a[i] == docs[i];
    }
    assert (forall i :: 0 <= i < |b| ==> !q(b[i])) <==> (forall i :: n <= i < |docs| ==> !q(docs[i])) by {
      assert forall i :: n <= i < |docs| ==> docs[i] == b[i - n];
      assert forall i :: 0 <= i < |b| ==> b[i] == docs[i + n];
    }
  }

  lemma PrefixOfConcat<T>(n: nat, a: seq<T>, b: seq<T>)
    requires |a| <= n
    ensures a <= Take(n, a + b)
    ensures a == Take(n, a + b) <==> |a| == n || b == []
  {
    if |a + b| > n { assert (a + b)[..n][..|a|] == a; }
  }

  lemma {:induction false} NonePass<T>(q: T -> bool, s: seq<T>)
    ensures Filter(q, s) == [] <==> forall i :: 0 <= i < |s| ==> !q(s[i])
  {
    if s != [] {
      NonePass(q, s[1..]);
      assert (forall i :: 0 <= i < |s| ==> !q(s[i])) <==> !q(s[0]) && forall i :: 0 <= i < |s[1..]| ==> !q(s[1..][i]);
    }
  }

  lemma {:induction false} AllPass<T>(q: T -> bool, s: seq<T>)
    ensures |Filter(q, s)| == |s| <==> forall i :: 0 <= i < |s| ==> q(s[i])
  {
    if s != [] {
      AllPass(q, s[1..]);
      FilterShrinks(q, s[1..]);
      assert (forall i :: 0 <= i < |s| ==> q(s[i])) <==> q(s[0]) && forall i :: 0 <= i < |s[1..]| ==> q(s[1..][i]);
    }
  }

  function Total<T>(holds: T -> bool): Query<T> {
    Query(holds, _ => false)
  }

  lemma SwapCanAddDocuments()
    ensures var docs, q := [1, 2], Total((d: int) => d == 2);
            && Run([Limit(1), Match(q)], docs, 100_000) == Some(Result([], []))
            && Run(Rewrite([Limit(1), Match(q)]), docs, 100_000) == Some(Result([2], []))
  {
    var docs, q := [1, 2], Total((d: int) => d == 2);
    assert Filter(q.holds, [1]) == [] && Filter(q.holds, docs) == [2] by { assert docs[1..] == [2]; }
    assert Take(1, docs) == [1];
    RunPair(Limit(1), Match(q), docs, 100_000);
    RunPair(Match(q), Limit(1), docs, 100_000);
  }

  /** Moving the match ahead can also raise: the limit no longer shields it from a large input. */
  lemma SwapCanRaise()
    ensures var docs, q := [1, 2], Total((d: int) => true);
            && Run([Limit(1), Match(q)], docs, 1) == Some(Result([1], []))
            && Run(Rewrite([Limit(1), Match(q)]), docs, 1) == None
  {
    var docs, q := [1, 2], Total((d: int) => true);
    assert Filter(q.holds, [1]) == [1] && Filter(q.holds, docs) == [1, 2] by { assert docs[1..] == [2]; }
    assert Take(1, docs) == [1];
    RunPair(Limit(1), Match(q), docs, 1);
    RunPair(Match(q), Limit(1), docs, 1);
  }

  lemma RunPair<T>(s: Stage<T>, t: Stage<T>, docs: seq<T>, max: nat)
    requires !s.Other? && !t.Other?
    ensures var one := Apply(s, docs);
            Run([s, t], docs, max) ==
              if one.None? || |one.value| > max || Apply(t, one.value).None? || |Apply(t, one.value).value| > max then None
              else Some(Result(Apply(t, one.value).value, []))
  {
    assert [s, t] == [s] + [t] && [t] == [t] + [];
    RunCons(s, [t], docs, max);
    var one := Apply(s, docs);
    if one.Some? { RunCons(t, [], one.value, max); }
  }

  lemma {:induction false} RunConcat<T>(a: seq<Stage<T>>, b: seq<Stage<T>>, docs: seq<T>, max: nat)
    ensures var r := Run(a, docs, max);
            Run(a + b, docs, max) ==
              if r.None? then None
              else
                var s := Run(b, r.value.docs, max);
                if s.None? then None else Some(Result(s.value.docs, r.value.calls + s.value.calls))
  {
    if a == [] {
      assert a + b == b;
      var s := Run(b, docs, max);
      assert s.Some? ==> [] + s.value.calls == s.value.calls;
    } else {
      assert a == [a[0]] + a[1..] && a + b == [a[0]] + (a[1..] + b);
      RunCons(a[0], a[1..], docs, max);
      RunCons(a[0], a[1..] + b, docs, max);
      var out := Apply(a[0], docs);
      if out.Some? && |out.value| <= max {
        RunConcat(a[1..], b, out.value, max);
        var r := Run(a[1..], out.value, max);
        if r.Some? && Run(b, r.value.docs, max).Some? {
          Regroup([docs], r.value.calls, Run(b, r.value.docs, max).value.calls);
        }
      }
    }
  }

  lemma {:induction false} RewriteAppends<T>(pre: seq<Stage<T>>, n: nat, q: Query<T>)
    ensures Rewrite(pre + [Limit(n), Match(q)]) == Rewrite(pre) + [Match(q), Limit(n)]
    decreases |pre|
  {
    var tail, end := [Limit(n), Match(q)], [Match(q), Limit(n)];
    var p := pre + tail;
    if pre == [] {
      assert p == tail && tail[2..] == [] && [] + end == end;
    } else {
      var k := if |pre| >= 2 && pre[1].Match? && !pre[0].Other? then 2 else 1;
      var step := if k == 1 then [pre[0]]
                  else if pre[0].Match? then [Match(Both(pre[0].query, pre[1].query))] else [pre[1], pre[0]];
      RewriteAppends(pre[k..], n, q);
      assert p[k..] == pre[k..] + tail;
      assert |pre| == 1 ==> p[1] == Limit(n) && pre[1..] == [] && pre == [pre[0]];
      assert Rewrite(pre) == step + Rewrite(pre[k..]);
      assert Rewrite(p) == step + Rewrite(p[k..]);
      Regroup(step, Rewrite(pre[k..]), end);
    }
  }

  /** What reaches a pair is fit for `limit n, match q` in this order. */
  ghost predicate LimitFirstSucceeds<T>(n: nat, q: Query<T>, docs: seq<T>, max: nat) {
    |Take(n, docs)| <= max && !Raises(q, Take(n, docs))
  }

  ghost predicate MatchFirstSucceeds<T>(q: Query<T>, docs: seq<T>, max: nat) {
    |Filter(q.holds, docs)| <= max && !Raises(q, docs)
  }

  /**
    A pipeline whose one swapped pair is at its end, on any input. The original and the
    rewritten run each succeed exactly when what reaches the pair is fit for its order;
    when both do, other stages got the same input, the original's documents are a prefix,
    and nothing is added exactly when the swap is exact on what reaches the pair.
   */
  lemma SwapAtEnd<T>(pre: seq<Stage<T>>, n: nat, q: Query<T>, docs: seq<T>, max: nat)
    requires NoLimitBeforeMatch(pre)
    ensures var p := pre + [Limit(n), Match(q)];
            var a, b := Run(p, docs, max), Run(Rewrite(p), docs, max);
            var before, before' := Run(pre, docs, max), Run(Rewrite(pre), docs, max);
            && (a.Some? <==> before.Some? && LimitFirstSucceeds(n, q, before.value.docs, max))
            && (b.Some? <==> before'.Some? && MatchFirstSucceeds(q, before'.value.docs, max))
            && (before.Some? ==> before' == before)
            && (a.Some? && b.Some? ==>
                  && a.value.calls == b.value.calls && a.value.docs <= b.value.docs
                  && (a.value.docs == b.value.docs <==> SwapIsExact(n, q.holds, before.value.docs)))
  {
    RewriteAppends(pre, n, q);
    RewriteKeepsMeaning(pre, docs, max);
    RunConcat(pre, [Limit(n), Match(q)], docs, max);
    RunConcat(Rewrite(pre), [Match(q), Limit(n)], docs, max);
    var before, before' := Run(pre, docs, max), Run(Rewrite(pre), docs, max);
    if before.Some? { PairSucceeds(n, q, before.value.docs, max); }
    if before'.Some? { PairSucceeds(n, q, before'.value.docs, max); }
  }

  lemma PairSucceeds<T>(n: nat, q: Query<T>, d: seq<T>, max: nat)
    ensures var a, b := Run([Limit(n), Match(q)], d, max), Run([Match(q), Limit(n)], d, max);
            && (a.Some? <==> LimitFirstSucceeds(n, q, d, max))
            && (b.Some? <==> MatchFirstSucceeds(q, d, max))
            && (a.Some? && b.Some? ==>
                  && a.value.calls == [] == b.value.calls && a.value.docs <= b.value.docs
                  && (a.value.docs == b.value.docs <==> SwapIsExact(n, q.holds, d)))
  {
    RunPair(Limit(n), Match(q), d, max);
    RunPair(Match(q), Limit(n), d, max);
    FilterShrinks(q.holds, Take(n, d));
    SwapGrows(n, q.holds, d);
  }

  /**
    When the rewritten pipeline succeeds where the original does not, it is because two
    leading matches were merged and the first one alone lets too many documents through.
   */
  lemma RescuedExactly<T>(p: seq<Stage<T>>, docs: seq<T>, max: nat)
    requires NoLimitBeforeMatch(p)
    ensures Run(Rewrite(p), docs, max) != Run(p, docs, max) <==>
            && |p| >= 2 && p[0].Match? && p[1].Match? && |Filter(p[0].query.holds, docs)| > max
            && Run(Rewrite(p), docs, max).Some?
  {
    RewriteKeepsMeaning(p, docs, max);
    if |p| >= 2 {
      assert p == [p[0]] + p[1..];
      RunCons(p[0], p[1..], docs, max);
      if p[0].Match? && p[1].Match? {
        var one, both := Filter(p[0].query.holds, docs), Both(p[0].query, p[1].query);
        StepAgrees(Match(both), p[2..], docs, max);
        RunCons(Match(both), p[2..], docs, max);
        FilterTwice(p[0].query, p[1].query, docs);
        FilterShrinks(p[1].query.holds, one);
        assert p[1..] == [p[1]] + p[2..];
        RunCons(p[1], p[2..], one, max);
      } else {
        StepAgrees(p[0], p[1..], docs, max);
      }
    }
  }

  // ---------- any number of swaps ----------

  ghost predicate Selective<T>(p: seq<Stage<T>>, docs: seq<T>) {
    forall i :: 0 <= i < |p| ==> !p[i].Other? && (p[i].Match? ==> !Raises(p[i].query, docs))
  }

  lemma {:induction false} FilterCalm<T>(q: Query<T>, h: T -> bool, s: seq<T>)
    requires !Raises(q, s)
    ensures !Raises(q, Filter(h, s))
  {
    if s != [] {
      assert s == [s[0]] + s[1..];
      RaisesCons(q, s[0], s[1..]);
      FilterCalm(q, h, s[1..]);
      if h(s[0]) { RaisesCons(q, s[0], Filter(h, s[1..])); }
    }
  }

  lemma SelectiveStep<T>(p: seq<Stage<T>>, k: nat, docs: seq<T>, fewer: seq<T>)
    requires k <= |p| && Selective(p, docs)
    requires forall q: Query<T> :: !Raises(q, docs) ==> !Raises(q, fewer)
    ensures Selective(p[k..], fewer)
  {
  }

  lemma FilterPrefix<T>(q: T -> bool, s: seq<T>, t: seq<T>)
    requires s <= t
    ensures Filter(q, s) <= Filter(q, t)
  {
    assert t == s + t[|s|..];
    FilterConcat(q, s, t[|s|..]);
  }

  lemma TakePrefix<T>(n: nat, s: seq<T>, t: seq<T>)
    requires s <= t
    ensures Take(n, s) <= Take(n, t)
  {
  }

  /** One stage on an input and on a longer one: both succeed, and the outputs stay in the same relation. */
  lemma StageKeepsPrefix<T>(stage: Stage<T>, s: seq<T>, t: seq<T>, max: nat)
    requires s <= t && |t| <= max && !stage.Other? && (stage.Match? ==> !Raises(stage.query, t))
    ensures Apply(stage, s).Some? && Apply(stage, t).Some?
    ensures Apply(stage, s).value <= Apply(stage, t).value && |Apply(stage, t).value| <= max
    ensures forall q: Query<T> :: !Raises(q, t) ==> !Raises(q, Apply(stage, t).value)
  {
    match stage
    case Limit(n) => TakePrefix(n, s, t);
    case Match(q) =>
      FilterPrefix(q.holds, s, t);
      FilterShrinks(q.holds, t);
      forall r: Query<T> | !Raises(r, t) ensures !Raises(r, Filter(q.holds, t)) { FilterCalm(r, q.holds, t); }
  }

  /**
    Whole pipelines of matches and limits, with any number of swaps: on an input within
    the limit both runs succeed and the original's output is a prefix of the rewritten one.
   */
  lemma {:induction false} SwapsOnlyExtend<T>(p: seq<Stage<T>>, s: seq<T>, t: seq<T>, max: nat)
    requires Selective(p, t) && s <= t && |t| <= max
    ensures Run(p, s, max).Some? && Run(Rewrite(p), t, max).Some?
    ensures Run(p, s, max).value.docs <= Run(Rewrite(p), t, max).value.docs
    decreases |p|, 1
  {
    if p == [] {
    } else if |p| >= 2 && p[1].Match? {
      PairExtends(p, s, t, max);
    } else {
      StageKeepsPrefix(p[0], s, t, max);
      var s', t' := Apply(p[0], s).value, Apply(p[0], t).value;
      SelectiveStep(p, 1, t, t');
      SwapsOnlyExtend(p[1..], s', t', max);
      assert p == [p[0]] + p[1..];
      RunCons(p[0], p[1..], s, max);
      RunCons(p[0], Rewrite(p[1..]), t, max);
      assert |p| == 1 ==> p[1..] == [] && Rewrite(p) == p;
    }
  }

  lemma {:induction false} PairExtends<T>(p: seq<Stage<T>>, s: seq<T>, t: seq<T>, max: nat)
    requires |p| >= 2 && p[1].Match? && Selective(p, t) && s <= t && |t| <= max
    ensures Run(p, s, max).Some? && Run(Rewrite(p), t, max).Some?
    ensures Run(p, s, max).value.docs <= Run(Rewrite(p), t, max).value.docs
    decreases |p|, 0
  {
    var q, rest := p[1].query, Rewrite(p[2..]);
    StageKeepsPrefix(p[0], s, t, max);
    var s1, t1 := Apply(p[0], s).value, Apply(p[0], t).value;
    StageKeepsPrefix(p[1], s1, t1, max);
    var s2 := Filter(q.holds, s1);
    assert p == [p[0]] + p[1..] && p[1..] == [p[1]] + p[2..];
    RunCons(p[0], p[1..], s, max);
    RunCons(p[1], p[2..], s1, max);
    var t2;
    if p[0].Match? {
      t2 := Filter(q.holds, t1);
      FilterTwice(p[0].query, q, t);
      RunCons(Match(Both(p[0].query, q)), rest, t, max);
    } else {
      var n, u := p[0].n, Filter(q.holds, t);
      t2 := Take(n, u);
      StageKeepsPrefix(p[1], s, t, max);
      StageKeepsPrefix(p[0], Filter(q.holds, s), u, max);
      SwapGrows(n, q.holds, s);
      assert [p[1], p[0]] + rest == [p[1]] + ([p[0]] + rest);
      RunCons(p[1], [p[0]] + rest, t, max);
      RunCons(p[0], rest, u, max);
    }
    SelectiveStep(p, 2, t, t2);
    SwapsOnlyExtend(p[2..], s2, t2, max);
  }
}
