/**
  The initial snapshot of a pull: a fixed remote collection is read in pages ordered
  by id, passing documents are upserted, and the last upserted id is checkpointed
  after each page, so that a later attempt resumes there.
 */
module SnapshotPaging {
  import opened Common

  ghost predicate Ascending(s: seq<int>) {
    forall i, j :: 0 <= i < j < |s| ==> s[i] < s[j]
  }

  /** How many of the first `hi` ids are at most `last`. */
  function Upto(remote: seq<int>, last: int, hi: nat): (n: nat)
    requires hi <= |remote|
    ensures n <= hi
    ensures forall i :: n <= i < hi ==> last < remote[i]
    ensures n > 0 ==> remote[n - 1] <= last
  {
    if hi == 0 || remote[hi - 1] <= last then hi else Upto(remote, last, hi - 1)
  }

  function From(remote: seq<int>, last: Option<int>): (n: nat)
    ensures n <= |remote|
  {
    if last.None? then 0 else Upto(remote, last.value, |remote|)
  }

  lemma FromAt(remote: seq<int>, k: nat)
    requires Ascending(remote) && k < |remote|
    ensures From(remote, Some(remote[k])) == k + 1
  {
    assert Upto(remote, remote[k], |remote|) > k;
  }

  /** `find({_id: {$gt: last}}).sort(_id).limit(size)`. */
  function Page(remote: seq<int>, last: Option<int>, size: nat): seq<int> {
    var rest := remote[From(remote, last)..];
    if |rest| <= size then rest else rest[..size]
  }

  /** The passing documents at positions `lo` up to `hi`, in order. */
  function Passing(remote: seq<int>, pass: set<int>, lo: nat, hi: nat): seq<int>
    requires hi <= |remote|
  {
    if hi <= lo then [] else Passing(remote, pass, lo, hi - 1) + if remote[hi - 1] in pass then [remote[hi - 1]] else []
  }

  /** The `n` documents from position `lo` on all fail the filters. */
  ghost predicate Failing(remote: seq<int>, pass: set<int>, lo: int, n: nat)
    requires 0 <= lo && lo + n <= |remote|
  {
    forall i :: lo <= i < lo + n ==> remote[i] !in pass
  }

  lemma {:induction false} FailingAddsNothing(remote: seq<int>, pass: set<int>, lo: nat, mid: nat, hi: nat)
    requires lo <= mid <= hi <= |remote| && Failing(remote, pass, mid, hi - mid)
    ensures Passing(remote, pass, lo, hi) == Passing(remote, pass, lo, mid)
  {
    if mid < hi { FailingAddsNothing(remote, pass, lo, mid, hi - 1); }
  }

  /** Exactly the passing documents of the range, each once and in id order. */
  lemma {:induction false} PassingMembers(remote: seq<int>, pass: set<int>, lo: nat, hi: nat)
    requires Ascending(remote) && lo <= hi <= |remote|
    ensures var p := Passing(remote, pass, lo, hi);
            && Ascending(p)
            && (forall i :: lo <= i < hi && remote[i] in pass ==> remote[i] in p)
            && (forall d :: d in p ==> d in pass && exists j :: lo <= j < hi && remote[j] == d)
  {
    if lo < hi {
      PassingMembers(remote, pass, lo, hi - 1);
      var p := Passing(remote, pass, lo, hi - 1);
      forall i | 0 <= i < |p| ensures p[i] < remote[hi - 1] {
        assert p[i] in p;
        var j :| lo <= j < hi - 1 && remote[j] == p[i];
      }
    }
  }

  /** Some full page's worth of consecutive documents past position `from` fails the filters. */
  ghost predicate Blocked(remote: seq<int>, pass: set<int>, size: nat, from: nat) {
    exists j :: from <= j <= |remote| - size && Failing(remote, pass, j, size)
  }

  /** Position `p` is not past any such stretch. */
  ghost predicate OutsideBlocks(remote: seq<int>, pass: set<int>, size: nat, from: nat, p: nat) {
    forall j :: from <= j <= |remote| - size && Failing(remote, pass, j, size) ==> p <= j
  }

  /** Reaching a passing document of a page does not jump over a failing stretch. */
  lemma StaysOutside(remote: seq<int>, pass: set<int>, size: nat, from: nat, p: nat, k: nat)
    requires OutsideBlocks(remote, pass, size, from, p) && p <= k < p + size && k < |remote| && remote[k] in pass
    ensures OutsideBlocks(remote, pass, size, from, k + 1)
  {
  }

  ghost predicate Delivered(remote: seq<int>, pass: set<int>, from: nat, reached: nat, was: seq<int>, now: seq<int>) {
    from <= reached <= |remote| && now == was + Passing(remote, pass, from, reached)
  }

  /** Position within a page that starts at `start`: `k` documents seen, the last upserted one before `reached`. */
  ghost predicate Progress(remote: seq<int>, pass: set<int>, size: nat, from: nat, start: nat, k: nat, reached: nat,
                           was: seq<int>, now: seq<int>) {
    && start <= reached <= start + k <= |remote|
    && Failing(remote, pass, reached, start + k - reached)
    && Delivered(remote, pass, from, reached, was, now)
    && OutsideBlocks(remote, pass, size, from, reached)
  }

  lemma SkipNext(remote: seq<int>, pass: set<int>, size: nat, from: nat, start: nat, k: nat, reached: nat,
                 was: seq<int>, now: seq<int>)
    requires Progress(remote, pass, size, from, start, k, reached, was, now)
    requires start + k < |remote| && remote[start + k] !in pass
    ensures Progress(remote, pass, size, from, start, k + 1, reached, was, now)
  {
  }

  lemma DeliverNext(remote: seq<int>, pass: set<int>, size: nat, from: nat, start: nat, k: nat, reached: nat,
                    was: seq<int>, now: seq<int>)
    requires Progress(remote, pass, size, from, start, k, reached, was, now)
    requires start + k < |remote| && k < size && remote[start + k] in pass
    ensures Progress(remote, pass, size, from, start, k + 1, start + k + 1, was, now + [remote[start + k]])
  {
    FailingAddsNothing(remote, pass, from, reached, start + k);
    Regroup(was, Passing(remote, pass, from, start + k), [remote[start + k]]);
    StaysOutside(remote, pass, size, from, reached, start + k);
  }

  /** The inner loop over one page, stopped early when the budget runs out. */
  method UpsertPage(remote: seq<int>, pass: set<int>, page: seq<int>, lastId: Option<int>, budget: nat,
                    upserts: seq<int>, ghost size: nat, ghost from: nat, ghost start: nat, ghost was: seq<int>)
    returns (last: Option<int>, left: nat, now: seq<int>, stopped: bool, ghost reached: nat, ghost seen: nat)
    requires Ascending(remote) && start == From(remote, lastId) && page == Page(remote, lastId, size)
    requires Progress(remote, pass, size, from, start, 0, start, was, upserts)
    ensures Progress(remote, pass, size, from, start, seen, reached, was, now) && reached == From(remote, last)
    ensures left <= budget && (stopped ==> left == 0)
    ensures budget - left <= reached - start && (!stopped ==> seen == |page|)
  {
    last, left, now, stopped, reached, seen := lastId, budget, upserts, false, start, 0;
    for k := 0 to |page|
      invariant seen == k && reached == From(remote, last) && 0 <= budget - left <= reached - start
      invariant Progress(remote, pass, size, from, start, k, reached, was, now)
    {
      assert page[k] == remote[start + k];
      if page[k] in pass {
        if left == 0 { stopped := true; return; }
        DeliverNext(remote, pass, size, from, start, k, reached, was, now);
        FromAt(remote, start + k);
        left, last, now, reached := left - 1, Some(page[k]), now + [page[k]], start + k + 1;
      } else {
        SkipNext(remote, pass, size, from, start, k, reached, was, now);
      }
      seen := k + 1;
    }
  }

  lemma ShortPage(remote: seq<int>, pass: set<int>, size: nat, from: nat, start: nat, reached: nat, was: seq<int>,
                  now: seq<int>)
    requires start <= |remote| < start + size
    requires Progress(remote, pass, size, from, start, |remote| - start, reached, was, now)
    ensures now == was + Passing(remote, pass, from, |remote|) && !Blocked(remote, pass, size, from)
  {
    FailingAddsNothing(remote, pass, from, reached, |remote|);
  }

  lemma FullPage(remote: seq<int>, pass: set<int>, size: nat, from: nat, start: nat, reached: nat, was: seq<int>,
                 now: seq<int>)
    requires Progress(remote, pass, size, from, start, size, reached, was, now)
    ensures reached == start ==> Blocked(remote, pass, size, from)
  {
    if reached == start { assert Failing(remote, pass, start, size); }
  }

  /** The outer loop: page after page from the checkpoint until a short page or the end of the budget. */
  method FetchPages(remote: seq<int>, pass: set<int>, size: nat, checkpoint: Option<int>, upserts: seq<int>,
                    budget: nat)
    returns (done: bool, pageKey: Option<int>, now: seq<int>, ghost reached: nat)
    requires Ascending(remote) && size >= 1
    ensures From(remote, checkpoint) <= From(remote, pageKey) <= reached
    ensures Delivered(remote, pass, From(remote, checkpoint), reached, upserts, now)
    ensures done ==> now == upserts + Passing(remote, pass, From(remote, checkpoint), |remote|)
    ensures var from := From(remote, checkpoint);
            && (done ==> !Blocked(remote, pass, size, from))
            && (!Blocked(remote, pass, size, from) && budget >= 3 * (|remote| - from) + 3 ==> done)
  {
    ghost var from := From(remote, checkpoint);
    reached := from;
    var lastId, left := checkpoint, budget;
    done, pageKey, now := false, checkpoint, upserts;
    while left > 0
      invariant !done && from <= From(remote, pageKey) <= reached == From(remote, lastId)
      invariant Progress(remote, pass, size, from, reached, 0, reached, upserts, now)
      invariant !Blocked(remote, pass, size, from) ==> budget - left <= 3 * (reached - from)
    {
      ghost var start, seen := reached, 0;
      var page := Page(remote, lastId, size);
      var stopped;
      lastId, left, now, stopped, reached, seen :=
        UpsertPage(remote, pass, page, lastId, left - 1, now, size, from, start, upserts);
      if stopped { return; }
      if page != [] && lastId.Some? {
        if left == 0 { return; }
        left, pageKey := left - 1, lastId;
      }
      if |page| < size {
        if left == 0 { return; }
        ShortPage(remote, pass, size, from, start, reached, upserts, now);
        done := true;
        return;
      }
      FullPage(remote, pass, size, from, start, reached, upserts, now);
    }
  }

  class SnapshotPull {
    var pageKey: Option<int>
    var init: bool
    var upserts: seq<int>

    constructor ()
      ensures pageKey == None && !init && upserts == []
    {
      pageKey, init, upserts := None, false, [];
    }

    /** Everything before the checkpoint has been delivered, and everything once the flag is set. */
    ghost predicate Safe(remote: seq<int>, pass: set<int>)
      reads this
    {
      && (forall d :: d in upserts ==> d in remote && d in pass)
      && (forall i :: 0 <= i < (if init then |remote| else From(remote, pageKey)) && remote[i] in pass ==> remote[i] in upserts)
    }

    /**
      One attempt, stopped after `budget` remote calls and store writes if it has not
      ended by then. It delivers a run of the passing documents in id order, each once,
      starting at the checkpoint; the checkpoint never runs ahead of what was delivered;
      and it ends by itself, given the budget, exactly when no page can be all failing.
     */
    method Attempt(remote: seq<int>, pass: set<int>, size: nat, budget: nat) returns (done: bool, ghost reached: nat)
      requires Ascending(remote) && size >= 1
      modifies this
      ensures old(init) ==> done && upserts == old(upserts) && pageKey == old(pageKey) && init
      ensures var from := From(remote, old(pageKey));
              !old(init) ==>
                && from <= From(remote, pageKey) <= reached <= |remote|
                && upserts == old(upserts) + Passing(remote, pass, from, reached)
                && done == init
                && (done ==> upserts == old(upserts) + Passing(remote, pass, from, |remote|))
                && (Blocked(remote, pass, size, from) ==> !done)
                && (!Blocked(remote, pass, size, from) && budget >= 3 * (|remote| - from) + 3 ==> done)
    {
      reached := From(remote, pageKey);
      if init { return true, reached; }
      done, pageKey, upserts, reached := FetchPages(remote, pass, size, pageKey, upserts, budget);
      init := done;
    }

    /**
      Any number of interrupted attempts: nothing before the checkpoint is missing, and
      once the flag is set every passing document has been delivered at least once.
     */
    method Restarts(remote: seq<int>, pass: set<int>, size: nat, budgets: seq<nat>)
      requires Ascending(remote) && size >= 1 && Safe(remote, pass)
      modifies this
      ensures Safe(remote, pass)
      ensures From(remote, old(pageKey)) <= From(remote, pageKey) && (old(init) ==> init)
      ensures init ==> forall d :: d in remote && d in pass ==> d in upserts
    {
      for i := 0 to |budgets|
        invariant Safe(remote, pass) && From(remote, old(pageKey)) <= From(remote, pageKey) && (old(init) ==> init)
      {
        label before:
        var done, reached := Attempt(remote, pass, size, budgets[i]);
        ghost var from := From(remote, old@before(pageKey));
        if !old@before(init) {
          PassingMembers(remote, pass, from, reached);
          PassingMembers(remote, pass, from, |remote|);
        }
      }
    }
  }
}
