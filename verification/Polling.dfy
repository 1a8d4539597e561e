/**
  Polling: without a change stream, pull asks the remote for the documents whose
  timestamp is past the highest one it has delivered, and delivers those that pass.
 */
module Polling {
  import opened Common

  /** The filters of a poll: true for a document to deliver. */
  type Filter = Doc -> bool

  /** What one poll meets: the remote collection, the filters, and how it goes. */
  datatype Poll = Poll(remote: set<Doc>, pass: Filter, found: seq<Doc>, fate: Fate)

  /** The query fails, the delivery of the document at a position raises, or neither. */
  datatype Fate = QueryFails | RaisesAt(k: nat) | Completes

  /** `_lastModified > last`: only a number is. */
  predicate Asked(d: Doc, last: real) {
    Get(d, STAMP).Num? && Get(d, STAMP).n > last
  }

  /** The query's answer: exactly the documents asked for, each once, by timestamp. */
  ghost predicate Answers(p: Poll, last: real) {
    && (forall d :: d in p.found <==> d in p.remote && Asked(d, last))
    && (forall i, j :: 0 <= i < j < |p.found| ==> p.found[i] != p.found[j] && Stamp(p.found[i]) <= Stamp(p.found[j]))
  }

  function Passing(found: seq<Doc>, pass: Filter, n: nat): seq<Doc>
    requires n <= |found|
  {
    if n == 0 then [] else Passing(found, pass, n - 1) + if pass(found[n - 1]) then [found[n - 1]] else []
  }

  /** How many of the documents found the loop gets to. */
  function Reached(p: Poll): (n: nat)
    ensures n <= |p.found|
  {
    match p.fate
    case QueryFails => 0
    case RaisesAt(k) => if k < |p.found| then k else |p.found|
    case Completes => |p.found|
  }

  /** The highest timestamp delivered, or the old one. */
  function Highest(found: seq<Doc>, pass: Filter, n: nat, last: real): real
    requires n <= |found|
  {
    if n == 0 then last
    else
      var before := Highest(found, pass, n - 1, last);
      if pass(found[n - 1]) && Stamp(found[n - 1]) > before then Stamp(found[n - 1]) else before
  }

  predicate Ends(p: Poll) {
    p.fate.Completes? || (p.fate.RaisesAt? && p.fate.k >= |p.found|)
  }

  function Next(p: Poll, last: real): real {
    if Ends(p) then Highest(p.found, p.pass, |p.found|, last) else last
  }

  /** The loop over the documents found; the timestamp is stored only after the last. */
  method PollOnce(p: Poll, last: real) returns (delivered: seq<Doc>, stored: real)
    ensures delivered == Passing(p.found, p.pass, Reached(p)) && stored == Next(p, last)
  {
    delivered, stored := [], last;
    if p.fate.QueryFails? { return; }
    var highest, i := last, 0;
    while i < |p.found|
      invariant 0 <= i <= Reached(p) && delivered == Passing(p.found, p.pass, i)
      invariant highest == Highest(p.found, p.pass, i, last)
    {
      if p.fate == RaisesAt(i) { return; }
      var d := p.found[i];
      if p.pass(d) {
        delivered := delivered + [d];
        if Stamp(d) > highest { highest := Stamp(d); }
      }
      i := i + 1;
    }
    stored := highest;
  }

  lemma {:induction false} PassingMembers(found: seq<Doc>, pass: Filter, n: nat, d: Doc)
    requires n <= |found|
    ensures d in Passing(found, pass, n) <==> pass(d) && exists i :: 0 <= i < n && found[i] == d
  {
    if n > 0 { PassingMembers(found, pass, n - 1, d); }
  }

  lemma {:induction false} HighestCovers(found: seq<Doc>, pass: Filter, n: nat, last: real)
    requires n <= |found|
    ensures last <= Highest(found, pass, n, last)
    ensures forall i :: 0 <= i < n && pass(found[i]) ==> Stamp(found[i]) <= Highest(found, pass, n, last)
  {
    if n > 0 { HighestCovers(found, pass, n - 1, last); }
  }

  // ---------- over every run of polls ----------

  /** The stored timestamps before, between and after the polls. */
  ghost predicate PollRun(ls: seq<real>, ps: seq<Poll>) {
    |ls| == |ps| + 1 && forall k :: 0 <= k < |ps| ==> Answers(ps[k], ls[k]) && ls[k + 1] == Next(ps[k], ls[k])
  }

  ghost predicate Delivers(p: Poll, d: Doc) {
    d in Passing(p.found, p.pass, Reached(p))
  }

  /** The version stands on the remote, unchanged, and passes the filters from poll `i` up to `j`. */
  ghost predicate Stands(ps: seq<Poll>, i: nat, j: nat, d: Doc)
    requires i <= j <= |ps|
  {
    forall k :: i <= k < j ==> d in ps[k].remote && ps[k].pass(d)
  }

  lemma {:induction false} TimestampsGrow(ls: seq<real>, ps: seq<Poll>, i: nat, j: nat)
    requires PollRun(ls, ps) && i <= j <= |ps|
    ensures ls[i] <= ls[j]
  {
    if i < j {
      TimestampsGrow(ls, ps, i, j - 1);
      HighestCovers(ps[j - 1].found, ps[j - 1].pass, |ps[j - 1].found|, ls[j - 1]);
    }
  }

  lemma DeliveredWasAsked(p: Poll, last: real, d: Doc)
    requires Answers(p, last) && Delivers(p, d)
    ensures Asked(d, last)
  {
    PassingMembers(p.found, p.pass, Reached(p), d);
  }

  /** A poll that ends delivers the version if it is asked for, and never asks for it again. */
  lemma EndingPoll(ls: seq<real>, ps: seq<Poll>, k: nat, d: Doc)
    requires PollRun(ls, ps) && k < |ps| && Ends(ps[k]) && d in ps[k].remote && ps[k].pass(d)
    ensures Delivers(ps[k], d) <==> Asked(d, ls[k])
    ensures !Asked(d, ls[k + 1])
  {
    var p := ps[k];
    PassingMembers(p.found, p.pass, |p.found|, d);
    HighestCovers(p.found, p.pass, |p.found|, ls[k]);
    if Asked(d, ls[k]) { assert d in p.found; }
  }

  lemma {:induction false} LastUnmoved(ls: seq<real>, ps: seq<Poll>, i: nat, j: nat)
    requires PollRun(ls, ps) && i <= j <= |ps| && forall k :: i <= k < j ==> !Ends(ps[k])
    ensures ls[j] == ls[i]
  {
    if i < j { LastUnmoved(ls, ps, i, j - 1); }
  }

  lemma {:induction false} FirstEnd(ps: seq<Poll>, i: nat, j: nat) returns (k: nat)
    requires i <= j <= |ps| && exists m :: i <= m < j && Ends(ps[m])
    ensures i <= k < j && Ends(ps[k]) && forall m :: i <= m < k ==> !Ends(ps[m])
    decreases j - i
  {
    if Ends(ps[i]) { k := i; } else { k := FirstEnd(ps, i + 1, j); }
  }

  /**
    Which versions polling misses: one that stands on the remote from poll `i` on, and
    passes, is delivered by the polls up to `j`, one of which ends, if and only if its
    timestamp was past the stored one at poll `i`. A write that reaches the remote late,
    stamped no later than something already delivered, is never polled.
   */
  lemma PolledExactly(ls: seq<real>, ps: seq<Poll>, i: nat, j: nat, d: Doc)
    requires PollRun(ls, ps) && i <= j <= |ps| && Stands(ps, i, j, d) && exists m :: i <= m < j && Ends(ps[m])
    ensures (exists k :: i <= k < j && Delivers(ps[k], d)) <==> Asked(d, ls[i])
  {
    if Asked(d, ls[i]) {
      var k := FirstEnd(ps, i, j);
      LastUnmoved(ls, ps, i, k);
      EndingPoll(ls, ps, k, d);
    } else {
      forall k | i <= k < j ensures !Delivers(ps[k], d) {
        TimestampsGrow(ls, ps, i, k);
        if Delivers(ps[k], d) { DeliveredWasAsked(ps[k], ls[k], d); }
      }
    }
  }

  /** Once a poll that ends has met the version, no later poll delivers it again. */
  lemma PolledOnce(ls: seq<real>, ps: seq<Poll>, k: nat, m: nat, d: Doc)
    requires PollRun(ls, ps) && k < m < |ps| && Ends(ps[k]) && d in ps[k].remote && ps[k].pass(d)
    ensures !Delivers(ps[m], d)
  {
    EndingPoll(ls, ps, k, d);
    TimestampsGrow(ls, ps, k + 1, m);
    if Delivers(ps[m], d) { DeliveredWasAsked(ps[m], ls[m], d); }
  }
}
