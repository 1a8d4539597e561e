/**
  The dead-letter queue: due rows are retried in one bulk write; accepted rows
  leave, failed ones are rescheduled with exponential backoff until their retries
  run out.
 */
module DeadLetters {
  import opened Common
  import opened Oplog
  import opened Push

  /** What a sweep does to the `i`-th due row. */
  predicate Judged(c: Config, q: Dlq, q': Dlq, id: nat, i: nat, a: Answer, later: real)
    requires id in q
  {
    if Accepts(a, i) then id !in q' else id in q' && q'[id] == Bump(c, q[id], later)
  }

  ghost predicate Reached(ids: seq<nat>, n: nat, id: nat)
    requires n <= |ids|
  {
    exists k :: 0 <= k < n && ids[k] == id
  }

  /** The first `n` due rows are judged; every other row is untouched and none is new. */
  ghost predicate SweptTo(c: Config, q: Dlq, q': Dlq, ids: seq<nat>, n: nat, a: Answer, later: real) {
    && n <= |ids| && (forall i :: 0 <= i < |ids| ==> ids[i] in q)
    && (forall i :: 0 <= i < n ==> Judged(c, q, q', ids[i], i, a, later))
    && (forall id :: id in q && !Reached(ids, n, id) ==> id in q' && q'[id] == q[id])
    && (forall id :: id in q' ==> id in q)
  }

  function RowsOf(q: Dlq, ids: seq<nat>): (rows: seq<Row>)
    requires forall i :: 0 <= i < |ids| ==> ids[i] in q
    ensures |rows| == |ids| && forall i :: 0 <= i < |ids| ==> rows[i] == q[ids[i]].row
  {
    seq(|ids|, i requires 0 <= i < |ids| => q[ids[i]].row)
  }

  /** One due row: removed when its write went through, otherwise rescheduled or given up. */
  function Judge(c: Config, q: Dlq, id: nat, i: nat, a: Answer, now: real): Dlq
    requires id in q
  {
    if Accepts(a, i) then q - {id} else q[id := Bump(c, q[id], now)]
  }

  lemma JudgeSweeps(c: Config, q0: Dlq, q: Dlq, ids: seq<nat>, i: nat, a: Answer, now: real)
    requires i < |ids| && SweptTo(c, q0, q, ids, i, a, now)
    requires Increasing(ids)
    ensures ids[i] in q && SweptTo(c, q0, Judge(c, q, ids[i], i, a, now), ids, i + 1, a, now)
  {
    var id := ids[i];
    assert !Reached(ids, i, id);
    var q' := Judge(c, q, id, i, a, now);
    forall k | 0 <= k < i + 1 ensures Judged(c, q0, q', ids[k], k, a, now) {
      if k < i { assert Judged(c, q0, q, ids[k], k, a, now); }
    }
    forall x | x in q0 && !Reached(ids, i + 1, x) ensures x in q' && q'[x] == q0[x] {
      assert x != id by { assert ids[i] == id; }
      assert !Reached(ids, i, x);
    }
  }

  lemma SweepKeepsQueue(c: Config, db: Store, past: Past, q': Dlq, ids: seq<nat>, a: Answer, now: real)
    requires QueueOk(c, db.dlq, db.nextDlqKey, past.appended) && ids == Due(db.dlq, db.nextDlqKey, now)
    requires SweptTo(c, db.dlq, q', ids, |ids|, a, now)
    ensures QueueOk(c, q', db.nextDlqKey, past.appended)
  {
    DueMembers(db.dlq, db.nextDlqKey, now);
    forall id | id in q' ensures id < db.nextDlqKey && q'[id].row in past.appended && RetryOk(c, q'[id]) {
      assert id in db.dlq && RetryOk(c, db.dlq[id]);
      if Reached(ids, |ids|, id) {
        var i :| 0 <= i < |ids| && ids[i] == id;
        assert Judged(c, db.dlq, q', id, i, a, now) && Eligible(db.dlq[id], now);
      }
    }
  }

  /** A queued row that leaves has been acknowledged. */
  lemma SweepKeepsRow(c: Config, q: Dlq, q': Dlq, ids: seq<nat>, a: Answer, now: real, id: nat)
    requires SweptTo(c, q, q', ids, |ids|, a, now) && id in q
    requires forall i :: 0 <= i < |ids| ==> OpFor(q[ids[i]].row.entry).Some?
    ensures (id in q' && q'[id].row == q[id].row) || Sent(Acknowledged(RowsOf(q, ids), a, |ids|), q[id].row)
  {
    if Reached(ids, |ids|, id) {
      var i :| 0 <= i < |ids| && ids[i] == id;
      assert Judged(c, q, q', ids[i], i, a, now);
      if Accepts(a, i) {
        assert RowsOf(q, ids)[i] == q[id].row;
        AcknowledgedExactly(RowsOf(q, ids), a, |ids|, q[id].row);
      }
    }
  }

  lemma SweepKeepsAccount(c: Config, db: Store, past: Past, q': Dlq, ids: seq<nat>, a: Answer, now: real)
    requires SweptTo(c, db.dlq, q', ids, |ids|, a, now)
    requires forall i :: 0 <= i < |ids| ==> OpFor(db.dlq[ids[i]].row.entry).Some?
    requires Accounted(past.appended, db.checkpoint, past.delivered, db.dlq, past.excluded)
    ensures Accounted(past.appended, db.checkpoint,
                      past.delivered + Acknowledged(RowsOf(db.dlq, ids), a, |ids|), q', past.excluded)
  {
    var log := Acknowledged(RowsOf(db.dlq, ids), a, |ids|);
    forall r | Settled(r, past.delivered, db.dlq, past.excluded) ensures Settled(r, past.delivered + log, q', past.excluded) {
      if Queued(db.dlq, 0, r) {
        var id :| id in db.dlq && 0 <= id && db.dlq[id].row == r;
        SweepKeepsRow(c, db.dlq, q', ids, a, now, id);
      }
    }
  }

  lemma DueRowsHaveOps(q: Dlq, n: nat, now: real)
    ensures var ids := Due(q, n, now); forall i :: 0 <= i < |ids| ==> ids[i] in q && OpFor(q[ids[i]].row.entry).Some?
  {
    DueMembers(q, n, now);
  }

  lemma SweepIsSound(c: Config, db: Store, past: Past, q': Dlq, ids: seq<nat>, a: Answer, now: real)
    returns (log: seq<Delivery>)
    requires Sound(c, db, past) && ids == Due(db.dlq, db.nextDlqKey, now) && SweptTo(c, db.dlq, q', ids, |ids|, a, now)
    requires forall i :: 0 <= i < |ids| ==> OpFor(db.dlq[ids[i]].row.entry).Some?
    ensures log == Acknowledged(RowsOf(db.dlq, ids), a, |ids|)
    ensures Sound(c, db.(dlq := q'), past.(delivered := past.delivered + log))
  {
    log := Acknowledged(RowsOf(db.dlq, ids), a, |ids|);
    SweepKeepsQueue(c, db, past, q', ids, a, now);
    SweepKeepsAccount(c, db, past, q', ids, a, now);
    SoundWith(c, db, past, q', past.delivered + log);
  }

  /** The sweep makes a call, and the call raises. */
  predicate SweepRaises(a: Answer, now: real, db: Store) {
    a.Raises? && Due(db.dlq, db.nextDlqKey, now) != []
  }

  /** Every due row was judged by the answer, and the acknowledged ones recorded; a raise changes nothing. */
  ghost predicate SweepResult(c: Config, a: Answer, now: real, db: Store, past: Past, db': Store, past': Past) {
    if SweepRaises(a, now, db) then db' == db && past' == past
    else
      var ids := Due(db.dlq, db.nextDlqKey, now);
      && db' == db.(dlq := db'.dlq) && SweptTo(c, db.dlq, db'.dlq, ids, |ids|, a, now)
      && (forall i :: 0 <= i < |ids| ==> OpFor(db.dlq[ids[i]].row.entry).Some?)
      && past' == past.(delivered := past.delivered + Acknowledged(RowsOf(db.dlq, ids), a, |ids|))
  }

  /** One sweep of one namespace's rows: every due row judged by the remote's answer, no other touched. */
  method SweepDlq(c: Config, answer: Answer, now: real, db: Store, ghost past: Past)
    returns (raised: bool, db': Store, ghost past': Past)
    requires Sound(c, db, past)
    ensures raised <==> SweepRaises(answer, now, db)
    ensures Sound(c, db', past') && SweepResult(c, answer, now, db, past, db', past')
    ensures db' == db.(dlq := db'.dlq) && (raised ==> db'.dlq == db.dlq)
    ensures !raised ==>
      SweptTo(c, db.dlq, db'.dlq, Due(db.dlq, db.nextDlqKey, now), |Due(db.dlq, db.nextDlqKey, now)|, answer, now)
  {
    var ids := ScanDue(db.dlq, db.nextDlqKey, now);
    DueRowsHaveOps(db.dlq, db.nextDlqKey, now);
    raised, db', past' := false, db, past;
    if ids == [] {
      assert past.delivered + [] == past.delivered;
      return;
    }
    if answer.Raises? {
      raised := true;
      return;
    }
    DueMembers(db.dlq, db.nextDlqKey, now);
    var q := JudgeAll(c, db.dlq, ids, answer, now);
    ghost var log := SweepIsSound(c, db, past, q, ids, answer, now);
    db', past' := db.(dlq := q), past.(delivered := past.delivered + log);
  }

  method ScanDue(q: Dlq, nextKey: nat, now: real) returns (ids: seq<nat>)
    ensures ids == Due(q, nextKey, now)
  {
    ids := [];
    for n := 0 to nextKey
      invariant ids == Due(q, n, now)
    {
      assert Due(q, n + 1, now) == if n in q && Eligible(q[n], now) then Due(q, n, now) + [n] else Due(q, n, now);
      if n in q && Eligible(q[n], now) { ids := ids + [n]; }
    }
  }

  method JudgeAll(c: Config, q: Dlq, ids: seq<nat>, answer: Answer, now: real) returns (q': Dlq)
    requires (forall i :: 0 <= i < |ids| ==> ids[i] in q) && Increasing(ids)
    ensures SweptTo(c, q, q', ids, |ids|, answer, now)
  {
    q' := q;
    for i := 0 to |ids|
      invariant SweptTo(c, q, q', ids, i, answer, now)
    {
      JudgeSweeps(c, q, q', ids, i, answer, now);
      q' := Judge(c, q', ids[i], i, answer, now);
    }
  }

  // ---------- bounded retries ----------

  lemma {:induction false} Pow2Grows(n: nat, m: nat)
    requires n <= m
    ensures 0.0 < Pow2(n) <= Pow2(m)
  {
    if n < m {
      Pow2Grows(n, m - 1);
    } else if n > 0 {
      Pow2Grows(n - 1, m - 1);
    }
  }

  /** The delay starts at twice the base and doubles with every refusal until the cap. */
  lemma DelayDoubles(c: Config, n: nat)
    requires c.Valid() && c.backoffMax >= 0.0
    ensures Delay(c, 1) == if 2.0 * c.backoffBase <= c.backoffMax then 2.0 * c.backoffBase else c.backoffMax
    ensures Delay(c, n + 1) == if 2.0 * Delay(c, n) <= c.backoffMax then 2.0 * Delay(c, n) else c.backoffMax
  {
    assert Pow2(1) == 2.0 * Pow2(0) == 2.0;
    assert Pow2(n + 1) == 2.0 * Pow2(n);
    assert c.backoffBase * Pow2(n + 1) == 2.0 * (c.backoffBase * Pow2(n));
  }

  /** Rescheduled delays never shrink and never exceed the cap. */
  lemma BackoffGrowsToCap(c: Config, n: nat, m: nat)
    requires c.Valid() && n <= m
    ensures Delay(c, n) <= Delay(c, m) <= c.backoffMax
  {
    Pow2Grows(n, m);
    assert c.backoffBase * Pow2(n) <= c.backoffBase * Pow2(m);
  }

  // ---------- runs of sweeps ----------

  /** The queue and the next key it will hand out. */
  datatype Queue = Queue(rows: Dlq, next: nat)

  /** What happens to the queue: a sweep, answered by the remote, or new rows from a push. */
  datatype QueueEvent = Sweep(answer: Answer, now: real) | Enqueue

  ghost predicate QueueStep(c: Config, q: Queue, e: QueueEvent, q': Queue) {
    match e
    case Sweep(a, now) =>
      var ids := Due(q.rows, q.next, now);
      q'.next == q.next && if a.Raises? && ids != [] then q' == q else SweptTo(c, q.rows, q'.rows, ids, |ids|, a, now)
    case Enqueue =>
      && q.next <= q'.next
      && (forall id :: id in q.rows ==> id in q'.rows && q'.rows[id] == q.rows[id])
      && (forall id :: id in q'.rows && id !in q.rows ==> q.next <= id)
  }

  ghost predicate QueueRun(c: Config, qs: seq<Queue>, es: seq<QueueEvent>) {
    |qs| == |es| + 1 && forall k :: 0 <= k < |es| ==> QueueStep(c, qs[k], es[k], qs[k + 1])
  }

  /** In this sweep the row was due, and its write was accepted or refused as `accepted` says. */
  ghost predicate Tried(q: Queue, e: QueueEvent, id: nat, accepted: bool) {
    && e.Sweep? && !e.answer.Raises?
    && var ids := Due(q.rows, q.next, e.now);
       exists i :: 0 <= i < |ids| && ids[i] == id && Accepts(e.answer, i) == accepted
  }

  /** A sweep tries exactly the rows whose time has come, that are not given up on and that make a write. */
  lemma TriedExactly(q: Queue, e: QueueEvent, id: nat)
    requires e.Sweep? && !e.answer.Raises?
    ensures Tried(q, e, id, true) || Tried(q, e, id, false) <==>
            && id in q.rows && id < q.next && q.rows[id].nextRetry <= e.now && !q.rows[id].permanentlyFailed
            && var entry := q.rows[id].row.entry;
               OpFor(entry).Some? && (entry.op == Delete || entry.payload != Some(map[]))
  {
    DueMembers(q.rows, q.next, e.now);
    var ids := Due(q.rows, q.next, e.now);
    if id in ids {
      var i :| 0 <= i < |ids| && ids[i] == id;
      assert Accepts(e.answer, i) == true || Accepts(e.answer, i) == false;
    }
  }

  /** A row is retried in vain, leaves because its write was accepted, or stays as it is. */
  lemma RowFate(c: Config, q: Queue, e: QueueEvent, q': Queue, id: nat)
    requires QueueStep(c, q, e, q') && id in q.rows
    ensures !(Tried(q, e, id, true) && Tried(q, e, id, false))
    ensures Tried(q, e, id, false) ==> id in q'.rows && q'.rows[id] == Bump(c, q.rows[id], e.now)
    ensures Tried(q, e, id, true) ==> id !in q'.rows
    ensures !Tried(q, e, id, true) && !Tried(q, e, id, false) ==> id in q'.rows && q'.rows[id] == q.rows[id]
    ensures Tried(q, e, id, true) || Tried(q, e, id, false) ==> Eligible(q.rows[id], e.now) && id < q.next
  {
    if e.Sweep? {
      var ids := Due(q.rows, q.next, e.now);
      DueMembers(q.rows, q.next, e.now);
      if Reached(ids, |ids|, id) && !e.answer.Raises? {
        var i :| 0 <= i < |ids| && ids[i] == id;
        assert Judged(c, q.rows, q'.rows, ids[i], i, e.answer, e.now);
        assert forall j :: 0 <= j < |ids| && ids[j] == id ==> j == i;
        assert Tried(q, e, id, Accepts(e.answer, i));
      }
    }
  }

  /** How often the row was tried and refused. */
  ghost function Refusals(qs: seq<Queue>, es: seq<QueueEvent>, id: nat): nat
    requires |qs| == |es| + 1
  {
    if es == [] then 0
    else
      var n := |es| - 1;
      Refusals(qs[..n + 1], es[..n], id) + if Tried(qs[n], es[n], id, false) then 1 else 0
  }

  lemma RunPrefix(c: Config, qs: seq<Queue>, es: seq<QueueEvent>)
    requires QueueRun(c, qs, es) && es != []
    ensures QueueRun(c, qs[..|es|], es[..|es| - 1])
  {
    var n := |es| - 1;
    assert forall k :: 0 <= k < n ==> es[..n][k] == es[k];
    assert forall k :: 0 <= k <= n ==> qs[..n + 1][k] == qs[k];
  }

  /**
    Over every run of sweeps and pushes: a row is gone if and only if its write was
    accepted in some sweep; while it is there, its count has grown by exactly the number
    of refusals and stays within the limit.
   */
  lemma {:induction false} RetriesExactly(c: Config, qs: seq<Queue>, es: seq<QueueEvent>, id: nat)
    requires c.Valid() && QueueRun(c, qs, es) && id in qs[0].rows && id < qs[0].next && RetryOk(c, qs[0].rows[id])
    ensures var first, last := qs[0].rows[id], qs[|es|].rows;
            && qs[0].next <= qs[|es|].next
            && (id !in last <==> exists k :: 0 <= k < |es| && Tried(qs[k], es[k], id, true))
            && (id in last ==>
                  && last[id].row == first.row && RetryOk(c, last[id])
                  && last[id].retryCount == first.retryCount + Refusals(qs, es, id))
  {
    if es != [] {
      var n := |es| - 1;
      RunPrefix(c, qs, es);
      RetriesExactly(c, qs[..n + 1], es[..n], id);
      assert forall k :: 0 <= k < n ==> qs[..n + 1][k] == qs[k] && es[..n][k] == es[k];
      if id in qs[n].rows {
        RowFate(c, qs[n], es[n], qs[n + 1], id);
      } else {
        StaysGone(c, qs[n], es[n], qs[n + 1], id);
      }
    }
  }

  lemma StaysGone(c: Config, q: Queue, e: QueueEvent, q': Queue, id: nat)
    requires QueueStep(c, q, e, q') && id !in q.rows && id < q.next
    ensures id !in q'.rows && q.next <= q'.next && !Tried(q, e, id, true)
  {
    if e.Sweep? { DueMembers(q.rows, q.next, e.now); }
  }

  /** A refusal counts one attempt and, below the limit, sets the next date by the backoff of the new count. */
  lemma RefusalReschedules(c: Config, q: Queue, e: QueueEvent, q': Queue, id: nat)
    requires QueueStep(c, q, e, q') && id in q.rows && Tried(q, e, id, false)
    ensures id in q'.rows && q'.rows[id].retryCount == q.rows[id].retryCount + 1
    ensures var d := q'.rows[id];
            if d.retryCount >= c.maxRetries then d.permanentlyFailed
            else d.nextRetry == e.now + Delay(c, d.retryCount) && !d.permanentlyFailed
  {
    RowFate(c, q, e, q', id);
  }

  /** A row given up on is never tried again, and never changes or leaves. */
  lemma {:induction false} GivenUpStays(c: Config, qs: seq<Queue>, es: seq<QueueEvent>, id: nat)
    requires QueueRun(c, qs, es) && id in qs[0].rows && qs[0].rows[id].permanentlyFailed
    ensures id in qs[|es|].rows && qs[|es|].rows[id] == qs[0].rows[id]
    ensures forall k :: 0 <= k < |es| ==> !Tried(qs[k], es[k], id, true) && !Tried(qs[k], es[k], id, false)
  {
    if es != [] {
      var n := |es| - 1;
      RunPrefix(c, qs, es);
      GivenUpStays(c, qs[..n + 1], es[..n], id);
      assert forall k :: 0 <= k < n ==> qs[..n + 1][k] == qs[k] && es[..n][k] == es[k];
      RowFate(c, qs[n], es[n], qs[n + 1], id);
    }
  }

  /** The modelled sweep and push are such steps. */
  lemma SweepIsQueueStep(c: Config, a: Answer, now: real, db: Store, past: Past, db': Store, past': Past)
    requires SweepResult(c, a, now, db, past, db', past')
    ensures QueueStep(c, Queue(db.dlq, db.nextDlqKey), Sweep(a, now), Queue(db'.dlq, db'.nextDlqKey))
  {
  }

  lemma PushIsQueueStep(c: Config, job: Job, answers: Remote, db: Store, past: Past, o: Outcome, db': Store,
                        past': Past, p: Pass)
    requires PassResult(job, answers, db, past, o, db', past', p)
    ensures QueueStep(c, Queue(db.dlq, db.nextDlqKey), Enqueue, Queue(db'.dlq, db'.nextDlqKey))
  {
  }
}
