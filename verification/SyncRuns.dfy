/**
  One push cycle and the other events of the push side: local writes and log capping.
 */
module SyncRuns {
  import opened Common
  import opened Oplog
  import opened Push
  import opened DeadLetters

  lemma LaterKeyKeepsOrder(rows: seq<Row>, r: Row)
    requires Ordered(rows) && (rows != [] ==> rows[|rows| - 1].key < r.key)
    ensures Ordered(rows + [r])
  {
    forall i | 0 <= i < |rows| ensures rows[i].key < r.key {
      assert i < |rows| - 1 ==> rows[i].key < rows[|rows| - 1].key;
    }
  }

  lemma LaterKeyKeepsAccount(c: Config, db: Store, past: Past, r: Row)
    requires Accounted(past.appended, db.checkpoint, past.delivered, db.dlq, past.excluded)
    requires db.checkpoint.Some? ==> db.checkpoint.value < r.key
    ensures Accounted(past.appended + [r], db.checkpoint, past.delivered, db.dlq, past.excluded)
  {
  }

  /** A sound store whose keys are behind the clock. */
  ghost predicate Current(c: Config, db: Store, past: Past, clock: int) {
    Sound(c, db, past) && (past.appended != [] ==> past.appended[|past.appended| - 1].key <= clock)
  }

  function Logged(db: Store, r: Row): Store {
    db.(rows := db.rows + [r])
  }

  ghost function Noted(past: Past, r: Row): Past {
    past.(appended := past.appended + [r])
  }

  lemma WriteIsSound(c: Config, db: Store, past: Past, clock: int, r: Row)
    requires Current(c, db, past, clock) && clock < r.key
    ensures Current(c, Logged(db, r), Noted(past, r), r.key)
  {
    LaterKeyKeepsOrder(past.appended, r);
    LaterKeyKeepsAccount(c, db, past, r);
    LongerLogKeepsQueue(c, db.dlq, db.nextDlqKey, past.appended, r);
    AppendToSuffix(past.appended, past.dropped, r);
  }

  lemma LongerLogKeepsQueue(c: Config, q: Dlq, n: nat, appended: seq<Row>, r: Row)
    requires QueueOk(c, q, n, appended)
    ensures QueueOk(c, q, n, appended + [r])
  {
  }

  lemma AppendToSuffix(appended: seq<Row>, dropped: nat, r: Row)
    requires dropped <= |appended|
    ensures (appended + [r])[dropped..] == appended[dropped..] + [r]
    ensures (appended + [r])[|appended|] == r && (appended != [] ==> (appended + [r])[|appended| - 1] == appended[|appended| - 1])
  {
  }

  /** One push cycle: sweep the dead-letter queue, then push the log; an exception in the sweep ends it. */
  method Cycle(c: Config, f: Filters, local: map<Value, Doc>, sweep: Answer, answers: Remote, now: real,
               db: Store, ghost past: Past)
    returns (outcome: Option<Outcome>, db': Store, ghost mid: Store, ghost pastMid: Past, ghost past': Past, ghost p: Pass)
    requires Sound(c, db, past)
    ensures Sound(c, db', past')
    ensures outcome.None? <==> SweepRaises(sweep, now, db)
    ensures outcome.None? ==> db' == db
    ensures outcome == Some(Overflow) <==> outcome.Some? && Overflows(db)
    ensures outcome == Some(Overflow) <==> outcome.Some? && LogOf(past).Overflowed(db.checkpoint)
    ensures outcome == Some(Nothing) <==>
              outcome.Some? && outcome != Some(Overflow) && Visible(db.rows, db.checkpoint, true) == []
    ensures SweepResult(c, sweep, now, db, past, mid, pastMid)
    ensures if outcome == Some(Done) || outcome == Some(Raised)
            then PassResult(Pending(c, f, local, now, db), answers, mid, pastMid, outcome.value, db', past', p)
            else db' == mid && past' == pastMid
    ensures Forward(db, past, db', past') && Drains(Pending(c, f, local, now, db), answers, outcome, db', past')
  {
    mid, pastMid, p := db, past, Pass([], db.dlq, db.nextDlqKey, past.excluded);
    var raised;
    raised, db', past' := SweepDlq(c, sweep, now, db, past);
    mid, pastMid := db', past';
    outcome := None;
    if !raised {
      var o;
      o, db', past', p := PushNamespace(c, f, local, answers, now, db', past');
      outcome := Some(o);
    }
    CycleMovesForward(c, f, local, sweep, answers, now, db, past, outcome, mid, pastMid, db', past', p);
  }

  /**
    After a completed push that moved the checkpoint, with compaction on, and any local
    writes since, the next push does not report overflow: the checkpoint's own row is the
    oldest one left.
   */
  lemma QuietAfterCompaction(c: Config, job: Job, answers: Remote, db: Store, past: Past, db': Store, past': Past, p: Pass,
                             writes: seq<Row>, next: Store, since: Past)
    requires PassResult(job, answers, db, past, Done, db', past', p) && db'.checkpoint != db.checkpoint && job.c.autoCompact
    requires next == db'.(rows := db'.rows + writes) && since == past'.(appended := past'.appended + writes)
    requires Sound(c, next, since)
    ensures !LogOf(since).Overflowed(next.checkpoint) && !Overflows(next)
  {
    assert next.rows[0] == db'.rows[0];
    OverflowsExactly(c, next, since);
  }

  /** The rows a push from this store would read. */
  function Pending(c: Config, f: Filters, local: map<Value, Doc>, now: real, db: Store): Job {
    Job(c, Visible(db.rows, db.checkpoint, true), f, local, now)
  }

  /** A cycle writes nothing to the log and takes nothing back. */
  ghost predicate Forward(db: Store, past: Past, db': Store, past': Past) {
    past'.appended == past.appended && Ahead(db, past, db', past')
  }

  lemma PassMovesForward(job: Job, answers: Remote, db: Store, past: Past, o: Outcome, db': Store,
                         past': Past, p: Pass)
    requires PassResult(job, answers, db, past, o, db', past', p)
    ensures Forward(db, past, db', past')
  {
  }

  lemma SweepMovesForward(c: Config, a: Answer, now: real, db: Store, past: Past, db': Store, past': Past)
    requires SweepResult(c, a, now, db, past, db', past')
    ensures Forward(db, past, db', past') && db'.rows == db.rows && db'.checkpoint == db.checkpoint
  {
  }

  /** A remote that accepts everything has every pending write, and the checkpoint covers it. */
  lemma AcceptingRemoteDrains(job: Job, answers: Remote, db: Store, past: Past, o: Outcome, db': Store,
                              past': Past, p: Pass)
    requires PassResult(job, answers, db, past, o, db', past', p)
    requires !AnyRaises(job) && Obliging(answers)
    ensures o.Done? && Drained(job, db', past')
  {
    forall r | r in job.seen && Pushed(r.entry) ensures Sent(past'.delivered, r) || r in past'.excluded {
      if !Excluded(job.f, job.local, r.entry) { assert Sent(p.log, r); }
    }
  }

  /** If the push ran, met no entry that raises, and the remote accepts everything, nothing is left pending. */
  ghost predicate Drains(job: Job, answers: Remote, o: Option<Outcome>, db: Store, past: Past) {
    (o == Some(Done) || o == Some(Raised)) && !AnyRaises(job) && Obliging(answers) ==>
      o == Some(Done) && Drained(job, db, past)
  }

  lemma CycleIsCurrent(c: Config, db: Store, past: Past, clock: int, db': Store, past': Past)
    requires Current(c, db, past, clock) && Sound(c, db', past') && Forward(db, past, db', past')
    ensures Current(c, db', past', clock)
  {
  }

  lemma CycleMovesForward(c: Config, f: Filters, local: map<Value, Doc>, sweep: Answer, answers: Remote,
                          now: real,
                          db: Store, past: Past, o: Option<Outcome>, mid: Store, pastMid: Past, db': Store, past': Past, p: Pass)
    requires SweepResult(c, sweep, now, db, past, mid, pastMid)
    requires if o == Some(Done) || o == Some(Raised)
             then PassResult(Pending(c, f, local, now, db), answers, mid, pastMid, o.value, db', past', p)
             else db' == mid && past' == pastMid
    ensures Forward(db, past, db', past') && Drains(Pending(c, f, local, now, db), answers, o, db', past')
  {
    SweepMovesForward(c, sweep, now, db, past, mid, pastMid);
    if o == Some(Done) || o == Some(Raised) {
      var job := Pending(c, f, local, now, db);
      PassMovesForward(job, answers, mid, pastMid, o.value, db', past', p);
      if !AnyRaises(job) && Obliging(answers) {
        AcceptingRemoteDrains(job, answers, mid, pastMid, o.value, db', past', p);
      }
    }
  }

  /** Every pending write was acknowledged or excluded, and lies at or before the checkpoint. */
  ghost predicate Drained(job: Job, db: Store, past: Past) {
    forall r :: r in job.seen && Pushed(r.entry) ==>
      (Sent(past.delivered, r) || r in past.excluded) && db.checkpoint.Some? && r.key <= db.checkpoint.value
  }

  /** The oldest `n` rows. */
  function Oldest(rows: seq<Row>, n: nat): set<Row>
    requires n <= |rows|
  {
    set k | 0 <= k < n :: rows[k]
  }

  /** Rows dropped before any checkpoint is stored are given up on: no later push can tell. */
  ghost function Truncated(db: Store, past: Past, n: nat): Past
    requires n <= |db.rows|
  {
    past.(dropped := past.dropped + n,
          excluded := if db.checkpoint.Some? then past.excluded else past.excluded + Oldest(db.rows, n))
  }

  lemma WaivesOldest(appended: seq<Row>, dropped: nat, rows: seq<Row>, held: set<Row>, n: nat)
    requires dropped <= |appended| && rows == appended[dropped..] && n <= |rows| && Waived(appended, dropped, held)
    ensures Waived(appended, dropped + n, held + Oldest(rows, n))
  {
    forall k | 0 <= k < dropped + n ensures appended[k] in held + Oldest(rows, n) {
      if k >= dropped { assert rows[k - dropped] == appended[k]; }
    }
  }

  lemma DropIsSound(c: Config, db: Store, past: Past, n: nat, held: set<Row>)
    requires Sound(c, db, past) && n <= |db.rows| && past.excluded <= held
    requires db.checkpoint.None? ==> Waived(past.appended, past.dropped + n, held)
    ensures Sound(c, db.(rows := db.rows[n..]), past.(dropped := past.dropped + n, excluded := held))
  {
    DropTwice(past.appended, past.dropped, n);
    AccountedWidens(past.appended, db.checkpoint, past.delivered, db.dlq, past.excluded, held);
  }

  lemma TruncationIsSound(c: Config, db: Store, past: Past, clock: int, n: nat)
    requires Current(c, db, past, clock) && n <= |db.rows|
    ensures Current(c, db.(rows := db.rows[n..]), Truncated(db, past, n), clock)
  {
    if db.checkpoint.None? { WaivesOldest(past.appended, past.dropped, db.rows, past.excluded, n); }
    DropIsSound(c, db, past, n, Truncated(db, past, n).excluded);
  }

  lemma AccountedWidens(appended: seq<Row>, checkpoint: Option<int>, delivered: seq<Delivery>, q: Dlq,
                        held: set<Row>, held': set<Row>)
    requires Accounted(appended, checkpoint, delivered, q, held) && held <= held'
    ensures Accounted(appended, checkpoint, delivered, q, held')
  {
  }

  /** Neither deliveries nor the checkpoint are ever taken back. */
  ghost predicate Ahead(db: Store, past: Past, db': Store, past': Past) {
    && past.delivered <= past'.delivered
    && (db.checkpoint.Some? ==> db'.checkpoint.Some? && db.checkpoint.value <= db'.checkpoint.value)
  }

  lemma AheadChains(a: Store, pa: Past, b: Store, pb: Past, c: Store, pc: Past)
    requires Ahead(a, pa, b, pb) && Ahead(b, pb, c, pc)
    ensures Ahead(a, pa, c, pc)
  {
  }

  /** The entries of the log, keys aside. */
  function EntriesOf(rows: seq<Row>): seq<Entry> {
    seq(|rows|, i requires 0 <= i < |rows| => rows[i].entry)
  }

  lemma EntriesSnoc(rows: seq<Row>, r: Row)
    ensures EntriesOf(rows + [r]) == EntriesOf(rows) + [r.entry]
  {
  }
}
