/**
  Writes that are sent or queued more than once: what the next push reads again after a
  push that ended early, was refused, or found the remote away.
 */
module Resending {
  import opened Oplog
  import opened Push
  import opened SyncRuns

  datatype State = State(db: Store, past: Past)

  /** One push and how it went. */
  datatype Try = Try(job: Job, answers: Remote, outcome: Outcome, pass: Pass)

  ghost predicate Tries(c: Config, s: State, t: Try, s': State) {
    && Sound(c, s.db, s.past) && Sound(c, s'.db, s'.past)
    && t.job == Pending(c, t.job.f, t.job.local, t.job.now, s.db)
    && PassResult(t.job, t.answers, s.db, s.past, t.outcome, s'.db, s'.past, t.pass)
  }

  /** The next push reads the row. */
  predicate ReadNext(s: State, r: Row) {
    r in Visible(s.db.rows, s.db.checkpoint, true)
  }

  lemma SuffixKeepsLater(appended: seq<Row>, n: nat, key: int, r: Row)
    requires Ordered(appended) && n < |appended| && appended[n].key <= key < r.key && r in appended
    ensures r in appended[n..]
  {
    var i :| 0 <= i < |appended| && appended[i] == r;
    assert i >= n;
    assert appended[n..][i - n] == r;
  }

  lemma SeenInLog(c: Config, s: State, t: Try, s': State, r: Row)
    requires Tries(c, s, t, s') && r in t.job.seen
    ensures r in s.db.rows && Shown(r, s.db.checkpoint, true) && r in s'.past.appended
  {
    VisibleMembers(s.db.rows, s.db.checkpoint, true);
  }

  /** A row is read again by the next push exactly when it lies past the new checkpoint. */
  lemma ReadAgainExactly(c: Config, s: State, t: Try, s': State, r: Row)
    requires Tries(c, s, t, s') && r in t.job.seen
    ensures ReadNext(s', r) <==> After(r.key, s'.db.checkpoint)
  {
    SeenInLog(c, s, t, s', r);
    VisibleMembers(s'.db.rows, s'.db.checkpoint, true);
    if After(r.key, s'.db.checkpoint) && s'.db.rows != s.db.rows {
      SuffixKeepsLater(s'.past.appended, s'.past.dropped, s'.db.checkpoint.value, r);
    }
  }

  /**
    Against a remote whose errors each name a row: a write it acknowledged is sent again
    if and only if the push ended with an exception; and what a completed push leaves to
    be sent again it has also queued, so it may be delivered twice.
   */
  lemma SentAgainExactly(c: Config, s: State, t: Try, s': State, r: Row)
    requires Tries(c, s, t, s') && Straight(t.answers)
    requires r in t.job.seen && Pushed(r.entry) && !Excluded(t.job.f, t.job.local, r.entry)
    ensures Sent(t.pass.log, r) ==> (ReadNext(s', r) <==> t.outcome.Raised?)
    ensures t.outcome.Done? && ReadNext(s', r) ==> Queued(s'.db.dlq, s.db.nextDlqKey, r)
  {
    SeenInLog(c, s, t, s', r);
    ReadAgainExactly(c, s, t, s', r);
  }

  // ---------- a remote that is away ----------

  function Letters(q: Dlq, r: Row): set<nat> {
    set id | id in q && q[id].row == r
  }

  lemma NewLetter(c: Config, q: Dlq, n: nat, appended: seq<Row>, q': Dlq, r: Row)
    requires QueueOk(c, q, n, appended) && Queued(q', n, r)
    requires forall id :: id in q ==> id in q' && q'[id] == q[id]
    ensures |Letters(q', r)| >= |Letters(q, r)| + 1
  {
    var id :| id in q' && n <= id && q'[id].row == r;
    assert Letters(q, r) + {id} <= Letters(q', r) && id !in Letters(q, r);
    SubsetCount(Letters(q, r) + {id}, Letters(q', r));
  }

  lemma {:induction false} SubsetCount(a: set<nat>, b: set<nat>)
    requires a <= b
    ensures |a| <= |b|
  {
    if a != {} {
      var x :| x in a;
      SubsetCount(a - {x}, b - {x});
    }
  }

  /** The remote is away or refuses every write by name, and nothing ends the push early or is held back. */
  ghost predicate Away(t: Try) {
    Absent(t.answers) && Straight(t.answers) && !AnyRaises(t.job) && !AnyExcluded(t.job)
  }

  /** A push meanwhile completes, sends nothing, queues every pending write once more, and leaves it pending. */
  lemma AwayQueuesAgain(c: Config, s: State, t: Try, s': State, r: Row)
    requires Tries(c, s, t, s') && Away(t) && r in t.job.seen && Pushed(r.entry)
    ensures t.outcome.Done? && !Sent(t.pass.log, r) && ReadNext(s', r)
    ensures |Letters(s'.db.dlq, r)| >= |Letters(s.db.dlq, r)| + 1
  {
    SeenInLog(c, s, t, s', r);
    assert !Erratic(t.answers);
    assert !Excluded(t.job.f, t.job.local, r.entry);
    ReadAgainExactly(c, s, t, s', r);
    assert AckCovered(t.job.seen, t.pass, s'.db.checkpoint);
    assert Queued(t.pass.q, t.pass.d, r);
    NewLetter(c, s.db.dlq, s.db.nextDlqKey, s.past.appended, s'.db.dlq, r);
  }

  ghost predicate AwayTry(c: Config, s: State, t: Try, s': State) {
    Tries(c, s, t, s') && Away(t)
  }

  lemma AwayStep(c: Config, s: State, t: Try, s': State, r: Row)
    requires AwayTry(c, s, t, s') && ReadNext(s, r) && Pushed(r.entry)
    ensures ReadNext(s', r) && |Letters(s'.db.dlq, r)| >= |Letters(s.db.dlq, r)| + 1
  {
    AwayQueuesAgain(c, s, t, s', r);
  }

  /** The first `n` pushes all find the remote away. */
  ghost predicate AwayRun(c: Config, ss: seq<State>, ts: seq<Try>, n: nat)
    requires |ss| == |ts| + 1 && n <= |ts|
  {
    n > 0 ==> AwayRun(c, ss, ts, n - 1) && AwayTry(c, ss[n - 1], ts[n - 1], ss[n])
  }

  /** After `n` pushes in a row while the remote is away, a pending write has at least `n` letters in the queue. */
  lemma {:induction false} LettersPileUp(c: Config, ss: seq<State>, ts: seq<Try>, n: nat, r: Row)
    requires |ss| == |ts| + 1 && n <= |ts| && AwayRun(c, ss, ts, n) && ReadNext(ss[0], r) && Pushed(r.entry)
    ensures ReadNext(ss[n], r) && |Letters(ss[n].db.dlq, r)| >= |Letters(ss[0].db.dlq, r)| + n
  {
    if n > 0 {
      LettersPileUp(c, ss, ts, n - 1, r);
      AwayStep(c, ss[n - 1], ts[n - 1], ss[n], r);
    }
  }
}
