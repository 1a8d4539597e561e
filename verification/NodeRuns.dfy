/**
  A whole node over whole runs: local writes, log capping, push cycles, remote deletes
  from the stream, deliveries by stream, snapshot or poll, delete detection and tombstone
  expiry, in any order and against any remote. One store, one set of tombstones.
 */
module NodeRuns {
  import opened Common
  import opened Oplog
  import opened Tombstones
  import opened Push
  import opened DeadLetters
  import opened SyncRuns
  import opened RemoteDeletes
  import VectorClocks
  import Transform
  import Pull

  /** One string form of ids serves the whole node. */
  datatype Setup = Setup(config: Config, context: Pull.Context, ttl: real) {
    function Key(id: Value): string {
      config.text(id)
    }

    /** The fixed part of the context with the histories of push at the time of a delivery. */
    function Context(h: Histories): Pull.Context {
      context.(text := config.text, specs := h.specs, changed := h.changed)
    }
  }

  /** The pending updates and change records that push keeps for pull. */
  datatype Histories = Histories(specs: map<Value, Transform.Spec>, changed: map<Value, set<string>>)

  datatype Node = Node(db: Store, clock: int, docs: map<Value, Doc>, clocks: map<Value, VectorClocks.Counters>)

  datatype Event =
    | LocalWrite(entry: Entry, elapsed: nat, after: Option<Doc>)
    | CapLog(maxEntries: nat)
    | PushCycle(f: Filters, sweep: Answer, answers: Remote, now: real)
    | StreamDelete(id: Value, now: real)
    | Deliver(doc: Doc, changed: Option<set<string>>, histories: Histories)
    | Detect(size: nat, lookups: nat -> Option<set<Value>>)
    | Expiry(now: real)

  // ---------- what an event does to documents and tombstones ----------

  function Written(docs: map<Value, Doc>, id: Value, after: Option<Doc>): map<Value, Doc> {
    if after.Some? then docs[id := after.value] else docs - {id}
  }

  ghost predicate Listed(ids: seq<Value>, docs: map<Value, Doc>) {
    forall id :: id in ids <==> id in docs
  }

  /** Detection over the local ids in some order removed exactly `gone`. */
  ghost predicate Removes(u: Setup, s: Node, size: nat, lookups: nat -> Option<set<Value>>, ids: seq<Value>, gone: set<Value>) {
    && Listed(ids, s.docs)
    && if size == 0 then gone == {} else Detected(ids, size, lookups, u.config.text, s.db.tombstones.Keys, gone)
  }

  /** The push marked the deletes it sent before it ended. */
  ghost predicate MarkedUpTo(job: Job, m: Marks, m': Marks) {
    exists n :: 0 <= n <= |job.seen| && m' == MarksAfter(job, m, n)
  }

  ghost predicate NodeStep(u: Setup, s: Node, e: Event, s': Node) {
    match e
    case LocalWrite(entry, _, after) =>
      && s'.db.tombstones == s.db.tombstones && Pull.Stored(s'.docs, entry.docId) == after
      && forall id :: id != entry.docId ==> Pull.Stored(s'.docs, id) == Pull.Stored(s.docs, id)
    case CapLog(_) => s'.db.tombstones == s.db.tombstones && s'.docs == s.docs
    case PushCycle(f, _, _, now) =>
      s'.docs == s.docs && MarkedUpTo(Pending(u.config, f, s.docs, now, s.db), s.db.tombstones, s'.db.tombstones)
    case StreamDelete(id, now) =>
      s'.docs == s.docs - {id} && s'.db.tombstones == s.db.tombstones[u.Key(id) := now]
    case Deliver(r, changed, h) =>
      && s'.db.tombstones == s.db.tombstones
      && s'.docs == (if ID in r then Pull.Upserted(u.Context(h), s.docs, s.db.tombstones.Keys, r, changed) else s.docs)
    case Detect(size, lookups) =>
      && s'.db.tombstones == s.db.tombstones
      && exists ids, gone :: Removes(u, s, size, lookups, ids, gone) && s'.docs == s.docs - gone
    case Expiry(now) => s'.docs == s.docs && s'.db.tombstones == Unexpired(s.db.tombstones, now, u.ttl)
  }

  ghost predicate NodeRun(u: Setup, ss: seq<Node>, es: seq<Event>) {
    |ss| == |es| + 1 && forall k :: 0 <= k < |es| ==> NodeStep(u, ss[k], es[k], ss[k + 1])
  }

  // ---------- no resurrection ----------

  function TimeOf(e: Event): Option<real> {
    if e.PushCycle? || e.StreamDelete? || e.Expiry? then Some(e.now) else None
  }

  ghost predicate ClockOk(es: seq<Event>) {
    forall i, j :: 0 <= i < j < |es| && TimeOf(es[i]).Some? && TimeOf(es[j]).Some? ==>
      TimeOf(es[i]).value <= TimeOf(es[j]).value
  }

  lemma {:induction false} MarksLast(job: Job, m: Marks, n: nat, id: string, t: real)
    requires n <= |job.seen| && id in m && t <= m[id] && t <= job.now
    ensures id in MarksAfter(job, m, n) && t <= MarksAfter(job, m, n)[id]
  {
    if n > 0 { MarksLast(job, m, n - 1, id, t); }
  }

  /** Every delete a push has sent stands marked at the time of the push. */
  lemma {:induction false} SentDeletesMarked(job: Job, m: Marks, n: nat, k: nat)
    requires k < n <= |job.seen|
    requires job.seen[k].entry.op.Delete? && !Excluded(job.f, job.local, job.seen[k].entry)
    ensures var id := job.c.text(job.seen[k].entry.docId); id in MarksAfter(job, m, n) && MarksAfter(job, m, n)[id] == job.now
  {
    if k < n - 1 { SentDeletesMarked(job, m, n - 1, k); }
  }

  ghost predicate MarkedSince(s: Node, key: string, t: real) {
    key in s.db.tombstones && t <= s.db.tombstones[key]
  }

  lemma StepKeepsMark(u: Setup, s: Node, e: Event, s': Node, key: string, t: real)
    requires NodeStep(u, s, e, s') && MarkedSince(s, key, t) && (TimeOf(e).Some? ==> t <= TimeOf(e).value)
    requires e.Expiry? ==> e.now <= t + u.ttl
    ensures MarkedSince(s', key, t)
  {
    if e.PushCycle? {
      var job := Pending(u.config, e.f, s.docs, e.now, s.db);
      var n :| 0 <= n <= |job.seen| && s'.db.tombstones == MarksAfter(job, s.db.tombstones, n);
      MarksLast(job, s.db.tombstones, n, key, t);
    }
  }

  predicate LateExpiry(u: Setup, e: Event, t: real) {
    e.Expiry? && e.now > t + u.ttl
  }

  /** A mark stands until an expiry later than its time plus the time to live. */
  lemma {:induction false} MarkStands(u: Setup, ss: seq<Node>, es: seq<Event>, i: nat, j: nat, key: string, t: real)
    requires NodeRun(u, ss, es) && i <= j <= |es| && MarkedSince(ss[i], key, t)
    requires forall k :: i <= k < j && TimeOf(es[k]).Some? ==> t <= TimeOf(es[k]).value
    requires forall k :: i <= k < j ==> !LateExpiry(u, es[k], t)
    ensures MarkedSince(ss[j], key, t)
  {
    if i < j {
      MarkStands(u, ss, es, i, j - 1, key, t);
      StepKeepsMark(u, ss[j - 1], es[j - 1], ss[j], key, t);
    }
  }

  predicate Pulls(e: Event) {
    e.Deliver? || e.Detect?
  }

  /** A pull step does not touch a marked id. */
  lemma PullSkipsMarked(u: Setup, s: Node, e: Event, s': Node, id: Value)
    requires NodeStep(u, s, e, s') && Pulls(e) && u.Key(id) in s.db.tombstones
    ensures Pull.Stored(s'.docs, id) == Pull.Stored(s.docs, id)
  {
    if e.Detect? {
      var ids, gone :| Removes(u, s, e.size, e.lookups, ids, gone) && s'.docs == s.docs - gone;
      assert id !in gone;
    }
  }

  /** Event `i` marks the id, at its own time. */
  ghost predicate Marks(u: Setup, ss: seq<Node>, es: seq<Event>, i: nat, id: Value)
    requires |ss| == |es| + 1 && i < |es|
  {
    var m := ss[i + 1].db.tombstones;
    TimeOf(es[i]).Some? && u.Key(id) in m && m[u.Key(id)] == TimeOf(es[i]).value
  }

  lemma LaterTimes(es: seq<Event>, i: nat, t: real)
    requires ClockOk(es) && i < |es| && TimeOf(es[i]) == Some(t)
    ensures forall k :: i < k < |es| && TimeOf(es[k]).Some? ==> t <= TimeOf(es[k]).value
  {
  }

  /**
    No resurrection, over every run with a non-decreasing clock: once an id is marked at
    time t, no pull step inserts, updates or removes it before an expiry later than t + ttl.
   */
  lemma NoResurrection(u: Setup, ss: seq<Node>, es: seq<Event>, i: nat, j: nat, id: Value)
    requires NodeRun(u, ss, es) && ClockOk(es) && i < j < |es| && Marks(u, ss, es, i, id)
    requires Pulls(es[j]) && Pull.Stored(ss[j + 1].docs, id) != Pull.Stored(ss[j].docs, id)
    ensures exists k :: i < k < j && LateExpiry(u, es[k], TimeOf(es[i]).value)
  {
    var t := TimeOf(es[i]).value;
    LaterTimes(es, i, t);
    if forall k :: i < k < j ==> !LateExpiry(u, es[k], t) {
      MarkStands(u, ss, es, i + 1, j, u.Key(id), t);
      PullSkipsMarked(u, ss[j], es[j], ss[j + 1], id);
    }
  }

  /** A document that was gone when its id was marked stays gone until such an expiry, unless written locally. */
  lemma {:induction false} DeletedStaysDeleted(u: Setup, ss: seq<Node>, es: seq<Event>, i: nat, j: nat, id: Value)
    requires NodeRun(u, ss, es) && ClockOk(es) && i < j <= |es| && Marks(u, ss, es, i, id) && id !in ss[i + 1].docs
    requires forall k :: i < k < j ==> !(es[k].LocalWrite? && es[k].entry.docId == id && es[k].after.Some?)
    requires forall k :: i < k < j ==> !LateExpiry(u, es[k], TimeOf(es[i]).value)
    ensures id !in ss[j].docs
  {
    if i + 1 < j {
      DeletedStaysDeleted(u, ss, es, i, j - 1, id);
      assert Pull.Stored(ss[j - 1].docs, id) == None;
      if Pulls(es[j - 1]) && id in ss[j].docs { NoResurrection(u, ss, es, i, j - 1, id); }
      assert es[j - 1].LocalWrite? ==> Pull.Stored(ss[j].docs, id) == None;
    }
  }

  /** The bound is exact: after such an expiry the next delivery brings the document back. */
  lemma ExpiryFrees(u: Setup, ss: seq<Node>, es: seq<Event>, id: Value, t: real, later: real, r: Doc, h: Histories)
    requires es == [StreamDelete(id, t), Expiry(later), Deliver(r, None, h)] && NodeRun(u, ss, es)
    requires later > t + u.ttl && ID in r && r[ID] == id
    ensures id !in ss[1].docs && id in ss[3].docs
  {
    assert NodeStep(u, ss[0], es[0], ss[1]) && NodeStep(u, ss[1], es[1], ss[2]) && NodeStep(u, ss[2], es[2], ss[3]);
    assert u.Key(id) !in ss[2].db.tombstones;
  }

  // ---------- detection and writes the remote never got ----------

  /**
    Detection against a remote that holds exactly `remote`: a local document survives if
    and only if the remote holds it or its id is tombstoned. One whose insert still waits
    in the dead-letter queue, or was excluded by a filter, is removed.
   */
  lemma DetectionKeepsExactly(u: Setup, s: Node, size: nat, lookups: nat -> Option<set<Value>>, remote: set<Value>,
                              s': Node, id: Value)
    requires size >= 1 && (forall b :: lookups(b) == Some(remote)) && NodeStep(u, s, Detect(size, lookups), s')
    ensures id in s'.docs <==> id in s.docs && (id in remote || u.Key(id) in s.db.tombstones)
  {
    var ids, gone :| Removes(u, s, size, lookups, ids, gone) && s'.docs == s.docs - gone;
    var bs := Batches(ids, size);
    BatchesCover(ids, size, id);
    assert id in s.docs && id !in remote ==> NeverFound(bs, lookups, |bs|, id);
    if id in s.docs && id in remote {
      var b :| 0 <= b < |bs| && id in bs[b];
      assert lookups(b) == Some(remote);
      assert !NeverFound(bs, lookups, |bs|, id);
    }
  }

  // ---------- the node ----------

  function Writes(e: Event): seq<Entry> {
    if e.LocalWrite? then [e.entry] else []
  }

  /** The entries a run writes locally. */
  function WrittenBy(es: seq<Event>): seq<Entry> {
    if es == [] then [] else WrittenBy(es[..|es| - 1]) + Writes(es[|es| - 1])
  }

  /** The event gives up on a row: a filter excludes it, or the log is capped before any checkpoint is stored. */
  ghost predicate GivesUp(s: Node, e: Event, s': Node, r: Row) {
    || (e.PushCycle? && Excluded(e.f, s.docs, r.entry))
    || (e.CapLog? && s.db.checkpoint.None? && r in s.db.rows && r !in s'.db.rows)
  }

  /** What one event keeps of the push side: order of the log, deliveries, checkpoint, and why rows are given up on. */
  ghost predicate KeepsAccount(s: Node, past: Past, e: Event, s': Node, past': Past) {
    && Ahead(s.db, past, s'.db, past') && s.clock <= s'.clock
    && EntriesOf(past'.appended) == EntriesOf(past.appended) + Writes(e)
    && forall r :: r in past'.excluded && r !in past.excluded ==> GivesUp(s, e, s', r)
  }

  lemma MarksApart(c: Config, db: Store, past: Past, clock: int, m: Marks)
    requires Current(c, db, past, clock)
    ensures Current(c, db.(tombstones := m), past, clock)
  {
  }

  method ListIds(docs: map<Value, Doc>) returns (ids: seq<Value>)
    ensures Listed(ids, docs)
  {
    ids := [];
    var todo := docs.Keys;
    while todo != {}
      invariant todo <= docs.Keys && forall id :: id in ids <==> id in docs && id !in todo
    {
      var id :| id in todo;
      ids, todo := ids + [id], todo - {id};
    }
  }

  method Remove(u: Setup, s: Node, size: nat, lookups: nat -> Option<set<Value>>)
    returns (s': Node, ghost ids: seq<Value>, ghost gone: set<Value>)
    ensures s' == s.(docs := s'.docs)
    ensures Removes(u, s, size, lookups, ids, gone) && s'.docs == s.docs - gone
  {
    var local := ListIds(s.docs);
    var deleted: set<Value> := {};
    if size >= 1 { deleted := DetectRemoteDeletes(local, size, lookups, u.config.text, s.db.tombstones.Keys); }
    s' := s.(docs := s.docs - deleted);
    ids, gone := local, deleted;
  }

  lemma DroppedRowsAreGone(rows: seq<Row>, n: nat, r: Row)
    requires Ordered(rows) && n <= |rows| && r in Oldest(rows, n)
    ensures r in rows && r !in rows[n..]
  {
  }

  method Cap(u: Setup, s: Node, maxEntries: nat, ghost past: Past) returns (s': Node, ghost past': Past)
    requires Current(u.config, s.db, past, s.clock)
    ensures s' == s.(db := s.db.(rows := s'.db.rows)) && |s'.db.rows| <= maxEntries
    ensures Current(u.config, s'.db, past', s'.clock) && KeepsAccount(s, past, CapLog(maxEntries), s', past')
  {
    var kept, removed := TruncateCount(s.db.rows, maxEntries);
    TruncationIsSound(u.config, s.db, past, s.clock, removed);
    s', past' := s.(db := s.db.(rows := kept)), Truncated(s.db, past, removed);
    assert EntriesOf(past.appended) + [] == EntriesOf(past.appended);
    forall r | r in past'.excluded && r !in past.excluded ensures GivesUp(s, CapLog(maxEntries), s', r) {
      DroppedRowsAreGone(s.db.rows, removed, r);
    }
  }

  lemma CycleMarks(u: Setup, s: Node, e: Event, mid: Store, between: Past, o: Option<Outcome>, db': Store, past': Past,
                   p: Pass)
    requires e.PushCycle? && mid.tombstones == s.db.tombstones
    requires var job := Pending(u.config, e.f, s.docs, e.now, s.db);
             if o == Some(Done) || o == Some(Raised)
             then PassResult(job, e.answers, mid, between, o.value, db', past', p)
             else db' == mid && past' == between
    ensures MarkedUpTo(Pending(u.config, e.f, s.docs, e.now, s.db), s.db.tombstones, db'.tombstones)
    ensures forall r :: r in past'.excluded && r !in between.excluded ==> Excluded(e.f, s.docs, r.entry)
  {
    var job := Pending(u.config, e.f, s.docs, e.now, s.db);
    if !(o == Some(Done) || o == Some(Raised)) { assert db'.tombstones == MarksAfter(job, s.db.tombstones, 0); }
  }

  lemma SweepKeeps(c: Config, a: Answer, now: real, db: Store, past: Past, mid: Store, between: Past)
    requires SweepResult(c, a, now, db, past, mid, between)
    ensures mid.tombstones == db.tombstones && between.excluded == past.excluded
  {
  }

  lemma CycleKeepsAccount(s: Node, past: Past, e: Event, s': Node, past': Past)
    requires e.PushCycle? && Forward(s.db, past, s'.db, past') && s'.clock == s.clock
    requires forall r :: r in past'.excluded && r !in past.excluded ==> Excluded(e.f, s.docs, r.entry)
    ensures KeepsAccount(s, past, e, s', past')
  {
    assert EntriesOf(past.appended) + [] == EntriesOf(past.appended);
  }

  method PushOnce(u: Setup, s: Node, e: Event, ghost past: Past) returns (s': Node, ghost past': Past)
    requires e.PushCycle? && Current(u.config, s.db, past, s.clock)
    ensures Current(u.config, s'.db, past', s'.clock) && NodeStep(u, s, e, s') && KeepsAccount(s, past, e, s', past')
  {
    var outcome, db';
    ghost var mid, between, p;
    outcome, db', mid, between, past', p := Cycle(u.config, e.f, s.docs, e.sweep, e.answers, e.now, s.db, past);
    CycleIsCurrent(u.config, s.db, past, s.clock, db', past');
    SweepKeeps(u.config, e.sweep, e.now, s.db, past, mid, between);
    CycleMarks(u, s, e, mid, between, outcome, db', past', p);
    s' := s.(db := db');
    CycleKeepsAccount(s, past, e, s', past');
  }

  /** An event that leaves the log, the queue and the checkpoint alone keeps the account. */
  lemma IdleKeepsAccount(u: Setup, s: Node, past: Past, e: Event, s': Node)
    requires Current(u.config, s.db, past, s.clock) && !e.LocalWrite?
    requires s'.db == s.db.(tombstones := s'.db.tombstones) && s'.clock == s.clock
    ensures Current(u.config, s'.db, past, s'.clock) && KeepsAccount(s, past, e, s', past)
  {
    MarksApart(u.config, s.db, past, s.clock, s'.db.tombstones);
    assert EntriesOf(past.appended) + [] == EntriesOf(past.appended);
  }

  lemma WriteKeepsAccount(s: Node, past: Past, e: Event, row: Row, s': Node)
    requires e.LocalWrite? && row.entry == e.entry && s'.db == Logged(s.db, row) && s.clock <= s'.clock
    ensures KeepsAccount(s, past, e, s', Noted(past, row))
  {
    EntriesSnoc(past.appended, row);
  }

  method Write(u: Setup, s: Node, e: Event, ghost past: Past) returns (s': Node, ghost past': Past)
    requires e.LocalWrite? && Current(u.config, s.db, past, s.clock)
    ensures Current(u.config, s'.db, past', s'.clock) && NodeStep(u, s, e, s') && KeepsAccount(s, past, e, s', past')
  {
    var row := Row(s.clock + 1 + e.elapsed, e.entry);
    WriteIsSound(u.config, s.db, past, s.clock, row);
    s' := s.(db := Logged(s.db, row), clock := row.key, docs := Written(s.docs, e.entry.docId, e.after));
    past' := Noted(past, row);
    WriteKeepsAccount(s, past, e, row, s');
    WriteSteps(u, s, e, s');
  }

  lemma WriteSteps(u: Setup, s: Node, e: Event, s': Node)
    requires e.LocalWrite? && s'.db.tombstones == s.db.tombstones && s'.docs == Written(s.docs, e.entry.docId, e.after)
    ensures NodeStep(u, s, e, s')
  {
  }

  /** The events of the pull side. */
  method PullOnce(u: Setup, s: Node, e: Event) returns (s': Node)
    requires e.StreamDelete? || e.Deliver? || e.Detect? || e.Expiry?
    ensures NodeStep(u, s, e, s') && s'.db == s.db.(tombstones := s'.db.tombstones) && s'.clock == s.clock
  {
    s' := s;
    match e
    case StreamDelete(id, now) =>
      s' := s.(docs := s.docs - {id}, db := s.db.(tombstones := s.db.tombstones[u.Key(id) := now]));
    case Deliver(r, changed, h) =>
      if ID in r {
        var raised, docs, clocks := Pull.UpsertRemoteDoc(u.Context(h), s.docs, s.clocks, s.db.tombstones, r, changed);
        s' := s.(docs := docs, clocks := clocks);
      }
    case Detect(size, lookups) =>
      ghost var ids, gone;
      s', ids, gone := Remove(u, s, size, lookups);
    case Expiry(now) =>
      var kept, _ := Expire(s.db.tombstones, now, u.ttl);
      s' := s.(db := s.db.(tombstones := kept));
  }

  /** One event, by the methods that carry it out. */
  method Handle(u: Setup, s: Node, ghost past: Past, e: Event) returns (s': Node, ghost past': Past)
    requires Current(u.config, s.db, past, s.clock)
    ensures Current(u.config, s'.db, past', s'.clock)
    ensures NodeStep(u, s, e, s') && KeepsAccount(s, past, e, s', past')
  {
    if e.LocalWrite? {
      s', past' := Write(u, s, e, past);
    } else if e.CapLog? {
      s', past' := Cap(u, s, e.maxEntries, past);
    } else if e.PushCycle? {
      s', past' := PushOnce(u, s, e, past);
    } else {
      s' := PullOnce(u, s, e);
      past' := past;
      IdleKeepsAccount(u, s, past, e, s');
    }
  }

  // ---------- whole runs ----------

  /** A run of the node together with its account: every step is one event, and nothing is taken back. */
  ghost predicate RunSoFar(u: Setup, past: Past, past': Past, ss: seq<Node>, es: seq<Event>) {
    && NodeRun(u, ss, es) && Ahead(ss[0].db, past, ss[|es|].db, past')
    && EntriesOf(past'.appended) == EntriesOf(past.appended) + WrittenBy(es)
    && Explained(past, past', ss, es)
  }

  /** Every row given up on since was given up on at some event. */
  ghost predicate Explained(past: Past, past': Past, ss: seq<Node>, es: seq<Event>)
    requires |ss| == |es| + 1
  {
    forall r :: r in past'.excluded && r !in past.excluded ==> exists k :: 0 <= k < |es| && GivesUp(ss[k], es[k], ss[k + 1], r)
  }

  lemma ExplainedExtends(p0: Past, p: Past, p': Past, ss: seq<Node>, es: seq<Event>, e: Event, s': Node)
    requires |ss| == |es| + 1 && Explained(p0, p, ss, es)
    requires forall r :: r in p'.excluded && r !in p.excluded ==> GivesUp(ss[|es|], e, s', r)
    ensures Explained(p0, p', ss + [s'], es + [e])
  {
    var ss', es' := ss + [s'], es + [e];
    forall r | r in p'.excluded && r !in p0.excluded
      ensures exists k :: 0 <= k < |es'| && GivesUp(ss'[k], es'[k], ss'[k + 1], r)
    {
      if r in p.excluded {
        var k :| 0 <= k < |es| && GivesUp(ss[k], es[k], ss[k + 1], r);
        assert ss'[k] == ss[k] && es'[k] == es[k] && ss'[k + 1] == ss[k + 1];
      } else {
        assert ss'[|es|] == ss[|es|] && es'[|es|] == e && ss'[|es| + 1] == s';
      }
    }
  }

  lemma StepsExtend(u: Setup, ss: seq<Node>, es: seq<Event>, e: Event, s': Node)
    requires NodeRun(u, ss, es) && NodeStep(u, ss[|es|], e, s')
    ensures NodeRun(u, ss + [s'], es + [e])
  {
    var ss', es' := ss + [s'], es + [e];
    forall k | 0 <= k < |es'| ensures NodeStep(u, ss'[k], es'[k], ss'[k + 1]) {
      if k < |es| { assert ss'[k] == ss[k] && es'[k] == es[k] && ss'[k + 1] == ss[k + 1]; }
    }
  }

  lemma WritesExtend(p0: Past, p: Past, p': Past, es: seq<Event>, e: Event)
    requires EntriesOf(p.appended) == EntriesOf(p0.appended) + WrittenBy(es)
    requires EntriesOf(p'.appended) == EntriesOf(p.appended) + Writes(e)
    ensures EntriesOf(p'.appended) == EntriesOf(p0.appended) + WrittenBy(es + [e])
  {
    assert (es + [e])[..|es|] == es;
    Regroup(EntriesOf(p0.appended), WrittenBy(es), Writes(e));
  }

  lemma RunExtends(u: Setup, p0: Past, p: Past, p': Past, ss: seq<Node>, es: seq<Event>, e: Event, s': Node)
    requires RunSoFar(u, p0, p, ss, es) && NodeStep(u, ss[|es|], e, s') && KeepsAccount(ss[|es|], p, e, s', p')
    ensures RunSoFar(u, p0, p', ss + [s'], es + [e])
  {
    StepsExtend(u, ss, es, e, s');
    WritesExtend(p0, p, p', es, e);
    AheadChains(ss[0].db, p0, ss[|es|].db, p, s'.db, p');
    ExplainedExtends(p0, p, p', ss, es, e, s');
  }

  class SyncManager {
    const setup: Setup
    var node: Node
    ghost var past: Past

    constructor (setup: Setup)
      requires setup.config.Valid()
      ensures Valid() && this.setup == setup && past == Past([], 0, [], {})
      ensures node == Node(Store([], None, map[], 0, map[]), 0, map[], map[])
    {
      this.setup, past := setup, Past([], 0, [], {});
      node := Node(Store([], None, map[], 0, map[]), 0, map[], map[]);
    }

    ghost predicate Valid()
      reads this
    {
      Current(setup.config, node.db, past, node.clock)
    }

    /**
      Push loses nothing, over every run: of each non-internal write at or before the
      checkpoint, the remote acknowledged a write that carries its entry, or it is in the
      dead-letter queue, or was given up on at a known event. The states passed through form
      a run of the node, so every result about such runs holds of it.
     */
    method Run(events: seq<Event>) returns (ghost ss: seq<Node>)
      requires Valid()
      modifies this
      ensures Valid()
      ensures node.db.checkpoint.Some? ==>
        forall r :: r in past.appended && Pushed(r.entry) && !r.entry.internal && r.key <= node.db.checkpoint.value ==>
          Arrived(past.delivered, r) || Queued(node.db.dlq, 0, r) || r in past.excluded
      ensures RunSoFar(setup, old(past), past, ss, events) && ss[0] == old(node) && ss[|events|] == node
    {
      ss := [node];
      assert EntriesOf(past.appended) + [] == EntriesOf(past.appended);
      for i := 0 to |events|
        invariant Valid() && |ss| == i + 1 && ss[0] == old(node) && ss[i] == node
        invariant RunSoFar(setup, old(past), past, ss, events[..i])
      {
        assert events[..i] + [events[i]] == events[..i + 1];
        var s';
        ghost var past';
        s', past' := Handle(setup, node, past, events[i]);
        RunExtends(setup, old(past), past, past', ss, events[..i], events[i], s');
        node, past, ss := s', past', ss + [s'];
      }
      assert events[..|events|] == events;
      forall r | Settled(r, past.delivered, node.db.dlq, past.excluded)
        ensures Arrived(past.delivered, r) || Queued(node.db.dlq, 0, r) || r in past.excluded
      {
        if Sent(past.delivered, r) { SentHasArrived(past.delivered, r); }
      }
    }
  }
}
