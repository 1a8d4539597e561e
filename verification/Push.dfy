/**
  Push: the oplog rows of one namespace go to an unreliable remote in batches;
  rejected writes go to the dead-letter queue; a checkpoint follows.  The remote's
  answers, the filters, the clock and the local documents are inputs.
 */
module Push {
  import opened Common
  import opened Oplog
  import opened Tombstones

  // ---------- writes ----------

  datatype WriteOp = InsertOne(doc: Doc) | UpdateOne(id: Value, spec: Doc) | DeleteOne(id: Value)

  predicate Pushed(e: Entry) {
    e.op.Insert? || e.op.Update? || e.op.Delete?
  }

  /** The write an entry becomes; `None` where building it raises, or for other operations. */
  function OpFor(e: Entry): Option<WriteOp> {
    match e.op
    case Insert =>
      if e.payload.None? then None else Some(InsertOne(e.payload.value[STAMP := Num(e.ts)]))
    case Update =>
      if e.payload.None? then None else
      var p := e.payload.value;
      if "$set" !in p then Some(UpdateOne(e.docId, p["$set" := Obj(map[STAMP := Num(e.ts)])]))
      else if p["$set"].Obj? then
        Some(UpdateOne(e.docId, p["$set" := Obj(p["$set"].fields[STAMP := Num(e.ts)])]))
      else None
    case Delete => Some(DeleteOne(e.docId))
    case _ => None
  }

  function FieldOf(d: Doc, f: string): Option<Value> {
    if f in d then Some(d[f]) else None
  }

  /** Every field of `b` is that of `a`, but for the one at `k`, which is `v`. */
  ghost predicate Differs(a: Doc, b: Doc, k: string, v: Value) {
    forall f :: FieldOf(b, f) == if f == k then Some(v) else FieldOf(a, f)
  }

  /**
    The write carries the entry: an insert its payload with the entry's time, an update
    every operator of its payload to its own id with the time added to `$set`, a delete
    its id.
   */
  ghost predicate Carries(op: WriteOp, e: Entry) {
    match e.op
    case Insert => op.InsertOne? && e.payload.Some? && Differs(e.payload.value, op.doc, STAMP, Num(e.ts))
    case Update =>
      && op.UpdateOne? && op.id == e.docId && e.payload.Some? && "$set" in op.spec && op.spec["$set"].Obj?
      && Differs(e.payload.value, op.spec, "$set", op.spec["$set"])
      && ("$set" in e.payload.value ==> e.payload.value["$set"].Obj?)
      && Differs(SetOf(e.payload.value), op.spec["$set"].fields, STAMP, Num(e.ts))
    case Delete => op.DeleteOne? && op.id == e.docId
    case _ => false
  }

  function SetOf(spec: Doc): Doc {
    if "$set" in spec && spec["$set"].Obj? then spec["$set"].fields else map[]
  }

  lemma OpCarriesEntry(e: Entry)
    requires OpFor(e).Some?
    ensures Carries(OpFor(e).value, e)
  {
  }

  /** The dead-letter queue does not rebuild an insert or update whose payload is empty. */
  function RetryOp(e: Entry): Option<WriteOp> {
    if !e.op.Delete? && e.payload == Some(map[]) then None else OpFor(e)
  }

  // ---------- the remote ----------

  /** A write error names the position of its write, or fails to. */
  datatype WriteError = WriteError(index: Option<nat>, code: int) {
    predicate Hits(n: nat) {
      index.Some? && index.value < n
    }
  }

  /** What `bulk_write` may do: accept all, reject some, fail as a whole, or raise something unforeseen. */
  datatype Answer = AllWritten | BulkError(errors: seq<WriteError>) | Unreachable | Raises

  /** The answer to the `k`-th batch of a push, of `n` writes. */
  type Remote = (nat, nat) -> Answer

  ghost predicate Obliging(answers: Remote) {
    forall k, n :: answers(k, n).AllWritten?
  }

  ghost predicate Erratic(answers: Remote) {
    exists k, n :: answers(k, n).Raises?
  }

  /** Every error names a write of its own. */
  ghost predicate Straight(answers: Remote) {
    forall k, n :: Candid(answers(k, n), n)
  }

  /** The remote takes nothing: it is away, or reports as many errors as writes. */
  predicate Refused(a: Answer, n: nat) {
    a.Unreachable? || (a.BulkError? && n <= |a.errors|)
  }

  ghost predicate Absent(answers: Remote) {
    forall k, n :: Refused(answers(k, n), n)
  }

  const SCHEMA_VALIDATION_ERROR := 121

  predicate Accepts(a: Answer, i: nat) {
    a.AllWritten? || (a.BulkError? && forall k :: 0 <= k < |a.errors| ==> a.errors[k].index != Some(i))
  }

  /** A write the remote acknowledged, and the row it came from. */
  datatype Delivery = Delivery(row: Row, op: WriteOp)

  /** A row as a delivered write. */
  function Ship(r: Row): seq<Delivery> {
    if OpFor(r.entry).Some? then [Delivery(r, OpFor(r.entry).value)] else []
  }

  /** The rows as delivered writes, in order. */
  function Shipped(rows: seq<Row>): seq<Delivery> {
    if rows == [] then [] else Shipped(rows[..|rows| - 1]) + Ship(rows[|rows| - 1])
  }

  ghost function Acknowledged(batch: seq<Row>, a: Answer, n: nat): seq<Delivery>
    requires n <= |batch|
  {
    if n == 0 then [] else Acknowledged(batch, a, n - 1) + if Accepts(a, n - 1) then Ship(batch[n - 1]) else []
  }

  ghost predicate Sent(log: seq<Delivery>, r: Row) {
    OpFor(r.entry).Some? && Delivery(r, OpFor(r.entry).value) in log
  }

  /** The remote acknowledged a write that carries the row's entry. */
  ghost predicate Arrived(log: seq<Delivery>, r: Row) {
    exists d :: d in log && d.row == r && Carries(d.op, r.entry)
  }

  lemma SentHasArrived(log: seq<Delivery>, r: Row)
    requires Sent(log, r)
    ensures Arrived(log, r)
  {
    OpCarriesEntry(r.entry);
  }

  lemma {:induction false} AcknowledgedExactly(batch: seq<Row>, a: Answer, n: nat, r: Row)
    requires n <= |batch| && forall i :: 0 <= i < n ==> OpFor(batch[i].entry).Some?
    ensures Sent(Acknowledged(batch, a, n), r) <==> exists i :: 0 <= i < n && batch[i] == r && Accepts(a, i)
  {
    if n > 0 { AcknowledgedExactly(batch, a, n - 1, r); }
  }

  // ---------- errors that name no row ----------

  /** The first `m` errors name writes of a batch of `n`, no two the same. */
  predicate NameRows(errors: seq<WriteError>, m: nat, n: nat)
    requires m <= |errors|
  {
    && (forall k :: 0 <= k < m ==> errors[k].Hits(n))
    && (forall j, k :: 0 <= j < k < m ==> errors[j].index != errors[k].index)
  }

  predicate Candid(a: Answer, n: nat) {
    a.BulkError? ==> NameRows(a.errors, |a.errors|, n)
  }

  /** The positions below `n` that the first `m` errors name. */
  function Named(errors: seq<WriteError>, m: nat, n: nat): set<nat>
    requires m <= |errors|
  {
    if m == 0 then {} else Named(errors, m - 1, n) + if errors[m - 1].Hits(n) then {errors[m - 1].index.value} else {}
  }

  lemma {:induction false} NamedMembers(errors: seq<WriteError>, m: nat, n: nat, i: nat)
    requires m <= |errors|
    ensures i in Named(errors, m, n) <==> i < n && exists k :: 0 <= k < m && errors[k].index == Some(i)
  {
    if m > 0 { NamedMembers(errors, m - 1, n, i); }
  }

  lemma NameRowsStep(errors: seq<WriteError>, m: nat, n: nat)
    requires 0 < m <= |errors|
    ensures var last := errors[m - 1];
            NameRows(errors, m, n) <==>
            NameRows(errors, m - 1, n) && last.Hits(n) && last.index.value !in Named(errors, m - 1, n)
  {
    var last := errors[m - 1];
    if last.Hits(n) { NamedMembers(errors, m - 1, n, last.index.value); }
  }

  lemma {:induction false} NamedCount(errors: seq<WriteError>, m: nat, n: nat)
    requires m <= |errors|
    ensures |Named(errors, m, n)| <= m
    ensures |Named(errors, m, n)| == m <==> NameRows(errors, m, n)
  {
    if m > 0 {
      NamedCount(errors, m - 1, n);
      NameRowsStep(errors, m, n);
    }
  }

  lemma NamedNext(errors: seq<WriteError>, n: nat)
    ensures n !in Named(errors, |errors|, n)
    ensures Named(errors, |errors|, n + 1) ==
            Named(errors, |errors|, n) + if Accepts(BulkError(errors), n) then {} else {n}
  {
    NamedMembers(errors, |errors|, n, n);
    forall i ensures i in Named(errors, |errors|, n + 1) <==>
                     i in Named(errors, |errors|, n) || (i == n && !Accepts(BulkError(errors), n))
    {
      NamedMembers(errors, |errors|, n + 1, i);
      NamedMembers(errors, |errors|, n, i);
    }
  }

  lemma {:induction false} NothingNamed(errors: seq<WriteError>, m: nat)
    requires m <= |errors|
    ensures Named(errors, m, 0) == {}
  {
    if m > 0 { NothingNamed(errors, m - 1); }
  }

  /** How many of the first `n` positions no error names. */
  function Unnamed(a: Answer, n: nat): nat {
    if n == 0 then 0 else Unnamed(a, n - 1) + if Accepts(a, n - 1) then 1 else 0
  }

  /** How many positions below `n` are named. */
  function NamedTotal(errors: seq<WriteError>, n: nat): nat {
    |Named(errors, |errors|, n)|
  }

  lemma NamedNextCount(errors: seq<WriteError>, n: nat)
    ensures NamedTotal(errors, n + 1) == NamedTotal(errors, n) + if Accepts(BulkError(errors), n) then 0 else 1
  {
    NamedNext(errors, n);
  }

  lemma {:induction false} UnnamedCount(errors: seq<WriteError>, n: nat)
    ensures Unnamed(BulkError(errors), n) == n - NamedTotal(errors, n)
    decreases n
  {
    if n == 0 {
      NothingNamed(errors, |errors|);
    } else {
      UnnamedCount(errors, n - 1);
      NamedNextCount(errors, n - 1);
    }
  }

  lemma {:induction false} AcknowledgedCount(batch: seq<Row>, a: Answer, n: nat)
    requires n <= |batch| && forall i :: 0 <= i < n ==> OpFor(batch[i].entry).Some?
    ensures |Acknowledged(batch, a, n)| == Unnamed(a, n)
  {
    if n > 0 { AcknowledgedCount(batch, a, n - 1); }
  }

  /**
    Push takes a write as acknowledged when no error names it. It takes as many as the
    batch less its errors if and only if every error names a row of its own; otherwise
    some write that failed is taken as acknowledged and reaches neither remote nor queue.
   */
  lemma TakenAsSentExactly(batch: seq<Row>, errors: seq<WriteError>)
    requires forall r :: r in batch ==> OpFor(r.entry).Some?
    ensures |Acknowledged(batch, BulkError(errors), |batch|)| >= |batch| - |errors|
    ensures |Acknowledged(batch, BulkError(errors), |batch|)| == |batch| - |errors| <==> Candid(BulkError(errors), |batch|)
  {
    AcknowledgedCount(batch, BulkError(errors), |batch|);
    UnnamedCount(errors, |batch|);
    NamedCount(errors, |errors|, |batch|);
  }

  // ---------- the dead-letter queue ----------

  datatype DlqRow = DlqRow(row: Row, retryCount: nat, nextRetry: real, permanentlyFailed: bool)

  type Dlq = map<nat, DlqRow>

  datatype Config = Config(batchSize: nat, autoCompact: bool, maxRetries: nat, backoffBase: real, backoffMax: real,
                           text: Value -> string) {
    predicate Valid() {
      batchSize >= 1 && maxRetries >= 1 && backoffBase >= 0.0
    }
  }

  function Pow2(n: nat): real {
    if n == 0 then 1.0 else 2.0 * Pow2(n - 1)
  }

  function Delay(c: Config, n: nat): real {
    if c.backoffBase * Pow2(n) <= c.backoffMax then c.backoffBase * Pow2(n) else c.backoffMax
  }

  /** A failed retry: one more attempt, then either the end or a later date. */
  function Bump(c: Config, d: DlqRow, now: real): DlqRow {
    var n := d.retryCount + 1;
    if n >= c.maxRetries then d.(retryCount := n, permanentlyFailed := true)
    else d.(retryCount := n, nextRetry := now + Delay(c, n))
  }

  predicate Eligible(d: DlqRow, now: real) {
    !d.permanentlyFailed && d.nextRetry <= now && RetryOp(d.row.entry).Some?
  }

  /** The keys a sweep retries, in key order. */
  function Due(q: Dlq, n: nat, now: real): seq<nat> {
    if n == 0 then []
    else if n - 1 in q && Eligible(q[n - 1], now) then Due(q, n - 1, now) + [n - 1]
    else Due(q, n - 1, now)
  }

  predicate Increasing(ids: seq<nat>) {
    forall i, j :: 0 <= i < j < |ids| ==> ids[i] < ids[j]
  }

  /** Exactly the eligible rows, in key order. */
  lemma {:induction false} DueMembers(q: Dlq, n: nat, now: real)
    ensures Increasing(Due(q, n, now))
    ensures forall i :: 0 <= i < |Due(q, n, now)| ==>
              Due(q, n, now)[i] < n && Due(q, n, now)[i] in q && Eligible(q[Due(q, n, now)[i]], now)
    ensures forall id :: 0 <= id < n && id in q && Eligible(q[id], now) ==> id in Due(q, n, now)
  {
    if n > 0 { DueMembers(q, n - 1, now); }
  }

  ghost predicate Queued(q: Dlq, from: int, r: Row) {
    exists id :: id in q && from <= id && q[id].row == r
  }

  /** From `q` to `q'` the queue gained rows for exactly `added`, all under keys from `d` on. */
  ghost predicate Gained(q: Dlq, d: nat, q': Dlq, added: set<Row>) {
    && (forall id :: id in q ==> id in q' && q'[id] == q[id])
    && (forall id :: id in q' && id !in q ==> d <= id)
    && (forall from: int, s :: from <= d ==> (Queued(q', from, s) <==> Queued(q, from, s) || s in added))
  }

  ghost function RejectedRows(batch: seq<Row>, a: Answer): set<Row> {
    if a.Raises? then {} else set i | 0 <= i < |batch| && !Accepts(a, i) :: batch[i]
  }

  /** Never more attempts than allowed, and fewer while another is still to come. */
  predicate RetryOk(c: Config, d: DlqRow) {
    d.retryCount <= c.maxRetries && (d.permanentlyFailed || d.retryCount < c.maxRetries)
  }

  // ---------- filters ----------

  /** A filter passes or rejects a document, or raises: caught and excluding, or escaping. */
  datatype Verdict = Passes | Reject | RaisesError | Escapes

  datatype Filters = Filters(namespace: Option<Doc -> Verdict>, rules: Option<Doc -> Verdict>)

  /** An update is judged by the current local document when there is one. */
  function FilterDoc(e: Entry, local: map<Value, Doc>): Doc
    requires e.payload.Some?
  {
    if e.op.Update? && e.docId in local && local[e.docId] != map[] then local[e.docId] else e.payload.value
  }

  /** The namespace filter first, then the sync rules. */
  function FilterVerdict(f: Filters, d: Doc): Verdict {
    if f.namespace.Some? && f.namespace.value(d) != Passes then f.namespace.value(d)
    else if f.rules.Some? then f.rules.value(d) else Passes
  }

  function VerdictOn(f: Filters, local: map<Value, Doc>, e: Entry): Verdict {
    if Pushed(e) && e.payload.Some? && e.payload.value != map[] then FilterVerdict(f, FilterDoc(e, local)) else Passes
  }

  predicate Excluded(f: Filters, local: map<Value, Doc>, e: Entry) {
    VerdictOn(f, local, e) == Reject || VerdictOn(f, local, e) == RaisesError
  }

  ghost predicate Bars(filter: Option<Doc -> Verdict>, d: Doc) {
    filter.Some? && (filter.value(d) == Reject || filter.value(d) == RaisesError)
  }

  ghost predicate Lets(filter: Option<Doc -> Verdict>, d: Doc) {
    filter.None? || filter.value(d) == Passes
  }

  /**
    Which writes the filters exclude: those whose document the namespace filter bars, or
    lets pass and the sync rules bar. The document is the payload, for an update the
    current local one where there is one; without a payload nothing is excluded.
   */
  lemma ExcludedExactly(f: Filters, local: map<Value, Doc>, e: Entry)
    ensures Excluded(f, local, e) <==>
            && (e.op == Insert || e.op == Update || e.op == Delete) && e.payload.Some? && e.payload.value != map[]
            && var current := e.op == Update && e.docId in local && local[e.docId] != map[];
               var d := if current then local[e.docId] else e.payload.value;
               Bars(f.namespace, d) || (Lets(f.namespace, d) && Bars(f.rules, d))
  {
  }

  // ---------- one pass over the visible rows ----------

  /** Where this pass stands: its acknowledged writes, its queue keys from `d` on, the rows held back. */
  datatype Pass = Pass(log: seq<Delivery>, q: Dlq, d: nat, held: set<Row>)

  /** A visited row is excluded, or pending and nowhere else, or acknowledged or queued but not both. */
  ghost predicate Fate(r: Row, pending: set<Row>, p: Pass, f: Filters, local: map<Value, Doc>) {
    Pushed(r.entry) ==>
      if Excluded(f, local, r.entry) then r in p.held && r !in pending
      else if r in pending then !Sent(p.log, r) && !Queued(p.q, p.d, r)
      else Sent(p.log, r) <==> !Queued(p.q, p.d, r)
  }

  ghost predicate Untouched(r: Row, pending: set<Row>, p: Pass) {
    r !in pending && !Sent(p.log, r) && !Queued(p.q, p.d, r)
  }

  ghost predicate PassState(seen: seq<Row>, i: nat, pending: set<Row>, p: Pass, f: Filters, local: map<Value, Doc>) {
    && i <= |seen|
    && (forall k :: 0 <= k < i ==> Fate(seen[k], pending, p, f, local))
    && (forall k :: i <= k < |seen| ==> Untouched(seen[k], pending, p))
  }

  /** The batch being collected: visible writes that can be built, each once. */
  ghost predicate Batch(ops: seq<Row>, pending: set<Row>, seen: seq<Row>) {
    && pending == (set r | r in ops)
    && (forall r :: r in ops ==> r in seen && OpFor(r.entry).Some?)
    && (forall a, b :: 0 <= a < b < |ops| ==> ops[a] != ops[b])
  }

  /** Nothing of this pass is queued. */
  ghost predicate Clean(seen: seq<Row>, p: Pass) {
    forall k :: 0 <= k < |seen| ==> !Queued(p.q, p.d, seen[k])
  }

  ghost predicate PushedBefore(seen: seq<Row>, i: nat, mark: nat)
    requires i <= |seen|
  {
    forall k :: 0 <= k < i && Pushed(seen[k].entry) ==> k < mark
  }

  lemma PassHolds(seen: seq<Row>, i: nat, pending: set<Row>, p: Pass, f: Filters, local: map<Value, Doc>)
    requires PassState(seen, i, pending, p, f, local) && i < |seen|
    requires Excluded(f, local, seen[i].entry)
    ensures PassState(seen, i + 1, pending, p.(held := p.held + {seen[i]}), f, local)
  {
    var p' := p.(held := p.held + {seen[i]});
    forall k | 0 <= k < i ensures Fate(seen[k], pending, p', f, local) { assert Fate(seen[k], pending, p, f, local); }
    forall k | i <= k < |seen| ensures Untouched(seen[k], pending, p') { assert Untouched(seen[k], pending, p); }
  }

  lemma PassTakes(seen: seq<Row>, i: nat, pending: set<Row>, p: Pass, f: Filters, local: map<Value, Doc>)
    requires PassState(seen, i, pending, p, f, local) && i < |seen| && Ordered(seen)
    requires Pushed(seen[i].entry) && !Excluded(f, local, seen[i].entry)
    ensures PassState(seen, i + 1, pending + {seen[i]}, p, f, local)
  {
    var pending' := pending + {seen[i]};
    assert Untouched(seen[i], pending, p);
    forall k | 0 <= k < i ensures Fate(seen[k], pending', p, f, local) {
      assert Fate(seen[k], pending, p, f, local) && seen[k].key < seen[i].key;
    }
    forall k | i < k < |seen| ensures Untouched(seen[k], pending', p) {
      assert Untouched(seen[k], pending, p) && seen[i].key < seen[k].key;
    }
  }

  lemma PassFlushes(seen: seq<Row>, i: nat, ops: seq<Row>, pending: set<Row>, p: Pass, f: Filters,
                    local: map<Value, Doc>, a: Answer, d': nat, q': Dlq)
    requires PassState(seen, i, pending, p, f, local) && Batch(ops, pending, seen) && !a.Raises?
    requires p.d <= d' && Gained(p.q, d', q', RejectedRows(ops, a))
    ensures PassState(seen, i, {}, p.(log := p.log + Acknowledged(ops, a, |ops|), q := q'), f, local)
  {
    var p' := p.(log := p.log + Acknowledged(ops, a, |ops|), q := q');
    forall k | 0 <= k < i ensures Fate(seen[k], {}, p', f, local) {
      assert Fate(seen[k], pending, p, f, local);
      FlushedRow(ops, seen[k], p, a, d', q');
    }
    forall k | i <= k < |seen| ensures Untouched(seen[k], {}, p') {
      assert Untouched(seen[k], pending, p);
      FlushedRow(ops, seen[k], p, a, d', q');
    }
  }

  /** A flush settles the rows of its batch, each one way, and touches no other. */
  lemma FlushedRow(ops: seq<Row>, r: Row, p: Pass, a: Answer, d': nat, q': Dlq)
    requires (forall s :: s in ops ==> OpFor(s.entry).Some?) && !a.Raises?
    requires forall i, j :: 0 <= i < j < |ops| ==> ops[i] != ops[j]
    requires p.d <= d' && Gained(p.q, d', q', RejectedRows(ops, a))
    ensures var log' := p.log + Acknowledged(ops, a, |ops|);
            if r !in ops then (Sent(log', r) <==> Sent(p.log, r)) && (Queued(q', p.d, r) <==> Queued(p.q, p.d, r))
            else !Sent(p.log, r) && !Queued(p.q, p.d, r) ==> (Sent(log', r) <==> !Queued(q', p.d, r))
  {
    AcknowledgedExactly(ops, a, |ops|, r);
    assert Queued(q', p.d, r) <==> Queued(p.q, p.d, r) || r in RejectedRows(ops, a);
    if r in ops {
      var j :| 0 <= j < |ops| && ops[j] == r;
      assert forall k :: 0 <= k < |ops| && ops[k] == r ==> k == j;
    }
  }

  /** The loop variables of the pass, and their ghosts: the pending rows and how many rows `safeKey` covers. */
  datatype Walk = Walk(i: nat, ops: seq<Row>, safeKey: Option<int>, pending: set<Row>, mark: nat)

  /** `safeKey` is below every pending write; `allOk` says the remote accepts everything. */
  ghost predicate WalkOk(seen: seq<Row>, w: Walk, p: Pass, allOk: bool, f: Filters, local: map<Value, Doc>) {
    && PassState(seen, w.i, w.pending, p, f, local)
    && Batch(w.ops, w.pending, seen)
    && w.mark <= w.i && w.safeKey == (if w.mark == 0 then None else Some(seen[w.mark - 1].key))
    && (forall k :: 0 <= k < w.mark ==> seen[k] !in w.pending)
    && (allOk ==> Clean(seen, p) && (w.ops == [] ==> PushedBefore(seen, w.i, w.mark)))
  }

  lemma WalkHolds(seen: seq<Row>, w: Walk, p: Pass, allOk: bool, f: Filters, local: map<Value, Doc>)
    returns (w': Walk, p': Pass)
    requires WalkOk(seen, w, p, allOk, f, local) && w.i < |seen| && Excluded(f, local, seen[w.i].entry)
    ensures WalkOk(seen, w', p', allOk, f, local) && p' == p.(held := p.held + {seen[w.i]})
    ensures w' == Walk(w.i + 1, w.ops, if w.ops == [] then Some(seen[w.i].key) else w.safeKey, w.pending, w'.mark)
    ensures w'.mark == if w.ops == [] then w.i + 1 else w.mark
  {
    p' := p.(held := p.held + {seen[w.i]});
    w' := if w.ops == [] then w.(i := w.i + 1, safeKey := Some(seen[w.i].key), mark := w.i + 1) else w.(i := w.i + 1);
    PassHolds(seen, w.i, w.pending, p, f, local);
  }

  lemma WalkTakes(seen: seq<Row>, w: Walk, p: Pass, allOk: bool, f: Filters, local: map<Value, Doc>) returns (w': Walk)
    requires WalkOk(seen, w, p, allOk, f, local) && w.i < |seen| && Ordered(seen)
    requires !Excluded(f, local, seen[w.i].entry) && (Pushed(seen[w.i].entry) ==> OpFor(seen[w.i].entry).Some?)
    ensures WalkOk(seen, w', p, allOk, f, local)
    ensures w' == Walk(w.i + 1, if Pushed(seen[w.i].entry) then w.ops + [seen[w.i]] else w.ops, w.safeKey, w'.pending, w.mark)
  {
    var r := seen[w.i];
    w' := if Pushed(r.entry) then Walk(w.i + 1, w.ops + [r], w.safeKey, w.pending + {r}, w.mark) else w.(i := w.i + 1);
    assert Untouched(r, w.pending, p);
    if Pushed(r.entry) {
      PassTakes(seen, w.i, w.pending, p, f, local);
      assert forall k :: 0 <= k < |w.ops| ==> w.ops[k] in w.pending;
      forall k | 0 <= k < w.mark ensures seen[k] !in w.pending + {r} { assert seen[k].key < r.key; }
    }
  }

  // ---------- what a pass achieves ----------

  /** A pushed row is acknowledged, queued, or was excluded by a filter. */
  ghost predicate Settled(r: Row, delivered: seq<Delivery>, q: Dlq, held: set<Row>) {
    Sent(delivered, r) || Queued(q, 0, r) || r in held
  }

  /** Nothing at or before the checkpoint is lost. */
  ghost predicate Accounted(appended: seq<Row>, checkpoint: Option<int>, delivered: seq<Delivery>, q: Dlq,
                            held: set<Row>) {
    checkpoint.Some? ==>
      forall r :: r in appended && Pushed(r.entry) && !r.entry.internal && r.key <= checkpoint.value ==>
        Settled(r, delivered, q, held)
  }

  /** Of the rows read: each excluded, or acknowledged or queued but not both. */
  ghost predicate FatesMet(seen: seq<Row>, p: Pass, f: Filters, local: map<Value, Doc>) {
    forall r :: r in seen && Pushed(r.entry) ==>
      if Excluded(f, local, r.entry) then r in p.held else Sent(p.log, r) <==> !Queued(p.q, p.d, r)
  }

  ghost predicate Covered(seen: seq<Row>, p: Pass, checkpoint: Option<int>) {
    forall r :: r in seen && Pushed(r.entry) ==> !Queued(p.q, p.d, r) && checkpoint.Some? && r.key <= checkpoint.value
  }

  ghost predicate AckCovered(seen: seq<Row>, p: Pass, checkpoint: Option<int>) {
    forall r :: r in seen && Sent(p.log, r) ==> checkpoint.Some? && r.key <= checkpoint.value
  }

  lemma WalkDone(seen: seq<Row>, w: Walk, p: Pass, allOk: bool, f: Filters, local: map<Value, Doc>)
    requires WalkOk(seen, w, p, allOk, f, local) && w.i == |seen| && w.pending == {} && w.ops == [] && Ordered(seen)
    ensures FatesMet(seen, p, f, local)
    ensures allOk && w.safeKey.Some? ==> Covered(seen, p, w.safeKey)
    ensures allOk && w.safeKey.None? ==> forall r :: r in seen ==> !Pushed(r.entry)
  {
    forall r | r in seen && Pushed(r.entry)
      ensures if Excluded(f, local, r.entry) then r in p.held else Sent(p.log, r) <==> !Queued(p.q, p.d, r)
      ensures allOk ==> !Queued(p.q, p.d, r) && w.safeKey.Some? && r.key <= w.safeKey.value
    {
      var k :| 0 <= k < |seen| && seen[k] == r;
      assert Fate(seen[k], w.pending, p, f, local);
      assert allOk ==> k < w.mark;
    }
  }

  /** What was accounted for stays so while a pass adds to the record. */
  lemma AccountedGrows(appended: seq<Row>, checkpoint: Option<int>, delivered: seq<Delivery>, q: Dlq,
                       held: set<Row>, p: Pass)
    requires Accounted(appended, checkpoint, delivered, q, held)
    requires held <= p.held && forall id :: id in q ==> id in p.q && p.q[id] == q[id]
    ensures Accounted(appended, checkpoint, delivered + p.log, p.q, p.held)
  {
    forall r | Settled(r, delivered, q, held) ensures Settled(r, delivered + p.log, p.q, p.held) {
      if Queued(q, 0, r) {
        var id :| id in q && 0 <= id && q[id].row == r;
        assert p.q[id].row == r;
      }
    }
  }

  /** The first `n` rows are all given up on. */
  ghost predicate Waived(appended: seq<Row>, n: nat, held: set<Row>) {
    n <= |appended| && forall k :: 0 <= k < n ==> appended[k] in held
  }

  lemma StillInLog(appended: seq<Row>, n: nat, checkpoint: Option<int>, r: Row, held: set<Row>)
    requires Ordered(appended) && n < |appended|
    requires checkpoint.None? ==> Waived(appended, n, held)
    requires checkpoint.Some? ==> appended[n].key <= checkpoint.value
    requires r in appended && After(r.key, checkpoint)
    ensures r in appended[n..] || r in held
  {
    var i :| 0 <= i < |appended| && appended[i] == r;
    if n <= i { assert appended[n..][i - n] == r; }
  }

  /** The safe key may become the checkpoint: every write up to it is settled. */
  lemma CheckpointSafe(appended: seq<Row>, n: nat, checkpoint: Option<int>, seen: seq<Row>, w: Walk,
                       delivered: seq<Delivery>, p: Pass, allOk: bool, f: Filters, local: map<Value, Doc>)
    requires Ordered(appended) && n < |appended| && (checkpoint.None? ==> Waived(appended, n, p.held))
    requires checkpoint.Some? ==> appended[n].key <= checkpoint.value
    requires Accounted(appended, checkpoint, delivered + p.log, p.q, p.held)
    requires forall r :: r in seen <==> r in appended[n..] && Shown(r, checkpoint, true)
    requires WalkOk(seen, w, p, allOk, f, local) && w.i == |seen| && w.pending == {} && w.safeKey.Some? && Ordered(seen)
    ensures Accounted(appended, w.safeKey, delivered + p.log, p.q, p.held)
  {
    forall r | r in appended && Pushed(r.entry) && !r.entry.internal && r.key <= w.safeKey.value
      ensures Settled(r, delivered + p.log, p.q, p.held)
    {
      if After(r.key, checkpoint) {
        StillInLog(appended, n, checkpoint, r, p.held);
        if r in seen {
          var k :| 0 <= k < |seen| && seen[k] == r;
          assert Fate(seen[k], w.pending, p, f, local);
        }
      }
    }
  }

  // ---------- the local database ----------

  /** The tables sync keeps: the oplog, the push checkpoint, the dead-letter queue, the tombstones. */
  datatype Store = Store(rows: seq<Row>, checkpoint: Option<int>, dlq: Dlq, nextDlqKey: nat, tombstones: Marks)

  /**
    What happened so far: every row appended, how many were truncated, every acknowledged
    write, and every row given up on, by a filter or because it was dropped unread.
   */
  datatype Past = Past(appended: seq<Row>, dropped: nat, delivered: seq<Delivery>, excluded: set<Row>)

  ghost predicate QueueOk(c: Config, q: Dlq, nextKey: nat, appended: seq<Row>) {
    forall id :: id in q ==> id < nextKey && q[id].row in appended && RetryOk(c, q[id])
  }

  ghost function LogOf(past: Past): History {
    History(past.appended, past.dropped)
  }

  /** The rows are what truncation left of the appended ones, and nothing up to the checkpoint is unaccounted for. */
  ghost predicate Sound(c: Config, db: Store, past: Past) {
    && c.Valid() && QueueOk(c, db.dlq, db.nextDlqKey, past.appended)
    && Ordered(past.appended) && past.dropped <= |past.appended| && db.rows == past.appended[past.dropped..]
    && (db.checkpoint.None? ==> Waived(past.appended, past.dropped, past.excluded))
    && (db.checkpoint.Some? ==> past.appended != [] && db.checkpoint.value <= past.appended[|past.appended| - 1].key)
    && Accounted(past.appended, db.checkpoint, past.delivered, db.dlq, past.excluded)
  }

  /** A newly queued row: no retry yet, the first one due after the base delay. */
  function Letter(c: Config, r: Row, now: real, permanent: bool): DlqRow {
    DlqRow(r, 0, now + c.backoffBase, permanent)
  }

  function Enqueued(c: Config, db: Store, r: Row, now: real, permanent: bool): Store {
    db.(dlq := db.dlq[db.nextDlqKey := Letter(c, r, now, permanent)], nextDlqKey := db.nextDlqKey + 1)
  }

  /** A batch that fails as a whole counts as one error per write, under the code -1. */
  function TotalFailure(n: nat): seq<WriteError> {
    seq(n, (i: nat) => WriteError(Some(i), -1))
  }

  /** The store after the first `n` errors of a batch were queued. */
  function PostAll(c: Config, db: Store, batch: seq<Row>, errors: seq<WriteError>, n: nat, now: real): Store
    requires n <= |errors|
  {
    if n == 0 then db
    else
      var before, e := PostAll(c, db, batch, errors, n - 1, now), errors[n - 1];
      if e.Hits(|batch|) then Enqueued(c, before, batch[e.index.value], now, e.code == SCHEMA_VALIDATION_ERROR) else before
  }

  /** Every new row of the queue is the letter of one of the errors. */
  lemma {:induction false} PostedIsLetter(c: Config, db: Store, batch: seq<Row>, errors: seq<WriteError>, n: nat,
                                          now: real, id: nat)
    returns (k: nat)
    requires n <= |errors| && db.nextDlqKey <= id < PostAll(c, db, batch, errors, n, now).nextDlqKey
    ensures k < n && errors[k].Hits(|batch|)
    ensures var q := PostAll(c, db, batch, errors, n, now).dlq;
            && id in q && q[id].row == batch[errors[k].index.value] && q[id].retryCount == 0
            && q[id].nextRetry == now + c.backoffBase && (q[id].permanentlyFailed <==> errors[k].code == 121)
  {
    if id < PostAll(c, db, batch, errors, n - 1, now).nextDlqKey {
      k := PostedIsLetter(c, db, batch, errors, n - 1, now, id);
    } else {
      k := n - 1;
    }
  }

  lemma EnqueueGains(c: Config, db: Store, r: Row, now: real, permanent: bool, past: Past, d: nat, q: Dlq,
                     added: set<Row>)
    requires c.Valid() && QueueOk(c, db.dlq, db.nextDlqKey, past.appended) && r in past.appended
    requires d <= db.nextDlqKey && Gained(q, d, db.dlq, added)
    ensures QueueOk(c, Enqueued(c, db, r, now, permanent).dlq, db.nextDlqKey + 1, past.appended)
    ensures Gained(q, d, Enqueued(c, db, r, now, permanent).dlq, added + {r})
  {
    var q' := Enqueued(c, db, r, now, permanent).dlq;
    forall from: int, s | from <= d ensures Queued(q', from, s) <==> Queued(q, from, s) || s in added + {r} {
      if s == r { assert q'[db.nextDlqKey].row == r; }
      if Queued(db.dlq, from, s) {
        var id :| id in db.dlq && from <= id && db.dlq[id].row == s;
        assert q'[id].row == s;
      }
    }
  }

  /** Acknowledged writes, queue rows and exclusions are only ever added, `p` of them, and only filters exclude. */
  ghost predicate Added(db0: Store, past0: Past, db: Store, past: Past, p: Pass, f: Filters, local: map<Value, Doc>) {
    && past.appended == past0.appended && past.delivered == past0.delivered + p.log
    && p == Pass(p.log, db.dlq, db0.nextDlqKey, past.excluded) && db0.nextDlqKey <= db.nextDlqKey
    && (forall id :: id in db0.dlq ==> id in db.dlq && db.dlq[id] == db0.dlq[id])
    && (forall id :: id in db.dlq && id !in db0.dlq ==> db0.nextDlqKey <= id)
    && past0.excluded <= past.excluded
    && (forall r :: r in past.excluded && r !in past0.excluded ==> Excluded(f, local, r.entry))
  }

  /** A pass changes the queue and the tombstones only. */
  ghost predicate InPass(c: Config, db0: Store, past0: Past, db: Store, past: Past, p: Pass, f: Filters,
                         local: map<Value, Doc>) {
    && c.Valid() && QueueOk(c, db.dlq, db.nextDlqKey, past.appended)
    && db == db0.(dlq := db.dlq, nextDlqKey := db.nextDlqKey, tombstones := db.tombstones)
    && past == past0.(delivered := past.delivered, excluded := past.excluded)
    && Added(db0, past0, db, past, p, f, local)
  }

  lemma PassIsSound(c: Config, db0: Store, past0: Past, db: Store, past: Past, p: Pass, f: Filters,
                    local: map<Value, Doc>)
    requires Sound(c, db0, past0) && InPass(c, db0, past0, db, past, p, f, local)
    ensures Sound(c, db, past)
  {
    AccountedGrows(past0.appended, db0.checkpoint, past0.delivered, db0.dlq, past0.excluded, p);
  }

  // ---------- push ----------

  method EnqueueErrors(c: Config, batch: seq<Row>, errors: seq<WriteError>, now: real, db: Store, ghost past: Past)
    returns (db': Store)
    requires c.Valid() && QueueOk(c, db.dlq, db.nextDlqKey, past.appended) && forall r :: r in batch ==> r in past.appended
    ensures QueueOk(c, db'.dlq, db'.nextDlqKey, past.appended) && db.nextDlqKey <= db'.nextDlqKey
    ensures db' == db.(dlq := db'.dlq, nextDlqKey := db'.nextDlqKey)
    ensures Gained(db.dlq, db.nextDlqKey, db'.dlq, RejectedRows(batch, BulkError(errors)))
    ensures db' == PostAll(c, db, batch, errors, |errors|, now)
  {
    db' := db;
    ghost var added: set<Row> := {};
    for k := 0 to |errors|
      invariant QueueOk(c, db'.dlq, db'.nextDlqKey, past.appended) && db.nextDlqKey <= db'.nextDlqKey
      invariant db' == db.(dlq := db'.dlq, nextDlqKey := db'.nextDlqKey)
      invariant Gained(db.dlq, db.nextDlqKey, db'.dlq, added)
      invariant added == set j | 0 <= j < k && errors[j].Hits(|batch|) :: batch[errors[j].index.value]
      invariant db' == PostAll(c, db, batch, errors, k, now)
    {
      if errors[k].Hits(|batch|) {
        var r, permanent := batch[errors[k].index.value], errors[k].code == SCHEMA_VALIDATION_ERROR;
        EnqueueGains(c, db', r, now, permanent, past, db.nextDlqKey, db.dlq, added);
        db', added := Enqueued(c, db', r, now, permanent), added + {r};
      }
    }
    assert added == RejectedRows(batch, BulkError(errors));
  }

  method EnqueueAll(c: Config, batch: seq<Row>, now: real, db: Store, ghost past: Past) returns (db': Store)
    requires c.Valid() && QueueOk(c, db.dlq, db.nextDlqKey, past.appended) && forall r :: r in batch ==> r in past.appended
    ensures QueueOk(c, db'.dlq, db'.nextDlqKey, past.appended) && db.nextDlqKey <= db'.nextDlqKey
    ensures db' == db.(dlq := db'.dlq, nextDlqKey := db'.nextDlqKey)
    ensures Gained(db.dlq, db.nextDlqKey, db'.dlq, RejectedRows(batch, Unreachable))
    ensures db' == PostAll(c, db, batch, TotalFailure(|batch|), |batch|, now)
  {
    db' := db;
    ghost var added: set<Row> := {};
    for k := 0 to |batch|
      invariant QueueOk(c, db'.dlq, db'.nextDlqKey, past.appended) && db.nextDlqKey <= db'.nextDlqKey
      invariant db' == db.(dlq := db'.dlq, nextDlqKey := db'.nextDlqKey)
      invariant Gained(db.dlq, db.nextDlqKey, db'.dlq, added)
      invariant added == set j | 0 <= j < k :: batch[j]
      invariant db' == PostAll(c, db, batch, TotalFailure(|batch|), k, now)
    {
      EnqueueGains(c, db', batch[k], now, false, past, db.nextDlqKey, db.dlq, added);
      db', added := Enqueued(c, db', batch[k], now, false), added + {batch[k]};
    }
    assert added == RejectedRows(batch, Unreachable);
  }

  /** The number of writes `_flush_bulk` reports: the batch less its errors, or -1 when it failed as a whole. */
  function Written(a: Answer, n: nat): int {
    match a
    case AllWritten => n
    case BulkError(errors) => n - |errors|
    case Unreachable => -1
    case Raises => 0
  }

  lemma {:induction false} NoneAccepted(batch: seq<Row>, a: Answer, n: nat)
    requires n <= |batch| && (forall i :: 0 <= i < n ==> OpFor(batch[i].entry).Some?) && (a.Unreachable? || a.Raises?)
    ensures Acknowledged(batch, a, n) == []
  {
    if n > 0 { NoneAccepted(batch, a, n - 1); }
  }

  /** When every error names a row of its own and no write is reported, none was taken as acknowledged. */
  lemma NoneTaken(batch: seq<Row>, a: Answer)
    requires batch != [] && (forall r :: r in batch ==> OpFor(r.entry).Some?)
    requires Candid(a, |batch|) && Written(a, |batch|) <= 0
    ensures Acknowledged(batch, a, |batch|) == []
  {
    if a.BulkError? {
      TakenAsSentExactly(batch, a.errors);
    } else {
      NoneAccepted(batch, a, |batch|);
    }
  }

  /** Acknowledged writes are recorded, rejected ones queued; only an unforeseen exception does neither. */
  method FlushBulk(c: Config, batch: seq<Row>, answer: Answer, now: real, db: Store, ghost past: Past)
    returns (raised: bool, nOk: int, db': Store, ghost log: seq<Delivery>)
    requires c.Valid() && QueueOk(c, db.dlq, db.nextDlqKey, past.appended)
    requires forall r :: r in batch ==> r in past.appended && OpFor(r.entry).Some?
    ensures QueueOk(c, db'.dlq, db'.nextDlqKey, past.appended) && db.nextDlqKey <= db'.nextDlqKey
    ensures db' == db.(dlq := db'.dlq, nextDlqKey := db'.nextDlqKey)
    ensures log == Acknowledged(batch, answer, |batch|)
    ensures Gained(db.dlq, db.nextDlqKey, db'.dlq, RejectedRows(batch, answer))
    ensures raised == answer.Raises? && (!raised ==> nOk == Written(answer, |batch|))
  {
    log := Acknowledged(batch, answer, |batch|);
    match answer {
      case AllWritten => return false, |batch|, db, log;
      case Raises => return true, 0, db, log;
      case BulkError(errors) =>
        db' := EnqueueErrors(c, batch, errors, now, db, past);
        return false, |batch| - |errors|, db', log;
      case Unreachable =>
        db' := EnqueueAll(c, batch, now, db, past);
        return false, -1, db', log;
    }
  }

  /** The inputs of one push: what it reads, and what it is told. */
  datatype Job = Job(c: Config, seen: seq<Row>, f: Filters, local: map<Value, Doc>, now: real)

  /** Where the push started, and what is known of the remote: it accepts everything, errs candidly, or is away. */
  datatype Origin = Origin(db: Store, past: Past, allOk: bool, straight: bool, absent: bool)

  /** The tombstones after the first `n` rows: every delete that was sent marks its document. */
  function MarksAfter(job: Job, m: Marks, n: nat): Marks
    requires n <= |job.seen|
  {
    if n == 0 then m
    else
      var before, e := MarksAfter(job, m, n - 1), job.seen[n - 1].entry;
      if e.op.Delete? && !Excluded(job.f, job.local, e) then before[job.c.text(e.docId) := job.now] else before
  }

  /** Nothing is marked but the deletes that were sent. */
  lemma {:induction false} MarkedExactly(job: Job, m: Marks, n: nat, key: string)
    requires n <= |job.seen|
    ensures key in MarksAfter(job, m, n) <==>
            key in m || exists k :: 0 <= k < n && job.seen[k].entry.op == Delete
                                    && !Excluded(job.f, job.local, job.seen[k].entry)
                                    && job.c.text(job.seen[k].entry.docId) == key
  {
    if n > 0 { MarkedExactly(job, m, n - 1, key); }
  }

  ghost predicate OnTrack(job: Job, o: Origin, w: Walk, db: Store, past: Past, p: Pass) {
    && Ordered(job.seen) && (forall r :: r in job.seen ==> r in o.past.appended)
    && InPass(job.c, o.db, o.past, db, past, p, job.f, job.local)
    && WalkOk(job.seen, w, p, o.allOk, job.f, job.local)
    && db.tombstones == MarksAfter(job, o.db.tombstones, w.i)
  }

  /** A filter's exception escapes, the write cannot be built, or an index definition has no payload. */
  predicate RaisesAt(job: Job, e: Entry) {
    || VerdictOn(job.f, job.local, e) == Escapes
    || (!Excluded(job.f, job.local, e) && ((Pushed(e) && OpFor(e).None?) || (e.op.IndexCreate? && e.payload.None?)))
  }

  predicate AnyRaises(job: Job) {
    exists k :: 0 <= k < |job.seen| && RaisesAt(job, job.seen[k].entry)
  }

  predicate RaisesWithin(job: Job, n: nat)
    requires n <= |job.seen|
  {
    n > 0 && (RaisesWithin(job, n - 1) || RaisesAt(job, job.seen[n - 1].entry))
  }

  lemma {:induction false} CalmSoFar(job: Job, n: nat, k: nat)
    requires k < n <= |job.seen| && !RaisesWithin(job, n)
    ensures !RaisesAt(job, job.seen[k].entry)
  {
    if k < n - 1 { CalmSoFar(job, n - 1, k); }
  }

  lemma CalmThroughout(job: Job)
    ensures !RaisesWithin(job, |job.seen|) ==> !AnyRaises(job)
  {
    if !RaisesWithin(job, |job.seen|) {
      forall k | 0 <= k < |job.seen| ensures !RaisesAt(job, job.seen[k].entry) { CalmSoFar(job, |job.seen|, k); }
    }
  }

  predicate AnyExcluded(job: Job) {
    exists k :: 0 <= k < |job.seen| && Excluded(job.f, job.local, job.seen[k].entry)
  }

  /** Of the first `n` rows, those sent: writes that no filter excludes. */
  function Taken(job: Job, n: nat): seq<Row>
    requires n <= |job.seen|
  {
    if n == 0 then []
    else
      var r := job.seen[n - 1];
      Taken(job, n - 1) + if Pushed(r.entry) && !Excluded(job.f, job.local, r.entry) then [r] else []
  }

  lemma {:induction false} ShippedConcat(a: seq<Row>, b: seq<Row>)
    ensures Shipped(a + b) == Shipped(a) + Shipped(b)
    decreases |b|
  {
    var n := |b| - 1;
    if n < 0 {
      assert a + b == a && Shipped(a) + [] == Shipped(a);
    } else {
      var c, whole := b[..n], a + b;
      assert whole[..|whole| - 1] == a + c && whole[|whole| - 1] == b[n];
      ShippedConcat(a, c);
      Regroup(Shipped(a), Shipped(c), Ship(b[n]));
    }
  }

  lemma {:induction false} AcceptedAll(batch: seq<Row>, n: nat)
    requires n <= |batch| && forall i :: 0 <= i < n ==> OpFor(batch[i].entry).Some?
    ensures Acknowledged(batch, AllWritten, n) == Shipped(batch[..n])
  {
    if n > 0 {
      AcceptedAll(batch, n - 1);
      assert batch[..n][..n - 1] == batch[..n - 1];
    }
  }

  /** With an accepting remote: what was delivered and what is being collected are the rows taken so far. */
  ghost predicate InOrder(job: Job, o: Origin, w: Walk, p: Pass)
    requires w.i <= |job.seen|
  {
    o.allOk ==> p.log + Shipped(w.ops) == Shipped(Taken(job, w.i))
  }

  lemma VisitKeepsOrder(job: Job, o: Origin, w: Walk, p: Pass, w': Walk, p': Pass)
    requires w.i < |job.seen| && InOrder(job, o, w, p) && p'.log == p.log && w'.i == w.i + 1
    requires var r := job.seen[w.i];
             w'.ops == if !Excluded(job.f, job.local, r.entry) && Pushed(r.entry) then w.ops + [r] else w.ops
    ensures InOrder(job, o, w', p')
  {
    var r := job.seen[w.i];
    if !Excluded(job.f, job.local, r.entry) && Pushed(r.entry) {
      ShippedConcat(w.ops, [r]);
      ShippedConcat(Taken(job, w.i), [r]);
      Regroup(p.log, Shipped(w.ops), Shipped([r]));
    } else {
      assert Taken(job, w.i) + [] == Taken(job, w.i);
    }
  }

  lemma FlushKeepsOrder(job: Job, o: Origin, w: Walk, p: Pass, w': Walk, p': Pass, a: Answer)
    requires w.i <= |job.seen| && InOrder(job, o, w, p) && w'.i == w.i && w'.ops == [] && (o.allOk ==> a.AllWritten?)
    requires forall r :: r in w.ops ==> OpFor(r.entry).Some?
    requires p'.log == p.log + Acknowledged(w.ops, a, |w.ops|)
    ensures InOrder(job, o, w', p')
  {
    if o.allOk {
      AcceptedAll(w.ops, |w.ops|);
      assert w.ops[..|w.ops|] == w.ops && p'.log + [] == p'.log;
    }
  }

  /** What the safe key covers: all that was acknowledged, and nothing while the remote is away. */
  ghost predicate MarkOk(job: Job, o: Origin, w: Walk, p: Pass) {
    && w.i <= |job.seen| && InOrder(job, o, w, p)
    && (o.straight ==> forall k :: w.mark <= k < |job.seen| ==> !Sent(p.log, job.seen[k]))
    && (o.absent ==> w.mark == 0)
  }

  lemma VisitKeepsMark(job: Job, o: Origin, w: Walk, p: Pass, w': Walk, p': Pass, i: nat)
    requires MarkOk(job, o, w, p) && w.i == i < |job.seen| && p'.log == p.log && w.mark <= w'.mark && w'.i == i + 1
    requires var r := job.seen[i];
             w'.ops == if !Excluded(job.f, job.local, r.entry) && Pushed(r.entry) then w.ops + [r] else w.ops
    requires w'.mark > w.mark ==> Excluded(job.f, job.local, job.seen[i].entry)
    requires o.absent ==> !AnyExcluded(job)
    ensures MarkOk(job, o, w', p')
  {
    VisitKeepsOrder(job, o, w, p, w', p');
  }

  lemma FlushKeepsMark(job: Job, o: Origin, w: Walk, p: Pass, w': Walk, db': Store, past': Past, p': Pass, a: Answer, n: nat)
    requires MarkOk(job, o, w, p) && OnTrack(job, o, w', db', past', p')
    requires w'.mark == if Written(a, n) > 0 then w'.i else w.mark
    requires Candid(a, n) && Written(a, n) <= 0 ==> p'.log == p.log
    requires (o.straight ==> Candid(a, n)) && (o.absent ==> Refused(a, n)) && InOrder(job, o, w', p')
    ensures MarkOk(job, o, w', p')
  {
    forall k | o.straight && w'.mark <= k < |job.seen| ensures !Sent(p'.log, job.seen[k]) {
      if Written(a, n) > 0 { assert Untouched(job.seen[k], w'.pending, p'); }
    }
  }

  lemma HoldKeepsTrack(job: Job, o: Origin, w: Walk, db: Store, past: Past, p: Pass)
    returns (w': Walk, past': Past, p': Pass)
    requires OnTrack(job, o, w, db, past, p) && w.i < |job.seen| && Excluded(job.f, job.local, job.seen[w.i].entry)
    ensures OnTrack(job, o, w', db, past', p')
    ensures w' == Walk(w.i + 1, w.ops, if w.ops == [] then Some(job.seen[w.i].key) else w.safeKey, w.pending, w'.mark)
    ensures p'.log == p.log && w'.mark == if w.ops == [] then w.i + 1 else w.mark
  {
    w', p' := WalkHolds(job.seen, w, p, o.allOk, job.f, job.local);
    past' := past.(excluded := past.excluded + {job.seen[w.i]});
    HoldInPass(job, o, db, past, p, job.seen[w.i]);
  }

  lemma HoldInPass(job: Job, o: Origin, db: Store, past: Past, p: Pass, r: Row)
    requires InPass(job.c, o.db, o.past, db, past, p, job.f, job.local) && Excluded(job.f, job.local, r.entry)
    ensures InPass(job.c, o.db, o.past, db, past.(excluded := past.excluded + {r}), p.(held := p.held + {r}), job.f, job.local)
  {
  }

  /** The tombstones after an entry that is sent: a delete marks its document. */
  function Entombed(c: Config, db: Store, e: Entry, now: real): Store {
    if Pushed(e) && e.op.Delete? then db.(tombstones := db.tombstones[c.text(e.docId) := now]) else db
  }

  lemma TakeKeepsTrack(job: Job, o: Origin, w: Walk, db: Store, past: Past, p: Pass) returns (w': Walk)
    requires OnTrack(job, o, w, db, past, p) && w.i < |job.seen| && !Excluded(job.f, job.local, job.seen[w.i].entry)
    requires Pushed(job.seen[w.i].entry) ==> OpFor(job.seen[w.i].entry).Some?
    ensures OnTrack(job, o, w', Entombed(job.c, db, job.seen[w.i].entry, job.now), past, p)
    ensures var r := job.seen[w.i];
            w' == Walk(w.i + 1, if Pushed(r.entry) then w.ops + [r] else w.ops, w.safeKey, w'.pending, w.mark)
  {
    w' := WalkTakes(job.seen, w, p, o.allOk, job.f, job.local);
    TakeInPass(job, o, db, past, p, job.seen[w.i].entry);
    TakeMarks(job, o.db.tombstones, db, w.i);
  }

  lemma TakeInPass(job: Job, o: Origin, db: Store, past: Past, p: Pass, e: Entry)
    requires InPass(job.c, o.db, o.past, db, past, p, job.f, job.local)
    ensures InPass(job.c, o.db, o.past, Entombed(job.c, db, e, job.now), past, p, job.f, job.local)
  {
  }

  lemma TakeMarks(job: Job, m: Marks, db: Store, i: nat)
    requires i < |job.seen| && !Excluded(job.f, job.local, job.seen[i].entry) && db.tombstones == MarksAfter(job, m, i)
    ensures Entombed(job.c, db, job.seen[i].entry, job.now).tombstones == MarksAfter(job, m, i + 1)
  {
  }

  /** One entry: held back by a filter, taken into the batch, or passed over. */
  method VisitEntry(job: Job, i: nat, ops: seq<Row>, key: Option<int>, db: Store,
                    ghost o: Origin, ghost w: Walk, ghost past: Past, ghost p: Pass)
    returns (raised: bool, ops': seq<Row>, safeKey: Option<int>, db': Store, ghost w': Walk, ghost past': Past, ghost p': Pass)
    requires OnTrack(job, o, w, db, past, p) && i < |job.seen| && w == Walk(i, ops, key, w.pending, w.mark)
    ensures raised <==> RaisesAt(job, job.seen[i].entry)
    ensures raised ==> db' == db
    ensures !raised ==>
      var row := job.seen[i];
      var held := Excluded(job.f, job.local, row.entry);
      && ops' == (if !held && Pushed(row.entry) then ops + [row] else ops)
      && safeKey == (if held && ops == [] then Some(row.key) else key)
      && db' == (if held then db else Entombed(job.c, db, row.entry, job.now))
    ensures if raised then w' == w && past' == past && p' == p
            else OnTrack(job, o, w', db', past', p') && w' == Walk(i + 1, ops', safeKey, w'.pending, w'.mark)
    ensures p'.log == p.log && w.mark <= w'.mark
    ensures w'.mark > w.mark ==> Excluded(job.f, job.local, job.seen[i].entry)
  {
    var row := job.seen[i];
    raised, ops', safeKey, db', w', past', p' := false, ops, key, db, w, past, p;
    if Excluded(job.f, job.local, row.entry) {
      w', past', p' := HoldKeepsTrack(job, o, w, db, past, p);
      if ops == [] { safeKey := Some(row.key); }
    } else if RaisesAt(job, row.entry) {
      raised := true;
    } else {
      if Pushed(row.entry) {
        ops' := ops + [row];
        if row.entry.op.Delete? { db' := db.(tombstones := db.tombstones[job.c.text(row.entry.docId) := job.now]); }
      }
      w' := TakeKeepsTrack(job, o, w, db, past, p);
    }
  }

  /** What a flush adds to the record. */
  ghost predicate Flushed(db: Store, past: Past, p: Pass, log: seq<Delivery>, db': Store, past': Past, p': Pass) {
    && p' == p.(log := p.log + log, q := db'.dlq) && past' == past.(delivered := past.delivered + log)
    && db' == db.(dlq := db'.dlq, nextDlqKey := db'.nextDlqKey) && db.nextDlqKey <= db'.nextDlqKey
  }

  lemma FlushInPass(job: Job, o: Origin, db: Store, past: Past, p: Pass, log: seq<Delivery>, added: set<Row>, db': Store,
                    past': Past, p': Pass)
    requires InPass(job.c, o.db, o.past, db, past, p, job.f, job.local) && Flushed(db, past, p, log, db', past', p')
    requires QueueOk(job.c, db'.dlq, db'.nextDlqKey, past.appended)
    requires Gained(db.dlq, db.nextDlqKey, db'.dlq, added)
    ensures InPass(job.c, o.db, o.past, db', past', p', job.f, job.local)
  {
    Regroup(o.past.delivered, p.log, log);
  }

  function FlushedWalk(seen: seq<Row>, w: Walk, a: Answer): Walk
    requires 0 < w.i <= |seen|
  {
    if Written(a, |w.ops|) > 0 then Walk(w.i, [], Some(seen[w.i - 1].key), {}, w.i) else Walk(w.i, [], w.safeKey, {}, w.mark)
  }

  lemma FlushWalks(seen: seq<Row>, w: Walk, p: Pass, allOk: bool, f: Filters, local: map<Value, Doc>, a: Answer, d': nat,
                   log: seq<Delivery>, p': Pass)
    requires WalkOk(seen, w, p, allOk, f, local) && w.i > 0 && w.ops != [] && !a.Raises? && (allOk ==> a.AllWritten?)
    requires forall r :: r in w.ops ==> OpFor(r.entry).Some?
    requires log == Acknowledged(w.ops, a, |w.ops|) && p' == p.(log := p.log + log, q := p'.q)
    requires p.d <= d' && Gained(p.q, d', p'.q, RejectedRows(w.ops, a))
    ensures WalkOk(seen, FlushedWalk(seen, w, a), p', allOk, f, local)
  {
    PassFlushes(seen, w.i, w.ops, w.pending, p, f, local, a, d', p'.q);
    if allOk {
      forall k | 0 <= k < |seen| ensures !Queued(p'.q, p'.d, seen[k]) {
        assert !Queued(p.q, p.d, seen[k]) && seen[k] !in RejectedRows(w.ops, a);
      }
    }
  }

  lemma FlushReady(job: Job, o: Origin, w: Walk, db: Store, past: Past, p: Pass)
    requires OnTrack(job, o, w, db, past, p)
    ensures job.c.Valid() && QueueOk(job.c, db.dlq, db.nextDlqKey, past.appended)
    ensures forall r :: r in w.ops ==> r in past.appended && OpFor(r.entry).Some?
    ensures p.q == db.dlq && p.d <= db.nextDlqKey
  {
  }

  lemma FlushOnTrack(job: Job, o: Origin, w: Walk, db: Store, past: Past, p: Pass, a: Answer, log: seq<Delivery>, db': Store,
                     past': Past, p': Pass)
    requires OnTrack(job, o, w, db, past, p) && w.i > 0 && w.ops != [] && (o.allOk ==> a.AllWritten?)
    requires log == Acknowledged(w.ops, a, |w.ops|) && Flushed(db, past, p, log, db', past', p')
    requires QueueOk(job.c, db'.dlq, db'.nextDlqKey, past.appended)
    requires Gained(db.dlq, db.nextDlqKey, db'.dlq, RejectedRows(w.ops, a))
    ensures InPass(job.c, o.db, o.past, db', past', p', job.f, job.local)
    ensures w.i <= |job.seen| && (!a.Raises? ==> OnTrack(job, o, FlushedWalk(job.seen, w, a), db', past', p'))
  {
    FlushReady(job, o, w, db, past, p);
    FlushInPass(job, o, db, past, p, log, RejectedRows(w.ops, a), db', past', p');
    if !a.Raises? { FlushWalks(job.seen, w, p, o.allOk, job.f, job.local, a, db.nextDlqKey, log, p'); }
  }

  /** One flush of the collected batch; the safe key moves up to the last row read. */
  method FlushPass(job: Job, i: nat, ops: seq<Row>, key: Option<int>, db: Store, answer: Answer,
                   ghost o: Origin, ghost w: Walk, ghost past: Past, ghost p: Pass)
    returns (raised: bool, safeKey: Option<int>, db': Store, ghost w': Walk, ghost past': Past, ghost p': Pass)
    requires OnTrack(job, o, w, db, past, p) && w == Walk(i, ops, key, w.pending, w.mark) && ops != [] && i > 0
    requires o.allOk ==> answer.AllWritten?
    ensures raised <==> answer.Raises?
    ensures !raised ==> safeKey == if Written(answer, |ops|) > 0 then Some(job.seen[i - 1].key) else key
    ensures InPass(job.c, o.db, o.past, db', past', p', job.f, job.local)
    ensures w'.i == i && db'.tombstones == db.tombstones
    ensures !raised ==> OnTrack(job, o, w', db', past', p') && w' == Walk(i, [], safeKey, {}, w'.mark)
    ensures !raised ==> w'.mark == if Written(answer, |ops|) > 0 then i else w.mark
    ensures p'.log == p.log + Acknowledged(ops, answer, |ops|)
  {
    var nOk;
    ghost var log;
    FlushReady(job, o, w, db, past, p);
    raised, nOk, db', log := FlushBulk(job.c, ops, answer, job.now, db, past);
    p' := p.(log := p.log + log, q := db'.dlq);
    past' := past.(delivered := past.delivered + log);
    safeKey := if nOk > 0 then Some(job.seen[i - 1].key) else key;
    FlushOnTrack(job, o, w, db, past, p, answer, log, db', past', p');
    w' := if raised then w else FlushedWalk(job.seen, w, answer);
  }

  /** One flush, with what the safe key covers. */
  method FlushBatch(job: Job, i: nat, ops: seq<Row>, key: Option<int>, db: Store, answer: Answer,
                    ghost o: Origin, ghost w: Walk, ghost past: Past, ghost p: Pass)
    returns (raised: bool, safeKey: Option<int>, db': Store, ghost w': Walk, ghost past': Past, ghost p': Pass)
    requires OnTrack(job, o, w, db, past, p) && w == Walk(i, ops, key, w.pending, w.mark) && ops != [] && i > 0
    requires MarkOk(job, o, w, p) && (o.allOk ==> answer.AllWritten?)
    requires (o.straight ==> Candid(answer, |ops|)) && (o.absent ==> Refused(answer, |ops|))
    ensures raised <==> answer.Raises?
    ensures InPass(job.c, o.db, o.past, db', past', p', job.f, job.local)
    ensures w'.i == i <= |job.seen| && db'.tombstones == MarksAfter(job, o.db.tombstones, i)
    ensures !raised ==> OnTrack(job, o, w', db', past', p') && w' == Walk(i, [], safeKey, {}, w'.mark) && MarkOk(job, o, w', p')
  {
    raised, safeKey, db', w', past', p' := FlushPass(job, i, ops, key, db, answer, o, w, past, p);
    if !raised {
      FlushReady(job, o, w, db, past, p);
      FlushKeepsOrder(job, o, w, p, w', p', answer);
      if Candid(answer, |ops|) && Written(answer, |ops|) <= 0 {
        NoneTaken(ops, answer);
        assert p.log + [] == p.log;
      }
      FlushKeepsMark(job, o, w, p, w', db', past', p', answer, |ops|);
    }
  }

  /** One entry and, once the batch is full, a flush of it. */
  method VisitAndFlush(job: Job, i: nat, ops: seq<Row>, key: Option<int>, db: Store, answer: Answer,
                       ghost o: Origin, ghost w: Walk, ghost past: Past, ghost p: Pass)
    returns (raised: bool, ops': seq<Row>, flushed: bool, safeKey: Option<int>, db': Store, ghost w': Walk, ghost past': Past,
             ghost p': Pass)
    requires OnTrack(job, o, w, db, past, p) && i < |job.seen| && w.i == i && w.ops == ops && w.safeKey == key
    requires |ops| < job.c.batchSize && (o.allOk ==> answer.AllWritten?) && MarkOk(job, o, w, p)
    requires o.straight ==> Candid(answer, job.c.batchSize)
    requires o.absent ==> Refused(answer, job.c.batchSize) && !AnyExcluded(job)
    ensures raised ==> RaisesAt(job, job.seen[i].entry) || (flushed && answer.Raises?)
    ensures !raised ==> !RaisesAt(job, job.seen[i].entry)
    ensures !raised ==> |ops'| < job.c.batchSize && MarkOk(job, o, w', p')
    ensures InPass(job.c, o.db, o.past, db', past', p', job.f, job.local)
    ensures w'.i <= |job.seen| && db'.tombstones == MarksAfter(job, o.db.tombstones, w'.i)
    ensures !raised ==> OnTrack(job, o, w', db', past', p') && w'.i == i + 1 && w'.ops == ops' && w'.safeKey == safeKey
  {
    raised, ops', safeKey, db', w', past', p' := VisitEntry(job, i, ops, key, db, o, w, past, p);
    if !raised { VisitKeepsMark(job, o, w, p, w', p', i); }
    flushed := !raised && |ops'| >= job.c.batchSize;
    if flushed {
      raised, safeKey, db', w', past', p' := FlushBatch(job, i + 1, ops', safeKey, db', answer, o, w', past', p');
      if !raised { ops' := []; }
    }
  }

  lemma StartsOnTrack(job: Job, o: Origin)
    requires job.c.Valid() && QueueOk(job.c, o.db.dlq, o.db.nextDlqKey, o.past.appended) && Ordered(job.seen)
    requires forall r :: r in job.seen ==> r in o.past.appended
    ensures OnTrack(job, o, Walk(0, [], None, {}, 0), o.db, o.past, Pass([], o.db.dlq, o.db.nextDlqKey, o.past.excluded))
    ensures MarkOk(job, o, Walk(0, [], None, {}, 0), Pass([], o.db.dlq, o.db.nextDlqKey, o.past.excluded))
  {
  }

  /** What is known of the remote when a push starts. */
  ghost predicate Told(job: Job, answers: Remote, o: Origin) {
    && (o.allOk ==> Obliging(answers)) && (o.straight ==> Straight(answers))
    && (o.absent ==> Absent(answers) && !AnyExcluded(job))
  }

  lemma ToldOfAnswer(job: Job, answers: Remote, o: Origin, k: nat, n: nat)
    requires Told(job, answers, o)
    ensures (o.allOk ==> answers(k, n).AllWritten?) && (o.straight ==> Candid(answers(k, n), n))
    ensures o.absent ==> Refused(answers(k, n), n) && !AnyExcluded(job)
  {
  }

  /** Visits every entry in order, flushing full batches; the last batch is left to flush. */
  method VisitAll(job: Job, answers: Remote, db: Store, ghost o: Origin)
    returns (raised: bool, ops: seq<Row>, flushes: nat, safeKey: Option<int>, db': Store, ghost w: Walk, ghost past: Past,
             ghost p: Pass)
    requires job.c.Valid() && QueueOk(job.c, db.dlq, db.nextDlqKey, o.past.appended) && o.db == db
    requires Ordered(job.seen) && (forall r :: r in job.seen ==> r in o.past.appended) && Told(job, answers, o)
    ensures raised ==> AnyRaises(job) || Erratic(answers)
    ensures raised ==> InPass(job.c, o.db, o.past, db', past, p, job.f, job.local)
    ensures raised ==> w.i <= |job.seen| && db'.tombstones == MarksAfter(job, db.tombstones, w.i)
    ensures !raised ==> !RaisesWithin(job, |job.seen|) && OnTrack(job, o, w, db', past, p) && MarkOk(job, o, w, p)
    ensures !raised ==> w.i == |job.seen| && w.ops == ops && w.safeKey == safeKey
  {
    ops, flushes := [], 0;
    var i := 0;
    raised, safeKey, db' := false, None, db;
    w, past, p := Walk(0, [], None, {}, 0), o.past, Pass([], db.dlq, db.nextDlqKey, o.past.excluded);
    StartsOnTrack(job, o);
    while i < |job.seen|
      invariant OnTrack(job, o, w, db', past, p) && w.i == i && w.ops == ops && w.safeKey == safeKey
      invariant !RaisesWithin(job, i) && |ops| < job.c.batchSize && MarkOk(job, o, w, p)
    {
      var flushed;
      var answer := answers(flushes, job.c.batchSize);
      ToldOfAnswer(job, answers, o, flushes, job.c.batchSize);
      raised, ops, flushed, safeKey, db', w, past, p := VisitAndFlush(job, i, ops, safeKey, db', answer, o, w, past, p);
      if raised {
        assert RaisesAt(job, job.seen[i].entry) || answer.Raises?;
        return;
      }
      assert !RaisesWithin(job, i + 1);
      i := i + 1;
      if flushed { flushes := flushes + 1; }
    }
  }

  /** Visits every entry in order, batch by batch; the safe key stays below every pending write. */
  method PushEntries(job: Job, answers: Remote, db: Store, ghost o: Origin)
    returns (raised: bool, safeKey: Option<int>, db': Store, ghost w: Walk, ghost past: Past, ghost p: Pass)
    requires job.c.Valid() && QueueOk(job.c, db.dlq, db.nextDlqKey, o.past.appended) && o.db == db
    requires Ordered(job.seen) && job.seen != []
    requires (forall r :: r in job.seen ==> r in o.past.appended) && Told(job, answers, o)
    ensures AnyRaises(job) ==> raised
    ensures raised ==> AnyRaises(job) || Erratic(answers)
    ensures InPass(job.c, o.db, o.past, db', past, p, job.f, job.local)
    ensures w.i <= |job.seen| && db'.tombstones == MarksAfter(job, db.tombstones, w.i)
    ensures !raised ==> OnTrack(job, o, w, db', past, p) && MarkOk(job, o, w, p)
    ensures !raised ==> w == Walk(|job.seen|, [], safeKey, {}, w.mark)
  {
    var ops, flushes;
    raised, ops, flushes, safeKey, db', w, past, p := VisitAll(job, answers, db, o);
    CalmThroughout(job);
    if !raised && ops != [] {
      raised, safeKey, db', w, past, p :=
        FlushBatch(job, |job.seen|, ops, safeKey, db', answers(flushes, |ops|), o, w, past, p);
    }
  }

  datatype Outcome = Nothing | Overflow | Done | Raised

  /** The rows after the checkpoint, internal ones left out. */
  method ReadPending(db: Store) returns (entries: seq<Row>)
    requires Ordered(db.rows)
    ensures entries == Visible(db.rows, db.checkpoint, true) && Ordered(entries)
    ensures forall r :: r in entries <==> r in db.rows && Shown(r, db.checkpoint, true)
  {
    var near := NotFound;
    if db.checkpoint.Some? { near := SearchNear(db.rows, db.checkpoint.value); }
    entries := ReadFrom(db.rows, db.checkpoint, true, near);
    VisibleMembers(db.rows, db.checkpoint, true);
  }

  /** The safe key becomes the checkpoint and, with compaction on, the rows before it go, in one transaction. */
  method StoreCheckpoint(c: Config, db: Store, safeKey: int, ghost past: Past) returns (db': Store, ghost past': Past)
    requires Sound(c, db, past) && Accounted(past.appended, Some(safeKey), past.delivered, db.dlq, past.excluded)
    requires exists k :: 0 <= k < |db.rows| && db.rows[k].key == safeKey
    ensures Sound(c, db', past')
    ensures past' == past.(dropped := past'.dropped) && past'.dropped <= |past.appended|
    ensures db' == db.(checkpoint := Some(safeKey), rows := past.appended[past'.dropped..])
    ensures if c.autoCompact then db'.rows != [] && db'.rows[0].key == safeKey else db'.rows == db.rows
  {
    var rows := db.rows;
    ghost var dropped := past.dropped;
    if c.autoCompact {
      rows, dropped := Compact(db.rows, safeKey, past.appended, past.dropped);
    }
    db', past' := db.(checkpoint := Some(safeKey), rows := rows), past.(dropped := dropped);
    CheckpointIsSound(c, db, past, safeKey, dropped);
  }

  /** Compaction keeps the checkpointed row and everything after it. */
  method Compact(rows: seq<Row>, key: int, ghost appended: seq<Row>, ghost dropped: nat)
    returns (kept: seq<Row>, ghost dropped': nat)
    requires Ordered(rows) && dropped <= |appended| && rows == appended[dropped..]
    requires exists k :: 0 <= k < |rows| && rows[k].key == key
    ensures dropped' <= |appended| && kept == appended[dropped'..] && kept != [] && kept[0].key == key
  {
    var removed;
    kept, removed := TruncateBefore(rows, key);
    dropped' := dropped + removed;
    DropTwice(appended, dropped, removed);
  }

  lemma SoundWith(c: Config, db: Store, past: Past, q: Dlq, delivered: seq<Delivery>)
    requires Sound(c, db, past) && QueueOk(c, q, db.nextDlqKey, past.appended)
    requires Accounted(past.appended, db.checkpoint, delivered, q, past.excluded)
    ensures Sound(c, db.(dlq := q), past.(delivered := delivered))
  {
  }

  lemma CheckpointIsSound(c: Config, db: Store, past: Past, key: int, n: nat)
    requires Sound(c, db, past) && n <= |past.appended|
    requires Accounted(past.appended, Some(key), past.delivered, db.dlq, past.excluded)
    requires exists k :: 0 <= k < |db.rows| && db.rows[k].key == key
    ensures Sound(c, db.(checkpoint := Some(key), rows := past.appended[n..]), past.(dropped := n))
  {
    var k :| 0 <= k < |db.rows| && db.rows[k].key == key;
    LastKey(past.appended, db.rows[k]);
  }

  /** The log's oldest row is past the checkpoint. */
  predicate Overflows(db: Store) {
    db.checkpoint.Some? && db.rows != [] && db.checkpoint.value < db.rows[0].key
  }

  /** The check compares the checkpoint with what is left of the log. */
  lemma OverflowsExactly(c: Config, db: Store, past: Past)
    requires Sound(c, db, past)
    ensures Overflows(db) <==> LogOf(past).Overflowed(db.checkpoint)
    ensures db.checkpoint.Some? && db.rows != [] && !Overflows(db) ==> !LogOf(past).Lost(db.checkpoint)
  {
    if LogOf(past).Lost(db.checkpoint) { LossReported(LogOf(past), db.checkpoint); }
  }

  /** The rows up to where the push got have made their marks; all of them when it was done. */
  ghost predicate MarksMade(job: Job, m: Marks, m': Marks, outcome: Outcome) {
    exists n :: 0 <= n <= |job.seen| && m' == MarksAfter(job, m, n) && (outcome.Done? ==> n == |job.seen|)
  }

  /** What a push over the rows `job.seen` has done. */
  ghost predicate PassResult(job: Job, answers: Remote, db: Store, past: Past, outcome: Outcome, db': Store,
                             past': Past, p: Pass) {
    // only an entry that raises, which always does, or an unforeseen answer ends it early
    && (outcome.Done? || outcome.Raised?)
    && (AnyRaises(job) ==> outcome.Raised?)
    && (outcome.Raised? ==> AnyRaises(job) || Erratic(answers))
    // acknowledged writes, queue rows and exclusions are only ever added, and only filters exclude
    && Added(db, past, db', past', p, job.f, job.local)
    // every visible write meets exactly one fate, and every delete sent marks its document
    && (outcome.Done? ==> FatesMet(job.seen, p, job.f, job.local))
    && MarksMade(job, db.tombstones, db'.tombstones, outcome)
    // a remote that accepts everything gets everything, and the checkpoint covers it
    && (outcome.Done? && Obliging(answers) ==> Covered(job.seen, p, db'.checkpoint))
    // no write acknowledged by a candid remote is past the checkpoint, which a remote that is away cannot move
    && (outcome.Done? && Straight(answers) ==> AckCovered(job.seen, p, db'.checkpoint))
    && (Absent(answers) && !AnyExcluded(job) ==> db'.checkpoint == db.checkpoint)
    // the checkpoint moves only when a push completes, and then only forward
    && (if outcome.Done? && db'.checkpoint != db.checkpoint
        then db'.checkpoint.Some? && After(db'.checkpoint.value, db.checkpoint)
        else db'.checkpoint == db.checkpoint && db'.rows == db.rows)
    // compaction keeps the checkpoint's own row, so it never raises the overflow alarm
    && (db'.rows != db.rows || (job.c.autoCompact && db'.checkpoint != db.checkpoint) ==>
          db'.rows != [] && db'.checkpoint == Some(db'.rows[0].key))
    // a remote that accepts everything gets every pending write that is not excluded, in order, once
    && (outcome.Done? && Obliging(answers) ==> p.log == Shipped(Taken(job, |job.seen|)))
  }

  /**
    One push: read after the checkpoint, visit every entry, then store a
    checkpoint no higher than the last row whose fate is settled.
   */
  method PushNamespace(c: Config, f: Filters, local: map<Value, Doc>, answers: Remote, now: real, db: Store,
                       ghost past: Past)
    returns (outcome: Outcome, db': Store, ghost past': Past, ghost p: Pass)
    requires Sound(c, db, past)
    ensures Sound(c, db', past')
    ensures outcome.Overflow? <==> Overflows(db)
    ensures outcome.Overflow? <==> LogOf(past).Overflowed(db.checkpoint)
    ensures !outcome.Overflow? && db.checkpoint.Some? && db.rows != [] ==> !LogOf(past).Lost(db.checkpoint)
    ensures outcome.Nothing? <==> !outcome.Overflow? && Visible(db.rows, db.checkpoint, true) == []
    ensures outcome.Nothing? || outcome.Overflow? ==> db' == db && past' == past
    ensures outcome.Done? || outcome.Raised? ==>
              PassResult(Job(c, Visible(db.rows, db.checkpoint, true), f, local, now), answers, db, past, outcome, db', past', p)
  {
    db', past', p := db, past, Pass([], db.dlq, db.nextDlqKey, past.excluded);
    OverflowsExactly(c, db, past);
    if Overflows(db) { return Overflow, db', past', p; }
    var entries := ReadPending(db);
    if entries == [] { return Nothing, db', past', p; }
    outcome, db', past', p := PushPending(c, Job(c, entries, f, local, now), answers, db, past);
  }

  method PushPending(c: Config, job: Job, answers: Remote, db: Store, ghost past: Past)
    returns (outcome: Outcome, db': Store, ghost past': Past, ghost p: Pass)
    requires Sound(c, db, past) && job.c == c && db.rows != [] && !Overflows(db)
    requires job.seen != [] && Ordered(job.seen)
    requires forall r :: r in job.seen <==> r in db.rows && Shown(r, db.checkpoint, true)
    ensures Sound(c, db', past') && PassResult(job, answers, db, past, outcome, db', past', p)
    ensures outcome.Done? || outcome.Raised?
    ensures AnyRaises(job) ==> outcome.Raised?
  {
    ghost var o := Origin(db, past, Obliging(answers), Straight(answers), Absent(answers) && !AnyExcluded(job));
    ghost var w := Walk(0, [], None, {}, 0);
    var raised, safeKey;
    raised, safeKey, db', w, past', p := PushEntries(job, answers, db, o);
    PassIsSound(c, db, past, db', past', p, job.f, job.local);
    if raised {
      RaisedResult(job, answers, o, w, db', past', p);
      return Raised, db', past', p;
    }
    outcome := Done;
    ghost var mid, between := db', past';
    if safeKey.Some? {
      SafeKeyCovers(job, o, w, db', past', p);
      db', past' := StoreCheckpoint(c, db', safeKey.value, past');
    }
    DoneResult(job, answers, o, w, mid, between, p, db', past');
  }

  lemma RaisedResult(job: Job, answers: Remote, o: Origin, w: Walk, db': Store, past': Past, p: Pass)
    requires InPass(job.c, o.db, o.past, db', past', p, job.f, job.local) && (AnyRaises(job) || Erratic(answers))
    requires w.i <= |job.seen| && db'.tombstones == MarksAfter(job, o.db.tombstones, w.i)
    ensures PassResult(job, answers, o.db, o.past, Raised, db', past', p)
  {
  }

  /** The end of a push that met every entry: the checkpoint moved to the safe key, if there is one. */
  lemma DoneResult(job: Job, answers: Remote, o: Origin, w: Walk, mid: Store, between: Past, p: Pass, db': Store, past': Past)
    requires o == Origin(o.db, o.past, Obliging(answers), Straight(answers), Absent(answers) && !AnyExcluded(job))
    requires OnTrack(job, o, w, mid, between, p) && MarkOk(job, o, w, p) && w == Walk(|job.seen|, [], w.safeKey, {}, w.mark)
    requires !AnyRaises(job)
    requires if w.safeKey.None? then db' == mid && past' == between
             else && db' == mid.(checkpoint := w.safeKey, rows := db'.rows) && past' == between.(dropped := past'.dropped)
                  && After(w.safeKey.value, o.db.checkpoint)
                  && (db'.rows != mid.rows || job.c.autoCompact ==> db'.rows != [] && db'.rows[0].key == w.safeKey.value)
    ensures PassResult(job, answers, o.db, o.past, Done, db', past', p)
  {
    WalkDone(job.seen, w, p, o.allOk, job.f, job.local);
    MarkCovers(job, o, w, p);
  }

  lemma MarkCovers(job: Job, o: Origin, w: Walk, p: Pass)
    requires MarkOk(job, o, w, p) && WalkOk(job.seen, w, p, o.allOk, job.f, job.local) && Ordered(job.seen)
    ensures o.straight ==> AckCovered(job.seen, p, w.safeKey)
    ensures o.absent ==> w.safeKey.None?
  {
    forall r | o.straight && r in job.seen && Sent(p.log, r) ensures w.safeKey.Some? && r.key <= w.safeKey.value {
      var k :| 0 <= k < |job.seen| && job.seen[k] == r;
      assert k < w.mark;
    }
  }

  /** The safe key lies in the log past the old checkpoint, and everything up to it is accounted for. */
  lemma SafeKeyCovers(job: Job, o: Origin, w: Walk, db: Store, past: Past, p: Pass)
    requires Sound(job.c, db, past) && OnTrack(job, o, w, db, past, p) && db.rows != []
    requires w.i == |job.seen| && w.pending == {} && w.safeKey.Some?
    requires db.checkpoint.Some? ==> db.rows[0].key <= db.checkpoint.value
    requires forall r :: r in job.seen <==> r in db.rows && Shown(r, db.checkpoint, true)
    ensures After(w.safeKey.value, db.checkpoint)
    ensures exists k :: 0 <= k < |db.rows| && db.rows[k].key == w.safeKey.value
    ensures Accounted(past.appended, w.safeKey, past.delivered, db.dlq, past.excluded)
  {
    CheckpointSafe(past.appended, past.dropped, db.checkpoint, job.seen, w, o.past.delivered, p, o.allOk, job.f, job.local);
    var last := job.seen[w.mark - 1];
    assert last in db.rows;
  }

  lemma LastKey(appended: seq<Row>, r: Row)
    requires Ordered(appended) && r in appended
    ensures r.key <= appended[|appended| - 1].key
  {
    var i :| 0 <= i < |appended| && appended[i] == r;
  }
}
