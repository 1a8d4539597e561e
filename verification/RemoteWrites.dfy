/**
  What pushed writes do on the remote: every acknowledged write does there what its
  oplog entry says, and a remote that accepts everything replays the pending entries.
 */
module RemoteWrites {
  import opened Common
  import opened Oplog
  import opened Push

  type Collection = map<Value, Doc>

  /** What the operators of an update other than `$set` do to a document. */
  type Operators = (Doc, Doc) -> Doc

  function Updated(rest: Operators, spec: Doc, d: Doc): Doc {
    rest(spec - {"$set"}, d) + SetOf(spec)
  }

  /** Updates are upserts. */
  function Base(m: Collection, id: Value): Doc {
    if id in m then m[id] else map[ID := id]
  }

  /** A write on the remote. */
  function Effect(rest: Operators, m: Collection, op: WriteOp): Collection {
    match op
    case InsertOne(d) => m[Get(d, ID) := d]
    case UpdateOne(id, spec) => m[id := Updated(rest, spec, Base(m, id))]
    case DeleteOne(id) => m - {id}
  }

  /** An entry of the log: the payload stored, or applied to its own document, and stamped; or the document gone. */
  function Meaning(rest: Operators, m: Collection, e: Entry): Collection {
    match e.op
    case Insert => if e.payload.None? then m else m[Get(e.payload.value, ID) := e.payload.value[STAMP := Num(e.ts)]]
    case Update =>
      if e.payload.None? then m
      else m[e.docId := Updated(rest, e.payload.value, Base(m, e.docId))[STAMP := Num(e.ts)]]
    case Delete => m - {e.docId}
    case _ => m
  }

  lemma SameFields(a: Doc, b: Doc)
    requires forall f :: FieldOf(a, f) == FieldOf(b, f)
    ensures a == b
  {
    forall f ensures f in a <==> f in b { assert FieldOf(a, f) == FieldOf(b, f); }
    forall f | f in a ensures a[f] == b[f] { assert FieldOf(a, f) == FieldOf(b, f); }
  }

  lemma DiffersIsUpdate(a: Doc, b: Doc, k: string, v: Value)
    requires Differs(a, b, k, v)
    ensures b == a[k := v]
  {
    SameFields(b, a[k := v]);
  }

  /** A write that carries an entry does what the entry means. */
  lemma CarriedMeans(rest: Operators, m: Collection, op: WriteOp, e: Entry)
    requires Carries(op, e)
    ensures Effect(rest, m, op) == Meaning(rest, m, e)
  {
    if e.op.Insert? {
      DiffersIsUpdate(e.payload.value, op.doc, STAMP, Num(e.ts));
    } else if e.op.Update? {
      var p, s := e.payload.value, op.spec;
      DiffersIsUpdate(p, s, "$set", s["$set"]);
      DiffersIsUpdate(SetOf(p), SetOf(s), STAMP, Num(e.ts));
      assert s - {"$set"} == p - {"$set"};
      var base := rest(p - {"$set"}, Base(m, e.docId));
      assert base + SetOf(p)[STAMP := Num(e.ts)] == (base + SetOf(p))[STAMP := Num(e.ts)];
    }
  }

  /**
    Every acknowledged write, pushed or retried: one with the row's entry was sent, and on
    the remote an insert leaves its payload stamped, an update its own document updated
    and stamped, a delete no document.
   */
  lemma AcknowledgedMeans(rest: Operators, m: Collection, log: seq<Delivery>, r: Row) returns (d: Delivery)
    requires Sent(log, r)
    ensures d in log && d.row == r
    ensures var e, m' := r.entry, Effect(rest, m, d.op);
            && (e.op.Insert? || e.op.Update? ==> e.payload.Some?)
            && (e.op.Insert? ==> m' == m[Get(e.payload.value, ID) := e.payload.value[STAMP := Num(e.ts)]])
            && (e.op.Update? ==>
                  m' == m[e.docId := Updated(rest, e.payload.value, Base(m, e.docId))[STAMP := Num(e.ts)]])
            && (e.op.Delete? ==> m' == m - {e.docId})
  {
    SentHasArrived(log, r);
    d :| d in log && d.row == r && Carries(d.op, r.entry);
    CarriedMeans(rest, m, d.op, r.entry);
  }

  // ---------- a whole push ----------

  /** The remote after the delivered writes, in order. */
  function RemoteAfter(rest: Operators, m: Collection, log: seq<Delivery>): Collection {
    if log == [] then m else Effect(rest, RemoteAfter(rest, m, log[..|log| - 1]), log[|log| - 1].op)
  }

  /** The collection after the entries of the rows, in order. */
  function Replayed(rest: Operators, m: Collection, rows: seq<Row>): Collection {
    if rows == [] then m else Meaning(rest, Replayed(rest, m, rows[..|rows| - 1]), rows[|rows| - 1].entry)
  }

  lemma {:induction false} ShippedReplays(rest: Operators, m: Collection, rows: seq<Row>)
    requires forall r :: r in rows ==> OpFor(r.entry).Some?
    ensures RemoteAfter(rest, m, Shipped(rows)) == Replayed(rest, m, rows)
  {
    if rows != [] {
      var before, r := rows[..|rows| - 1], rows[|rows| - 1];
      assert r in rows && Ship(r) == [Delivery(r, OpFor(r.entry).value)];
      ShippedReplays(rest, m, before);
      var log := Shipped(rows);
      assert log[..|log| - 1] == Shipped(before) && log[|log| - 1].op == OpFor(r.entry).value;
      OpCarriesEntry(r.entry);
      CarriedMeans(rest, Replayed(rest, m, before), OpFor(r.entry).value, r.entry);
    }
  }

  lemma {:induction false} TakenAreBuilt(job: Job, n: nat, r: Row)
    requires n <= |job.seen| && !AnyRaises(job) && r in Taken(job, n)
    ensures OpFor(r.entry).Some?
  {
    if n > 0 && r in Taken(job, n - 1) {
      TakenAreBuilt(job, n - 1, r);
    } else {
      assert r == job.seen[n - 1] && !RaisesAt(job, job.seen[n - 1].entry);
    }
  }

  /**
    After a push to a remote that accepts everything, the remote is what replaying the
    pending entries gives: every one that no filter excludes, in log order, once.
   */
  lemma AcceptedPushReplays(rest: Operators, m: Collection, job: Job, answers: Remote, db: Store, past: Past, db': Store,
                            past': Past, p: Pass)
    requires PassResult(job, answers, db, past, Done, db', past', p) && Obliging(answers)
    ensures RemoteAfter(rest, m, p.log) == Replayed(rest, m, Taken(job, |job.seen|))
  {
    forall r | r in Taken(job, |job.seen|) ensures OpFor(r.entry).Some? { TakenAreBuilt(job, |job.seen|, r); }
    ShippedReplays(rest, m, Taken(job, |job.seen|));
  }

  /** The rows taken are the writes read that no filter excludes. */
  lemma {:induction false} TakenMembers(job: Job, n: nat, r: Row)
    requires n <= |job.seen|
    ensures r in Taken(job, n) <==>
            Pushed(r.entry) && !Excluded(job.f, job.local, r.entry) && exists k :: 0 <= k < n && job.seen[k] == r
  {
    if n > 0 { TakenMembers(job, n - 1, r); }
  }
}
