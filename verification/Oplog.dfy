/**
  The oplog: rows in key order, read after a checkpoint, truncated from the old
  end.  Keys are only ever compared, so a key is its rank; module `OplogKeys` ties
  the key strings to that order.
 */
module Oplog {
  import opened Common

  datatype Op = Insert | Update | Delete | IndexCreate | IndexDrop | OtherOp

  datatype Entry = Entry(op: Op, docId: Value, payload: Option<Doc>, ts: real, internal: bool)

  datatype Row = Row(key: int, entry: Entry)

  ghost predicate Ordered(rows: seq<Row>) {
    forall i, j :: 0 <= i < j < |rows| ==> rows[i].key < rows[j].key
  }

  predicate After(k: int, checkpoint: Option<int>) {
    checkpoint.Some? ==> checkpoint.value < k
  }

  predicate Shown(r: Row, checkpoint: Option<int>, skipInternal: bool) {
    After(r.key, checkpoint) && !(skipInternal && r.entry.internal)
  }

  /** The full scan: every row after the checkpoint, minus internal ones if asked. */
  function Visible(rows: seq<Row>, checkpoint: Option<int>, skipInternal: bool): seq<Row> {
    if rows == [] then []
    else if Shown(rows[0], checkpoint, skipInternal) then [rows[0]] + Visible(rows[1..], checkpoint, skipInternal)
    else Visible(rows[1..], checkpoint, skipInternal)
  }

  lemma {:induction false} VisibleMembers(rows: seq<Row>, checkpoint: Option<int>, skip: bool)
    requires Ordered(rows)
    ensures Ordered(Visible(rows, checkpoint, skip))
    ensures forall r :: r in Visible(rows, checkpoint, skip) <==> r in rows && Shown(r, checkpoint, skip)
  {
    if rows != [] {
      VisibleMembers(rows[1..], checkpoint, skip);
      var v := Visible(rows[1..], checkpoint, skip);
      forall j | 0 <= j < |v| ensures rows[0].key < v[j].key {
        assert v[j] in v;
        var k :| 0 <= k < |rows[1..]| && rows[1..][k] == v[j];
        assert rows[k + 1] == v[j];
      }
      assert rows == [rows[0]] + rows[1..];
    }
  }

  lemma {:induction false} VisibleSplit(a: seq<Row>, b: seq<Row>, checkpoint: Option<int>, skip: bool)
    ensures Visible(a + b, checkpoint, skip) == Visible(a, checkpoint, skip) + Visible(b, checkpoint, skip)
  {
    if a == [] {
      assert a + b == b;
    } else {
      VisibleSplit(a[1..], b, checkpoint, skip);
      assert (a + b)[1..] == a[1..] + b;
      Regroup([a[0]], Visible(a[1..], checkpoint, skip), Visible(b, checkpoint, skip));
    }
  }

  lemma {:induction false} NoneVisible(rows: seq<Row>, checkpoint: Option<int>, skip: bool)
    requires forall i :: 0 <= i < |rows| ==> !After(rows[i].key, checkpoint)
    ensures Visible(rows, checkpoint, skip) == []
  {
    if rows != [] { NoneVisible(rows[1..], checkpoint, skip); }
  }

  // ---------- the storage cursor ----------

  datatype Near = NotFound | At(pos: nat, cmp: int)

  /** A landing `search_near` may report: the key itself, or either neighbour of its place. */
  predicate NearOk(rows: seq<Row>, k: int, near: Near) {
    match near
    case NotFound => rows == []
    case At(p, c) =>
      && p < |rows|
      && (c == 0 ==> rows[p].key == k)
      && (c > 0 ==> k < rows[p].key && (p > 0 ==> rows[p - 1].key < k))
      && (c < 0 ==> rows[p].key < k && (p + 1 < |rows| ==> k < rows[p + 1].key))
  }

  /** The redb cursor: binary search, then the next greater key, else the last one. */
  method SearchNear(rows: seq<Row>, k: int) returns (near: Near)
    requires Ordered(rows)
    ensures NearOk(rows, k, near)
  {
    if rows == [] { return NotFound; }
    var lo, hi := 0, |rows|;
    while lo < hi
      invariant 0 <= lo <= hi <= |rows|
      invariant forall i :: 0 <= i < lo ==> rows[i].key < k
      invariant forall i :: hi <= i < |rows| ==> k < rows[i].key
    {
      var mid := (lo + hi) / 2;
      if rows[mid].key == k { return At(mid, 0); }
      if rows[mid].key < k { lo := mid + 1; } else { hi := mid; }
    }
    near := if lo < |rows| then At(lo, 1) else At(lo - 1, -1);
  }

  /** Whichever neighbour the cursor lands on, the walk returns the full scan. */
  method ReadFrom(rows: seq<Row>, checkpoint: Option<int>, skipInternal: bool, near: Near) returns (out: seq<Row>)
    requires Ordered(rows)
    requires checkpoint.Some? ==> NearOk(rows, checkpoint.value, near)
    ensures out == Visible(rows, checkpoint, skipInternal)
  {
    var p := 0;
    if checkpoint.Some? {
      match near {
        case NotFound => return [];
        case At(pos, cmp) => p := if cmp <= 0 then pos + 1 else pos;
      }
    }
    NoneVisible(rows[..p], checkpoint, skipInternal);
    ghost var start := p;
    out := [];
    while p < |rows|
      invariant start <= p <= |rows|
      invariant out == Visible(rows[..p], checkpoint, skipInternal)
      decreases |rows| - p
    {
      assert rows[..p + 1] == rows[..p] + [rows[p]];
      VisibleSplit(rows[..p], [rows[p]], checkpoint, skipInternal);
      if !(skipInternal && rows[p].entry.internal) { out := out + [rows[p]]; }
      p := p + 1;
    }
    assert rows[..p] == rows;
  }

  /** Removes exactly the rows with smaller keys; the row at `key` itself stays. */
  method TruncateBefore(rows: seq<Row>, key: int) returns (kept: seq<Row>, removed: nat)
    requires Ordered(rows)
    ensures removed <= |rows| && kept == rows[removed..]
    ensures forall i :: 0 <= i < |rows| ==> (i < removed <==> rows[i].key < key)
  {
    removed := 0;
    while removed < |rows| && rows[removed].key < key
      invariant 0 <= removed <= |rows|
      invariant forall i :: 0 <= i < removed ==> rows[i].key < key
    {
      removed := removed + 1;
    }
    kept := rows[removed..];
  }

  method TruncateCount(rows: seq<Row>, maxEntries: nat) returns (kept: seq<Row>, removed: nat)
    ensures removed <= |rows| && kept == rows[removed..]
    ensures |kept| == if |rows| <= maxEntries then |rows| else maxEntries
  {
    removed := if |rows| <= maxEntries then 0 else |rows| - maxEntries;
    kept := rows[removed..];
  }

  // ---------- overflow ----------

  /** Every row ever appended, and how many of the oldest are gone. */
  datatype History = History(appended: seq<Row>, dropped: nat) {
    ghost predicate Valid() {
      Ordered(appended) && dropped <= |appended|
    }

    ghost function Rows(): seq<Row>
      requires Valid()
    {
      appended[dropped..]
    }

    /** The check push makes before reading. */
    ghost predicate Overflowed(checkpoint: Option<int>)
      requires Valid()
    {
      checkpoint.Some? && Rows() != [] && checkpoint.value < Rows()[0].key
    }

    /** A row that push had not passed yet has been truncated away. */
    ghost predicate Lost(checkpoint: Option<int>)
      requires Valid()
    {
      exists i :: 0 <= i < dropped && After(appended[i].key, checkpoint)
    }
  }

  /** An append takes a later key than every one before it, `gap` past the next free one. */
  datatype LogEvent = Append(entry: Entry, gap: nat) | Truncate(n: nat)

  ghost function LogStep(h: History, e: LogEvent): History
    requires h.Valid()
  {
    match e
    case Append(entry, gap) =>
      var last := if h.appended == [] then 0 else h.appended[|h.appended| - 1].key;
      h.(appended := h.appended + [Row(last + 1 + gap, entry)])
    case Truncate(n) =>
      h.(dropped := if h.dropped + n <= |h.appended| then h.dropped + n else |h.appended|)
  }

  ghost function Replay(h: History, events: seq<LogEvent>): History
    requires h.Valid()
    decreases |events|
  {
    if events == [] then h else Replay(LogStep(h, events[0]), events[1..])
  }

  /** A loss is reported exactly when there is a checkpoint to compare and a row to compare it with. */
  lemma LossReported(h: History, checkpoint: Option<int>)
    requires h.Valid() && h.Lost(checkpoint)
    ensures h.Overflowed(checkpoint) <==> checkpoint.Some? && h.Rows() != []
  {
    if checkpoint.Some? && h.Rows() != [] {
      var i :| 0 <= i < h.dropped && After(h.appended[i].key, checkpoint);
      assert h.Rows()[0] == h.appended[h.dropped];
    }
  }

  /** The check fires exactly when the checkpoint's own row is gone: one row early, never late. */
  lemma OverflowExact(h: History, c: nat)
    requires h.Valid() && c < |h.appended| && h.Rows() != []
    ensures var ck := Some(h.appended[c].key);
            && (h.Overflowed(ck) <==> c < h.dropped)
            && (h.Lost(ck) <==> c + 1 < h.dropped)
  {
    var ck := Some(h.appended[c].key);
    assert h.Rows()[0] == h.appended[h.dropped];
    if c + 1 < h.dropped { assert After(h.appended[c + 1].key, ck); }
  }

  /** Rows survive in order under any run of appends and truncations, and drops only grow. */
  lemma {:induction false} ReplayGrows(h: History, events: seq<LogEvent>)
    requires h.Valid()
    ensures var h' := Replay(h, events);
            h'.Valid() && h.dropped <= h'.dropped && h.appended <= h'.appended
    decreases |events|
  {
    if events != [] { ReplayGrows(LogStep(h, events[0]), events[1..]); }
  }

  /** Over every run: if push finds rows and no overflow, every row past the checkpoint is still there. */
  lemma NoOverflowNoLoss(h: History, c: nat, events: seq<LogEvent>)
    requires h.Valid() && c < |h.appended|
    ensures var h', ck := Replay(h, events), Some(h.appended[c].key);
            h'.Valid() && (h'.Rows() != [] && !h'.Overflowed(ck) ==> !h'.Lost(ck))
  {
    ReplayGrows(h, events);
    var h' := Replay(h, events);
    assert h'.appended[c] == h.appended[c];
    if h'.Rows() != [] { OverflowExact(h', c); }
  }

  /** Push's own compaction keeps the checkpoint's row, so no appends after it can raise the alarm. */
  lemma CompactionIsQuiet(h: History, c: nat, appends: seq<LogEvent>)
    requires h.Valid() && h.dropped <= c < |h.appended|
    requires forall i :: 0 <= i < |appends| ==> appends[i].Append?
    ensures var h' := Replay(h.(dropped := c), appends);
            h'.Valid() && h'.Rows() != [] && !h'.Overflowed(Some(h.appended[c].key))
  {
    AppendsDropNothing(h.(dropped := c), appends);
    ReplayGrows(h.(dropped := c), appends);
    var h' := Replay(h.(dropped := c), appends);
    assert h'.Rows()[0] == h'.appended[c] == h.appended[c];
  }

  lemma {:induction false} AppendsDropNothing(h: History, appends: seq<LogEvent>)
    requires h.Valid() && forall i :: 0 <= i < |appends| ==> appends[i].Append?
    ensures Replay(h, appends).dropped == h.dropped
    decreases |appends|
  {
    if appends != [] { AppendsDropNothing(LogStep(h, appends[0]), appends[1..]); }
  }
}
