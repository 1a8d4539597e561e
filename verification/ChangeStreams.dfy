/**
  Change streams: a hub offers every oplog entry to its registered streams; each
  stream queues the events its namespace, the known operations and its filter let
  through, and consumers take them from the front. A stream is shared by reference,
  so it is named here by its position in an arena.
 */
module ChangeStreams {
  import opened Common

  /** The operation names an event can carry; the writer may log others. */
  datatype Op = Insert | Update | Delete | Replace | Unknown(name: string)

  datatype Entry = Entry(op: Op, ns: string, docId: Value, ts: int, payload: Option<Doc>)

  datatype Event = Event(kind: Op, db: string, coll: string, documentKey: Doc, ts: int, fullDocument: Option<Doc>)

  /** `consumed` records what the consumers were given, in order. */
  datatype Stream = Stream(namespace: Option<string>, filter: Event -> bool, queue: seq<Event>, closed: bool,
                           consumed: seq<Event>)

  // ---------- one entry, one stream ----------

  function Database(ns: string): string {
    if ns == "" || ns[0] == '.' then "" else [ns[0]] + Database(ns[1..])
  }

  /** What follows the first dot, empty without one. */
  function CollectionName(ns: string): string {
    var db := Database(ns);
    DatabaseIsPrefix(ns);
    if |db| < |ns| then ns[|db| + 1..] else ""
  }

  lemma DatabaseIsPrefix(ns: string)
    ensures |Database(ns)| <= |ns| && Database(ns) == ns[..|Database(ns)|] && '.' !in Database(ns)
    ensures |Database(ns)| < |ns| ==> ns[|Database(ns)|] == '.'
  {
  }

  function EventOf(e: Entry): Event {
    Event(e.op, Database(e.ns), CollectionName(e.ns), map[ID := e.docId], e.ts, if e.op.Delete? then None else e.payload)
  }

  lemma {:induction false} DatabaseOf(db: string, coll: string)
    requires '.' !in db
    ensures Database(db + "." + coll) == db && Database(db) == db
  {
    if db == "" {
      assert db + "." + coll == "." + coll;
    } else {
      DatabaseOf(db[1..], coll);
      assert (db + "." + coll)[1..] == db[1..] + "." + coll;
    }
  }

  /** An event names the database, the collection and the id of its entry, and a delete has no document. */
  lemma EventFields(e: Entry, db: string, coll: string)
    requires '.' !in db
    ensures e.ns == db + "." + coll ==> EventOf(e).db == db && EventOf(e).coll == coll
    ensures e.ns == db ==> EventOf(e).db == db && EventOf(e).coll == ""
    ensures EventOf(e).kind == e.op && EventOf(e).ts == e.ts && EventOf(e).documentKey == map[ID := e.docId]
    ensures EventOf(e).fullDocument == if e.op == Delete then None else e.payload
  {
    DatabaseOf(db, coll);
    assert (db + "." + coll)[|db| + 1..] == coll;
  }

  predicate InNamespace(s: Stream, e: Entry) {
    s.namespace.None? || |s.namespace.value| == 0 || s.namespace.value == e.ns
  }

  /** The event the stream wants from this entry, if any. */
  function Image(s: Stream, e: Entry): seq<Event> {
    if InNamespace(s, e) && !e.op.Unknown? && s.filter(EventOf(e)) then [EventOf(e)] else []
  }

  function Trace(s: Stream, es: seq<Entry>): seq<Event> {
    if es == [] then [] else Trace(s, es[..|es| - 1]) + Image(s, es[|es| - 1])
  }

  /** What a stream of one namespace sees comes from entries of that namespace, of known kinds, that its filter wants. */
  lemma {:induction false} TraceIsOwn(s: Stream, es: seq<Entry>, v: Event)
    requires v in Trace(s, es)
    ensures exists k :: 0 <= k < |es| && v == EventOf(es[k]) && !es[k].op.Unknown? && s.filter(v)
                        && (s.namespace.Some? && s.namespace.value != "" ==> es[k].ns == s.namespace.value)
  {
    var before := es[..|es| - 1];
    if v in Trace(s, before) {
      TraceIsOwn(s, before, v);
      var k :| 0 <= k < |before| && v == EventOf(before[k]) && !before[k].op.Unknown? && s.filter(v)
               && (s.namespace.Some? && s.namespace.value != "" ==> before[k].ns == s.namespace.value);
      assert es[k] == before[k];
    } else {
      assert v in Image(s, es[|es| - 1]);
    }
  }

  /** Only a closed stream refuses, and only an event it would have queued. */
  predicate Refuses(s: Stream, e: Entry) {
    s.closed && Image(s, e) != []
  }

  function Offered(s: Stream, e: Entry): Stream {
    if s.closed then s else s.(queue := s.queue + Image(s, e))
  }

  method EnqueueEntry(s: Stream, e: Entry) returns (out: Stream, ok: bool)
    requires InNamespace(s, e)
    ensures out == Offered(s, e) && ok == !Refuses(s, e)
  {
    assert s.queue + [] == s.queue;
    if e.op.Unknown? { return s, true; }
    var event := EventOf(e);
    if !s.filter(event) { return s, true; }
    if s.closed { return s, false; }
    return s.(queue := s.queue + [event]), true;
  }

  // ---------- the hub ----------

  predicate Within(ids: seq<nat>, n: nat) {
    forall k :: 0 <= k < |ids| ==> ids[k] < n
  }

  function Registrations(ids: seq<nat>, i: nat): nat {
    multiset(ids)[i]
  }

  function OfferTimes(s: Stream, e: Entry, n: nat): Stream {
    if n == 0 then s else Offered(OfferTimes(s, e, n - 1), e)
  }

  /** Each stream is offered the entry once per registration. */
  ghost predicate OfferedAll(arena: seq<Stream>, ids: seq<nat>, e: Entry, after: seq<Stream>) {
    |after| == |arena| && forall i :: 0 <= i < |arena| ==> after[i] == OfferTimes(arena[i], e, Registrations(ids, i))
  }

  /** Which listeners' enqueue fails. */
  function Failures(arena: seq<Stream>, ids: seq<nat>, e: Entry): (failed: seq<bool>)
    requires Within(ids, |arena|)
    ensures |failed| == |ids|
  {
    seq(|ids|, k requires 0 <= k < |ids| => Refuses(arena[ids[k]], e))
  }

  /** The listeners that did not fail, from position `lo` on. */
  function Survivors(ids: seq<nat>, failed: seq<bool>, lo: nat): seq<nat>
    requires lo <= |ids| == |failed|
    decreases |ids| - lo
  {
    if lo == |ids| then []
    else if failed[lo] then Survivors(ids, failed, lo + 1)
    else [ids[lo]] + Survivors(ids, failed, lo + 1)
  }

  ghost predicate DeadIndices(dead: seq<nat>, failed: seq<bool>, hi: nat)
    requires hi <= |failed|
  {
    && (forall a, b :: 0 <= a < b < |dead| ==> dead[a] < dead[b])
    && (forall a :: 0 <= a < |dead| ==> dead[a] < hi && failed[dead[a]])
    && (forall k :: 0 <= k < hi && failed[k] ==> k in dead)
  }

  lemma {:induction false} NoneDead(ids: seq<nat>, failed: seq<bool>, lo: nat, hi: nat)
    requires lo <= hi <= |ids| == |failed| && forall k :: lo <= k < hi ==> !failed[k]
    ensures Survivors(ids, failed, lo) == ids[lo..hi] + Survivors(ids, failed, hi)
    decreases hi - lo
  {
    if lo < hi {
      NoneDead(ids, failed, lo + 1, hi);
      assert ids[lo..hi] == [ids[lo]] + ids[lo + 1..hi];
      Regroup([ids[lo]], ids[lo + 1..hi], Survivors(ids, failed, hi));
    } else {
      assert ids[lo..hi] + Survivors(ids, failed, hi) == Survivors(ids, failed, hi);
    }
  }

  /** Removing the dead positions from the highest down drops exactly the listeners that failed. */
  method RemoveDead(ids: seq<nat>, dead: seq<nat>, ghost failed: seq<bool>) returns (left: seq<nat>)
    requires |ids| == |failed| && DeadIndices(dead, failed, |ids|)
    ensures left == Survivors(ids, failed, 0)
  {
    left := ids;
    var j := |dead|;
    ghost var k := |ids|;
    while j > 0
      invariant 0 <= j <= |dead| && k == (if j == |dead| then |ids| else dead[j]) && k <= |ids|
      invariant left == ids[..k] + Survivors(ids, failed, k)
    {
      j := j - 1;
      var d := dead[j];
      Between(dead, failed, j, k);
      RemoveOne(ids, failed, d, k, left);
      left := left[..d] + left[d + 1..];
      k := d;
    }
    Before(dead, failed, k);
    NoneDead(ids, failed, 0, k);
    assert ids[0..k] == ids[..k];
  }

  lemma RemoveOne(ids: seq<nat>, failed: seq<bool>, d: nat, k: nat, left: seq<nat>)
    requires d < k <= |ids| == |failed| && failed[d] && (forall p :: d < p < k ==> !failed[p])
    requires left == ids[..k] + Survivors(ids, failed, k)
    ensures left[..d] + left[d + 1..] == ids[..d] + Survivors(ids, failed, d)
  {
    NoneDead(ids, failed, d + 1, k);
    assert left[..d] == ids[..d] && left[d + 1..] == ids[d + 1..k] + Survivors(ids, failed, k);
  }

  lemma Between(dead: seq<nat>, failed: seq<bool>, j: nat, k: nat)
    requires DeadIndices(dead, failed, |failed|) && j < |dead| && k == if j + 1 == |dead| then |failed| else dead[j + 1]
    ensures dead[j] < k <= |failed| && forall p :: dead[j] < p < k ==> !failed[p]
  {
    forall p | dead[j] < p < k ensures p !in dead {
      forall a | 0 <= a < |dead| ensures dead[a] != p { assert a <= j || a >= j + 1; }
    }
  }

  lemma Before(dead: seq<nat>, failed: seq<bool>, k: nat)
    requires DeadIndices(dead, failed, |failed|) && k == if dead == [] then |failed| else dead[0]
    ensures k <= |failed| && forall p :: 0 <= p < k ==> !failed[p]
  {
  }

  function Without(ids: seq<nat>, id: nat): seq<nat> {
    if ids == [] then []
    else if ids[|ids| - 1] == id then Without(ids[..|ids| - 1], id)
    else Without(ids[..|ids| - 1], id) + [ids[|ids| - 1]]
  }

  lemma {:induction false} WithoutMembers(ids: seq<nat>, id: nat, n: nat)
    requires Within(ids, n)
    ensures Within(Without(ids, id), n)
  {
    if ids != [] { WithoutMembers(ids[..|ids| - 1], id, n); }
  }

  lemma {:induction false} SurvivorsAreListeners(ids: seq<nat>, failed: seq<bool>, lo: nat, n: nat)
    requires lo <= |ids| == |failed| && Within(ids, n)
    ensures Within(Survivors(ids, failed, lo), n)
    decreases |ids| - lo
  {
    if lo < |ids| { SurvivorsAreListeners(ids, failed, lo + 1, n); }
  }

  /** Offers change queues alone. */
  lemma {:induction false} OfferKeepsIdentity(s: Stream, e: Entry, n: nat)
    ensures OfferTimes(s, e, n) == s.(queue := OfferTimes(s, e, n).queue)
    ensures s.closed ==> OfferTimes(s, e, n) == s
  {
    if n > 0 { OfferKeepsIdentity(s, e, n - 1); }
  }

  lemma OfferNext(arena: seq<Stream>, ids: seq<nat>, e: Entry, k: nat, before: seq<Stream>)
    requires k < |ids| && Within(ids, |arena|) && OfferedAll(arena, ids[..k], e, before)
    ensures OfferedAll(arena, ids[..k + 1], e, before[ids[k] := Offered(before[ids[k]], e)])
    ensures Refuses(before[ids[k]], e) == Refuses(arena[ids[k]], e)
  {
    assert ids[..k + 1] == ids[..k] + [ids[k]];
    OfferKeepsIdentity(arena[ids[k]], e, Registrations(ids[..k], ids[k]));
  }

  lemma DeadNext(dead: seq<nat>, failed: seq<bool>, k: nat)
    requires k < |failed| && DeadIndices(dead, failed, k)
    ensures DeadIndices(if failed[k] then dead + [k] else dead, failed, k + 1)
  {
  }

  lemma OutsideNamespace(s: Stream, e: Entry)
    requires !InNamespace(s, e)
    ensures Offered(s, e) == s && !Refuses(s, e)
  {
    assert s.queue + [] == s.queue;
  }

  method OfferTo(s: Stream, e: Entry) returns (out: Stream, ok: bool)
    ensures out == Offered(s, e) && ok == !Refuses(s, e)
  {
    if InNamespace(s, e) {
      out, ok := EnqueueEntry(s, e);
    } else {
      OutsideNamespace(s, e);
      out, ok := s, true;
    }
  }

  datatype Round = Round(offered: seq<Stream>, dead: seq<nat>)

  /** The first `k` listeners, in turn: their streams after the offers, and the positions that refused. */
  function RoundTo(arena: seq<Stream>, ids: seq<nat>, e: Entry, k: nat): (r: Round)
    requires k <= |ids| && Within(ids, |arena|)
    ensures |r.offered| == |arena|
  {
    if k == 0 then Round(arena, [])
    else
      var before, id := RoundTo(arena, ids, e, k - 1), ids[k - 1];
      var s := before.offered[id];
      Round(before.offered[id := Offered(s, e)], if Refuses(s, e) then before.dead + [k - 1] else before.dead)
  }

  lemma {:induction false} RoundOffers(arena: seq<Stream>, ids: seq<nat>, e: Entry, k: nat)
    requires k <= |ids| && Within(ids, |arena|)
    ensures OfferedAll(arena, ids[..k], e, RoundTo(arena, ids, e, k).offered)
    decreases k
  {
    if k > 0 {
      RoundOffers(arena, ids, e, k - 1);
      OfferNext(arena, ids, e, k - 1, RoundTo(arena, ids, e, k - 1).offered);
    }
  }

  lemma RoundRefuses(arena: seq<Stream>, ids: seq<nat>, e: Entry, k: nat)
    requires k < |ids| && Within(ids, |arena|)
    ensures Refuses(RoundTo(arena, ids, e, k).offered[ids[k]], e) == Failures(arena, ids, e)[k]
  {
    RoundOffers(arena, ids, e, k);
    OfferNext(arena, ids, e, k, RoundTo(arena, ids, e, k).offered);
  }

  lemma RoundNext(arena: seq<Stream>, ids: seq<nat>, e: Entry, k: nat)
    requires k < |ids| && Within(ids, |arena|)
    ensures var dead, failed := RoundTo(arena, ids, e, k).dead, Failures(arena, ids, e);
            DeadIndices(dead, failed, k) ==> DeadIndices(RoundTo(arena, ids, e, k + 1).dead, failed, k + 1)
  {
    var dead, failed := RoundTo(arena, ids, e, k).dead, Failures(arena, ids, e);
    RoundRefuses(arena, ids, e, k);
    var next := if failed[k] then dead + [k] else dead;
    assert RoundTo(arena, ids, e, k + 1).dead == next;
    if DeadIndices(dead, failed, k) { DeadNext(dead, failed, k); }
  }

  lemma {:induction false} RoundDies(arena: seq<Stream>, ids: seq<nat>, e: Entry, k: nat)
    requires k <= |ids| && Within(ids, |arena|)
    ensures DeadIndices(RoundTo(arena, ids, e, k).dead, Failures(arena, ids, e), k)
    decreases k
  {
    if k > 0 {
      RoundDies(arena, ids, e, k - 1);
      RoundNext(arena, ids, e, k - 1);
    }
  }

  method OfferEach(arena: seq<Stream>, ids: seq<nat>, e: Entry) returns (offered: seq<Stream>, dead: seq<nat>)
    requires Within(ids, |arena|)
    ensures OfferedAll(arena, ids, e, offered) && DeadIndices(dead, Failures(arena, ids, e), |ids|)
  {
    offered, dead := arena, [];
    for k := 0 to |ids|
      invariant RoundTo(arena, ids, e, k) == Round(offered, dead)
    {
      var s, ok := OfferTo(offered[ids[k]], e);
      offered := offered[ids[k] := s];
      if !ok { dead := dead + [k]; }
    }
    RoundOffers(arena, ids, e, |ids|);
    RoundDies(arena, ids, e, |ids|);
    assert ids[..|ids|] == ids;
  }

  function Taken(s: Stream): Stream {
    if s.queue == [] then s else s.(queue := s.queue[1..], consumed := s.consumed + [s.queue[0]])
  }

  // ---------- what each stream should have received ----------

  datatype Act = Join(id: nat) | Leave(id: nat) | Write(e: Entry) | Poll(id: nat) | Await(id: nat) | Shut(id: nat)

  /** Registrations, whether closed, and the entries written while registered and open, once per registration. */
  datatype Account = Account(regs: nat, closed: bool, entries: seq<Entry>)

  function Copies(n: nat, e: Entry): seq<Entry> {
    if n == 0 then [] else Copies(n - 1, e) + [e]
  }

  function Advance(a: Account, i: nat, act: Act): Account {
    match act
    case Join(id) => if id == i then a.(regs := a.regs + 1) else a
    case Leave(id) => if id == i then a.(regs := 0) else a
    case Write(e) => if a.closed then a else a.(entries := a.entries + Copies(a.regs, e))
    case Poll(_) => a
    case Await(_) => a
    case Shut(id) => if id == i then a.(closed := true) else a
  }

  function Expected(acts: seq<Act>, i: nat): Account {
    if acts == [] then Account(0, false, []) else Advance(Expected(acts[..|acts| - 1], i), i, acts[|acts| - 1])
  }

  /** The stream's history is exactly the trace of its account. */
  ghost predicate Tracks(s: Stream, made: Stream, ids: seq<nat>, i: nat, a: Account) {
    && HistoryIs(s, made, a.entries) && s.closed == a.closed
    && (!a.closed ==> Registrations(ids, i) == a.regs)
  }

  ghost predicate HistoryIs(s: Stream, made: Stream, es: seq<Entry>) {
    s.namespace == made.namespace && s.filter == made.filter && s.consumed + s.queue == Trace(made, es)
  }

  lemma TraceSnoc(s: Stream, es: seq<Entry>, e: Entry)
    ensures Trace(s, es + [e]) == Trace(s, es) + Image(s, e)
  {
    assert (es + [e])[..|es|] == es;
  }

  lemma OfferTraces(s: Stream, e: Entry, made: Stream, es: seq<Entry>)
    requires !s.closed && HistoryIs(s, made, es)
    ensures HistoryIs(Offered(s, e), made, es + [e])
  {
    TraceSnoc(made, es, e);
    assert s.consumed + (s.queue + Image(s, e)) == (s.consumed + s.queue) + Image(s, e);
  }

  lemma {:induction false} OffersTrace(s: Stream, e: Entry, n: nat, made: Stream, es: seq<Entry>)
    requires !s.closed && HistoryIs(s, made, es)
    ensures HistoryIs(OfferTimes(s, e, n), made, es + Copies(n, e))
  {
    if n == 0 {
      assert es + [] == es;
    } else {
      OffersTrace(s, e, n - 1, made, es);
      OfferOnceMore(s, e, n - 1, made, es);
    }
  }

  lemma OfferOnceMore(s: Stream, e: Entry, n: nat, made: Stream, es: seq<Entry>)
    requires !s.closed && HistoryIs(OfferTimes(s, e, n), made, es + Copies(n, e))
    ensures HistoryIs(OfferTimes(s, e, n + 1), made, es + Copies(n + 1, e))
  {
    OfferKeepsIdentity(s, e, n);
    Regroup(es, Copies(n, e), [e]);
    OfferTraces(OfferTimes(s, e, n), e, made, es + Copies(n, e));
  }

  lemma {:induction false} SurvivorsCount(ids: seq<nat>, failed: seq<bool>, lo: nat, i: nat)
    requires lo <= |ids| == |failed| && forall k :: 0 <= k < |ids| && ids[k] == i ==> !failed[k]
    ensures Registrations(Survivors(ids, failed, lo), i) == Registrations(ids[lo..], i)
    decreases |ids| - lo
  {
    if lo < |ids| {
      SurvivorsCount(ids, failed, lo + 1, i);
      assert ids[lo..] == [ids[lo]] + ids[lo + 1..];
    }
  }

  lemma WriteTracks(arena: seq<Stream>, ids: seq<nat>, e: Entry, i: nat, made: Stream, a: Account)
    requires Within(ids, |arena|) && i < |arena| && Tracks(arena[i], made, ids, i, a)
    ensures var after := OfferTimes(arena[i], e, Registrations(ids, i));
            Tracks(after, made, Survivors(ids, Failures(arena, ids, e), 0), i, Advance(a, i, Write(e)))
  {
    OfferKeepsIdentity(arena[i], e, Registrations(ids, i));
    if !a.closed {
      OffersTrace(arena[i], e, a.regs, made, a.entries);
      SurvivorsCount(ids, Failures(arena, ids, e), 0, i);
      assert ids[0..] == ids;
    }
  }

  lemma {:induction false} WithoutCount(ids: seq<nat>, id: nat, i: nat)
    ensures Registrations(Without(ids, id), i) == if i == id then 0 else Registrations(ids, i)
  {
    if ids != [] {
      WithoutCount(ids[..|ids| - 1], id, i);
      assert ids == ids[..|ids| - 1] + [ids[|ids| - 1]];
    }
  }

  ghost predicate AllTrack(arena: seq<Stream>, made: seq<Stream>, ids: seq<nat>, acts: seq<Act>) {
    |arena| == |made| && forall i :: 0 <= i < |arena| ==> Tracks(arena[i], made[i], ids, i, Expected(acts, i))
  }

  predicate ActOk(act: Act, n: nat) {
    !act.Write? ==> act.id < n
  }

  /** The state after an act, as the hub's methods promise it. */
  ghost predicate Acted(arena: seq<Stream>, ids: seq<nat>, act: Act, arena': seq<Stream>, ids': seq<nat>)
    requires Within(ids, |arena|) && ActOk(act, |arena|)
  {
    match act
    case Join(id) => arena' == arena && ids' == ids + [id]
    case Leave(id) => arena' == arena && ids' == Without(ids, id)
    case Write(e) => OfferedAll(arena, ids, e, arena') && ids' == Survivors(ids, Failures(arena, ids, e), 0)
    case Poll(id) => arena' == arena[id := Taken(arena[id])] && ids' == ids
    case Await(id) => arena' == (if arena[id].closed then arena else arena[id := Taken(arena[id])]) && ids' == ids
    case Shut(id) => arena' == arena[id := arena[id].(closed := true)] && ids' == ids
  }

  lemma ActTracks(arena: seq<Stream>, ids: seq<nat>, act: Act, arena': seq<Stream>, ids': seq<nat>, made: Stream,
                  a: Account, i: nat)
    requires Within(ids, |arena|) && ActOk(act, |arena|) && i < |arena| && Acted(arena, ids, act, arena', ids')
    requires Tracks(arena[i], made, ids, i, a)
    ensures |arena'| == |arena| && Tracks(arena'[i], made, ids', i, Advance(a, i, act))
  {
    match act
    case Join(_) =>
    case Leave(id) => WithoutCount(ids, id, i);
    case Write(e) => WriteTracks(arena, ids, e, i, made, a);
    case Poll(id) => TakenKeepsHistory(arena[id]);
    case Await(id) => TakenKeepsHistory(arena[id]);
    case Shut(_) =>
  }

  lemma TakenKeepsHistory(s: Stream)
    ensures Taken(s).consumed + Taken(s).queue == s.consumed + s.queue
    ensures Taken(s).closed == s.closed && Taken(s).namespace == s.namespace && Taken(s).filter == s.filter
  {
    if s.queue != [] { assert s.queue == [s.queue[0]] + s.queue[1..]; }
  }

  class OplogHub {
    var arena: seq<Stream>
    var listeners: seq<nat>

    ghost predicate Valid()
      reads this
    {
      Within(listeners, |arena|)
    }

    constructor (streams: seq<Stream>)
      ensures Valid() && arena == streams && listeners == []
    {
      arena, listeners := streams, [];
    }

    method Register(id: nat)
      requires Valid() && id < |arena|
      modifies this`listeners
      ensures Valid() && listeners == old(listeners) + [id]
    {
      listeners := listeners + [id];
    }

    /** Drops every registration of the stream and keeps the order of the rest. */
    method Unregister(id: nat)
      requires Valid()
      modifies this`listeners
      ensures Valid() && listeners == Without(old(listeners), id)
    {
      var kept := [];
      for k := 0 to |listeners|
        invariant kept == Without(listeners[..k], id)
      {
        assert listeners[..k + 1][..k] == listeners[..k];
        if listeners[k] != id { kept := kept + [listeners[k]]; }
      }
      assert listeners[..|listeners|] == listeners;
      WithoutMembers(listeners, id, |arena|);
      listeners := kept;
    }

    method Notify(e: Entry)
      requires Valid()
      modifies this
      ensures Valid() && OfferedAll(old(arena), old(listeners), e, arena)
      ensures listeners == Survivors(old(listeners), Failures(old(arena), old(listeners), e), 0)
    {
      var offered, dead := OfferEach(arena, listeners, e);
      ghost var failed := Failures(arena, listeners, e);
      SurvivorsAreListeners(listeners, failed, 0, |arena|);
      var left := RemoveDead(listeners, dead, failed);
      arena, listeners := offered, left;
    }

    /** The event at the front, whether or not the stream is closed. */
    method TryNext(id: nat) returns (event: Option<Event>)
      requires Valid() && id < |arena|
      modifies this`arena
      ensures Valid() && arena == old(arena)[id := Taken(old(arena)[id])]
      ensures event == if old(arena)[id].queue == [] then None else Some(old(arena)[id].queue[0])
    {
      var s := arena[id];
      if s.queue == [] { event := None; return; }
      event := Some(s.queue[0]);
      arena := arena[id := s.(queue := s.queue[1..], consumed := s.consumed + [s.queue[0]])];
    }

    /** A closed stream yields nothing here, even with events queued. */
    method Next(id: nat) returns (event: Option<Event>)
      requires Valid() && id < |arena|
      modifies this`arena
      ensures Valid() && arena == if old(arena)[id].closed then old(arena) else old(arena)[id := Taken(old(arena)[id])]
      ensures event == if old(arena)[id].closed || old(arena)[id].queue == [] then None else Some(old(arena)[id].queue[0])
    {
      if arena[id].closed { return None; }
      event := TryNext(id);
    }

    method Close(id: nat)
      requires Valid() && id < |arena|
      modifies this`arena
      ensures Valid() && arena == old(arena)[id := old(arena)[id].(closed := true)]
    {
      arena := arena[id := arena[id].(closed := true)];
    }

    /**
      In every interleaving: for each stream, what was consumed followed by what is
      queued is the in-order image of the entries written while it was registered and
      open, whatever was polled, awaited, closed or dropped in between.
     */
    method Run(acts: seq<Act>)
      requires listeners == [] && forall k :: 0 <= k < |acts| ==> ActOk(acts[k], |arena|)
      requires forall i :: 0 <= i < |arena| ==> arena[i].queue == [] && arena[i].consumed == [] && !arena[i].closed
      modifies this
      ensures Valid() && AllTrack(arena, old(arena), listeners, acts)
    {
      for k := 0 to |acts|
        invariant Valid() && AllTrack(arena, old(arena), listeners, acts[..k])
      {
        ghost var was, ids := arena, listeners;
        match acts[k] {
          case Join(id) => Register(id);
          case Leave(id) => Unregister(id);
          case Write(e) => Notify(e);
          case Poll(id) => var _ := TryNext(id);
          case Await(id) => var _ := Next(id);
          case Shut(id) => Close(id);
        }
        AllActed(was, ids, acts, k, arena, listeners, old(arena));
      }
      assert acts[..|acts|] == acts;
    }
  }

  lemma AllActed(arena: seq<Stream>, ids: seq<nat>, acts: seq<Act>, k: nat, arena': seq<Stream>, ids': seq<nat>,
                 made: seq<Stream>)
    requires k < |acts| && Within(ids, |arena|) && ActOk(acts[k], |arena|) && Acted(arena, ids, acts[k], arena', ids')
    requires AllTrack(arena, made, ids, acts[..k])
    ensures AllTrack(arena', made, ids', acts[..k + 1])
  {
    assert acts[..k + 1][..k] == acts[..k];
    if arena == [] {
      assert |arena'| == 0;
    }
    forall i | 0 <= i < |arena| ensures |arena'| == |arena| && Tracks(arena'[i], made[i], ids', i, Expected(acts[..k + 1], i)) {
      ActTracks(arena, ids, acts[k], arena', ids', made[i], Expected(acts[..k], i), i);
    }
  }
}
