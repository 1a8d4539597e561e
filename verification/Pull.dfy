/**
  Pull: a remote version of a document is inserted, recognised, or resolved against
  the local one, and the stored clock is the merge of both clocks ticked once.
 */
module Pull {
  import opened Common
  import opened VectorClocks
  import opened Crdt
  import opened Transform
  import opened Conflict

  datatype Resolver = LastWrite | LocalWins | RemoteWins | FieldLevel

  /** The sync configuration and the histories that push keeps, as pull finds them. */
  datatype Context = Context(node: string, resolver: Resolver, ann: Annotations, key: ItemKey, text: IdForm,
                             specs: map<Value, Spec>, changed: map<Value, set<string>>)

  predicate Commutative(s: Spec) {
    s.inc != map[] || s.push != map[] || s.addToSet != map[] || s.min != map[] || s.max != map[]
  }

  /** No update spec touches the id; the store refuses such updates. */
  ghost predicate ContextOk(x: Context) {
    forall id, op :: id in x.specs ==> ID !in Operands(x.specs[id], op)
  }

  // ---------- one delivery ----------

  function RealDiff(l: Doc, r: Doc): set<string> {
    Diff(l, r) - {STAMP} - {VCLOCK}
  }

  function Changed(x: Context, id: Value): set<string> {
    if id in x.changed then x.changed[id] else {}
  }

  function Resolve(x: Context, l: Doc, r: Doc, remoteChanged: Option<set<string>>): Doc {
    var lc, rc, id := ClockOf(l), ClockOf(r), Get(r, ID);
    if Clocked(r) && Dominates(rc, lc) then r
    else if Clocked(r) && Dominates(lc, rc) then l
    else if x.ann != map[] && (x.resolver.LastWrite? || x.resolver.FieldLevel?) then MergeDoc(x.key, x.ann, l, r)
    else if id in x.specs && Commutative(x.specs[id]) then Apply(x.key, x.specs[id], r)
    else match x.resolver
      case LastWrite => Lww(x.text, l, r)
      case LocalWins => l
      case RemoteWins => r
      case FieldLevel => FieldMerge(l, r, Changed(x, id), if remoteChanged.Some? then remoteChanged.value else RealDiff(l, r))
  }

  function NewClock(x: Context, l: Doc, r: Doc): Counters {
    Ticked(Merged(ClockOf(l), ClockOf(r)), x.node)
  }

  /** `$set` writes every field of the resolved document but the id, and never removes one. */
  function SetFields(x: Context, l: Doc, r: Doc, resolved: Doc): Doc {
    if Get(resolved, ID) == Get(r, ID) then l + (resolved - {ID})[VCLOCK := Clock(NewClock(x, l, r))] else l
  }

  /** The stored document after a delivery; `None` when reading the missing timestamp raises. */
  function Delivered(x: Context, local: Option<Doc>, r: Doc, remoteChanged: Option<set<string>>): Option<Doc> {
    if local.None? then Some(r[VCLOCK := Clock(Ticked(ClockOf(r), x.node))])
    else
      var l := local.value;
      if RealDiff(l, r) != {} then Some(SetFields(x, l, r, Resolve(x, l, r, remoteChanged)))
      else if Get(r, STAMP) == Get(l, STAMP) then Some(l)
      else if STAMP in r then Some(l[STAMP := r[STAMP]])
      else None
  }

  /** The delivery goes through conflict resolution and is stored. */
  predicate Resolves(x: Context, l: Doc, r: Doc, remoteChanged: Option<set<string>>) {
    RealDiff(l, r) != {} && Get(Resolve(x, l, r, remoteChanged), ID) == Get(r, ID)
  }

  /** The local documents after a delivery: a tombstoned id is skipped, and no other document changes. */
  function Upserted(x: Context, docs: map<Value, Doc>, marked: set<string>, r: Doc, rc: Option<set<string>>): map<Value, Doc>
    requires ID in r
  {
    var id := r[ID];
    var d := Delivered(x, Stored(docs, id), r, rc);
    if x.text(id) in marked || d.None? then docs else docs[id := d.value]
  }

  /** Whether the delivery raises, the new documents, and the clock remembered for what was stored. */
  method UpsertRemoteDoc(x: Context, docs: map<Value, Doc>, clocks: map<Value, Counters>, marks: map<string, real>, r: Doc,
                         remoteChanged: Option<set<string>>)
    returns (raised: bool, docs': map<Value, Doc>, clocks': map<Value, Counters>)
    requires ID in r
    ensures docs' == Upserted(x, docs, marks.Keys, r, remoteChanged)
    ensures raised <==> x.text(r[ID]) !in marks && Delivered(x, Stored(docs, r[ID]), r, remoteChanged).None?
    ensures clocks' == if x.text(r[ID]) in marks || (r[ID] in docs && !Resolves(x, docs[r[ID]], r, remoteChanged)) then clocks
                       else clocks[r[ID] := ClockOf(docs'[r[ID]])]
  {
    var id := r[ID];
    raised, docs', clocks' := false, docs, clocks;
    if x.text(id) in marks { return; }
    if id !in docs {
      var vc := new VectorClock(ClockOf(r));
      vc.Tick(x.node);
      docs', clocks' := docs[id := r[VCLOCK := Clock(vc.clock)]], clocks[id := vc.clock];
      return;
    }
    var d, vc := UpdateLocalDoc(x, docs[id], r, remoteChanged);
    if d.None? { raised := true; return; }
    docs' := docs[id := d.value];
    if vc.Some? { clocks' := clocks[id := vc.value]; }
  }

  /** The document found under the id: its new form, none if the delivery raises, and its clock if one is stored. */
  method UpdateLocalDoc(x: Context, l: Doc, r: Doc, remoteChanged: Option<set<string>>)
    returns (d: Option<Doc>, vc: Option<Counters>)
    requires ID in r
    ensures d == Delivered(x, Some(l), r, remoteChanged)
    ensures vc.Some? <==> Resolves(x, l, r, remoteChanged)
    ensures vc.Some? ==> d.Some? && vc.value == ClockOf(d.value)
  {
    d, vc := Some(l), None;
    var diff := DiffFields(l, r);
    if diff - {STAMP} - {VCLOCK} == {} {
      if Get(r, STAMP) != Get(l, STAMP) {
        d := if STAMP in r then Some(l[STAMP := r[STAMP]]) else None;
      }
      return;
    }
    var resolved := ResolveConflict(x, l, r, remoteChanged, diff - {STAMP} - {VCLOCK});
    if Get(resolved, ID) == r[ID] {
      var merged := JoinClocks(x, l, r);
      vc := Some(merged);
      d := Some(l + (resolved - {ID})[VCLOCK := Clock(vc.value)]);
      assert d.value[VCLOCK] == Clock(vc.value);
    }
  }

  /** The clock to store: both merged, then ticked for this node. */
  method JoinClocks(x: Context, l: Doc, r: Doc) returns (c: Counters)
    ensures c == NewClock(x, l, r)
  {
    var mine := new VectorClock(ClockOf(l));
    var theirs := new VectorClock(ClockOf(r));
    mine.Merge(theirs);
    mine.Tick(x.node);
    c := mine.clock;
  }

  function Stored(docs: map<Value, Doc>, id: Value): Option<Doc> {
    if id in docs then Some(docs[id]) else None
  }

  method ResolveConflict(x: Context, l: Doc, r: Doc, remoteChanged: Option<set<string>>, diff: set<string>)
    returns (resolved: Doc)
    requires diff == RealDiff(l, r)
    ensures resolved == Resolve(x, l, r, remoteChanged)
  {
    var id := Get(r, ID);
    if Clocked(r) {
      var mine := new VectorClock(ClockOf(l));
      var theirs := new VectorClock(ClockOf(r));
      var newer := theirs.DominatesOther(mine);
      if newer { return r; }
      var older := mine.DominatesOther(theirs);
      if older { return l; }
    }
    if x.ann != map[] && (x.resolver.LastWrite? || x.resolver.FieldLevel?) {
      resolved := CrdtMergeDoc(x.key, x.ann, l, r);
      return;
    }
    if id in x.specs && Commutative(x.specs[id]) {
      resolved := ApplyCommutativeToDoc(x.key, r, x.specs[id]);
      return;
    }
    match x.resolver
    case LastWrite => resolved := Lww(x.text, l, r);
    case LocalWins => resolved := l;
    case RemoteWins => resolved := r;
    case FieldLevel =>
      resolved := FieldMergeLoop(l, r, Changed(x, id), if remoteChanged.Some? then remoteChanged.value else diff);
  }

  // ---------- redelivery ----------

  predicate Meta(f: string) {
    f == STAMP || f == VCLOCK
  }

  ghost predicate SameUserFields(a: Doc, b: Doc) {
    forall f :: !Meta(f) ==> Look(a, f) == Look(b, f)
  }

  ghost predicate SoundClock(d: Doc) {
    Counted(ClockOf(d))
  }

  /** Delivering `r` to this document can no longer change a user field. */
  ghost predicate Absorbed(l: Doc, r: Doc) {
    RealDiff(l, r) == {} || Dominates(ClockOf(l), ClockOf(r))
  }

  /** The local document and the delivered version share their id. */
  ghost predicate OneDocument(l: Doc, r: Doc) {
    ID in l && ID in r && l[ID] == r[ID]
  }

  /** Whatever the strategy, the resolved document keeps the id, so its clock is stored. */
  lemma ResolvedKeepsId(x: Context, l: Doc, r: Doc, rc: Option<set<string>>)
    requires ContextOk(x) && OneDocument(l, r)
    ensures Get(Resolve(x, l, r, rc), ID) == r[ID]
  {
    var id := r[ID];
    if id in x.specs { SpecKeepsId(x.key, x.specs[id], r); }
    assert Get(MergeDoc(x.key, x.ann, l, r), ID) == r[ID];
    FieldMergeKeepsId(l, r, Changed(x, id), if rc.Some? then rc.value else RealDiff(l, r));
  }

  lemma FieldMergeKeepsId(l: Doc, r: Doc, mine: set<string>, theirs: set<string>)
    requires OneDocument(l, r)
    ensures Get(FieldMerge(l, r, mine, theirs), ID) == r[ID]
  {
  }

  lemma SpecKeepsId(key: ItemKey, s: Spec, r: Doc)
    requires ID in r && forall op :: ID !in Operands(s, op)
    ensures Get(Apply(key, s, r), ID) == r[ID]
  {
    ApplyAt(key, s, r, ID, Inc);
    assert ID !in Operands(s, Inc);
    assert Look(Apply(key, s, r), ID) == Look(r, ID);
  }

  /** Past the no-difference check, the stored clock strictly dominates both clocks it came from. */
  lemma ConflictStoresClock(x: Context, l: Doc, r: Doc, rc: Option<set<string>>)
    requires ContextOk(x) && OneDocument(l, r) && SoundClock(l) && SoundClock(r) && RealDiff(l, r) != {}
    ensures var d := Delivered(x, Some(l), r, rc);
            && d.Some? && OneDocument(d.value, r) && SoundClock(d.value)
            && ClockOf(d.value) == NewClock(x, l, r)
            && Dominates(ClockOf(d.value), ClockOf(l)) && Dominates(ClockOf(d.value), ClockOf(r))
  {
    ResolvedKeepsId(x, l, r, rc);
    MergeTickDominates(ClockOf(l), ClockOf(r), x.node);
    var d := Delivered(x, Some(l), r, rc).value;
    assert d[VCLOCK] == Clock(NewClock(x, l, r)) && d[ID] == l[ID];
  }

  lemma InsertStoresClock(x: Context, r: Doc, rc: Option<set<string>>)
    requires ID in r && SoundClock(r)
    ensures var d := Delivered(x, None, r, rc);
            && d.Some? && OneDocument(d.value, r) && SoundClock(d.value)
            && RealDiff(d.value, r) == {} && Dominates(ClockOf(d.value), ClockOf(r))
  {
    var d := Delivered(x, None, r, rc).value;
    assert d[VCLOCK] == Clock(Ticked(ClockOf(r), x.node)) && d[ID] == r[ID];
    MergeTickDominates(ClockOf(r), ClockOf(r), x.node);
    assert Merged(ClockOf(r), ClockOf(r)) == ClockOf(r);
  }

  /** The no-difference path touches the timestamp alone. */
  lemma SameContentStays(x: Context, l: Doc, r: Doc, rc: Option<set<string>>)
    requires RealDiff(l, r) == {} && OneDocument(l, r) && SoundClock(l)
    ensures var d := Delivered(x, Some(l), r, rc);
            d.Some? ==> && SameUserFields(d.value, l) && RealDiff(d.value, r) == {} && OneDocument(d.value, r)
                        && ClockOf(d.value) == ClockOf(l)
  {
    if STAMP in r {
      var d := l[STAMP := r[STAMP]];
      assert d[ID] == l[ID];
      forall f ensures f !in RealDiff(d, r) { assert f !in RealDiff(l, r); }
    }
  }

  /** A version the stored clock dominates loses, field by field. */
  lemma DominatedStays(x: Context, l: Doc, r: Doc, rc: Option<set<string>>)
    requires OneDocument(l, r) && SoundClock(l) && SoundClock(r) && Clocked(r) && RealDiff(l, r) != {}
    requires Dominates(ClockOf(l), ClockOf(r))
    ensures var d := Delivered(x, Some(l), r, rc); d.Some? && SameUserFields(d.value, l)
  {
    DominatesIsStrict(ClockOf(l), ClockOf(r));
    DominatesIsStrict(ClockOf(r), ClockOf(l));
    assert Resolve(x, l, r, rc) == l;
  }

  /** A document that has absorbed a version keeps its user fields when the version comes again. */
  lemma AbsorbedStays(x: Context, l: Doc, r: Doc, rc: Option<set<string>>)
    requires ContextOk(x) && OneDocument(l, r) && SoundClock(l) && SoundClock(r) && Clocked(r) && Absorbed(l, r)
    ensures var d := Delivered(x, Some(l), r, rc);
            d.Some? ==> SameUserFields(d.value, l) && Absorbed(d.value, r) && OneDocument(d.value, r) && SoundClock(d.value)
  {
    if RealDiff(l, r) == {} {
      SameContentStays(x, l, r, rc);
    } else {
      DominatedStays(x, l, r, rc);
      ConflictStoresClock(x, l, r, rc);
    }
  }

  /** A delivery as the store sees it: an exception leaves the document as it was. */
  function Step(x: Context, s: Option<Doc>, r: Doc, rc: Option<set<string>>): Option<Doc> {
    if Delivered(x, s, r, rc).Some? then Delivered(x, s, r, rc) else s
  }

  /** What a delivery meets: the histories of push at that time, and the change hint that comes with it. */
  datatype Arrival = Arrival(context: Context, changed: Option<set<string>>)

  /** `r` delivered once per arrival. */
  function Again(s: Option<Doc>, r: Doc, again: seq<Arrival>): Option<Doc> {
    if again == [] then s
    else
      var last := again[|again| - 1];
      Step(last.context, Again(s, r, again[..|again| - 1]), r, last.changed)
  }

  lemma FirstDelivery(x: Context, s: Option<Doc>, r: Doc, rc: Option<set<string>>)
    requires ContextOk(x) && ID in r && SoundClock(r)
    requires s.Some? ==> OneDocument(s.value, r) && SoundClock(s.value)
    ensures var d := Step(x, s, r, rc); d.Some? && Absorbed(d.value, r) && OneDocument(d.value, r) && SoundClock(d.value)
  {
    if s.None? {
      InsertStoresClock(x, r, rc);
    } else if RealDiff(s.value, r) != {} {
      ConflictStoresClock(x, s.value, r, rc);
    } else {
      SameContentStays(x, s.value, r, rc);
    }
  }

  /**
    Redelivery is harmless: for every resolver, with or without CRDT annotations or a
    pending commutative update at each delivery, a clocked version delivered any number
    of times more leaves every user field as the first delivery left it.
   */
  lemma {:induction false} RedeliveryHarmless(x: Context, s: Option<Doc>, r: Doc, rc: Option<set<string>>, again: seq<Arrival>)
    requires ContextOk(x) && (forall a :: a in again ==> ContextOk(a.context)) && ID in r && SoundClock(r) && Clocked(r)
    requires s.Some? ==> OneDocument(s.value, r) && SoundClock(s.value)
    ensures var first := Step(x, s, r, rc);
            var last := Again(first, r, again);
            && first.Some? && last.Some? && SameUserFields(last.value, first.value)
            && Absorbed(last.value, r) && OneDocument(last.value, r) && SoundClock(last.value)
  {
    FirstDelivery(x, s, r, rc);
    if again != [] {
      var before, last := again[..|again| - 1], again[|again| - 1];
      assert last in again;
      RedeliveryHarmless(x, s, r, rc, before);
      AbsorbedStays(last.context, Again(Step(x, s, r, rc), r, before).value, r, last.changed);
    }
  }

  /** A dominating version overrides field by field; fields only the local side has survive. */
  lemma DominantOverrides(x: Context, l: Doc, r: Doc, rc: Option<set<string>>)
    requires OneDocument(l, r) && Clocked(r) && Dominates(ClockOf(r), ClockOf(l)) && RealDiff(l, r) != {}
    ensures var d := Delivered(x, Some(l), r, rc);
            d.Some? && forall f :: f != VCLOCK ==> Look(d.value, f) == if f in r then Some(r[f]) else Look(l, f)
  {
  }
}
