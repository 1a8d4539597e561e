/**
  CRDT merging of documents: annotated fields join as counters or sets, the rest
  follow the later timestamp.  List items are told apart by a dedup key (their JSON
  text when they are dictionaries or lists), so sets are compared by their keys.
 */
module Crdt {
  import opened Common
  import opened MergeTrees

  type ItemKey = Value -> Value

  datatype Kind = Counter | GSet | Unknown

  type Annotations = map<string, Kind>

  // ---------- the merge ----------

  function Keys(key: ItemKey, items: seq<Value>): set<Value> {
    set x | x in items :: key(x)
  }

  /** The items whose key is new, first occurrence kept. */
  function Fresh(key: ItemKey, items: seq<Value>, seen: set<Value>): seq<Value> {
    if items == [] then []
    else if key(items[0]) in seen then Fresh(key, items[1..], seen)
    else [items[0]] + Fresh(key, items[1..], seen + {key(items[0])})
  }

  function CounterMerge(l: Value, r: Value): Value {
    if l.Num? && r.Num? then Num(if l.n < r.n then r.n else l.n) else r
  }

  function SetMerge(key: ItemKey, l: Value, r: Value): Value {
    if l.List? && r.List? then List(Fresh(key, l.items + r.items, {})) else r
  }

  function MergeField(key: ItemKey, ann: Annotations, l: Doc, r: Doc, f: string): Value {
    var remoteLater := Stamp(r) >= Stamp(l);
    if f in ann then
      match ann[f]
      case Counter => CounterMerge(Get(l, f), Get(r, f))
      case GSet => SetMerge(key, Get(l, f), Get(r, f))
      case Unknown => if remoteLater then Get(r, f) else Get(l, f)
    else if f !in r then Get(l, f)
    else if remoteLater || f !in l then r[f] else l[f]
  }

  function MergeDoc(key: ItemKey, ann: Annotations, l: Doc, r: Doc): Doc {
    map f | f in l.Keys + r.Keys && (f == ID ==> f in l) :: if f == ID then l[f] else MergeField(key, ann, l, r, f)
  }

  /** The loop over both documents' fields, in whatever order the set yields them. */
  method CrdtMergeDoc(key: ItemKey, ann: Annotations, l: Doc, r: Doc) returns (merged: Doc)
    ensures merged == MergeDoc(key, ann, l, r)
  {
    merged := l;
    var todo := l.Keys + r.Keys;
    while todo != {}
      invariant todo <= l.Keys + r.Keys
      invariant forall f :: f in l.Keys + r.Keys - todo && f != ID ==> f in merged && merged[f] == MergeField(key, ann, l, r, f)
      invariant forall f :: f in l && (f in todo || f == ID) ==> f in merged && merged[f] == l[f]
      invariant forall f :: f in merged ==> f in l || (f in r && f != ID)
    {
      var f :| f in todo;
      todo := todo - {f};
      if f != ID {
        var v := CrdtMergeField(key, ann, l, r, f);
        merged := merged[f := v];
      }
    }
  }

  /** One field: two sets are joined by the scan below. */
  method CrdtMergeField(key: ItemKey, ann: Annotations, l: Doc, r: Doc, f: string) returns (v: Value)
    ensures v == MergeField(key, ann, l, r, f)
  {
    if f in ann && ann[f].GSet? && Get(l, f).List? && Get(r, f).List? {
      var merged := CrdtSetMerge(key, Get(l, f).items, Get(r, f).items);
      return List(merged);
    }
    v := MergeField(key, ann, l, r, f);
  }

  /** The scan that builds a set union: items in order, each key once. */
  method CrdtSetMerge(key: ItemKey, l: seq<Value>, r: seq<Value>) returns (merged: seq<Value>)
    ensures merged == Fresh(key, l + r, {})
    ensures Keys(key, merged) == Keys(key, l) + Keys(key, r)
  {
    var items, seen := l + r, {};
    merged := [];
    assert items[0..] == items;
    for i := 0 to |items|
      invariant merged + Fresh(key, items[i..], seen) == Fresh(key, items, {})
    {
      assert items[i..][1..] == items[i + 1..];
      if key(items[i]) !in seen {
        seen := seen + {key(items[i])};
        merged := merged + [items[i]];
      }
    }
    FreshKeys(key, items, {});
    assert Keys(key, items) == Keys(key, l) + Keys(key, r);
  }

  lemma {:induction false} FreshKeys(key: ItemKey, items: seq<Value>, seen: set<Value>)
    ensures Keys(key, Fresh(key, items, seen)) == Keys(key, items) - seen
  {
    if items != [] {
      var x, rest := key(items[0]), items[1..];
      assert items == [items[0]] + rest;
      assert Keys(key, items) == {x} + Keys(key, rest);
      if x in seen {
        FreshKeys(key, rest, seen);
      } else {
        FreshKeys(key, rest, seen + {x});
        var tail := Fresh(key, rest, seen + {x});
        assert Keys(key, [items[0]] + tail) == {x} + Keys(key, tail);
      }
    }
  }

  // ---------- merge order does not matter ----------

  /** Annotated fields hold what their annotation says; the timestamp is a number and not annotated. */
  ghost predicate WellTyped(ann: Annotations, fields: set<string>, d: Doc) {
    && d.Keys == fields && ID in d && STAMP in d && d[STAMP].Num?
    && STAMP !in ann && ID !in ann
    && (forall f :: f in d && f in ann ==> (ann[f].Counter? ==> d[f].Num?) && (ann[f].GSet? ==> d[f].List?))
  }

  predicate Plain(ann: Annotations, f: string) {
    f !in ann || ann[f].Unknown?
  }

  ghost predicate SamePlain(ann: Annotations, a: Doc, b: Doc) {
    a.Keys == b.Keys && forall f :: f in a && Plain(ann, f) ==> a[f] == b[f]
  }

  /** Versions of one document: shared fields and id, and one version per timestamp. */
  ghost predicate Versions(ann: Annotations, fields: set<string>, docs: set<Doc>) {
    && (forall d :: d in docs ==> WellTyped(ann, fields, d))
    && (forall a, b :: a in docs && b in docs ==> Compatible(ann, a, b))
  }

  ghost predicate Compatible(ann: Annotations, a: Doc, b: Doc) {
    Get(a, ID) == Get(b, ID) && (Stamp(a) == Stamp(b) ==> SamePlain(ann, a, b))
  }

  /** What a set of versions means: latest plain fields, largest counters, union of sets. */
  ghost predicate IsJoin(key: ItemKey, ann: Annotations, fields: set<string>, docs: set<Doc>, r: Doc) {
    && WellTyped(ann, fields, r)
    && IsLatest(ann, docs, r)
    && (forall f :: f in fields && f in ann && ann[f].Counter? ==> IsMax(docs, f, Get(r, f)))
    && (forall f :: f in fields && f in ann && ann[f].GSet? ==> IsUnion(key, docs, f, Get(r, f)))
  }

  ghost predicate IsLatest(ann: Annotations, docs: set<Doc>, r: Doc) {
    && (exists d :: d in docs && SamePlain(ann, d, r))
    && (forall d :: d in docs ==> Stamp(d) <= Stamp(r))
  }

  ghost predicate IsMax(docs: set<Doc>, f: string, v: Value) {
    && (exists d :: d in docs && Get(d, f) == v)
    && (forall d :: d in docs && Get(d, f).Num? && v.Num? ==> Get(d, f).n <= v.n)
  }

  ghost predicate IsUnion(key: ItemKey, docs: set<Doc>, f: string, v: Value) {
    v.List? && forall x :: x in Keys(key, v.items) <==>
      exists d :: d in docs && Get(d, f).List? && x in Keys(key, Get(d, f).items)
  }

  /** Equal documents, set fields compared as sets. */
  ghost predicate SameDoc(key: ItemKey, ann: Annotations, a: Doc, b: Doc) {
    && a.Keys == b.Keys
    && (forall f :: f in a ==>
          if f in ann && ann[f].GSet? && a[f].List? && b[f].List? then Keys(key, a[f].items) == Keys(key, b[f].items)
          else a[f] == b[f])
  }

  lemma JoinOfOne(key: ItemKey, ann: Annotations, fields: set<string>, d: Doc)
    requires WellTyped(ann, fields, d)
    ensures IsJoin(key, ann, fields, {d}, d)
  {
    assert SamePlain(ann, d, d);
  }

  /** Merging two joins joins their sources. */
  lemma JoinOfJoins(key: ItemKey, ann: Annotations, fields: set<string>, ds: set<Doc>, a: Doc, es: set<Doc>, b: Doc)
    requires IsJoin(key, ann, fields, ds, a) && IsJoin(key, ann, fields, es, b) && a[ID] == b[ID]
    ensures IsJoin(key, ann, fields, ds + es, MergeDoc(key, ann, a, b))
  {
    var m := MergeDoc(key, ann, a, b);
    MergeIsTyped(key, ann, fields, a, b);
    MergeIsLatest(key, ann, fields, ds, a, es, b);
    forall f | f in fields && f in ann && ann[f].Counter? ensures IsMax(ds + es, f, Get(m, f)) {
      assert IsMax(ds, f, Get(a, f)) && IsMax(es, f, Get(b, f));
      JoinCounter(ds, es, f, Get(a, f), Get(b, f));
    }
    forall f | f in fields && f in ann && ann[f].GSet? ensures IsUnion(key, ds + es, f, Get(m, f)) {
      assert IsUnion(key, ds, f, Get(a, f)) && IsUnion(key, es, f, Get(b, f));
      JoinSet(key, ds, es, f, Get(a, f), Get(b, f));
    }
  }

  lemma MergeIsTyped(key: ItemKey, ann: Annotations, fields: set<string>, a: Doc, b: Doc)
    requires WellTyped(ann, fields, a) && WellTyped(ann, fields, b)
    ensures WellTyped(ann, fields, MergeDoc(key, ann, a, b))
    ensures forall f :: f in fields && f != ID ==> Get(MergeDoc(key, ann, a, b), f) == MergeField(key, ann, a, b, f)
  {
    var m := MergeDoc(key, ann, a, b);
    assert m[STAMP] == MergeField(key, ann, a, b, STAMP);
    forall f | f in m && f in ann ensures (ann[f].Counter? ==> m[f].Num?) && (ann[f].GSet? ==> m[f].List?) {
      assert m[f] == MergeField(key, ann, a, b, f) && f in a && f in b;
    }
  }

  /** The plain fields of a merge are those of the later side, and so is its timestamp. */
  lemma MergeTakesLater(key: ItemKey, ann: Annotations, fields: set<string>, a: Doc, b: Doc)
    requires WellTyped(ann, fields, a) && WellTyped(ann, fields, b) && a[ID] == b[ID]
    ensures var m := MergeDoc(key, ann, a, b);
            SamePlain(ann, if Stamp(b) >= Stamp(a) then b else a, m) && Stamp(a) <= Stamp(m) && Stamp(b) <= Stamp(m)
  {
    var m := MergeDoc(key, ann, a, b);
    assert m[STAMP] == MergeField(key, ann, a, b, STAMP);
    forall f | f in fields && Plain(ann, f) ensures m[f] == if Stamp(b) >= Stamp(a) then b[f] else a[f] {
      if f != ID { assert m[f] == MergeField(key, ann, a, b, f); }
    }
  }

  lemma MergeIsLatest(key: ItemKey, ann: Annotations, fields: set<string>, ds: set<Doc>, a: Doc, es: set<Doc>, b: Doc)
    requires WellTyped(ann, fields, a) && WellTyped(ann, fields, b) && a[ID] == b[ID]
    requires IsLatest(ann, ds, a) && IsLatest(ann, es, b)
    ensures IsLatest(ann, ds + es, MergeDoc(key, ann, a, b))
  {
    MergeTakesLater(key, ann, fields, a, b);
    var d :| d in ds && SamePlain(ann, d, a);
    var e :| e in es && SamePlain(ann, e, b);
    var w := if Stamp(b) >= Stamp(a) then e else d;
    assert w in ds + es && SamePlain(ann, w, MergeDoc(key, ann, a, b));
  }

  lemma JoinCounter(ds: set<Doc>, es: set<Doc>, f: string, u: Value, v: Value)
    requires IsMax(ds, f, u) && IsMax(es, f, v) && u.Num? && v.Num?
    ensures IsMax(ds + es, f, CounterMerge(u, v))
  {
    var d :| d in ds && Get(d, f) == u;
    var e :| e in es && Get(e, f) == v;
    assert d in ds + es && e in ds + es;
  }

  lemma JoinSet(key: ItemKey, ds: set<Doc>, es: set<Doc>, f: string, u: Value, v: Value)
    requires IsUnion(key, ds, f, u) && IsUnion(key, es, f, v)
    ensures IsUnion(key, ds + es, f, SetMerge(key, u, v))
  {
    var all := u.items + v.items;
    FreshKeys(key, all, {});
    assert Keys(key, all) == Keys(key, u.items) + Keys(key, v.items);
    forall x ensures x in Keys(key, all) <==> exists d :: d in ds + es && Get(d, f).List? && x in Keys(key, Get(d, f).items) {
      if d :| d in ds + es && Get(d, f).List? && x in Keys(key, Get(d, f).items) {
        assert d in ds || d in es;
      }
    }
  }

  lemma PlainStamp(ann: Annotations, a: Doc, b: Doc)
    requires SamePlain(ann, a, b) && STAMP !in ann
    ensures Stamp(a) == Stamp(b)
  {
    assert Get(a, STAMP) == Get(b, STAMP);
  }

  lemma SamePlainChain(ann: Annotations, r: Doc, d: Doc, e: Doc, s: Doc)
    requires SamePlain(ann, d, r) && SamePlain(ann, d, e) && SamePlain(ann, e, s)
    ensures SamePlain(ann, r, s)
  {
  }

  lemma LatestUnique(ann: Annotations, docs: set<Doc>, r: Doc, s: Doc)
    requires forall a, b :: a in docs && b in docs ==> Compatible(ann, a, b)
    requires IsLatest(ann, docs, r) && IsLatest(ann, docs, s) && STAMP !in ann
    ensures SamePlain(ann, r, s)
  {
    var d :| d in docs && SamePlain(ann, d, r);
    var e :| e in docs && SamePlain(ann, e, s);
    PlainStamp(ann, d, r);
    PlainStamp(ann, e, s);
    assert Stamp(d) <= Stamp(s) && Stamp(e) <= Stamp(r);
    assert Compatible(ann, d, e);
    SamePlainChain(ann, r, d, e, s);
  }

  lemma JoinUnique(key: ItemKey, ann: Annotations, fields: set<string>, docs: set<Doc>, r: Doc, s: Doc)
    requires Versions(ann, fields, docs) && IsJoin(key, ann, fields, docs, r) && IsJoin(key, ann, fields, docs, s)
    ensures SameDoc(key, ann, r, s)
  {
    LatestUnique(ann, docs, r, s);
    forall f | f in r && !Plain(ann, f)
      ensures if ann[f].GSet? && r[f].List? && s[f].List? then Keys(key, r[f].items) == Keys(key, s[f].items) else r[f] == s[f]
    {
      if ann[f].Counter? {
        MaxUnique(docs, f, Get(r, f), Get(s, f));
      } else {
        UnionUnique(key, docs, f, Get(r, f), Get(s, f));
      }
    }
  }

  lemma MaxUnique(docs: set<Doc>, f: string, u: Value, v: Value)
    requires IsMax(docs, f, u) && IsMax(docs, f, v) && u.Num? && v.Num?
    ensures u == v
  {
    var d :| d in docs && Get(d, f) == u;
    var e :| e in docs && Get(e, f) == v;
  }

  lemma UnionUnique(key: ItemKey, docs: set<Doc>, f: string, u: Value, v: Value)
    requires IsUnion(key, docs, f, u) && IsUnion(key, docs, f, v)
    ensures Keys(key, u.items) == Keys(key, v.items)
  {
  }

  ghost function MergeOp(key: ItemKey, ann: Annotations): (Doc, Doc) -> Doc {
    (a, b) => MergeDoc(key, ann, a, b)
  }

  /** Any tree of merges computes the join of its leaves. */
  lemma {:induction false} TreeIsJoin(key: ItemKey, ann: Annotations, fields: set<string>, t: Tree<Doc>)
    requires Versions(ann, fields, Leaves(t))
    ensures IsJoin(key, ann, fields, Leaves(t), Eval(MergeOp(key, ann), t))
  {
    match t
    case Leaf(d) => JoinOfOne(key, ann, fields, d);
    case Node(l, r) =>
      var a, b := Eval(MergeOp(key, ann), l), Eval(MergeOp(key, ann), r);
      FewerVersions(ann, fields, Leaves(l), Leaves(t));
      FewerVersions(ann, fields, Leaves(r), Leaves(t));
      TreeIsJoin(key, ann, fields, l);
      TreeIsJoin(key, ann, fields, r);
      SameId(key, ann, fields, Leaves(l), a, Leaves(r), b);
      JoinOfJoins(key, ann, fields, Leaves(l), a, Leaves(r), b);
  }

  lemma FewerVersions(ann: Annotations, fields: set<string>, ds: set<Doc>, es: set<Doc>)
    requires Versions(ann, fields, es) && ds <= es
    ensures Versions(ann, fields, ds)
  {
  }

  lemma SameId(key: ItemKey, ann: Annotations, fields: set<string>, ds: set<Doc>, a: Doc, es: set<Doc>, b: Doc)
    requires Versions(ann, fields, ds + es) && IsJoin(key, ann, fields, ds, a) && IsJoin(key, ann, fields, es, b)
    ensures a[ID] == b[ID]
  {
    var d :| d in ds && SamePlain(ann, d, a);
    var e :| e in es && SamePlain(ann, e, b);
    assert d in ds + es && e in ds + es && Compatible(ann, d, e);
  }

  /**
    Whatever the order, the grouping and the repetitions in which replicas meet, the
    same versions give the same document: merge is commutative, associative and
    idempotent at once.
   */
  lemma MergeOrderIrrelevant(key: ItemKey, ann: Annotations, fields: set<string>, t: Tree<Doc>, u: Tree<Doc>)
    requires Versions(ann, fields, Leaves(t)) && Leaves(t) == Leaves(u)
    ensures SameDoc(key, ann, Eval(MergeOp(key, ann), t), Eval(MergeOp(key, ann), u))
  {
    TreeIsJoin(key, ann, fields, t);
    TreeIsJoin(key, ann, fields, u);
    JoinUnique(key, ann, fields, Leaves(t), Eval(MergeOp(key, ann), t), Eval(MergeOp(key, ann), u));
  }

  /** In particular every permutation of a list of versions folds to one result. */
  lemma FoldPermutes(key: ItemKey, ann: Annotations, fields: set<string>, ds: seq<Doc>, es: seq<Doc>)
    requires ds != [] && multiset(ds) == multiset(es) && Versions(ann, fields, set d | d in ds)
    ensures es != [] && SameDoc(key, ann, Eval(MergeOp(key, ann), FoldTree(ds)), Eval(MergeOp(key, ann), FoldTree(es)))
  {
    assert ds[0] in multiset(es);
    forall d ensures d in ds <==> d in es {
      assert d in ds <==> d in multiset(ds);
      assert d in es <==> d in multiset(es);
    }
    FoldLeaves(ds);
    FoldLeaves(es);
    MergeOrderIrrelevant(key, ann, fields, FoldTree(ds), FoldTree(es));
  }

  // ---------- where the hypotheses matter ----------

  /** Two versions commute exactly when they are told apart by time or do not differ in plain fields. */
  lemma CommutesExactly(key: ItemKey, ann: Annotations, fields: set<string>, a: Doc, b: Doc)
    requires WellTyped(ann, fields, a) && WellTyped(ann, fields, b) && a[ID] == b[ID]
    ensures SameDoc(key, ann, MergeDoc(key, ann, a, b), MergeDoc(key, ann, b, a)) <==> Compatible(ann, a, b)
  {
    if Compatible(ann, a, b) {
      CompatibleCommutes(key, ann, fields, a, b);
    } else {
      var f :| f in a && Plain(ann, f) && a[f] != b[f];
      TieDiffers(key, ann, a, b, f);
    }
  }

  lemma CompatibleCommutes(key: ItemKey, ann: Annotations, fields: set<string>, a: Doc, b: Doc)
    requires WellTyped(ann, fields, a) && WellTyped(ann, fields, b) && Compatible(ann, a, b)
    ensures SameDoc(key, ann, MergeDoc(key, ann, a, b), MergeDoc(key, ann, b, a))
  {
    var t, u := Node(Leaf(a), Leaf(b)), Node(Leaf(b), Leaf(a));
    assert Leaves(Leaf(a)) == {a} && Leaves(Leaf(b)) == {b} && {b} + {a} == {a} + {b} == {a, b};
    assert Leaves(t) == {a} + {b} && Leaves(u) == {b} + {a};
    assert Compatible(ann, b, a) && Compatible(ann, a, a) && Compatible(ann, b, b);
    MergeOrderIrrelevant(key, ann, fields, t, u);
    assert Eval(MergeOp(key, ann), t) == MergeDoc(key, ann, a, b);
    assert Eval(MergeOp(key, ann), u) == MergeDoc(key, ann, b, a);
  }

  lemma TieDiffers(key: ItemKey, ann: Annotations, a: Doc, b: Doc, f: string)
    requires Stamp(a) == Stamp(b) && f != ID && f in a && f in b && Plain(ann, f) && a[f] != b[f]
    ensures !SameDoc(key, ann, MergeDoc(key, ann, a, b), MergeDoc(key, ann, b, a))
  {
    var m, n := MergeDoc(key, ann, a, b), MergeDoc(key, ann, b, a);
    assert m[f] == MergeField(key, ann, a, b, f) == b[f];
    assert n[f] == MergeField(key, ann, b, a, f) == a[f];
  }

  // ---------- versions that do not share their fields ----------

  /** Counters commute if and only if both sides hold a number or both hold the same. */
  lemma CounterCommutesExactly(key: ItemKey, ann: Annotations, l: Doc, r: Doc, f: string)
    requires f in ann && ann[f].Counter? && f != ID && f in l.Keys + r.Keys
    ensures MergeDoc(key, ann, l, r)[f] == MergeDoc(key, ann, r, l)[f] <==>
            (Get(l, f).Num? && Get(r, f).Num?) || Get(l, f) == Get(r, f)
  {
    assert MergeDoc(key, ann, l, r)[f] == CounterMerge(Get(l, f), Get(r, f));
    assert MergeDoc(key, ann, r, l)[f] == CounterMerge(Get(r, f), Get(l, f));
  }

  /** Counters associate unless the middle version forgets a count larger than the last one's. */
  lemma CounterAssociatesExactly(a: Value, b: Value, c: Value)
    ensures CounterMerge(CounterMerge(a, b), c) == CounterMerge(a, CounterMerge(b, c)) <==>
            !(a.Num? && !b.Num? && c.Num? && c.n < a.n)
  {
  }

  ghost predicate SameSet(key: ItemKey, u: Value, v: Value) {
    u == v || (u.List? && v.List? && Keys(key, u.items) == Keys(key, v.items))
  }

  lemma UnionKeys(key: ItemKey, a: seq<Value>, b: seq<Value>)
    ensures Keys(key, Fresh(key, a + b, {})) == Keys(key, a) + Keys(key, b)
  {
    FreshKeys(key, a + b, {});
    assert Keys(key, a + b) == Keys(key, a) + Keys(key, b);
  }

  /** Sets commute if and only if both sides hold a list or both hold the same. */
  lemma SetCommutesExactly(key: ItemKey, l: Value, r: Value)
    ensures SameSet(key, SetMerge(key, l, r), SetMerge(key, r, l)) <==> (l.List? && r.List?) || l == r
  {
    if l.List? && r.List? {
      UnionKeys(key, l.items, r.items);
      UnionKeys(key, r.items, l.items);
    }
  }

  /** Sets associate unless the middle version forgets an item the last one lacks. */
  lemma SetAssociatesExactly(key: ItemKey, a: Value, b: Value, c: Value)
    ensures SameSet(key, SetMerge(key, SetMerge(key, a, b), c), SetMerge(key, a, SetMerge(key, b, c))) <==>
            !(a.List? && !b.List? && c.List? && !(Keys(key, a.items) <= Keys(key, c.items)))
  {
    if a.List? && c.List? {
      UnionKeys(key, a.items, c.items);
      assert Keys(key, a.items) + Keys(key, c.items) == Keys(key, c.items) <==> Keys(key, a.items) <= Keys(key, c.items);
      if b.List? {
        UnionKeys(key, a.items, b.items);
        UnionKeys(key, b.items, c.items);
        UnionKeys(key, Fresh(key, a.items + b.items, {}), c.items);
        UnionKeys(key, a.items, Fresh(key, b.items + c.items, {}));
      }
    }
  }

  predicate Stamped(d: Doc) {
    STAMP in d && d[STAMP].Num?
  }

  /** One of three versions lacks the field and its timestamp decides between the other two differently per grouping. */
  predicate Torn(a: Doc, b: Doc, c: Doc, f: string) {
    || (f in a && f !in b && f in c && a[f] != c[f] && Stamp(b) >= Stamp(a) && Stamp(b) > Stamp(c))
    || (f in a && f in b && f !in c && a[f] != b[f] && Stamp(b) < Stamp(a) <= Stamp(c))
    || (f !in a && f in b && f in c && b[f] != c[f] && Stamp(b) <= Stamp(c) < Stamp(a))
  }

  lemma MergeAt(key: ItemKey, ann: Annotations, l: Doc, r: Doc, f: string)
    requires Stamped(l) && Stamped(r) && STAMP !in ann && Plain(ann, f) && f != ID && f != STAMP
    ensures var m := MergeDoc(key, ann, l, r);
            && Stamped(m) && Stamp(m) == (if Stamp(r) >= Stamp(l) then Stamp(r) else Stamp(l))
            && (f in m <==> f in l || f in r)
            && (f in m && f !in ann ==> m[f] == if f in r && (Stamp(r) >= Stamp(l) || f !in l) then r[f] else l[f])
            && (f in ann ==> Get(m, f) == if Stamp(r) >= Stamp(l) then Get(r, f) else Get(l, f))
  {
    var m := MergeDoc(key, ann, l, r);
    assert m[STAMP] == MergeField(key, ann, l, r, STAMP);
    if f in m { assert m[f] == MergeField(key, ann, l, r, f); }
  }

  /** The grouping of three versions matters at a plain field if and only if it is unannotated and they are torn there. */
  lemma GroupingExactly(key: ItemKey, ann: Annotations, a: Doc, b: Doc, c: Doc, f: string)
    requires Stamped(a) && Stamped(b) && Stamped(c) && STAMP !in ann && Plain(ann, f) && f != ID && f != STAMP
    ensures var left, right := MergeDoc(key, ann, MergeDoc(key, ann, a, b), c), MergeDoc(key, ann, a, MergeDoc(key, ann, b, c));
            && (f in left <==> f in right)
            && (Get(left, f) == Get(right, f) <==> f in ann || !Torn(a, b, c, f))
  {
    MergeAt(key, ann, a, b, f);
    MergeAt(key, ann, b, c, f);
    MergeAt(key, ann, MergeDoc(key, ann, a, b), c, f);
    MergeAt(key, ann, a, MergeDoc(key, ann, b, c), f);
  }

  /** Three such versions. */
  lemma UnsharedFieldsDiffer(key: ItemKey)
    ensures var a: Doc := map[ID := Num(0.0), "x" := Num(1.0), STAMP := Num(1.0)];
            var b: Doc := map[ID := Num(0.0), STAMP := Num(3.0)];
            var c: Doc := map[ID := Num(0.0), "x" := Num(2.0), STAMP := Num(2.0)];
            Get(MergeDoc(key, map[], MergeDoc(key, map[], a, b), c), "x")
              != Get(MergeDoc(key, map[], a, MergeDoc(key, map[], b, c)), "x")
  {
    var a: Doc := map[ID := Num(0.0), "x" := Num(1.0), STAMP := Num(1.0)];
    var b: Doc := map[ID := Num(0.0), STAMP := Num(3.0)];
    var c: Doc := map[ID := Num(0.0), "x" := Num(2.0), STAMP := Num(2.0)];
    GroupingExactly(key, map[], a, b, c, "x");
  }
}
