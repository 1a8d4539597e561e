/**
  Operational transform: update specs made of commutative operators are merged into
  one spec, or re-applied on top of a remote document.
 */
module Transform {
  import opened Common
  import opened Crdt

  datatype Operator = Inc | Push | AddToSet | Min | Max

  /** Operands by field, one map per operator; an absent operator is an empty map. */
  datatype Spec = Spec(inc: map<string, Value>, push: map<string, Value>, addToSet: map<string, Value>,
                       min: map<string, Value>, max: map<string, Value>)

  function Operands(s: Spec, op: Operator): map<string, Value> {
    match op
    case Inc => s.inc
    case Push => s.push
    case AddToSet => s.addToSet
    case Min => s.min
    case Max => s.max
  }

  function Look(m: map<string, Value>, f: string): Option<Value> {
    if f in m then Some(m[f]) else None
  }

  /** A pushed operand is one item, or the items of its `$each` list. */
  function Items(v: Value): seq<Value> {
    if v.Obj? && "$each" in v.fields && v.fields["$each"].List? then v.fields["$each"].items else [v]
  }

  function Each(items: seq<Value>): Value {
    Obj(map["$each" := List(items)])
  }

  // ---------- applying ----------

  /** One operator on one field: the value after, absent if there is none. */
  function Update(key: ItemKey, op: Operator, cur: Option<Value>, v: Value): Option<Value> {
    match op
    case Inc =>
      var c := if cur.Some? then cur.value else Num(0.0);
      if c.Num? && v.Num? then Some(Num(c.n + v.n)) else cur
    case Push =>
      var c := if cur.Some? then cur.value else List([]);
      if c.List? then Some(List(c.items + Items(v))) else cur
    case AddToSet =>
      var c := if cur.Some? then cur.value else List([]);
      if c.List? then Some(List(c.items + Fresh(key, Items(v), Keys(key, c.items)))) else cur
    case Min =>
      if cur.None? || cur.value.Null? || (v.Num? && cur.value.Num? && v.n < cur.value.n) then Some(v) else cur
    case Max =>
      if cur.None? || cur.value.Null? || (v.Num? && cur.value.Num? && v.n > cur.value.n) then Some(v) else cur
  }

  function UpdateAt(key: ItemKey, op: Operator, ops: map<string, Value>, d: Doc, f: string): Option<Value> {
    if f in ops then Update(key, op, Look(d, f), ops[f]) else Look(d, f)
  }

  function ApplyOperator(key: ItemKey, op: Operator, ops: map<string, Value>, d: Doc): (r: Doc)
    ensures forall f :: Look(r, f) == UpdateAt(key, op, ops, d, f)
  {
    map f | f in d.Keys + ops.Keys && UpdateAt(key, op, ops, d, f).Some? :: UpdateAt(key, op, ops, d, f).value
  }

  function Apply(key: ItemKey, s: Spec, d: Doc): Doc {
    ApplyOperator(key, Max, s.max, ApplyOperator(key, Min, s.min,
      ApplyOperator(key, AddToSet, s.addToSet, ApplyOperator(key, Push, s.push, ApplyOperator(key, Inc, s.inc, d)))))
  }

  /** One loop over one operator's fields, in any order. */
  method ApplyLoop(key: ItemKey, op: Operator, ops: map<string, Value>, d: Doc) returns (r: Doc)
    ensures r == ApplyOperator(key, op, ops, d)
  {
    r := d;
    var todo := ops.Keys;
    while todo != {}
      invariant todo <= ops.Keys
      invariant forall f :: Look(r, f) == if f in todo then Look(d, f) else UpdateAt(key, op, ops, d, f)
    {
      var f :| f in todo;
      var v := Update(key, op, Look(r, f), ops[f]);
      if v.Some? { r := r[f := v.value]; }
      todo := todo - {f};
    }
    SameLookups(r, ApplyOperator(key, op, ops, d));
  }

  method ApplyCommutativeToDoc(key: ItemKey, base: Doc, s: Spec) returns (r: Doc)
    ensures r == Apply(key, s, base)
  {
    r := ApplyLoop(key, Inc, s.inc, base);
    r := ApplyLoop(key, Push, s.push, r);
    r := ApplyLoop(key, AddToSet, s.addToSet, r);
    r := ApplyLoop(key, Min, s.min, r);
    r := ApplyLoop(key, Max, s.max, r);
  }

  lemma SameLookups(a: Doc, b: Doc)
    requires forall f :: Look(a, f) == Look(b, f)
    ensures a == b
  {
    forall f ensures f in a <==> f in b { assert Look(a, f) == Look(b, f); }
    forall f | f in a ensures a[f] == b[f] { assert Look(a, f) == Look(b, f); }
  }

  // ---------- merging ----------

  function NonNull(v: Option<Value>): bool {
    v.Some? && !v.value.Null?
  }

  function Pushed(v: Option<Value>): seq<Value> {
    if NonNull(v) then Items(v.value) else []
  }

  function NumOr0(v: Option<Value>): real {
    if v.Some? && v.value.Num? then v.value.n else 0.0
  }

  /** The operand both sides amount to; at least one side has one. */
  function Combine(key: ItemKey, op: Operator, l: Option<Value>, r: Option<Value>): Value {
    match op
    case Inc => Num(NumOr0(l) + NumOr0(r))
    case Push => Each(Pushed(l) + Pushed(r))
    case AddToSet => Each(Fresh(key, Pushed(l) + Pushed(r), {}))
    case Min =>
      if NonNull(l) && NonNull(r) then if NumOr0(r) < NumOr0(l) then r.value else l.value
      else if NonNull(l) then l.value else if NonNull(r) then r.value else Null
    case Max =>
      if NonNull(l) && NonNull(r) then if NumOr0(r) > NumOr0(l) then r.value else l.value
      else if NonNull(l) then l.value else if NonNull(r) then r.value else Null
  }

  function MergeOperands(key: ItemKey, op: Operator, l: map<string, Value>, r: map<string, Value>): map<string, Value> {
    map f | f in l.Keys + r.Keys :: Combine(key, op, Look(l, f), Look(r, f))
  }

  function Merge(key: ItemKey, l: Spec, r: Spec): Spec {
    Spec(MergeOperands(key, Inc, l.inc, r.inc), MergeOperands(key, Push, l.push, r.push),
         MergeOperands(key, AddToSet, l.addToSet, r.addToSet),
         MergeOperands(key, Min, l.min, r.min), MergeOperands(key, Max, l.max, r.max))
  }

  method MergeLoop(key: ItemKey, op: Operator, l: map<string, Value>, r: map<string, Value>)
    returns (m: map<string, Value>)
    ensures m == MergeOperands(key, op, l, r)
  {
    m := map[];
    ghost var whole := MergeOperands(key, op, l, r);
    var todo := l.Keys + r.Keys;
    while todo != {}
      invariant todo <= l.Keys + r.Keys && m.Keys == whole.Keys - todo
      invariant forall f :: f in m ==> m[f] == whole[f]
    {
      var f :| f in todo;
      m := m[f := Combine(key, op, Look(l, f), Look(r, f))];
      todo := todo - {f};
    }
  }

  method MergeCommutativeOps(key: ItemKey, l: Spec, r: Spec) returns (m: Spec)
    ensures m == Merge(key, l, r)
  {
    var inc := MergeLoop(key, Inc, l.inc, r.inc);
    var push := MergeLoop(key, Push, l.push, r.push);
    var addToSet := MergeLoop(key, AddToSet, l.addToSet, r.addToSet);
    var min := MergeLoop(key, Min, l.min, r.min);
    var max := MergeLoop(key, Max, l.max, r.max);
    m := Spec(inc, push, addToSet, min, max);
  }

  // ---------- the homomorphism ----------

  /** No field is used under two operators. */
  ghost predicate OneOperator(l: Spec, r: Spec) {
    forall op, op' :: op != op' ==>
      (Operands(l, op).Keys + Operands(r, op).Keys) !! (Operands(l, op').Keys + Operands(r, op').Keys)
  }

  predicate OperandOk(op: Operator, v: Value) {
    if op.Push? || op.AddToSet? then !v.Null? else v.Num?
  }

  ghost predicate WellFormed(s: Spec) {
    forall op, f :: f in Operands(s, op) ==> OperandOk(op, Operands(s, op)[f])
  }

  lemma {:induction false} FreshConcat(key: ItemKey, a: seq<Value>, b: seq<Value>, seen: set<Value>)
    ensures Fresh(key, a + b, seen) == Fresh(key, a, seen) + Fresh(key, b, seen + Keys(key, a))
  {
    if a == [] {
      assert a + b == b && seen + Keys(key, a) == seen;
    } else {
      var x, rest := key(a[0]), a[1..];
      assert (a + b)[1..] == rest + b;
      assert a == [a[0]] + rest;
      assert Keys(key, a) == {x} + Keys(key, rest);
      if x in seen {
        FreshConcat(key, rest, b, seen);
        assert seen + Keys(key, a) == seen + Keys(key, rest);
      } else {
        FreshConcat(key, rest, b, seen + {x});
        assert seen + Keys(key, a) == seen + {x} + Keys(key, rest);
      }
    }
  }

  /** Deduplicating first changes nothing. */
  lemma {:induction false} FreshOfFresh(key: ItemKey, a: seq<Value>, t: set<Value>, s: set<Value>)
    requires t <= s
    ensures Fresh(key, Fresh(key, a, t), s) == Fresh(key, a, s)
  {
    if a != [] {
      var x, rest := key(a[0]), a[1..];
      if x in t {
        FreshOfFresh(key, rest, t, s);
      } else {
        var tail := Fresh(key, rest, t + {x});
        assert Fresh(key, a, t)[1..] == tail;
        if x in s {
          FreshOfFresh(key, rest, t + {x}, s);
        } else {
          FreshOfFresh(key, rest, t + {x}, s + {x});
        }
      }
    }
  }

  lemma AddToSetTwice(key: ItemKey, cur: seq<Value>, a: seq<Value>, b: seq<Value>)
    ensures var once := cur + Fresh(key, a, Keys(key, cur));
            && Keys(key, once) == Keys(key, cur) + Keys(key, a)
            && once + Fresh(key, b, Keys(key, once)) == cur + Fresh(key, Fresh(key, a + b, {}), Keys(key, cur))
  {
    var k := Keys(key, cur);
    var added := Fresh(key, a, k);
    FreshKeys(key, a, k);
    KeysConcat(key, cur, added);
    assert k + Keys(key, added) == k + Keys(key, a);
    FreshOfFresh(key, a + b, {}, k);
    FreshConcat(key, a, b, k);
    Regroup(cur, added, Fresh(key, b, k + Keys(key, a)));
  }

  lemma KeysConcat(key: ItemKey, a: seq<Value>, b: seq<Value>)
    ensures Keys(key, a + b) == Keys(key, a) + Keys(key, b)
  {
  }

  /** One side after the other. */
  function Both(key: ItemKey, op: Operator, cur: Option<Value>, l: Option<Value>, r: Option<Value>): Option<Value> {
    var mid := if l.Some? then Update(key, op, cur, l.value) else cur;
    if r.Some? then Update(key, op, mid, r.value) else mid
  }

  /** On one field, the combined operand does what the two do in turn. */
  lemma CombineIsBoth(key: ItemKey, op: Operator, cur: Option<Value>, l: Option<Value>, r: Option<Value>)
    requires (l.Some? || r.Some?) && (l.Some? ==> OperandOk(op, l.value)) && (r.Some? ==> OperandOk(op, r.value))
    ensures Update(key, op, cur, Combine(key, op, l, r)) == Both(key, op, cur, l, r)
  {
    var a, b := Pushed(l), Pushed(r);
    var c := if cur.Some? then cur.value else List([]);
    if c.List? {
      if op.Push? {
        assert c.items + a + b == c.items + (a + b);
        assert a == [] ==> c.items + a == c.items;
        assert b == [] ==> a + b == a;
      } else if op.AddToSet? {
        var once := c.items + Fresh(key, a, Keys(key, c.items));
        AddToSetTwice(key, c.items, a, b);
        assert a == [] ==> once == c.items;
        assert b == [] ==> once + Fresh(key, b, Keys(key, once)) == once;
      }
    }
  }

  /** A field used under one operator sees that operator alone. */
  lemma ApplyAt(key: ItemKey, s: Spec, d: Doc, f: string, op: Operator)
    requires forall op' :: op' != op ==> f !in Operands(s, op')
    ensures Look(Apply(key, s, d), f) == UpdateAt(key, op, Operands(s, op), d, f)
  {
    assert op != Inc ==> f !in Operands(s, Inc);
    assert op != Push ==> f !in Operands(s, Push);
    assert op != AddToSet ==> f !in Operands(s, AddToSet);
    assert op != Min ==> f !in Operands(s, Min);
    assert op != Max ==> f !in Operands(s, Max);
  }

  /** The operator a field is used under; any one if it is used under none. */
  lemma OperatorOf(l: Spec, r: Spec, f: string) returns (op: Operator)
    requires OneOperator(l, r)
    ensures forall op' :: op' != op ==> f !in Operands(l, op') && f !in Operands(r, op')
  {
    if op' :| f in Operands(l, op') || f in Operands(r, op') {
      op := op';
      forall o | o != op ensures f !in Operands(l, o) && f !in Operands(r, o) {
        assert (Operands(l, op).Keys + Operands(r, op).Keys) !! (Operands(l, o).Keys + Operands(r, o).Keys);
      }
    } else {
      op := Inc;
    }
  }

  /** One operator of a spec at one field. */
  function Act(key: ItemKey, op: Operator, s: Spec, f: string, cur: Option<Value>): Option<Value> {
    if f in Operands(s, op) then Update(key, op, cur, Operands(s, op)[f]) else cur
  }

  function AtField(key: ItemKey, s: Spec, f: string, cur: Option<Value>): Option<Value> {
    Act(key, Max, s, f, Act(key, Min, s, f, Act(key, AddToSet, s, f, Act(key, Push, s, f, Act(key, Inc, s, f, cur)))))
  }

  lemma ActLooks(key: ItemKey, op: Operator, s: Spec, d: Doc, f: string)
    ensures Look(ApplyOperator(key, op, Operands(s, op), d), f) == Act(key, op, s, f, Look(d, f))
  {
  }

  lemma ApplyAtField(key: ItemKey, s: Spec, d: Doc, f: string)
    ensures Look(Apply(key, s, d), f) == AtField(key, s, f, Look(d, f))
  {
    var d0 := ApplyOperator(key, Inc, s.inc, d);
    var d1 := ApplyOperator(key, Push, s.push, d0);
    var d2 := ApplyOperator(key, AddToSet, s.addToSet, d1);
    var d3 := ApplyOperator(key, Min, s.min, d2);
    ActLooks(key, Inc, s, d, f);
    ActLooks(key, Push, s, d0, f);
    ActLooks(key, AddToSet, s, d1, f);
    ActLooks(key, Min, s, d2, f);
    ActLooks(key, Max, s, d3, f);
  }

  /** The fixed order in which the operators of a spec are applied. */
  function Rank(op: Operator): nat {
    match op case Inc => 0 case Push => 1 case AddToSet => 2 case Min => 3 case Max => 4
  }

  /** Where both sides use a field, the local operators come no later in the fixed order than the remote ones. */
  ghost predicate Aligned(l: Spec, r: Spec) {
    forall f :: AlignedAt(l, r, f)
  }

  ghost predicate AlignedAt(l: Spec, r: Spec, f: string) {
    forall p, q :: f in Operands(l, p) && f in Operands(r, q) ==> Rank(p) <= Rank(q)
  }

  lemma OneOperatorAligned(l: Spec, r: Spec)
    requires OneOperator(l, r)
    ensures Aligned(l, r)
  {
    forall f ensures AlignedAt(l, r, f) {
      var op := OperatorOf(l, r, f);
      assert forall p :: f in Operands(l, p) || f in Operands(r, p) ==> p == op;
    }
  }

  lemma MergedAct(key: ItemKey, op: Operator, l: Spec, r: Spec, f: string, cur: Option<Value>)
    requires WellFormed(l) && WellFormed(r)
    ensures Act(key, op, Merge(key, l, r), f, cur) == Act(key, op, r, f, Act(key, op, l, f, cur))
  {
    var lv, rv := Look(Operands(l, op), f), Look(Operands(r, op), f);
    assert Operands(Merge(key, l, r), op) == MergeOperands(key, op, Operands(l, op), Operands(r, op));
    if lv.Some? || rv.Some? { CombineIsBoth(key, op, cur, lv, rv); }
  }

  /** The remote operators up to rank `n`, in the fixed order. */
  function Remote(key: ItemKey, r: Spec, f: string, n: nat, cur: Option<Value>): Option<Value> {
    var c0 := Act(key, Inc, r, f, cur);
    if n == 0 then c0 else
      var c1 := Act(key, Push, r, f, c0);
      if n == 1 then c1 else
        var c2 := Act(key, AddToSet, r, f, c1);
        if n == 2 then c2 else Act(key, Min, r, f, c2)
  }

  /** A local operator passes the remote ones before it: either it or they leave the field alone. */
  lemma ActsCommute(key: ItemKey, l: Spec, r: Spec, f: string, p: Operator, n: nat, cur: Option<Value>)
    requires AlignedAt(l, r, f) && n < Rank(p)
    ensures Act(key, p, l, f, Remote(key, r, f, n, cur)) == Remote(key, r, f, n, Act(key, p, l, f, cur))
  {
    if f in Operands(l, p) {
      assert f !in Operands(r, Inc);
      assert n >= 1 ==> f !in Operands(r, Push);
      assert n >= 2 ==> f !in Operands(r, AddToSet);
      assert n >= 3 ==> f !in Operands(r, Min);
    }
  }

  lemma MergedAtField(key: ItemKey, l: Spec, r: Spec, f: string, cur: Option<Value>)
    requires WellFormed(l) && WellFormed(r) && AlignedAt(l, r, f)
    ensures AtField(key, Merge(key, l, r), f, cur) == AtField(key, r, f, AtField(key, l, f, cur))
  {
    var l0 := Act(key, Inc, l, f, cur);
    var l1 := Act(key, Push, l, f, l0);
    var l2 := Act(key, AddToSet, l, f, l1);
    var l3 := Act(key, Min, l, f, l2);
    MergedAct(key, Inc, l, r, f, cur);
    MergedAct(key, Push, l, r, f, Remote(key, r, f, 0, l0));
    ActsCommute(key, l, r, f, Push, 0, l0);
    MergedAct(key, AddToSet, l, r, f, Remote(key, r, f, 1, l1));
    ActsCommute(key, l, r, f, AddToSet, 1, l1);
    MergedAct(key, Min, l, r, f, Remote(key, r, f, 2, l2));
    ActsCommute(key, l, r, f, Min, 2, l2);
    MergedAct(key, Max, l, r, f, Remote(key, r, f, 3, l3));
    ActsCommute(key, l, r, f, Max, 3, l3);
  }

  /** Applying the merged spec is applying the local one, then the remote one. */
  lemma MergeIsSequence(key: ItemKey, l: Spec, r: Spec, d: Doc)
    requires Aligned(l, r) && WellFormed(l) && WellFormed(r)
    ensures Apply(key, Merge(key, l, r), d) == Apply(key, r, Apply(key, l, d))
  {
    var m, mid := Merge(key, l, r), Apply(key, l, d);
    forall f ensures Look(Apply(key, m, d), f) == Look(Apply(key, r, mid), f) {
      ApplyAtField(key, m, d, f);
      ApplyAtField(key, l, d, f);
      ApplyAtField(key, r, mid, f);
      MergedAtField(key, l, r, f, Look(d, f));
    }
    SameLookups(Apply(key, m, d), Apply(key, r, mid));
  }

  // ---------- operators met in reverse order ----------

  /** Each field is used under one operator of the spec. */
  ghost predicate OneEach(s: Spec) {
    forall f, p, q :: f in Operands(s, p) && f in Operands(s, q) ==> p == q
  }

  /** A local operator and a remote one of lower rank that can be exchanged at every start. */
  predicate Exchange(p: Operator, v: Value, q: Operator, w: Value)
    requires OperandOk(p, v) && OperandOk(q, w)
  {
    match (p, q)
    case (Min, Inc) => w.n == 0.0 && v.n <= 0.0
    case (Max, Inc) => w.n == 0.0 && v.n >= 0.0
    case (Max, Min) => v.n == w.n
    case (AddToSet, Push) => Items(v) == [] || Items(w) == []
    case _ => false
  }

  function InTurn(key: ItemKey, p: Operator, v: Value, q: Operator, w: Value, cur: Option<Value>): Option<Value> {
    Update(key, q, Update(key, p, cur, v), w)
  }

  lemma AdditionPassesPush(key: ItemKey, c: seq<Value>, a: seq<Value>, b: seq<Value>)
    requires a == [] || b == []
    ensures c + Fresh(key, a, Keys(key, c)) + b == c + b + Fresh(key, a, Keys(key, c + b))
  {
    if b == [] { assert c + b == c; }
  }

  lemma AdditionMeetsPush(key: ItemKey, a: seq<Value>, b: seq<Value>)
    requires a != [] && b != []
    ensures Fresh(key, a, {}) + b != b + Fresh(key, a, Keys(key, b))
  {
    var there, back := Fresh(key, a, {}) + b, b + Fresh(key, a, Keys(key, b));
    var x := key(a[0]);
    assert {} + {x} == {x};
    assert Fresh(key, a, {}) == [a[0]] + Fresh(key, a[1..], {x});
    if x in Keys(key, b) {
      FreshShrinks(key, a[1..], {x}, Keys(key, b));
      assert |back| < |there|;
    } else {
      assert b[0] in b && key(b[0]) in Keys(key, b);
      assert there[0] == a[0] && back[0] == b[0];
    }
  }

  lemma {:induction false} FreshShrinks(key: ItemKey, a: seq<Value>, s: set<Value>, t: set<Value>)
    requires s <= t
    ensures |Fresh(key, a, t)| <= |Fresh(key, a, s)|
  {
    if a != [] {
      var x := key(a[0]);
      if x in s {
        FreshShrinks(key, a[1..], s, t);
      } else if x in t {
        FreshShrinks(key, a[1..], s + {x}, t);
      } else {
        FreshShrinks(key, a[1..], s + {x}, t + {x});
      }
    }
  }

  lemma ExchangeHolds(key: ItemKey, p: Operator, v: Value, q: Operator, w: Value, cur: Option<Value>)
    requires OperandOk(p, v) && OperandOk(q, w) && Exchange(p, v, q, w)
    ensures InTurn(key, p, v, q, w, cur) == InTurn(key, q, w, p, v, cur)
  {
    if p.AddToSet? {
      var c := if cur.Some? then cur.value else List([]);
      if c.List? { AdditionPassesPush(key, c.items, Items(v), Items(w)); }
    }
  }

  /** A start at which two operators that cannot be exchanged differ. */
  function Apart(p: Operator, v: Value, q: Operator, w: Value): Option<Value>
    requires OperandOk(p, v) && OperandOk(q, w)
  {
    if q.Inc? && (p.Min? || p.Max?) && w.n != 0.0
    then Some(Num(if (p.Min? && w.n > 0.0) || (p.Max? && w.n < 0.0) then v.n else v.n - w.n))
    else None
  }

  lemma ExchangeFails(key: ItemKey, p: Operator, v: Value, q: Operator, w: Value)
    requires OperandOk(p, v) && OperandOk(q, w) && Rank(q) < Rank(p) && !Exchange(p, v, q, w)
    ensures InTurn(key, p, v, q, w, Apart(p, v, q, w)) != InTurn(key, q, w, p, v, Apart(p, v, q, w))
  {
    if p.AddToSet? && q.Push? {
      var a, b := Items(v), Items(w);
      AdditionMeetsPush(key, a, b);
      assert Keys(key, []) == {};
      assert [] + Fresh(key, a, {}) == Fresh(key, a, {}) && [] + b == b;
    }
  }

  /** Two operators in reverse order give the same from every start, an absent field included, exactly when they exchange. */
  lemma MisalignedExactly(key: ItemKey, p: Operator, v: Value, q: Operator, w: Value)
    requires OperandOk(p, v) && OperandOk(q, w) && Rank(q) < Rank(p)
    ensures (forall cur :: InTurn(key, p, v, q, w, cur) == InTurn(key, q, w, p, v, cur)) <==> Exchange(p, v, q, w)
  {
    if Exchange(p, v, q, w) {
      forall cur ensures InTurn(key, p, v, q, w, cur) == InTurn(key, q, w, p, v, cur) {
        ExchangeHolds(key, p, v, q, w, cur);
      }
    } else {
      ExchangeFails(key, p, v, q, w);
    }
  }

  lemma AtFieldAlone(key: ItemKey, s: Spec, f: string, p: Operator, cur: Option<Value>)
    requires f in Operands(s, p) && OneEach(s)
    ensures AtField(key, s, f, cur) == Update(key, p, cur, Operands(s, p)[f])
  {
    assert forall o :: f in Operands(s, o) ==> o == p;
    assert p != Inc ==> f !in Operands(s, Inc);
    assert p != Push ==> f !in Operands(s, Push);
    assert p != AddToSet ==> f !in Operands(s, AddToSet);
    assert p != Min ==> f !in Operands(s, Min);
    assert p != Max ==> f !in Operands(s, Max);
  }

  lemma MergedStep(key: ItemKey, l: Spec, r: Spec, f: string, p: Operator, q: Operator, o: Operator, cur: Option<Value>)
    requires WellFormed(l) && WellFormed(r) && OneEach(l) && OneEach(r)
    requires f in Operands(l, p) && f in Operands(r, q) && p != q
    ensures Act(key, o, Merge(key, l, r), f, cur) ==
            if o == p then Update(key, p, cur, Operands(l, p)[f])
            else if o == q then Update(key, q, cur, Operands(r, q)[f]) else cur
  {
    MergedAct(key, o, l, r, f, cur);
  }

  /** The merged spec on a field the sides use in reverse order: the remote operator first. */
  lemma MergedInReverse(key: ItemKey, l: Spec, r: Spec, f: string, p: Operator, q: Operator, cur: Option<Value>)
    requires WellFormed(l) && WellFormed(r) && OneEach(l) && OneEach(r)
    requires f in Operands(l, p) && f in Operands(r, q) && Rank(q) < Rank(p)
    ensures AtField(key, Merge(key, l, r), f, cur) == InTurn(key, q, Operands(r, q)[f], p, Operands(l, p)[f], cur)
  {
    var m := Merge(key, l, r);
    var c0 := Act(key, Inc, m, f, cur);
    var c1 := Act(key, Push, m, f, c0);
    var c2 := Act(key, AddToSet, m, f, c1);
    var c3 := Act(key, Min, m, f, c2);
    MergedStep(key, l, r, f, p, q, Inc, cur);
    MergedStep(key, l, r, f, p, q, Push, c0);
    MergedStep(key, l, r, f, p, q, AddToSet, c1);
    MergedStep(key, l, r, f, p, q, Min, c2);
    MergedStep(key, l, r, f, p, q, Max, c3);
    assert AtField(key, m, f, cur) == Act(key, Max, m, f, c3);
  }

  /** Every field the two sides use in reverse order can be exchanged. */
  ghost predicate Exchangeable(l: Spec, r: Spec)
    requires WellFormed(l) && WellFormed(r)
  {
    forall f, p, q :: f in Operands(l, p) && f in Operands(r, q) && Rank(q) < Rank(p) ==>
      Exchange(p, Operands(l, p)[f], q, Operands(r, q)[f])
  }

  /** At one field the law holds from every start if the sides are in order there or can be exchanged. */
  lemma LawAtField(key: ItemKey, l: Spec, r: Spec, f: string, cur: Option<Value>)
    requires WellFormed(l) && WellFormed(r) && OneEach(l) && OneEach(r) && Exchangeable(l, r)
    ensures AtField(key, Merge(key, l, r), f, cur) == AtField(key, r, f, AtField(key, l, f, cur))
  {
    if AlignedAt(l, r, f) {
      MergedAtField(key, l, r, f, cur);
    } else {
      var p, q :| f in Operands(l, p) && f in Operands(r, q) && Rank(q) < Rank(p);
      var v, w := Operands(l, p)[f], Operands(r, q)[f];
      MergedInReverse(key, l, r, f, p, q, cur);
      AtFieldAlone(key, l, f, p, cur);
      AtFieldAlone(key, r, f, q, Update(key, p, cur, v));
      ExchangeHolds(key, p, v, q, w, cur);
    }
  }

  ghost predicate Law(key: ItemKey, l: Spec, r: Spec, d: Doc) {
    Apply(key, Merge(key, l, r), d) == Apply(key, r, Apply(key, l, d))
  }

  function Holding(f: string, v: Option<Value>): Doc {
    if v.Some? then map[f := v.value] else map[]
  }

  /** A field the sides use in reverse order: the merged spec and the two in turn. */
  lemma ReverseAt(key: ItemKey, l: Spec, r: Spec, f: string, p: Operator, q: Operator, d: Doc)
    requires WellFormed(l) && WellFormed(r) && OneEach(l) && OneEach(r)
    requires f in Operands(l, p) && f in Operands(r, q) && Rank(q) < Rank(p)
    ensures var v, w := Operands(l, p)[f], Operands(r, q)[f];
            && Look(Apply(key, Merge(key, l, r), d), f) == InTurn(key, q, w, p, v, Look(d, f))
            && Look(Apply(key, r, Apply(key, l, d)), f) == InTurn(key, p, v, q, w, Look(d, f))
  {
    var cur := Look(d, f);
    MergedInReverse(key, l, r, f, p, q, cur);
    AtFieldAlone(key, l, f, p, cur);
    AtFieldAlone(key, r, f, q, Update(key, p, cur, Operands(l, p)[f]));
    ApplyAtField(key, Merge(key, l, r), d, f);
    ApplyAtField(key, l, d, f);
    ApplyAtField(key, r, Apply(key, l, d), f);
  }

  lemma LawFails(key: ItemKey, l: Spec, r: Spec, f: string, p: Operator, q: Operator)
    requires WellFormed(l) && WellFormed(r) && OneEach(l) && OneEach(r)
    requires f in Operands(l, p) && f in Operands(r, q) && Rank(q) < Rank(p)
    requires !Exchange(p, Operands(l, p)[f], q, Operands(r, q)[f])
    ensures !Law(key, l, r, Holding(f, Apart(p, Operands(l, p)[f], q, Operands(r, q)[f])))
  {
    var v, w := Operands(l, p)[f], Operands(r, q)[f];
    ExchangeFails(key, p, v, q, w);
    ReverseAt(key, l, r, f, p, q, Holding(f, Apart(p, v, q, w)));
  }

  /**
    Applying the merged spec equals applying the local one, then the remote one, to
    every document if and only if every field the sides use in reverse order has
    operands that exchange.
   */
  lemma MergeIsSequenceExactly(key: ItemKey, l: Spec, r: Spec)
    requires WellFormed(l) && WellFormed(r) && OneEach(l) && OneEach(r)
    ensures (forall d :: Law(key, l, r, d)) <==> Exchangeable(l, r)
  {
    if Exchangeable(l, r) {
      forall d ensures Law(key, l, r, d) {
        var m, mid := Merge(key, l, r), Apply(key, l, d);
        forall f ensures Look(Apply(key, m, d), f) == Look(Apply(key, r, mid), f) {
          ApplyAtField(key, m, d, f);
          ApplyAtField(key, l, d, f);
          ApplyAtField(key, r, mid, f);
          LawAtField(key, l, r, f, Look(d, f));
        }
        SameLookups(Apply(key, m, d), Apply(key, r, mid));
      }
    } else {
      var f, p, q :| f in Operands(l, p) && f in Operands(r, q) && Rank(q) < Rank(p)
                     && !Exchange(p, Operands(l, p)[f], q, Operands(r, q)[f]);
      LawFails(key, l, r, f, p, q);
    }
  }

  lemma MinIncValues(key: ItemKey, v: real, w: real, cur: Option<Value>)
    requires cur.Some? ==> cur.value.Num?
    ensures InTurn(key, Min, Num(v), Inc, Num(w), cur)
              == Some(Num((if cur.Some? && cur.value.n <= v then cur.value.n else v) + w))
    ensures InTurn(key, Inc, Num(w), Min, Num(v), cur)
              == Some(Num(var n := if cur.Some? then cur.value.n + w else w; if v < n then v else n))
  {
  }

  /** The local side bounds the field from above, the remote side adds to it, and neither does more to it. */
  ghost predicate MinMeetsInc(l: Spec, r: Spec, f: string, v: real, w: real) {
    && WellFormed(l) && WellFormed(r) && OneEach(l) && OneEach(r)
    && Look(l.min, f) == Some(Num(v)) && Look(r.inc, f) == Some(Num(w))
  }

  /** A local `$min` of 5 and a remote `$inc` of 1 on the number 10: the merged spec gives 5, the two in turn 6. */
  lemma MisalignedDiffers(key: ItemKey, l: Spec, r: Spec, f: string, d: Doc)
    requires MinMeetsInc(l, r, f, 5.0, 1.0) && Look(d, f) == Some(Num(10.0))
    ensures Look(Apply(key, Merge(key, l, r), d), f) == Some(Num(5.0))
    ensures Look(Apply(key, r, Apply(key, l, d)), f) == Some(Num(6.0))
  {
    assert f in Operands(l, Min) && f in Operands(r, Inc);
    ReverseAt(key, l, r, f, Min, Inc, d);
    MinIncValues(key, 5.0, 1.0, Some(Num(10.0)));
  }

  /** Without the field even adding nothing differs: the merged spec gives 0, the two in turn 5. */
  lemma MisalignedOnAbsent(key: ItemKey, l: Spec, r: Spec, f: string, d: Doc)
    requires MinMeetsInc(l, r, f, 5.0, 0.0) && f !in d
    ensures Look(Apply(key, Merge(key, l, r), d), f) == Some(Num(0.0))
    ensures Look(Apply(key, r, Apply(key, l, d)), f) == Some(Num(5.0))
  {
    assert f in Operands(l, Min) && f in Operands(r, Inc);
    ReverseAt(key, l, r, f, Min, Inc, d);
    MinIncValues(key, 5.0, 0.0, None);
  }

  /** What the order of the two sides may change, operator by operator. */
  ghost predicate Agree(key: ItemKey, op: Operator, u: Option<Value>, v: Option<Value>) {
    match op
    case Push =>
      u == v || (u.Some? && v.Some? && u.value.List? && v.value.List? && multiset(u.value.items) == multiset(v.value.items))
    case AddToSet =>
      u == v || (u.Some? && v.Some? && u.value.List? && v.value.List? && Keys(key, u.value.items) == Keys(key, v.value.items))
    case _ => u == v
  }

  lemma BothCommutes(key: ItemKey, op: Operator, cur: Option<Value>, l: Option<Value>, r: Option<Value>)
    requires (l.Some? ==> OperandOk(op, l.value)) && (r.Some? ==> OperandOk(op, r.value))
    ensures Agree(key, op, Both(key, op, cur, l, r), Both(key, op, cur, r, l))
  {
    var c := if cur.Some? then cur.value else List([]);
    if l.Some? && r.Some? && c.List? {
      if op.Push? {
        PushesCommute(c.items, Items(l.value), Items(r.value));
      } else if op.AddToSet? {
        AdditionsCommute(key, c.items, Items(l.value), Items(r.value));
      }
    }
  }

  lemma PushesCommute(c: seq<Value>, a: seq<Value>, b: seq<Value>)
    ensures multiset(c + a + b) == multiset(c + b + a)
  {
  }

  lemma AdditionsCommute(key: ItemKey, c: seq<Value>, a: seq<Value>, b: seq<Value>)
    ensures var la, lb := c + Fresh(key, a, Keys(key, c)), c + Fresh(key, b, Keys(key, c));
            Keys(key, la + Fresh(key, b, Keys(key, la))) == Keys(key, lb + Fresh(key, a, Keys(key, lb)))
  {
    var la, lb := c + Fresh(key, a, Keys(key, c)), c + Fresh(key, b, Keys(key, c));
    AddToSetTwice(key, c, a, b);
    AddToSetTwice(key, c, b, a);
    AddToSetTwice(key, la, b, []);
    AddToSetTwice(key, lb, a, []);
  }

  /** Swapping the sides: same numbers, same pushed items, same set. */
  lemma OrderAgrees(key: ItemKey, l: Spec, r: Spec, d: Doc, f: string) returns (op: Operator)
    requires OneOperator(l, r) && WellFormed(l) && WellFormed(r)
    ensures forall op' :: op' != op ==> f !in Operands(l, op') && f !in Operands(r, op')
    ensures Agree(key, op, Look(Apply(key, r, Apply(key, l, d)), f), Look(Apply(key, l, Apply(key, r, d)), f))
  {
    op := OperatorOf(l, r, f);
    ApplyAt(key, l, d, f, op);
    ApplyAt(key, r, d, f, op);
    ApplyAt(key, r, Apply(key, l, d), f, op);
    ApplyAt(key, l, Apply(key, r, d), f, op);
    BothCommutes(key, op, Look(d, f), Look(Operands(l, op), f), Look(Operands(r, op), f));
  }

  /** Specs with one operator per field may be merged from either side: same numbers, same pushed items, same set. */
  lemma MergeSidesAgree(key: ItemKey, l: Spec, r: Spec, d: Doc, f: string) returns (op: Operator)
    requires OneOperator(l, r) && WellFormed(l) && WellFormed(r)
    ensures forall op' :: op' != op ==> f !in Operands(l, op') && f !in Operands(r, op')
    ensures Agree(key, op, Look(Apply(key, Merge(key, l, r), d), f), Look(Apply(key, Merge(key, r, l), d), f))
  {
    OneOperatorAligned(l, r);
    OneOperatorAligned(r, l);
    MergeIsSequence(key, l, r, d);
    MergeIsSequence(key, r, l, d);
    op := OrderAgrees(key, l, r, d, f);
  }

  // ---------- nulls ----------

  function Given(v: Option<Value>): seq<Value> {
    if v.Some? then Items(v.value) else []
  }

  predicate IsNull(v: Option<Value>) {
    v == Some(Null)
  }

  /** Pushing null: the merged spec forgets it, so the law holds exactly when no side pushes one. */
  lemma PushNullExactly(key: ItemKey, cur: seq<Value>, l: Option<Value>, r: Option<Value>)
    requires l.Some? || r.Some?
    ensures Update(key, Push, Some(List(cur)), Combine(key, Push, l, r)) == Both(key, Push, Some(List(cur)), l, r)
        <==> !IsNull(l) && !IsNull(r)
  {
    var merged, inTurn := cur + (Pushed(l) + Pushed(r)), cur + Given(l) + Given(r);
    assert l.None? ==> cur + Given(l) == cur;
    assert r.None? ==> cur + Given(l) + Given(r) == cur + Given(l);
    assert Both(key, Push, Some(List(cur)), l, r) == Some(List(inTurn));
    assert !IsNull(l) && !IsNull(r) ==> merged == inTurn;
    assert IsNull(l) || IsNull(r) ==> |merged| < |inTurn|;
  }

  /** The other side adds a null in the place of the forgotten one. */
  predicate NullUnseen(key: ItemKey, l: Option<Value>, r: Option<Value>) {
    && (IsNull(l) ==> var b := Pushed(r); b != [] && b[0] == Null)
    && (IsNull(r) ==> key(Null) in Keys(key, Pushed(l)))
  }

  lemma AddsInTurn(key: ItemKey, c: seq<Value>, l: Option<Value>, r: Option<Value>)
    requires l.Some? || r.Some?
    ensures Both(key, AddToSet, Some(List(c)), l, r) == Some(List(c + Fresh(key, Given(l) + Given(r), Keys(key, c))))
    ensures Update(key, AddToSet, Some(List(c)), Combine(key, AddToSet, l, r))
              == Some(List(c + Fresh(key, Pushed(l) + Pushed(r), Keys(key, c))))
  {
    var a, b := Given(l), Given(r);
    AddToSetTwice(key, c, a, b);
    FreshOfFresh(key, a + b, {}, Keys(key, c));
    FreshOfFresh(key, Pushed(l) + Pushed(r), {}, Keys(key, c));
    var once := c + Fresh(key, a, Keys(key, c));
    assert a == [] ==> once == c;
    assert b == [] ==> once + Fresh(key, b, Keys(key, once)) == once;
  }

  lemma LeadingNull(key: ItemKey, b: seq<Value>, k: set<Value>)
    requires b != [] && b[0] == Null
    ensures Fresh(key, [Null] + b, k) == Fresh(key, b, k)
  {
    FreshConcat(key, [Null], b, k);
    assert ([Null] + b)[1..] == b && Keys(key, [Null]) == {key(Null)};
    if key(Null) !in k { assert Fresh(key, b, k + {key(Null)}) == Fresh(key, b[1..], k + {key(Null)}); }
  }

  lemma TrailingNull(key: ItemKey, a: seq<Value>, k: set<Value>)
    ensures Fresh(key, a + [Null], k) == Fresh(key, a, k) + if key(Null) in k + Keys(key, a) then [] else [Null]
  {
    FreshConcat(key, a, [Null], k);
  }

  lemma SameAdditions(key: ItemKey, l: Option<Value>, r: Option<Value>, k: set<Value>)
    requires NullUnseen(key, l, r)
    ensures Fresh(key, Given(l) + Given(r), k) == Fresh(key, Pushed(l) + Pushed(r), k)
  {
    var a, b := Given(l) + Given(r), Pushed(l) + Pushed(r);
    if IsNull(l) {
      LeadingNull(key, Pushed(r), k);
      assert b == Pushed(r) && a == [Null] + Pushed(r);
    } else if IsNull(r) {
      TrailingNull(key, Pushed(l), k);
      assert b == Pushed(l) && a == Pushed(l) + [Null];
      assert Fresh(key, Pushed(l), k) + [] == Fresh(key, Pushed(l), k);
    }
  }

  ghost predicate AddLaw(key: ItemKey, l: Option<Value>, r: Option<Value>, c: seq<Value>)
    requires l.Some? || r.Some?
  {
    Update(key, AddToSet, Some(List(c)), Combine(key, AddToSet, l, r)) == Both(key, AddToSet, Some(List(c)), l, r)
  }

  /** A null to add is forgotten too: the law holds on every list exactly when that goes unseen. */
  lemma AddNullExactly(key: ItemKey, l: Option<Value>, r: Option<Value>)
    requires l.Some? || r.Some?
    ensures (forall c :: AddLaw(key, l, r, c)) <==> NullUnseen(key, l, r)
  {
    if NullUnseen(key, l, r) {
      forall c ensures AddLaw(key, l, r, c) {
        AddsInTurn(key, c, l, r);
        SameAdditions(key, l, r, Keys(key, c));
      }
    } else {
      AddsInTurn(key, [], l, r);
      NullSeen(key, l, r);
      assert Keys(key, []) == {};
      var a, b := Fresh(key, Given(l) + Given(r), {}), Fresh(key, Pushed(l) + Pushed(r), {});
      assert [] + a == a && [] + b == b;
      assert !AddLaw(key, l, r, []);
    }
  }

  lemma NullSeen(key: ItemKey, l: Option<Value>, r: Option<Value>)
    requires !NullUnseen(key, l, r)
    ensures Fresh(key, Given(l) + Given(r), {}) != Fresh(key, Pushed(l) + Pushed(r), {})
  {
    var a, b := Given(l) + Given(r), Pushed(l) + Pushed(r);
    if IsNull(l) {
      assert a[0] == Null && b == Pushed(r);
      assert Fresh(key, a, {})[0] == Null;
      if IsNull(r) { assert b == []; }
    } else {
      TrailingNull(key, Pushed(l), {});
      assert a == Pushed(l) + [Null] && b == Pushed(l);
    }
  }
}
