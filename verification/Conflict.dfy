/**
  Whole-document conflict resolution: last write wins, with the greatest writer id
  as a tiebreak for clocked documents, and the field-level merge.
 */
module Conflict {
  import opened Common
  import opened Strings
  import opened MergeTrees
  import opened VectorClocks

  function ClockOf(d: Doc): Counters {
    if Get(d, VCLOCK).Clock? then Get(d, VCLOCK).counters else map[]
  }

  // ---------- the greatest writer ----------

  predicate IsGreatest(s: set<string>, m: string) {
    m in s && forall n :: n in s ==> n == m || Lt(n, m)
  }

  lemma {:induction false} GreatestExists(s: set<string>) returns (m: string)
    requires s != {}
    ensures IsGreatest(s, m)
  {
    var x :| x in s;
    if s == {x} { return x; }
    var rest := s - {x};
    m := GreatestExists(rest);
    LtTotal(m, x);
    if Lt(m, x) {
      forall n | n in s ensures n == x || Lt(n, x) {
        if n != x && n != m { LtTransitive(n, m, x); }
      }
      m := x;
    } else {
      assert forall n :: n in s ==> n == x || n in rest;
    }
  }

  lemma GreatestDetermined(s: set<string>)
    requires s != {}
    ensures exists m :: IsGreatest(s, m)
    ensures forall m, n :: IsGreatest(s, m) && IsGreatest(s, n) ==> m == n
  {
    var m := GreatestExists(s);
    forall m, n | IsGreatest(s, m) && IsGreatest(s, n) ensures m == n { LtTotal(m, n); }
  }

  /** `max(vclock.keys())`, the empty string without a clock. */
  function MaxNode(c: Counters): (m: string)
    ensures c != map[] ==> IsGreatest(c.Keys, m)
  {
    if c == map[] then "" else
      GreatestDetermined(c.Keys);
      var m :| m in c.Keys && IsGreatest(c.Keys, m); m
  }

  // ---------- last write wins ----------

  /** Ids are compared by their string form. */
  type IdForm = Value -> string

  function IdText(text: IdForm, d: Doc): string {
    if ID in d then text(d[ID]) else ""
  }

  function DeterministicLww(text: IdForm, l: Doc, r: Doc): Doc {
    var ln, rn := MaxNode(ClockOf(l)), MaxNode(ClockOf(r));
    if ln != rn then if Lt(rn, ln) then l else r
    else if Stamp(r) != Stamp(l) then if Stamp(r) > Stamp(l) then r else l
    else if Lt(IdText(text, r), IdText(text, l)) then l else r
  }

  predicate Clocked(d: Doc) {
    ClockOf(d) != map[]
  }

  function Lww(text: IdForm, l: Doc, r: Doc): Doc {
    if Clocked(l) && Clocked(r) then DeterministicLww(text, l, r)
    else if Stamp(r) >= Stamp(l) then r else l
  }

  /** Greater writer, then later timestamp, then greater id. */
  predicate Outranks(text: IdForm, a: Doc, b: Doc) {
    var an, bn := MaxNode(ClockOf(a)), MaxNode(ClockOf(b));
    || Lt(bn, an)
    || (an == bn && Stamp(b) < Stamp(a))
    || (an == bn && Stamp(b) == Stamp(a) && Lt(IdText(text, b), IdText(text, a)))
  }

  predicate Tied(text: IdForm, a: Doc, b: Doc) {
    MaxNode(ClockOf(a)) == MaxNode(ClockOf(b)) && Stamp(a) == Stamp(b) && IdText(text, a) == IdText(text, b)
  }

  lemma RankIsStrictOrder(text: IdForm, a: Doc, b: Doc, c: Doc)
    ensures Outranks(text, a, b) || Outranks(text, b, a) || Tied(text, a, b)
    ensures Outranks(text, a, b) ==> !Outranks(text, b, a) && !Tied(text, a, b)
    ensures Outranks(text, a, b) && Outranks(text, b, c) ==> Outranks(text, a, c)
  {
    var an, bn, cn := MaxNode(ClockOf(a)), MaxNode(ClockOf(b)), MaxNode(ClockOf(c));
    LtTotal(an, bn);
    LtTotal(IdText(text, a), IdText(text, b));
    if Lt(bn, an) && Lt(cn, bn) { LtTransitive(cn, bn, an); }
    if Lt(IdText(text, b), IdText(text, a)) && Lt(IdText(text, c), IdText(text, b)) {
      LtTransitive(IdText(text, c), IdText(text, b), IdText(text, a));
    }
  }

  /** The two sides agree on the winner exactly when the rank tells the documents apart. */
  lemma LwwSymmetricExactly(text: IdForm, a: Doc, b: Doc)
    requires Clocked(a) && Clocked(b)
    ensures Lww(text, a, b) == Lww(text, b, a) <==> !Tied(text, a, b) || a == b
    ensures !Tied(text, a, b) ==> Lww(text, a, b) == if Outranks(text, a, b) then a else b
  {
    RankIsStrictOrder(text, a, b, a);
    RankIsStrictOrder(text, b, a, b);
  }

  ghost predicate Wins(text: IdForm, docs: set<Doc>, w: Doc) {
    w in docs && forall d :: d in docs ==> d == w || Outranks(text, w, d)
  }

  ghost predicate Ranked(text: IdForm, docs: set<Doc>) {
    && (forall d :: d in docs ==> Clocked(d))
    && (forall a, b :: a in docs && b in docs && a != b ==> !Tied(text, a, b))
  }

  ghost function LwwOp(text: IdForm): (Doc, Doc) -> Doc {
    (a, b) => Lww(text, a, b)
  }

  lemma {:induction false} TreeWinner(text: IdForm, t: Tree<Doc>)
    requires Ranked(text, Leaves(t))
    ensures Wins(text, Leaves(t), Eval(LwwOp(text), t))
  {
    if t.Node? {
      TreeWinner(text, t.left);
      TreeWinner(text, t.right);
      var a, b := Eval(LwwOp(text), t.left), Eval(LwwOp(text), t.right);
      RankIsStrictOrder(text, a, b, a);
      LwwSymmetricExactly(text, a, b);
      var w, o := if Outranks(text, a, b) then a else b, if Outranks(text, a, b) then b else a;
      forall d | d in Leaves(t) ensures d == w || Outranks(text, w, d) {
        RankIsStrictOrder(text, w, o, d);
      }
    }
  }

  /** One winner for every order, grouping and side in which ranked versions meet. */
  lemma LwwOrderIrrelevant(text: IdForm, t: Tree<Doc>, u: Tree<Doc>)
    requires Ranked(text, Leaves(t)) && Leaves(t) == Leaves(u)
    ensures Eval(LwwOp(text), t) == Eval(LwwOp(text), u)
  {
    TreeWinner(text, t);
    TreeWinner(text, u);
    RankIsStrictOrder(text, Eval(LwwOp(text), t), Eval(LwwOp(text), u), Eval(LwwOp(text), t));
  }

  /** Both sides pick `w` over `o`. */
  ghost predicate Beats(text: IdForm, w: Doc, o: Doc) {
    w != o && Lww(text, w, o) == w && Lww(text, o, w) == w
  }

  lemma BeatsExactly(text: IdForm, w: Doc, o: Doc)
    ensures Beats(text, w, o) <==> if Clocked(w) && Clocked(o) then Outranks(text, w, o) else Stamp(w) > Stamp(o)
  {
    RankIsStrictOrder(text, w, o, w);
    RankIsStrictOrder(text, o, w, o);
    LtTotal(MaxNode(ClockOf(w)), MaxNode(ClockOf(w)));
  }

  /** Two clocked documents, the earlier one of the greater rank, and an unclocked one between them in time. */
  predicate Circular(text: IdForm, p: Doc, q: Doc, u: Doc) {
    Clocked(p) && Clocked(q) && !Clocked(u) && Outranks(text, p, q) && Stamp(p) < Stamp(u) < Stamp(q)
  }

  /** Three documents beat each other in a circle if and only if, in some rotation, they are placed like that. */
  lemma CycleExactly(text: IdForm, a: Doc, b: Doc, c: Doc)
    ensures Beats(text, a, b) && Beats(text, b, c) && Beats(text, c, a) <==>
            Circular(text, a, b, c) || Circular(text, b, c, a) || Circular(text, c, a, b)
  {
    BeatsExactly(text, a, b);
    BeatsExactly(text, b, c);
    BeatsExactly(text, c, a);
    RankIsStrictOrder(text, a, b, c);
    RankIsStrictOrder(text, c, a, c);
  }

  /** Such documents exist. */
  lemma MixedClocksCycle(text: IdForm)
    ensures var a: Doc := map[STAMP := Num(1.0), VCLOCK := Clock(map["z" := 1])];
            var b: Doc := map[STAMP := Num(3.0), VCLOCK := Clock(map["a" := 1])];
            var c: Doc := map[STAMP := Num(2.0)];
            Beats(text, a, b) && Beats(text, b, c) && Beats(text, c, a)
  {
    var z, y := map["z" := 1], map["a" := 1];
    assert z.Keys == {"z"} && y.Keys == {"a"};
    assert MaxNode(z) == "z" && MaxNode(y) == "a" && Lt("a", "z");
    var a: Doc := map[STAMP := Num(1.0), VCLOCK := Clock(map["z" := 1])];
    var b: Doc := map[STAMP := Num(3.0), VCLOCK := Clock(map["a" := 1])];
    var c: Doc := map[STAMP := Num(2.0)];
    CycleExactly(text, a, b, c);
  }

  // ---------- field-level merge ----------

  function FieldMergeAt(l: Doc, r: Doc, mine: set<string>, theirs: set<string>, f: string): Value {
    if f == ID then if f in l then l[f] else Get(r, f)
    else if f in mine && f !in theirs then Get(l, f)
    else if f in theirs && f !in mine then Get(r, f)
    else if f in mine then if Stamp(r) >= Stamp(l) then Get(r, f) else Get(l, f)
    else if f in r then r[f] else Get(l, f)
  }

  function FieldMerge(l: Doc, r: Doc, mine: set<string>, theirs: set<string>): Doc {
    map f | f in l.Keys + r.Keys :: FieldMergeAt(l, r, mine, theirs, f)
  }

  /** The change records tell the replicas which value of a differing field to keep. */
  predicate Attributed(l: Doc, r: Doc, mine: set<string>, theirs: set<string>, f: string) {
    || (f in mine) != (f in theirs)
    || (f in mine && f in theirs && Stamp(l) != Stamp(r))
    || (f !in mine && f !in theirs && (f in l) != (f in r))
  }

  /**
    Two replicas that merge each other's version, each as the remote one, reach the same
    document if and only if every differing field can be attributed.
   */
  lemma FieldMergeConvergesExactly(l: Doc, r: Doc, mine: set<string>, theirs: set<string>)
    requires ID in l && ID in r && l[ID] == r[ID]
    ensures FieldMerge(l, r, mine, theirs) == FieldMerge(r, l, theirs, mine) <==>
            forall f :: f in Diff(l, r) ==> Attributed(l, r, mine, theirs, f)
  {
    var a, b := FieldMerge(l, r, mine, theirs), FieldMerge(r, l, theirs, mine);
    assert a.Keys == l.Keys + r.Keys == b.Keys;
    forall f | f in a.Keys
      ensures a[f] == b[f] <==> f !in Diff(l, r) || Attributed(l, r, mine, theirs, f)
    {
    }
    if forall f :: f in Diff(l, r) ==> Attributed(l, r, mine, theirs, f) {
      assert forall f :: f in a.Keys ==> a[f] == b[f];
    } else {
      var f :| f in Diff(l, r) && !Attributed(l, r, mine, theirs, f);
      assert a[f] != b[f];
    }
  }

  method FieldMergeLoop(l: Doc, r: Doc, mine: set<string>, theirs: set<string>) returns (merged: Doc)
    ensures merged == FieldMerge(l, r, mine, theirs)
  {
    merged := l;
    var todo := l.Keys + r.Keys;
    while todo != {}
      invariant todo <= l.Keys + r.Keys
      invariant forall f :: f in l.Keys + r.Keys - todo ==> f in merged && merged[f] == FieldMergeAt(l, r, mine, theirs, f)
      invariant forall f :: f in l && f in todo ==> f in merged && merged[f] == l[f]
      invariant merged.Keys <= l.Keys + r.Keys
    {
      var f :| f in todo;
      todo := todo - {f};
      merged := merged[f := FieldMergeAt(l, r, mine, theirs, f)];
    }
  }

  /** The fields in which two documents differ, an absent field counting as null. */
  function Diff(l: Doc, r: Doc): set<string> {
    set f | f in l.Keys + r.Keys && f != ID && Get(l, f) != Get(r, f)
  }

  method DiffFields(l: Doc, r: Doc) returns (changed: set<string>)
    ensures changed == Diff(l, r)
  {
    changed := {};
    var todo := l.Keys + r.Keys;
    while todo != {}
      invariant todo <= l.Keys + r.Keys
      invariant changed == set f | f in l.Keys + r.Keys - todo && f != ID && Get(l, f) != Get(r, f)
    {
      var f :| f in todo;
      if f != ID && Get(l, f) != Get(r, f) { changed := changed + {f}; }
      todo := todo - {f};
    }
  }

  /** A missing time counts as zero: against an unclocked document without one, any later time wins. */
  lemma MissingTimeIsZero(text: IdForm, l: Doc, r: Doc, t: real)
    requires !Clocked(l) && Get(l, STAMP) == Null && Get(r, STAMP) == Num(t)
    ensures Lww(text, l, r) == (if t >= 0.0 then r else l)
    ensures Beats(text, r, l) <==> t > 0.0
  {
    BeatsExactly(text, r, l);
  }

  /** Between clocked documents of one writer and time the greater id wins, from both sides. */
  lemma IdsBreakTies(text: IdForm, l: Doc, r: Doc)
    requires Clocked(l) && Clocked(r) && MaxNode(ClockOf(l)) == MaxNode(ClockOf(r)) && Stamp(l) == Stamp(r)
    requires ID in l && ID in r && Lt(text(l[ID]), text(r[ID]))
    ensures Beats(text, r, l)
  {
    BeatsExactly(text, r, l);
  }
}
