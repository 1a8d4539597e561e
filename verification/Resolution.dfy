/**
  What a delivery between concurrent versions stores, strategy by strategy, on the
  fields of the stored document.
 */
module Resolution {
  import opened Common
  import opened VectorClocks
  import opened Crdt
  import opened Transform
  import opened Conflict
  import opened Pull

  /** Two versions of a document that differ and neither of which is known to be newer. */
  ghost predicate Contested(x: Context, l: Doc, r: Doc) {
    && ContextOk(x) && OneDocument(l, r) && RealDiff(l, r) != {}
    && (Clocked(r) ==> !Dominates(ClockOf(r), ClockOf(l)) && !Dominates(ClockOf(l), ClockOf(r)))
  }

  /** The document has a pending commutative update. */
  predicate HasPending(x: Context, r: Doc)
    requires ID in r
  {
    r[ID] in x.specs && Commutative(x.specs[r[ID]])
  }

  predicate Annotated(x: Context) {
    x.ann != map[] && (x.resolver.LastWrite? || x.resolver.FieldLevel?)
  }

  ghost function Outcome(x: Context, l: Doc, r: Doc, rc: Option<set<string>>): Doc
    requires Contested(x, l, r)
  {
    Delivered(x, Some(l), r, rc).value
  }

  /** The stored document has the resolved fields, and keeps the local ones beside them. */
  lemma StoredField(x: Context, l: Doc, r: Doc, rc: Option<set<string>>, f: string)
    requires Contested(x, l, r) && f != VCLOCK && f != ID
    ensures var resolved := Resolve(x, l, r, rc);
            Look(Outcome(x, l, r, rc), f) == if f in resolved then Some(resolved[f]) else Look(l, f)
  {
    ResolvedKeepsId(x, l, r, rc);
  }

  ghost predicate KeepsLocal(l: Doc, d: Doc) {
    forall f :: f != VCLOCK ==> Look(d, f) == Look(l, f)
  }

  ghost predicate TakesRemote(l: Doc, r: Doc, d: Doc) {
    forall f :: f != VCLOCK && f != ID ==> Look(d, f) == if f in r then Some(r[f]) else Look(l, f)
  }

  lemma ResolvedToLocal(x: Context, l: Doc, r: Doc, rc: Option<set<string>>)
    requires Contested(x, l, r) && Resolve(x, l, r, rc) == l
    ensures KeepsLocal(l, Outcome(x, l, r, rc))
  {
    forall f | f != VCLOCK && f != ID ensures Look(Outcome(x, l, r, rc), f) == Look(l, f) { StoredField(x, l, r, rc, f); }
    ResolvedKeepsId(x, l, r, rc);
  }

  lemma ResolvedToRemote(x: Context, l: Doc, r: Doc, rc: Option<set<string>>)
    requires Contested(x, l, r) && Resolve(x, l, r, rc) == r
    ensures TakesRemote(l, r, Outcome(x, l, r, rc))
  {
    forall f | f != VCLOCK && f != ID
      ensures Look(Outcome(x, l, r, rc), f) == if f in r then Some(r[f]) else Look(l, f)
    {
      StoredField(x, l, r, rc, f);
    }
  }

  // ---------- one side wins ----------

  lemma LocalWinsStores(x: Context, l: Doc, r: Doc, rc: Option<set<string>>)
    requires Contested(x, l, r) && !HasPending(x, r) && x.resolver == LocalWins
    ensures KeepsLocal(l, Outcome(x, l, r, rc))
  {
    ResolvedToLocal(x, l, r, rc);
  }

  lemma RemoteWinsStores(x: Context, l: Doc, r: Doc, rc: Option<set<string>>)
    requires Contested(x, l, r) && !HasPending(x, r) && x.resolver == RemoteWins
    ensures TakesRemote(l, r, Outcome(x, l, r, rc))
  {
    ResolvedToRemote(x, l, r, rc);
  }

  /** Between clocked versions the rank decides, otherwise the time, and ties go to the remote one. */
  lemma LastWriteStores(x: Context, l: Doc, r: Doc, rc: Option<set<string>>)
    requires Contested(x, l, r) && !HasPending(x, r) && x.resolver == LastWrite && x.ann == map[]
    ensures var mine := if Clocked(l) && Clocked(r) then Outranks(x.text, l, r) else Stamp(l) > Stamp(r);
            if mine then KeepsLocal(l, Outcome(x, l, r, rc)) else TakesRemote(l, r, Outcome(x, l, r, rc))
  {
    RankIsStrictOrder(x.text, l, r, l);
    RankIsStrictOrder(x.text, r, l, r);
    if Resolve(x, l, r, rc) == l { ResolvedToLocal(x, l, r, rc); }
    if Resolve(x, l, r, rc) == r { ResolvedToRemote(x, l, r, rc); }
  }

  /**
    Field by field: a field one side changed is that side's, one both changed the later
    version's, and one neither changed the remote's where it has it.
   */
  lemma FieldLevelStores(x: Context, l: Doc, r: Doc, theirs: set<string>, f: string)
    requires Contested(x, l, r) && !HasPending(x, r) && x.resolver == FieldLevel && x.ann == map[]
    requires f in l.Keys + r.Keys && f != ID && f != VCLOCK
    ensures var mine := if r[ID] in x.changed then x.changed[r[ID]] else {};
            var v := Get(Outcome(x, l, r, Some(theirs)), f);
            && (f in mine && f !in theirs ==> v == Get(l, f))
            && (f !in mine && f in theirs ==> v == Get(r, f))
            && (f in mine && f in theirs && Stamp(r) < Stamp(l) ==> v == Get(l, f))
            && (f in mine && f in theirs && Stamp(l) <= Stamp(r) ==> v == Get(r, f))
            && (f !in mine && f !in theirs ==> v == if f in r then r[f] else l[f])
  {
    StoredField(x, l, r, Some(theirs), f);
  }

  // ---------- a pending update is applied again on the remote version ----------

  /** Every update spec with an operand counts as pending. */
  lemma PendingExactly(x: Context, r: Doc)
    requires ID in r
    ensures HasPending(x, r) <==> r[ID] in x.specs && exists op :: Operands(x.specs[r[ID]], op) != map[]
  {
    if r[ID] in x.specs {
      var s := x.specs[r[ID]];
      assert Operands(s, Inc) == s.inc && Operands(s, Push) == s.push && Operands(s, AddToSet) == s.addToSet;
      assert Operands(s, Min) == s.min && Operands(s, Max) == s.max;
    }
  }

  ghost predicate Reapplies(x: Context, l: Doc, r: Doc) {
    Contested(x, l, r) && HasPending(x, r) && !Annotated(x)
  }

  /** The pending update uses the field under this operator alone. */
  ghost predicate Alone(s: Spec, op: Operator, f: string) {
    f in Operands(s, op) && forall o :: o != op ==> f !in Operands(s, o)
  }

  lemma ReappliedField(x: Context, l: Doc, r: Doc, rc: Option<set<string>>, f: string)
    requires Reapplies(x, l, r) && f != VCLOCK && f != ID
    ensures var after := Look(Apply(x.key, x.specs[r[ID]], r), f);
            Look(Outcome(x, l, r, rc), f) == if after.Some? then after else Look(l, f)
  {
    StoredField(x, l, r, rc, f);
  }

  /** No operator, or one, acts on the field: what the remote value becomes. */
  lemma ReappliedAlone(x: Context, l: Doc, r: Doc, rc: Option<set<string>>, f: string, op: Operator)
    requires Reapplies(x, l, r) && f != VCLOCK && f != ID
    requires forall o :: o != op ==> f !in Operands(x.specs[r[ID]], o)
    ensures var after := UpdateAt(x.key, op, Operands(x.specs[r[ID]], op), r, f);
            Look(Outcome(x, l, r, rc), f) == if after.Some? then after else Look(l, f)
  {
    ReappliedField(x, l, r, rc, f);
    ApplyAt(x.key, x.specs[r[ID]], r, f, op);
  }

  /** A field the update does not use is the remote's. */
  lemma UnusedFieldTaken(x: Context, l: Doc, r: Doc, rc: Option<set<string>>, f: string)
    requires Reapplies(x, l, r) && f != VCLOCK && f != ID && forall op :: f !in Operands(x.specs[r[ID]], op)
    ensures Look(Outcome(x, l, r, rc), f) == if f in r then Some(r[f]) else Look(l, f)
  {
    ReappliedAlone(x, l, r, rc, f, Inc);
    assert f !in Operands(x.specs[r[ID]], Inc);
  }

  lemma IncrementValue(key: ItemKey, ops: map<string, Value>, r: Doc, f: string, n: real)
    requires Look(ops, f) == Some(Num(n)) && (f in r ==> r[f].Num?)
    ensures UpdateAt(key, Inc, ops, r, f) == Some(Num(if f in r then r[f].n + n else n))
  {
  }

  /** A pending increment of n on the remote number m stores m + n; on an absent field, n. */
  lemma IncrementReapplied(x: Context, l: Doc, r: Doc, rc: Option<set<string>>, f: string, n: real)
    requires Reapplies(x, l, r) && f != VCLOCK && f != ID && Alone(x.specs[r[ID]], Inc, f)
    requires Operands(x.specs[r[ID]], Inc)[f] == Num(n) && (f in r ==> r[f].Num?)
    ensures Look(Outcome(x, l, r, rc), f) == Some(Num(if f in r then r[f].n + n else n))
  {
    var ops := Operands(x.specs[r[ID]], Inc);
    ReappliedAlone(x, l, r, rc, f, Inc);
    IncrementValue(x.key, ops, r, f, n);
  }

  /** A pending bound keeps the smaller, or the larger, of the two numbers. */
  lemma BoundReapplied(x: Context, l: Doc, r: Doc, rc: Option<set<string>>, f: string, op: Operator, n: real)
    requires Reapplies(x, l, r) && f != VCLOCK && f != ID && (op == Min || op == Max) && Alone(x.specs[r[ID]], op, f)
    requires Operands(x.specs[r[ID]], op)[f] == Num(n) && f in r && r[f].Num?
    ensures var d := Look(Outcome(x, l, r, rc), f);
            && d.Some? && d.value.Num? && (d.value.n == n || d.value.n == r[f].n)
            && (op == Min ==> d.value.n <= n && d.value.n <= r[f].n)
            && (op == Max ==> n <= d.value.n && r[f].n <= d.value.n)
  {
    ReappliedAlone(x, l, r, rc, f, op);
  }

  /** Pending items come after the remote list's; those added to a set only if their key is new. */
  lemma ItemsReapplied(x: Context, l: Doc, r: Doc, rc: Option<set<string>>, f: string, op: Operator)
    requires Reapplies(x, l, r) && f != VCLOCK && f != ID && (op == Push || op == AddToSet) && Alone(x.specs[r[ID]], op, f)
    requires f in r && r[f].List?
    ensures var d, added := Look(Outcome(x, l, r, rc), f), Items(Operands(x.specs[r[ID]], op)[f]);
            && d.Some? && d.value.List? && r[f].items <= d.value.items
            && (op == Push ==> d.value.items == r[f].items + added)
            && (op == AddToSet ==> Keys(x.key, d.value.items) == Keys(x.key, r[f].items) + Keys(x.key, added))
  {
    ReappliedAlone(x, l, r, rc, f, op);
    var items, added := r[f].items, Items(Operands(x.specs[r[ID]], op)[f]);
    AddToSetTwice(x.key, items, added, []);
  }

  // ---------- annotated fields join ----------

  /** Counters store the larger number, sets the union, other fields the later version's value. */
  lemma AnnotatedStores(x: Context, l: Doc, r: Doc, rc: Option<set<string>>, f: string)
    requires Contested(x, l, r) && Annotated(x) && f in l && f in r && f != VCLOCK && f != ID
    ensures var d := Look(Outcome(x, l, r, rc), f);
            && d.Some?
            && (f in x.ann && x.ann[f] == Counter && l[f].Num? && r[f].Num? ==>
                  && d.value.Num? && (d.value == l[f] || d.value == r[f])
                  && l[f].n <= d.value.n && r[f].n <= d.value.n)
            && (f in x.ann && x.ann[f] == GSet && l[f].List? && r[f].List? ==>
                  d.value.List? && Keys(x.key, d.value.items) == Keys(x.key, l[f].items) + Keys(x.key, r[f].items))
            && (f !in x.ann || x.ann[f] == Unknown ==> d.value == if Stamp(l) <= Stamp(r) then r[f] else l[f])
  {
    StoredField(x, l, r, rc, f);
    var m := MergeDoc(x.key, x.ann, l, r);
    assert Resolve(x, l, r, rc) == m && m[f] == MergeField(x.key, x.ann, l, r, f);
    if l[f].List? && r[f].List? { UnionKeys(x.key, l[f].items, r[f].items); }
  }

  // ---------- no contest ----------

  /** A new document is stored as it came, but for its clock. */
  lemma InsertStores(x: Context, r: Doc, rc: Option<set<string>>)
    ensures var d := Delivered(x, None, r, rc);
            d.Some? && forall f :: f != VCLOCK ==> Look(d.value, f) == Look(r, f)
  {
  }

  /** A version that tells nothing new brings its timestamp, or raises if it has none and the local one has. */
  lemma RecognisedStores(x: Context, l: Doc, r: Doc, rc: Option<set<string>>)
    requires RealDiff(l, r) == {}
    ensures var d := Delivered(x, Some(l), r, rc);
            && (d.None? <==> STAMP !in r && Get(l, STAMP) != Null)
            && (d.Some? ==> Get(d.value, STAMP) == Get(r, STAMP)
                            && forall f :: f != STAMP ==> Look(d.value, f) == Look(l, f))
  {
  }
}
