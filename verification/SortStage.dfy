/**
  The `$sort` stage: one stable pass per field, last field first, each pass in
  memory or through the spilling sorter.  The reference is a single stable sort
  under the lexicographic comparison of all fields.
 */
module SortStage {
  import opened StableSort
  import opened SpillSort

  datatype SortField = SortField(name: string, direction: int)

  predicate Descending(f: SortField) {
    f.direction == -1
  }

  /** How a document yields its sort key for a field (`get_value`). */
  type Lookup<!T> = (T, string) -> SortKey

  function FieldKey<T>(get: Lookup<T>, f: SortField): T -> SortKey {
    x => get(x, f.name)
  }

  /** Compare field by field; the first field that differs decides. */
  predicate LexLe<T>(get: Lookup<T>, spec: seq<SortField>, a: T, b: T) {
    spec == [] ||
    var ka, kb := get(a, spec[0].name), get(b, spec[0].name);
    if ka == kb then LexLe(get, spec[1..], a, b) else KeyLe(Descending(spec[0]), ka, kb)
  }

  function Lex<T>(get: Lookup<T>, spec: seq<SortField>): (T, T) -> bool {
    (a, b) => LexLe(get, spec, a, b)
  }

  ghost predicate AgreeBelow<T>(get: Lookup<T>, spec: seq<SortField>, n: nat, a: T, b: T)
    requires n <= |spec|
  {
    forall m :: 0 <= m < n ==> get(a, spec[m].name) == get(b, spec[m].name)
  }

  /** In the direction of the field, by rank. */
  predicate InDirection<T>(get: Lookup<T>, f: SortField, a: T, b: T) {
    if f.direction == -1 then Ascends(get(b, f.name), get(a, f.name)) else Ascends(get(a, f.name), get(b, f.name))
  }

  /** Two documents in order are in the direction of the first field that tells them apart. */
  lemma {:induction false} LexByRank<T>(get: Lookup<T>, spec: seq<SortField>, n: nat, a: T, b: T)
    requires LexLe(get, spec, a, b) && n < |spec| && AgreeBelow(get, spec, n, a, b)
    ensures InDirection(get, spec[n], a, b)
  {
    if n > 0 {
      assert get(a, spec[0].name) == get(b, spec[0].name);
      assert forall m :: 0 <= m < n - 1 ==> spec[1..][m] == spec[m + 1];
      LexByRank(get, spec[1..], n - 1, a, b);
    }
  }

  lemma {:induction false} LexTotal<T>(get: Lookup<T>, spec: seq<SortField>, a: T, b: T)
    ensures LexLe(get, spec, a, b) || LexLe(get, spec, b, a)
  {
    if spec != [] { LexTotal(get, spec[1..], a, b); }
  }

  lemma {:induction false} LexTransitive<T>(get: Lookup<T>, spec: seq<SortField>, a: T, b: T, c: T)
    requires LexLe(get, spec, a, b) && LexLe(get, spec, b, c)
    ensures LexLe(get, spec, a, c)
  {
    if spec != [] && get(a, spec[0].name) == get(b, spec[0].name) == get(c, spec[0].name) {
      LexTransitive(get, spec[1..], a, b, c);
    }
  }

  lemma LexPreorder<T(!new)>(get: Lookup<T>, spec: seq<SortField>)
    ensures TotalPreorder(Lex(get, spec))
  {
    forall a, b ensures LexLe(get, spec, a, b) || LexLe(get, spec, b, a) { LexTotal(get, spec, a, b); }
    forall a, b, c | LexLe(get, spec, a, b) && LexLe(get, spec, b, c) ensures LexLe(get, spec, a, c) {
      LexTransitive(get, spec, a, b, c);
    }
  }

  ghost function FirstField<T(!new)>(get: Lookup<T>, spec: seq<SortField>): (T, T) -> bool
    requires spec != []
  {
    ByKey(FieldKey(get, spec[0]), Descending(spec[0]))
  }

  /** Elements the first field cannot tell apart keep the order of the earlier pass. */
  lemma PassOrders<T(!new)>(get: Lookup<T>, spec: seq<SortField>, t: seq<T>, u: seq<T>)
    requires spec != [] && Sorted(t, Lex(get, spec[1..])) && IsStableSort(t, u, FirstField(get, spec))
    ensures Sorted(u, Lex(get, spec))
  {
    var first := FirstField(get, spec);
    forall i, j | 0 <= i < j < |u| ensures LexLe(get, spec, u[i], u[j]) {
      assert first(u[i], u[j]);
      if get(u[i], spec[0].name) == get(u[j], spec[0].name) {
        SortedWithinClass(t, first, Lex(get, spec[1..]), u[i]);
        var a, b := ClassKeepsOrder(u, first, u[i], i, j);
        assert Class(u, first, u[i]) == Class(t, first, u[i]);
      }
    }
  }

  lemma {:induction false} SortedWithinClass<T>(t: seq<T>, le: (T, T) -> bool, order: (T, T) -> bool, x: T)
    requires Sorted(t, order)
    ensures Sorted(Class(t, le, x), order)
  {
    if t != [] {
      SortedWithinClass(t[1..], le, order, x);
      forall y | y in Class(t[1..], le, x) ensures order(t[0], y) {
        ClassMember(t[1..], le, x, y);
        assert exists k :: 0 < k < |t| && t[k] == y;
      }
    }
  }

  /** One more stable pass turns the sort by later fields into the sort by all of them. */
  lemma PassRefines<T(!new)>(get: Lookup<T>, spec: seq<SortField>, s: seq<T>)
    requires spec != []
    ensures Sort(Sort(s, Lex(get, spec[1..])), FirstField(get, spec)) == Sort(s, Lex(get, spec))
  {
    var first, rest, all := FirstField(get, spec), Lex(get, spec[1..]), Lex(get, spec);
    var t := Sort(s, rest);
    var u := Sort(t, first);
    LexPreorder(get, spec[1..]);
    LexPreorder(get, spec);
    SortIsStable(s, rest);
    SortIsStable(t, first);
    PassOrders(get, spec, t, u);
    forall x ensures Class(s, all, x) == Class(u, all, x) {
      ClassOfClass(s, all, rest, x);
      ClassOfClass(t, all, rest, x);
      ClassOfClass(t, all, first, x);
      ClassOfClass(u, all, first, x);
    }
    StableSortIsSort(s, u, all);
  }

  /** Spilling or not, the passes compute the stable lexicographic sort. */
  method PySortStage<T(==,!new)>(docs: seq<T>, spec: seq<SortField>, get: Lookup<T>, useSpill: bool, chunkSize: nat)
    returns (out: seq<T>)
    requires chunkSize > 0
    ensures out == Sort(docs, Lex(get, spec))
    ensures Sorted(out, Lex(get, spec)) && multiset(out) == multiset(docs)
    ensures forall i, j, n :: 0 <= i < j < |out| && 0 <= n < |spec| && AgreeBelow(get, spec, n, out[i], out[j]) ==>
              InDirection(get, spec[n], out[i], out[j])
  {
    out := docs;
    NoFields(docs, get);
    var i := |spec|;
    assert spec[i..] == [];
    while i > 0
      invariant 0 <= i <= |spec|
      invariant out == Sort(docs, Lex(get, spec[i..]))
    {
      i := i - 1;
      assert spec[i..][1..] == spec[i + 1..];
      PassRefines(get, spec[i..], docs);
      if useSpill {
        var sorter := new DiskSpillSorter(FieldKey(get, spec[i]), Descending(spec[i]), chunkSize);
        out := sorter.Sort(out);
      } else {
        out := Sort(out, ByKey(FieldKey(get, spec[i]), Descending(spec[i])));
      }
    }
    assert spec[0..] == spec;
    LexPreorder(get, spec);
    SortIsStable(docs, Lex(get, spec));
    SameClassesPermute(docs, out, Lex(get, spec));
    forall i, j, n | 0 <= i < j < |out| && 0 <= n < |spec| && AgreeBelow(get, spec, n, out[i], out[j])
      ensures InDirection(get, spec[n], out[i], out[j])
    {
      assert Lex(get, spec)(out[i], out[j]);
      LexByRank(get, spec, n, out[i], out[j]);
    }
  }

  lemma {:induction false} NoFields<T>(docs: seq<T>, get: Lookup<T>)
    ensures Sort(docs, Lex(get, [])) == docs
  {
    if docs != [] { NoFields(docs[1..], get); }
  }
}
