/**
  Stable sorting under a total preorder: the reference that every sort of the
  aggregation pipeline is measured against.  `Class` collects, in order, the
  elements that compare equal to a given one; a result is a stable sort when it
  is ordered and every class reads the same as in the input.
 */
module StableSort {
  import opened Common


  ghost predicate TotalPreorder<T(!new)>(le: (T, T) -> bool) {
    && (forall x, y :: le(x, y) || le(y, x))
    && (forall x, y, z :: le(x, y) && le(y, z) ==> le(x, z))
  }

  predicate Same<T>(le: (T, T) -> bool, x: T, y: T) {
    le(x, y) && le(y, x)
  }

  ghost predicate Sorted<T>(s: seq<T>, le: (T, T) -> bool) {
    forall i, j :: 0 <= i < j < |s| ==> le(s[i], s[j])
  }

  function One<T>(keep: bool, x: T): seq<T> {
    if keep then [x] else []
  }

  function Class<T>(s: seq<T>, le: (T, T) -> bool, x: T): seq<T> {
    if s == [] then [] else One(Same(le, s[0], x), s[0]) + Class(s[1..], le, x)
  }

  ghost predicate SameClasses<T(!new)>(s: seq<T>, r: seq<T>, le: (T, T) -> bool) {
    forall x :: Class(s, le, x) == Class(r, le, x)
  }

  ghost predicate IsStableSort<T(!new)>(s: seq<T>, r: seq<T>, le: (T, T) -> bool) {
    Sorted(r, le) && SameClasses(s, r, le)
  }

  function Insert<T>(x: T, s: seq<T>, le: (T, T) -> bool): seq<T> {
    if s == [] || le(x, s[0]) then [x] + s else [s[0]] + Insert(x, s[1..], le)
  }

  /** The in-memory sort: what `list.sort` and `sorted` compute. */
  function Sort<T>(s: seq<T>, le: (T, T) -> bool): seq<T> {
    if s == [] then [] else Insert(s[0], Sort(s[1..], le), le)
  }

  // ---------- classes ----------

  lemma {:induction false} ClassConcat<T>(a: seq<T>, b: seq<T>, le: (T, T) -> bool, x: T)
    ensures Class(a + b, le, x) == Class(a, le, x) + Class(b, le, x)
  {
    if a == [] {
      assert a + b == b;
    } else {
      ClassConcat(a[1..], b, le, x);
      assert (a + b)[1..] == a[1..] + b;
      Regroup(One(Same(le, a[0], x), a[0]), Class(a[1..], le, x), Class(b, le, x));
    }
  }

  lemma {:induction false} ClassMember<T>(s: seq<T>, le: (T, T) -> bool, x: T, y: T)
    ensures y in Class(s, le, x) <==> y in s && Same(le, y, x)
  {
    if s != [] {
      ClassMember(s[1..], le, x, y);
      assert y in s <==> y == s[0] || y in s[1..];
    }
  }

  /** A finer order's class can be cut out of a coarser order's class. */
  lemma {:induction false} ClassOfClass<T(!new)>(s: seq<T>, fine: (T, T) -> bool, coarse: (T, T) -> bool, x: T)
    requires forall y, z :: Same(fine, y, z) ==> Same(coarse, y, z)
    ensures Class(Class(s, coarse, x), fine, x) == Class(s, fine, x)
  {
    if s != [] {
      ClassOfClass(s[1..], fine, coarse, x);
      ClassConcat(One(Same(coarse, s[0], x), s[0]), Class(s[1..], coarse, x), fine, x);
    }
  }

  /** Two members of one class keep their relative order inside it. */
  lemma {:induction false} ClassKeepsOrder<T>(s: seq<T>, le: (T, T) -> bool, x: T, i: nat, j: nat)
    returns (a: nat, b: nat)
    requires i < j < |s| && Same(le, s[i], x) && Same(le, s[j], x)
    ensures a < b < |Class(s, le, x)| && Class(s, le, x)[a] == s[i] && Class(s, le, x)[b] == s[j]
  {
    var c := Class(s, le, x);
    if i == 0 {
      ClassMember(s[1..], le, x, s[j]);
      assert s[j] == s[1..][j - 1];
      a := 0;
      b :| 0 <= b < |c| - 1 && Class(s[1..], le, x)[b] == s[j];
      b := b + 1;
    } else {
      a, b := ClassKeepsOrder(s[1..], le, x, i - 1, j - 1);
      if Same(le, s[0], x) { a, b := a + 1, b + 1; }
    }
  }

  lemma {:induction false} ClassCount<T>(s: seq<T>, le: (T, T) -> bool, x: T)
    requires le(x, x)
    ensures multiset(Class(s, le, x))[x] == multiset(s)[x]
  {
    if s != [] {
      ClassCount(s[1..], le, x);
      assert s == [s[0]] + s[1..];
    }
  }

  /** Equal classes make the result a rearrangement of the input. */
  lemma SameClassesPermute<T(!new)>(s: seq<T>, r: seq<T>, le: (T, T) -> bool)
    requires TotalPreorder(le) && SameClasses(s, r, le)
    ensures multiset(s) == multiset(r)
  {
    forall x ensures multiset(s)[x] == multiset(r)[x] {
      ClassCount(s, le, x);
      ClassCount(r, le, x);
    }
  }

  // ---------- a stable sort is unique ----------

  lemma HeadIsLeast<T(!new)>(r: seq<T>, t: seq<T>, le: (T, T) -> bool)
    requires TotalPreorder(le) && Sorted(r, le) && SameClasses(r, t, le) && r != [] && t != []
    ensures le(r[0], t[0])
  {
    ClassMember(t, le, t[0], t[0]);
    assert t[0] in Class(r, le, t[0]);
    ClassMember(r, le, t[0], t[0]);
  }

  lemma {:induction false} SortedDetermined<T(!new)>(r: seq<T>, t: seq<T>, le: (T, T) -> bool)
    requires TotalPreorder(le) && Sorted(r, le) && Sorted(t, le) && SameClasses(r, t, le)
    ensures r == t
  {
    SameClassesPermute(r, t, le);
    assert |multiset(r)| == |multiset(t)|;
    if r != [] {
      HeadIsLeast(r, t, le);
      HeadIsLeast(t, r, le);
      assert r[0] == Class(r, le, r[0])[0] == Class(t, le, r[0])[0] == t[0];
      forall x ensures Class(r[1..], le, x) == Class(t[1..], le, x) {
        var n := |One(Same(le, r[0], x), r[0])|;
        assert Class(r[1..], le, x) == Class(r, le, x)[n..] == Class(t, le, x)[n..];
      }
      SortedDetermined(r[1..], t[1..], le);
    }
  }

  /** At most one sequence is a stable sort of `s`. */
  lemma StableSortUnique<T(!new)>(s: seq<T>, r: seq<T>, t: seq<T>, le: (T, T) -> bool)
    requires TotalPreorder(le) && IsStableSort(s, r, le) && IsStableSort(s, t, le)
    ensures r == t
  {
    SortedDetermined(r, t, le);
  }

  // ---------- the in-memory sort is one ----------

  lemma {:induction false} InsertSorted<T(!new)>(x: T, s: seq<T>, le: (T, T) -> bool)
    requires TotalPreorder(le) && Sorted(s, le)
    ensures Sorted(Insert(x, s, le), le)
    ensures forall y :: y in Insert(x, s, le) ==> y == x || y in s
  {
    if s != [] && !le(x, s[0]) {
      var r := Insert(x, s[1..], le);
      InsertSorted(x, s[1..], le);
      forall y | y in r ensures le(s[0], y) {
        assert y in s[1..] ==> exists k :: 0 < k < |s| && s[k] == y;
      }
    }
  }

  lemma {:induction false} InsertClass<T(!new)>(x: T, s: seq<T>, le: (T, T) -> bool, c: T)
    requires TotalPreorder(le)
    ensures Class(Insert(x, s, le), le, c) == One(Same(le, x, c), x) + Class(s, le, c)
  {
    if s == [] || le(x, s[0]) {
      assert Insert(x, s, le)[1..] == s;
    } else {
      InsertClass(x, s[1..], le, c);
      assert !(Same(le, x, c) && Same(le, s[0], c));
    }
  }

  lemma {:induction false} SortIsStable<T(!new)>(s: seq<T>, le: (T, T) -> bool)
    requires TotalPreorder(le)
    ensures IsStableSort(s, Sort(s, le), le)
  {
    if s != [] {
      SortIsStable(s[1..], le);
      InsertSorted(s[0], Sort(s[1..], le), le);
      forall c ensures Class(s, le, c) == Class(Sort(s, le), le, c) {
        InsertClass(s[0], Sort(s[1..], le), le, c);
      }
    }
  }

  /** Any stable sort of `s` is the in-memory one. */
  lemma StableSortIsSort<T(!new)>(s: seq<T>, r: seq<T>, le: (T, T) -> bool)
    requires TotalPreorder(le) && IsStableSort(s, r, le)
    ensures r == Sort(s, le)
  {
    SortIsStable(s, le);
    StableSortUnique(s, r, Sort(s, le), le);
  }
}
