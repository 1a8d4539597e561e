/**
  The spill-to-disk sorter: chunks are sorted in memory, written out, and merged
  through a heap whose ties go to the earlier chunk.  Temp files are sequences of
  documents; keys are compared through a rank, `Missing` for an absent value.
 */
module SpillSort {
  import opened Common
  import opened StableSort

  /** The key tuple `(value is not None, value)`. */
  datatype SortKey = Missing | Present(rank: int)

  predicate KeyLt(a: SortKey, b: SortKey) {
    b.Present? && (a.Missing? || a.rank < b.rank)
  }

  predicate KeyLe(reverse: bool, a: SortKey, b: SortKey) {
    a == b || if reverse then KeyLt(b, a) else KeyLt(a, b)
  }

  function ByKey<T(!new)>(key: T -> SortKey, reverse: bool): (le: (T, T) -> bool)
    ensures TotalPreorder(le)
  {
    (a, b) => KeyLe(reverse, key(a), key(b))
  }

  /** Ascending: missing values first, then by rank. */
  predicate Ascends(a: SortKey, b: SortKey) {
    a.Missing? || (b.Present? && a.rank <= b.rank)
  }

  /** What a sorted sequence looks like on the ranks. */
  lemma SortedByRank<T(!new)>(s: seq<T>, key: T -> SortKey, reverse: bool)
    requires Sorted(s, ByKey(key, reverse))
    ensures forall i, j :: 0 <= i < j < |s| ==>
              if reverse then Ascends(key(s[j]), key(s[i])) else Ascends(key(s[i]), key(s[j]))
  {
    forall i, j | 0 <= i < j < |s|
      ensures if reverse then Ascends(key(s[j]), key(s[i])) else Ascends(key(s[i]), key(s[j]))
    {
      assert ByKey(key, reverse)(s[i], s[j]);
    }
  }

  datatype KeyedDoc<T> = KeyedDoc(doc: T, key: SortKey, tie: nat)

  /** `_KeyedDoc.__lt__`, and `_NegKeyedDoc.__lt__` when `reverse`. */
  predicate HeapLt<T>(reverse: bool, a: KeyedDoc<T>, b: KeyedDoc<T>) {
    if a.key == b.key then a.tie < b.tie
    else if reverse then KeyLt(b.key, a.key) else KeyLt(a.key, b.key)
  }

  function Flat<T>(ss: seq<seq<T>>): seq<T> {
    if ss == [] then [] else ss[0] + Flat(ss[1..])
  }

  lemma {:induction false} FlatAppend<T>(ss: seq<seq<T>>, s: seq<T>)
    ensures Flat(ss + [s]) == Flat(ss) + s
  {
    if ss == [] {
      assert ss + [s] == [s];
    } else {
      FlatAppend(ss[1..], s);
      assert (ss + [s])[1..] == ss[1..] + [s];
    }
  }

  lemma {:induction false} FlatEmpty<T>(ss: seq<seq<T>>)
    requires forall i :: 0 <= i < |ss| ==> ss[i] == []
    ensures Flat(ss) == []
  {
    if ss != [] { FlatEmpty(ss[1..]); }
  }

  ghost predicate AllSorted<T>(ss: seq<seq<T>>, le: (T, T) -> bool) {
    forall i :: 0 <= i < |ss| ==> Sorted(ss[i], le)
  }

  /** Chunk `i` has the smallest head, and every earlier chunk a strictly larger one. */
  ghost predicate LeastHead<T>(rem: seq<seq<T>>, i: nat, le: (T, T) -> bool) {
    && i < |rem| && rem[i] != []
    && (forall j :: 0 <= j < |rem| && rem[j] != [] ==> le(rem[i][0], rem[j][0]))
    && (forall j :: 0 <= j < i && rem[j] != [] ==> !le(rem[j][0], rem[i][0]))
  }

  lemma {:induction false} ClassAbove<T(!new)>(s: seq<T>, le: (T, T) -> bool, x: T, c: T)
    requires TotalPreorder(le) && Sorted(s, le) && Same(le, x, c)
    requires s != [] ==> !le(s[0], x)
    ensures Class(s, le, c) == []
  {
    if s != [] {
      assert s[1..] != [] ==> le(s[0], s[1]);
      ClassAbove(s[1..], le, x, c);
    }
  }

  lemma LeastHeadOfTail<T>(rem: seq<seq<T>>, i: nat, le: (T, T) -> bool)
    requires LeastHead(rem, i, le) && i > 0 && AllSorted(rem, le)
    ensures LeastHead(rem[1..], i - 1, le) && AllSorted(rem[1..], le)
    ensures rem[i := rem[i][1..]][1..] == rem[1..][i - 1 := rem[1..][i - 1][1..]]
  {
    var t := rem[1..];
    assert forall j :: 0 <= j < |t| ==> t[j] == rem[j + 1];
  }

  lemma EmptyCommutes<T>(a: seq<T>, b: seq<T>, c: seq<T>)
    requires a == [] || b == []
    ensures a + (b + c) == b + (a + c)
  {
    assert a == [] ==> a + (b + c) == b + c && a + c == c;
    assert b == [] ==> b + (a + c) == a + c && b + c == c;
  }

  /** Taking the least head takes the first element of its class, and of no other. */
  lemma {:induction false} TakeLeast<T(!new)>(rem: seq<seq<T>>, i: nat, le: (T, T) -> bool, c: T)
    requires TotalPreorder(le) && AllSorted(rem, le) && LeastHead(rem, i, le)
    ensures Class(Flat(rem), le, c)
         == One(Same(le, rem[i][0], c), rem[i][0]) + Class(Flat(rem[i := rem[i][1..]]), le, c)
  {
    var rem', x := rem[i := rem[i][1..]], rem[i][0];
    var first, one, rest := Class(rem'[0], le, c), One(Same(le, x, c), x), Class(Flat(rem'[1..]), le, c);
    ClassConcat(rem[0], Flat(rem[1..]), le, c);
    ClassConcat(rem'[0], Flat(rem'[1..]), le, c);
    if i == 0 {
      assert rem'[1..] == rem[1..];
      Regroup(one, first, rest);
    } else {
      LeastHeadOfTail(rem, i, le);
      TakeLeast(rem[1..], i - 1, le, c);
      if Same(le, x, c) { ClassAbove(rem[0], le, x, c); }
      EmptyCommutes(first, one, rest);
    }
  }

  method HeapPop<T(==)>(heap: set<KeyedDoc<T>>, reverse: bool) returns (least: KeyedDoc<T>)
    requires heap != {}
    ensures least in heap
    ensures forall h :: h in heap ==> !HeapLt(reverse, h, least)
  {
    least :| least in heap;
    var todo := heap - {least};
    while todo != {}
      invariant todo <= heap && least in heap
      invariant forall h :: h in heap && h !in todo ==> !HeapLt(reverse, h, least)
    {
      var h :| h in todo;
      if HeapLt(reverse, h, least) { least := h; }
      todo := todo - {h};
    }
  }

  /** The heap holds exactly the heads of the unread remainders, one per chunk. */
  ghost predicate HeapOf<T>(heap: set<KeyedDoc<T>>, key: T -> SortKey, iters: seq<seq<T>>, rem: seq<seq<T>>) {
    && |iters| == |rem|
    && (forall h :: h in heap ==>
          h.tie < |rem| && rem[h.tie] == [h.doc] + iters[h.tie] && h.key == key(h.doc))
    && (forall i :: 0 <= i < |rem| ==>
          if rem[i] == [] then iters[i] == [] else KeyedDoc(rem[i][0], key(rem[i][0]), i) in heap)
  }

  /** The output is ordered and no larger than anything still to be merged. */
  ghost predicate Ahead<T>(out: seq<T>, rem: seq<seq<T>>, le: (T, T) -> bool) {
    && AllSorted(rem, le) && Sorted(out, le)
    && (forall y, i, k :: y in out && 0 <= i < |rem| && 0 <= k < |rem[i]| ==> le(y, rem[i][k]))
  }

  /** Class by class, output and remainder read as the files do. */
  ghost predicate Balanced<T(!new)>(files: seq<seq<T>>, out: seq<T>, rem: seq<seq<T>>, le: (T, T) -> bool) {
    forall c :: Class(Flat(files), le, c) == Class(out, le, c) + Class(Flat(rem), le, c)
  }

  lemma LeastIsHead<T(!new)>(heap: set<KeyedDoc<T>>, least: KeyedDoc<T>, key: T -> SortKey, reverse: bool,
                       iters: seq<seq<T>>, rem: seq<seq<T>>)
    requires HeapOf(heap, key, iters, rem) && least in heap
    requires forall h :: h in heap ==> !HeapLt(reverse, h, least)
    ensures LeastHead(rem, least.tie, ByKey(key, reverse)) && rem[least.tie][0] == least.doc
  {
    var le := ByKey(key, reverse);
    forall j | 0 <= j < |rem| && rem[j] != []
      ensures le(least.doc, rem[j][0]) && (j < least.tie ==> !le(rem[j][0], least.doc))
    {
      var h := KeyedDoc(rem[j][0], key(rem[j][0]), j);
      assert h in heap && !HeapLt(reverse, h, least);
    }
  }

  /** `heappush` of the next document of chunk `i`, if it has one. */
  function Push<T(==)>(heap: set<KeyedDoc<T>>, key: T -> SortKey, i: nat, it: seq<T>): set<KeyedDoc<T>> {
    if it == [] then heap else heap + {KeyedDoc(it[0], key(it[0]), i)}
  }

  function Tail<T>(it: seq<T>): seq<T> {
    if it == [] then [] else it[1..]
  }

  lemma HeapGrows<T>(heap: set<KeyedDoc<T>>, key: T -> SortKey, iters: seq<seq<T>>, rem: seq<seq<T>>, it: seq<T>)
    requires HeapOf(heap, key, iters, rem)
    ensures HeapOf(Push(heap, key, |rem|, it), key, iters + [Tail(it)], rem + [it])
  {
    var rem' := rem + [it];
    assert forall i :: 0 <= i < |rem'| ==> rem'[i] == if i < |rem| then rem[i] else it;
  }

  lemma HeapAdvances<T>(heap: set<KeyedDoc<T>>, entry: KeyedDoc<T>, key: T -> SortKey, iters: seq<seq<T>>,
                        rem: seq<seq<T>>)
    requires HeapOf(heap, key, iters, rem) && entry in heap
    ensures var (i, it) := (entry.tie, iters[entry.tie]);
            rem[i][1..] == it
            && HeapOf(Push(heap - {entry}, key, i, it), key, iters[i := Tail(it)], rem[i := it])
  {
    var i := entry.tie;
    assert rem[i] == [entry.doc] + iters[i];
    forall h | h in heap - {entry} ensures h.tie != i {
      assert rem[h.tie] == [h.doc] + iters[h.tie];
    }
  }

  lemma StaysAhead<T(!new)>(out: seq<T>, rem: seq<seq<T>>, i: nat, le: (T, T) -> bool)
    requires TotalPreorder(le) && Ahead(out, rem, le) && LeastHead(rem, i, le)
    ensures Ahead(out + [rem[i][0]], rem[i := rem[i][1..]], le)
  {
    var x, rem' := rem[i][0], rem[i := rem[i][1..]];
    assert Sorted(out + [x], le) by { assert forall k :: 0 <= k < |out| ==> out[k] in out; }
    forall y, j, k | y in out + [x] && 0 <= j < |rem'| && 0 <= k < |rem'[j]| ensures le(y, rem'[j][k]) {
      var k' := if j == i then k + 1 else k;
      assert rem'[j][k] == rem[j][k'];
      if y !in out {
        assert le(x, rem[j][0]) && (k' == 0 || le(rem[j][0], rem[j][k']));
      }
    }
  }

  lemma StaysBalanced<T(!new)>(files: seq<seq<T>>, out: seq<T>, rem: seq<seq<T>>, i: nat, le: (T, T) -> bool)
    requires TotalPreorder(le) && AllSorted(rem, le) && Balanced(files, out, rem, le) && LeastHead(rem, i, le)
    ensures Balanced(files, out + [rem[i][0]], rem[i := rem[i][1..]], le)
  {
    var x, rem' := rem[i][0], rem[i := rem[i][1..]];
    forall c ensures Class(Flat(files), le, c) == Class(out + [x], le, c) + Class(Flat(rem'), le, c) {
      MovesToOutput(out, rem, i, le, c);
    }
  }

  lemma MovesToOutput<T(!new)>(out: seq<T>, rem: seq<seq<T>>, i: nat, le: (T, T) -> bool, c: T)
    requires TotalPreorder(le) && AllSorted(rem, le) && LeastHead(rem, i, le)
    ensures Class(out, le, c) + Class(Flat(rem), le, c)
         == Class(out + [rem[i][0]], le, c) + Class(Flat(rem[i := rem[i][1..]]), le, c)
  {
    var x := rem[i][0];
    TakeLeast(rem, i, le, c);
    ClassConcat(out, [x], le, c);
    assert Class([x], le, c) == One(Same(le, x, c), x);
    Regroup(Class(out, le, c), One(Same(le, x, c), x), Class(Flat(rem[i := rem[i][1..]]), le, c));
  }

  class DiskSpillSorter<T(==,!new)> {
    const key: T -> SortKey
    const reverse: bool
    const chunkSize: nat
    var tmpfiles: seq<seq<T>>

    constructor (key: T -> SortKey, reverse: bool, chunkSize: nat)
      requires chunkSize > 0
      ensures this.key == key && this.reverse == reverse && this.chunkSize == chunkSize && tmpfiles == []
    {
      this.key, this.reverse, this.chunkSize, this.tmpfiles := key, reverse, chunkSize, [];
    }

    /** The k-way merge keeps the files' order among equal keys. */
    method MergeFiles() returns (out: seq<T>)
      requires AllSorted(tmpfiles, ByKey(key, reverse))
      ensures IsStableSort(Flat(tmpfiles), out, ByKey(key, reverse))
    {
      ghost var le, rem := ByKey(key, reverse), [];
      var iters, heap := [], {};
      for n := 0 to |tmpfiles|
        invariant rem == tmpfiles[..n] && HeapOf(heap, key, iters, rem)
      {
        HeapGrows(heap, key, iters, rem, tmpfiles[n]);
        heap := Push(heap, key, n, tmpfiles[n]);
        iters, rem := iters + [Tail(tmpfiles[n])], rem + [tmpfiles[n]];
      }
      assert rem == tmpfiles;
      out := [];
      while heap != {}
        invariant HeapOf(heap, key, iters, rem)
        invariant Ahead(out, rem, le) && Balanced(tmpfiles, out, rem, le)
        decreases |Flat(rem)|
      {
        var entry := HeapPop(heap, reverse);
        LeastIsHead(heap, entry, key, reverse, iters, rem);
        StaysAhead(out, rem, entry.tie, le);
        StaysBalanced(tmpfiles, out, rem, entry.tie, le);
        HeapAdvances(heap, entry, key, iters, rem);
        FlatShrinks(rem, entry.tie);
        var it := iters[entry.tie];
        rem := rem[entry.tie := it];
        out := out + [entry.doc];
        heap := Push(heap - {entry}, key, entry.tie, it);
        iters := iters[entry.tie := Tail(it)];
      }
      FlatEmpty(rem);
    }

    /** Any input, any chunk size, either direction: the in-memory stable sort. */
    method Sort(docs: seq<T>) returns (out: seq<T>)
      requires tmpfiles == [] && chunkSize > 0
      modifies this
      ensures out == StableSort.Sort(docs, ByKey(key, reverse))
      ensures forall i, j :: 0 <= i < j < |out| ==>
                if reverse then Ascends(key(out[j]), key(out[i])) else Ascends(key(out[i]), key(out[j]))
      ensures tmpfiles == []
    {
      ghost var le := ByKey(key, reverse);
      SortIsStable(docs, le);
      SortedByRank(StableSort.Sort(docs, le), key, reverse);
      if |docs| <= chunkSize {
        out := StableSort.Sort(docs, ByKey(key, reverse));
        return;
      }
      var i := 0;
      while i < |docs|
        invariant 0 <= i <= |docs|
        invariant AllSorted(tmpfiles, le)
        invariant SameClasses(docs[..i], Flat(tmpfiles), le)
      {
        var end := if i + chunkSize < |docs| then i + chunkSize else |docs|;
        var chunk := StableSort.Sort(docs[i..end], ByKey(key, reverse));
        SpillChunk(docs, i, end, tmpfiles, le);
        tmpfiles := tmpfiles + [chunk];
        i := end;
      }
      assert docs[..i] == docs;
      out := MergeFiles();
      StableSortIsSort(docs, out, le);
      tmpfiles := [];
    }
  }

  lemma {:induction false} FlatShrinks<T>(rem: seq<seq<T>>, i: nat)
    requires i < |rem| && rem[i] != []
    ensures |Flat(rem[i := rem[i][1..]])| < |Flat(rem)|
  {
    var rem' := rem[i := rem[i][1..]];
    if i == 0 {
      assert rem'[1..] == rem[1..];
    } else {
      FlatShrinks(rem[1..], i - 1);
      assert rem'[1..] == rem[1..][i - 1 := rem[1..][i - 1][1..]];
    }
  }

  lemma SpillChunk<T(!new)>(docs: seq<T>, i: nat, end: nat, files: seq<seq<T>>, le: (T, T) -> bool)
    requires TotalPreorder(le) && i <= end <= |docs| && AllSorted(files, le)
    requires SameClasses(docs[..i], Flat(files), le)
    ensures var files' := files + [StableSort.Sort(docs[i..end], le)];
            AllSorted(files', le) && SameClasses(docs[..end], Flat(files'), le)
  {
    var chunk := StableSort.Sort(docs[i..end], le);
    SortIsStable(docs[i..end], le);
    FlatAppend(files, chunk);
    forall c ensures Class(docs[..end], le, c) == Class(Flat(files) + chunk, le, c) {
      assert docs[..end] == docs[..i] + docs[i..end];
      ClassConcat(docs[..i], docs[i..end], le, c);
      ClassConcat(Flat(files), chunk, le, c);
    }
  }
}
