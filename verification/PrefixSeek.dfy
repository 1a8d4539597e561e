/**
  A storage table sorted by key, and the seek-then-walk reads of the indexes: land
  near the prefix, step over a smaller neighbour, and read while keys start with it.
 */
module PrefixSeek {
  import opened Common
  import opened Strings

  datatype Row = Row(key: string, id: string)

  type Table = seq<Row>

  ghost predicate Ascending(t: Table) {
    forall i, j :: 0 <= i < j < |t| ==> Lt(t[i].key, t[j].key)
  }

  // ---------- reads ----------

  /** The ids under keys that start with `prefix`, from position `lo` on: a full scan. */
  function Matching(t: Table, prefix: string, lo: nat): seq<string>
    requires lo <= |t|
    decreases |t| - lo
  {
    if lo == |t| then []
    else if StartsWith(t[lo].key, prefix) then [t[lo].id] + Matching(t, prefix, lo + 1)
    else Matching(t, prefix, lo + 1)
  }

  lemma {:induction false} MatchingMembers(t: Table, prefix: string, lo: nat, id: string)
    requires lo <= |t|
    ensures id in Matching(t, prefix, lo) <==> exists k :: lo <= k < |t| && StartsWith(t[k].key, prefix) && t[k].id == id
    decreases |t| - lo
  {
    if lo < |t| { MatchingMembers(t, prefix, lo + 1, id); }
  }

  datatype Near = NotFound | Landed(pos: nat, exact: int)

  /** A landing `search_near` may report: the key itself, or either neighbour of its place. */
  predicate NearOk(t: Table, key: string, near: Near) {
    match near
    case NotFound => t == []
    case Landed(p, exact) =>
      && p < |t|
      && (exact == 0 ==> t[p].key == key)
      && (exact > 0 ==> Lt(key, t[p].key) && (p > 0 ==> Lt(t[p - 1].key, key)))
      && (exact < 0 ==> Lt(t[p].key, key) && (p + 1 < |t| ==> Lt(key, t[p + 1].key)))
  }

  /** Nothing below `p` is at or above the prefix, nothing from `p` on is below it. */
  ghost predicate Starts(t: Table, prefix: string, p: nat) {
    && p <= |t|
    && (forall i :: 0 <= i < p ==> Lt(t[i].key, prefix))
    && (forall i :: p <= i < |t| ==> !Lt(t[i].key, prefix))
  }

  /** The walk's first row; the table's end when `next` finds none. */
  method Seek(t: Table, prefix: string, near: Near) returns (p: nat)
    requires Ascending(t) && NearOk(t, prefix, near)
    ensures Starts(t, prefix, p)
  {
    if near.NotFound? { return 0; }
    p := near.pos;
    if near.exact < 0 { p := p + 1; }
    forall i | 0 <= i < p ensures Lt(t[i].key, prefix) {
      if i + 1 < p { LtTransitive(t[i].key, t[p - 1].key, prefix); }
    }
    forall i | p <= i < |t| ensures !Lt(t[i].key, prefix) {
      LtTotal(prefix, t[i].key);
      if p < i && Lt(prefix, t[p].key) { LtTransitive(prefix, t[p].key, t[i].key); }
    }
  }

  lemma {:induction false} NoneMatch(t: Table, prefix: string, lo: nat, hi: nat)
    requires lo <= hi <= |t| && forall i :: lo <= i < hi ==> !StartsWith(t[i].key, prefix)
    ensures Matching(t, prefix, lo) == Matching(t, prefix, hi)
    decreases hi - lo
  {
    if lo < hi { NoneMatch(t, prefix, lo + 1, hi); }
  }

  lemma BeforeStart(t: Table, prefix: string, p: nat)
    requires Starts(t, prefix, p)
    ensures Matching(t, prefix, 0) == Matching(t, prefix, p)
  {
    forall i | 0 <= i < p ensures !StartsWith(t[i].key, prefix) {
      if StartsWith(t[i].key, prefix) { PrefixNotAbove(t[i].key, prefix); }
    }
    NoneMatch(t, prefix, 0, p);
  }

  lemma AfterBlock(t: Table, prefix: string, k: nat)
    requires Ascending(t) && k <= |t| && (k < |t| ==> !Lt(t[k].key, prefix) && !StartsWith(t[k].key, prefix))
    ensures Matching(t, prefix, k) == []
  {
    forall i | k <= i < |t| ensures !StartsWith(t[i].key, prefix) {
      if k < i { PrefixBlock(prefix, t[k].key, t[i].key); }
    }
    NoneMatch(t, prefix, k, |t|);
  }

  lemma WalkStep(t: Table, prefix: string, k: nat, ids: seq<string>, whole: seq<string>)
    requires k < |t| && StartsWith(t[k].key, prefix) && ids + Matching(t, prefix, k) == whole
    ensures (ids + [t[k].id]) + Matching(t, prefix, k + 1) == whole
  {
    Regroup(ids, [t[k].id], Matching(t, prefix, k + 1));
  }

  /** Whichever neighbour the seek lands on, the walk returns what a full scan would. */
  method Walk(t: Table, prefix: string, near: Near) returns (ids: seq<string>)
    requires Ascending(t) && NearOk(t, prefix, near)
    ensures ids == Matching(t, prefix, 0)
  {
    var k := Seek(t, prefix, near);
    BeforeStart(t, prefix, k);
    ghost var p, whole := k, Matching(t, prefix, 0);
    ids := [];
    while k < |t| && StartsWith(t[k].key, prefix)
      invariant p <= k <= |t| && ids + Matching(t, prefix, k) == whole
    {
      WalkStep(t, prefix, k, ids, whole);
      ids := ids + [t[k].id];
      k := k + 1;
    }
    AfterBlock(t, prefix, k);
  }

  method HasDuplicate(t: Table, prefix: string, exclude: string, near: Near) returns (found: bool)
    requires Ascending(t) && NearOk(t, prefix, near)
    ensures found <==> exists i :: 0 <= i < |t| && StartsWith(t[i].key, prefix) && t[i].id != exclude
  {
    var k := Seek(t, prefix, near);
    ghost var p := k;
    forall i | 0 <= i < p ensures !StartsWith(t[i].key, prefix) {
      if StartsWith(t[i].key, prefix) { PrefixNotAbove(t[i].key, prefix); }
    }
    while k < |t| && StartsWith(t[k].key, prefix)
      invariant p <= k <= |t| && Starts(t, prefix, p)
      invariant forall i :: 0 <= i < k && StartsWith(t[i].key, prefix) ==> t[i].id == exclude
    {
      if t[k].id != exclude { return true; }
      k := k + 1;
    }
    forall i | k <= i < |t| ensures !StartsWith(t[i].key, prefix) {
      if k < i { PrefixBlock(prefix, t[k].key, t[i].key); }
    }
    return false;
  }

  /** One landing per prefix. */
  predicate LandingsOk(t: Table, prefixes: seq<string>, nears: seq<Near>) {
    |nears| == |prefixes| && forall i :: 0 <= i < |prefixes| ==> NearOk(t, prefixes[i], nears[i])
  }

  predicate Distinct(ids: seq<string>) {
    forall i, j :: 0 <= i < j < |ids| ==> ids[i] != ids[j]
  }

  /** One seek per value: every matching id once. */
  method ExecuteInScan(t: Table, prefixes: seq<string>, nears: seq<Near>) returns (ids: seq<string>)
    requires Ascending(t) && LandingsOk(t, prefixes, nears)
    ensures Distinct(ids)
    ensures forall id :: id in ids <==> exists k :: 0 <= k < |prefixes| && id in Matching(t, prefixes[k], 0)
  {
    ids := [];
    for k := 0 to |prefixes|
      invariant Distinct(ids)
      invariant forall id :: id in ids <==> exists j :: 0 <= j < k && id in Matching(t, prefixes[j], 0)
    {
      var found := Walk(t, prefixes[k], nears[k]);
      ghost var before := ids;
      for i := 0 to |found|
        invariant Distinct(ids)
        invariant forall id :: id in ids <==> id in before || id in found[..i]
      {
        assert found[..i + 1] == found[..i] + [found[i]];
        if found[i] !in ids { ids := ids + [found[i]]; }
      }
      assert found[..|found|] == found;
    }
  }

  /** Ids that match every token; none without a token. */
  method TextSearch(t: Table, tokens: seq<string>, nears: seq<Near>) returns (ids: set<string>)
    requires Ascending(t) && LandingsOk(t, tokens, nears)
    ensures forall id :: id in ids <==> tokens != [] && forall k :: 0 <= k < |tokens| ==> id in Matching(t, tokens[k], 0)
  {
    if tokens == [] { return {}; }
    var first := Walk(t, tokens[0], nears[0]);
    ids := set id | id in first;
    for k := 1 to |tokens|
      invariant forall id :: id in ids <==> forall j :: 0 <= j < k ==> id in Matching(t, tokens[j], 0)
    {
      var more := Walk(t, tokens[k], nears[k]);
      ids := ids * set id | id in more;
    }
  }

  // ---------- writes ----------

  function Find(t: Table, key: string): Option<string> {
    if t == [] then None else if t[0].key == key then Some(t[0].id) else Find(t[1..], key)
  }

  /** `cursor[key] = id` on an overwriting cursor. */
  function Put(t: Table, key: string, id: string): Table {
    if t == [] || Lt(key, t[0].key) then [Row(key, id)] + t
    else if t[0].key == key then [Row(key, id)] + t[1..]
    else [t[0]] + Put(t[1..], key, id)
  }

  /** `cursor.remove()`, with the missing key's error swallowed. */
  function Drop(t: Table, key: string): Table {
    if t == [] then [] else if t[0].key == key then t[1..] else [t[0]] + Drop(t[1..], key)
  }

  lemma {:induction false} PutMembers(t: Table, key: string, id: string, r: Row)
    requires r in Put(t, key, id)
    ensures r in t || r == Row(key, id)
  {
    if t != [] && !Lt(key, t[0].key) && t[0].key != key && r != t[0] { PutMembers(t[1..], key, id, r); }
  }

  lemma AscendingCons(r: Row, t: Table)
    requires Ascending(t) && forall x :: x in t ==> Lt(r.key, x.key)
    ensures Ascending([r] + t)
  {
    forall i, j | 0 <= i < j < |t| + 1 ensures Lt(([r] + t)[i].key, ([r] + t)[j].key) {
      assert t[j - 1] in t;
    }
  }

  lemma FindCons(r: Row, t: Table, k: string)
    ensures Find([r] + t, k) == if r.key == k then Some(r.id) else Find(t, k)
  {
    assert ([r] + t)[1..] == t;
  }

  /** In a sorted table, a lookup finds the one row with its key. */
  lemma {:induction false} FindIsRow(t: Table, k: string, id: string)
    requires Ascending(t)
    ensures Find(t, k) == Some(id) <==> Row(k, id) in t
  {
    if t != [] {
      FindIsRow(t[1..], k, id);
      LtTotal(k, k);
      assert t == [t[0]] + t[1..];
      if t[0].key == k {
        forall x | x in t[1..] ensures x.key != k {
          var i :| 0 <= i < |t[1..]| && t[1..][i] == x;
          assert Lt(t[0].key, t[i + 1].key);
        }
      }
    }
  }

  lemma {:induction false} PutIsUpdate(t: Table, key: string, id: string)
    requires Ascending(t)
    ensures Ascending(Put(t, key, id))
    ensures forall k :: Find(Put(t, key, id), k) == if k == key then Some(id) else Find(t, k)
  {
    var r := Row(key, id);
    if t == [] || Lt(key, t[0].key) {
      forall x | x in t ensures Lt(key, x.key) {
        if x != t[0] { LtTransitive(key, t[0].key, x.key); }
      }
      AscendingCons(r, t);
      forall k ensures Find(Put(t, key, id), k) == if k == key then Some(id) else Find(t, k) { FindCons(r, t, k); }
    } else if t[0].key == key {
      AscendingCons(r, t[1..]);
      forall k ensures Find(Put(t, key, id), k) == if k == key then Some(id) else Find(t, k) { FindCons(r, t[1..], k); }
    } else {
      var rest := Put(t[1..], key, id);
      PutIsUpdate(t[1..], key, id);
      LtTotal(t[0].key, key);
      forall x | x in rest ensures Lt(t[0].key, x.key) { PutMembers(t[1..], key, id, x); }
      AscendingCons(t[0], rest);
      forall k ensures Find(Put(t, key, id), k) == if k == key then Some(id) else Find(t, k) { FindCons(t[0], rest, k); }
    }
  }

  lemma {:induction false} DropMembers(t: Table, key: string, r: Row)
    requires r in Drop(t, key)
    ensures r in t
  {
    if t[0].key != key && r != t[0] { DropMembers(t[1..], key, r); }
  }

  lemma {:induction false} DropIsRemoval(t: Table, key: string)
    requires Ascending(t)
    ensures Ascending(Drop(t, key))
    ensures forall k :: Find(Drop(t, key), k) == if k == key then None else Find(t, k)
  {
    if t == [] {
    } else if t[0].key == key {
      if Find(t[1..], key).Some? {
        FindIsRow(t[1..], key, Find(t[1..], key).value);
        LtTotal(key, key);
      }
    } else {
      var rest := Drop(t[1..], key);
      DropIsRemoval(t[1..], key);
      forall x | x in rest ensures Lt(t[0].key, x.key) { DropMembers(t[1..], key, x); }
      AscendingCons(t[0], rest);
      forall k ensures Find(Drop(t, key), k) == if k == key then None else Find(t, k) { FindCons(t[0], rest, k); }
    }
  }
}
