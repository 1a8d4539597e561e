/**
  Index maintenance: every index keeps one table, keyed by the encoded field values
  (or a text token, or a hash) followed by the document id.
 */
module Index {
  import opened Common
  import opened Strings
  import opened PrefixSeek

  datatype Kind = BTree | FullText | Hashed

  datatype Field = Field(name: string, direction: int)

  datatype IndexDef = IndexDef(kind: Kind, keys: seq<Field>, unique: bool, sparse: bool, partial: Option<Doc -> bool>)

  /** The engine's field access, value encoder, tokenizer, hash and string form of ids. */
  datatype Tools = Tools(get: (Doc, string) -> Value, encode: Value -> string,
                         tokens: string -> seq<string>, hash: Value -> string, text: Value -> string)

  // ---------- keys ----------

  predicate Bare(s: string) {
    '|' !in s
  }

  predicate Clean(parts: seq<string>) {
    forall k :: 0 <= k < |parts| ==> Bare(parts[k])
  }

  /** Encodings, tokens and hashes never hold the separator. */
  ghost predicate ToolsOk(t: Tools) {
    && (forall v :: Bare(t.encode(v)))
    && (forall v :: Bare(t.hash(v)))
    && (forall s, k :: 0 <= k < |t.tokens(s)| ==> Bare(t.tokens(s)[k]))
  }

  function Prefix(parts: seq<string>): string {
    if parts == [] then "" else parts[0] + "|" + Prefix(parts[1..])
  }

  function KeyOf(parts: seq<string>, id: string): string {
    Prefix(parts) + id
  }

  lemma {:induction false} BarDecides(p: string, a: string, q: string, b: string)
    requires Bare(p) && Bare(q)
    ensures StartsWith(q + "|" + b, p + "|" + a) <==> p == q && StartsWith(b, a)
  {
    var s, t := q + "|" + b, p + "|" + a;
    if p == "" {
      assert t[1..] == a;
      if q == "" { assert s[1..] == b; } else { assert s[0] == q[0] && q[0] in q; }
    } else if q == "" {
      assert t[0] == p[0] && p[0] in p;
    } else {
      assert s[1..] == q[1..] + "|" + b && t[1..] == p[1..] + "|" + a;
      BarDecides(p[1..], a, q[1..], b);
      assert p == [p[0]] + p[1..] && q == [q[0]] + q[1..];
    }
  }

  /** A key starts with a prefix exactly when it was built from the same parts. */
  lemma {:induction false} PrefixDecides(parts: seq<string>, other: seq<string>, id: string)
    requires Clean(parts) && Clean(other) && |parts| == |other|
    ensures StartsWith(KeyOf(other, id), Prefix(parts)) <==> parts == other
  {
    if parts != [] {
      PrefixDecides(parts[1..], other[1..], id);
      BarDecides(parts[0], Prefix(parts[1..]), other[0], KeyOf(other[1..], id));
      assert KeyOf(other, id) == other[0] + "|" + KeyOf(other[1..], id);
      assert parts == [parts[0]] + parts[1..] && other == [other[0]] + other[1..];
    }
  }

  lemma KeyInjective(parts: seq<string>, i: string, other: seq<string>, j: string)
    requires Clean(parts) && Clean(other) && |parts| == |other| && KeyOf(parts, i) == KeyOf(other, j)
    ensures parts == other && i == j
  {
    PrefixDecides(parts, parts, i);
    PrefixDecides(parts, other, j);
    assert KeyOf(parts, i)[|Prefix(parts)|..] == i && KeyOf(parts, j)[|Prefix(parts)|..] == j;
  }

  // ---------- the descending direction ----------

  predicate Hex(c: char) {
    '0' <= c <= '9' || 'a' <= c <= 'f'
  }

  /** Hexadecimal digits are mirrored, everything else kept. */
  function Flip(c: char): (f: char)
    ensures Hex(c) <==> Hex(f)
  {
    if '0' <= c <= '5' then ('0' as int + 'f' as int - c as int) as char
    else if '6' <= c <= '9' then ('6' as int + '9' as int - c as int) as char
    else if 'a' <= c <= 'f' then ('a' as int + '5' as int - c as int) as char
    else c
  }

  function Invert(s: string): string {
    if s == "" then "" else [Flip(s[0])] + Invert(s[1..])
  }

  lemma FlipUndoes(c: char)
    ensures Flip(Flip(c)) == c && (c != '|' ==> Flip(c) != '|')
  {
  }

  lemma {:induction false} InvertUndoes(s: string)
    ensures Invert(Invert(s)) == s && (Bare(s) ==> Bare(Invert(s)))
  {
    if s != "" {
      var rest := s[1..];
      InvertUndoes(rest);
      FlipUndoes(s[0]);
      assert Invert(s)[1..] == Invert(rest);
      assert s == [s[0]] + rest;
    }
  }

  /** Mirroring reverses the order of two codes exactly when neither starts with the other. */
  lemma {:induction false} InvertReversesExactly(a: string, b: string)
    requires Lt(a, b) && (forall i :: 0 <= i < |a| ==> Hex(a[i])) && (forall i :: 0 <= i < |b| ==> Hex(b[i]))
    ensures Lt(Invert(b), Invert(a)) <==> !StartsWith(b, a)
  {
    if a != "" {
      assert Invert(a)[1..] == Invert(a[1..]) && Invert(b)[1..] == Invert(b[1..]);
      if a[0] == b[0] {
        InvertReversesExactly(a[1..], b[1..]);
      } else {
        assert Flip(b[0]) < Flip(a[0]);
      }
    }
  }

  function Encoded(t: Tools, v: Value, direction: int): string {
    if direction == -1 then Invert(t.encode(v)) else t.encode(v)
  }

  // ---------- a document's keys ----------

  function Values(t: Tools, idx: IndexDef, d: Doc): seq<Value> {
    seq(|idx.keys|, k requires 0 <= k < |idx.keys| => t.get(d, idx.keys[k].name))
  }

  function Parts(t: Tools, idx: IndexDef, d: Doc): seq<string> {
    seq(|idx.keys|, k requires 0 <= k < |idx.keys| => Encoded(t, t.get(d, idx.keys[k].name), idx.keys[k].direction))
  }

  function Singles(words: seq<string>): seq<seq<string>> {
    seq(|words|, k requires 0 <= k < |words| => [words[k]])
  }

  function Words(t: Tools, vs: seq<Value>): seq<string> {
    if vs == [] then [] else Words(t, vs[..|vs| - 1]) + if vs[|vs| - 1].Str? then t.tokens(vs[|vs| - 1].s) else []
  }

  function Hashes(t: Tools, vs: seq<Value>): seq<string> {
    seq(|vs|, k requires 0 <= k < |vs| => t.hash(vs[k]))
  }

  predicate Skips(t: Tools, idx: IndexDef, d: Doc) {
    || (idx.partial.Some? && !idx.partial.value(d))
    || (idx.kind.BTree? && idx.sparse && forall k :: 0 <= k < |idx.keys| ==> t.get(d, idx.keys[k].name) == Null)
  }

  /** The part lists under which the document is entered. */
  function Entries(t: Tools, idx: IndexDef, d: Doc): seq<seq<string>> {
    if Skips(t, idx, d) then []
    else match idx.kind
      case BTree => [Parts(t, idx, d)]
      case FullText => Singles(Words(t, Values(t, idx, d)))
      case Hashed => Singles(Hashes(t, Values(t, idx, d)))
  }

  /** A sorted index leaves a document out if a filter does, or it is sparse and every indexed field is null. */
  lemma EnteredExactly(t: Tools, idx: IndexDef, d: Doc)
    requires idx.kind == BTree
    ensures Entries(t, idx, d) == [Parts(t, idx, d)] || Entries(t, idx, d) == []
    ensures Entries(t, idx, d) != [] <==>
            && (idx.partial.Some? ==> idx.partial.value(d))
            && (idx.sparse ==> exists k :: 0 <= k < |idx.keys| && t.get(d, idx.keys[k].name) != Null)
  {
  }

  /** A text index enters a document under every token of its string fields, and nothing else. */
  lemma {:induction false} WordsExactly(t: Tools, vs: seq<Value>, w: string)
    ensures w in Words(t, vs) <==> exists k :: 0 <= k < |vs| && vs[k].Str? && w in t.tokens(vs[k].s)
  {
    if vs != [] {
      WordsExactly(t, vs[..|vs| - 1], w);
      assert vs == vs[..|vs| - 1] + [vs[|vs| - 1]];
    }
  }

  function Arity(idx: IndexDef): nat {
    if idx.kind.BTree? then |idx.keys| else 1
  }

  function IdOf(t: Tools, d: Doc): string {
    t.text(Get(d, ID))
  }

  ghost predicate Formed(entries: seq<seq<string>>, n: nat) {
    forall k :: 0 <= k < |entries| ==> |entries[k]| == n && Clean(entries[k])
  }

  lemma {:induction false} WordsBare(t: Tools, vs: seq<Value>)
    requires ToolsOk(t)
    ensures Clean(Words(t, vs))
  {
    if vs != [] { WordsBare(t, vs[..|vs| - 1]); }
  }

  lemma PartsClean(t: Tools, idx: IndexDef, d: Doc)
    requires ToolsOk(t)
    ensures Clean(Parts(t, idx, d)) && |Parts(t, idx, d)| == |idx.keys|
  {
    forall k | 0 <= k < |idx.keys| ensures Bare(Parts(t, idx, d)[k]) {
      InvertUndoes(t.encode(t.get(d, idx.keys[k].name)));
    }
  }

  lemma EntriesFormed(t: Tools, idx: IndexDef, d: Doc)
    requires ToolsOk(t)
    ensures Formed(Entries(t, idx, d), Arity(idx))
  {
    WordsBare(t, Values(t, idx, d));
    PartsClean(t, idx, d);
    var h := Hashes(t, Values(t, idx, d));
    assert Clean(h);
  }

  function KeySet(entries: seq<seq<string>>, id: string): set<string> {
    set p | p in entries :: KeyOf(p, id)
  }

  function KeysOf(t: Tools, idx: IndexDef, d: Doc): set<string> {
    KeySet(Entries(t, idx, d), IdOf(t, d))
  }

  lemma KeysDisjoint(a: seq<seq<string>>, i: string, b: seq<seq<string>>, j: string, n: nat, x: string)
    requires Formed(a, n) && Formed(b, n) && x in KeySet(a, i) && x in KeySet(b, j)
    ensures i == j
  {
    var p :| p in a && x == KeyOf(p, i);
    var q :| q in b && x == KeyOf(q, j);
    KeyInjective(p, i, q, j);
  }

  // ---------- one index ----------

  ghost predicate Wrote(a: Table, b: Table, keys: set<string>, id: string) {
    Ascending(b) && forall x :: Find(b, x) == if x in keys then Some(id) else Find(a, x)
  }

  ghost predicate Erased(a: Table, b: Table, keys: set<string>) {
    Ascending(b) && forall x :: Find(b, x) == if x in keys then None else Find(a, x)
  }

  method PutAll(table: Table, entries: seq<seq<string>>, id: string) returns (out: Table)
    requires Ascending(table)
    ensures Wrote(table, out, KeySet(entries, id), id)
  {
    out := table;
    for k := 0 to |entries|
      invariant Wrote(table, out, KeySet(entries[..k], id), id)
    {
      PutIsUpdate(out, KeyOf(entries[k], id), id);
      out := Put(out, KeyOf(entries[k], id), id);
      assert entries[..k + 1] == entries[..k] + [entries[k]];
      assert KeySet(entries[..k + 1], id) == KeySet(entries[..k], id) + {KeyOf(entries[k], id)};
    }
    assert entries[..|entries|] == entries;
  }

  method DropAll(table: Table, entries: seq<seq<string>>, id: string) returns (out: Table)
    requires Ascending(table)
    ensures Erased(table, out, KeySet(entries, id))
  {
    out := table;
    for k := 0 to |entries|
      invariant Erased(table, out, KeySet(entries[..k], id))
    {
      DropIsRemoval(out, KeyOf(entries[k], id));
      out := Drop(out, KeyOf(entries[k], id));
      assert entries[..k + 1] == entries[..k] + [entries[k]];
      assert KeySet(entries[..k + 1], id) == KeySet(entries[..k], id) + {KeyOf(entries[k], id)};
    }
    assert entries[..|entries|] == entries;
  }

  /** The table's value is the id its key ends with. */
  ghost predicate Owned(table: Table, n: nat) {
    forall parts, i ::
      (|parts| == n && Clean(parts) && Find(table, KeyOf(parts, i)).Some?) ==> Find(table, KeyOf(parts, i)) == Some(i)
  }

  /** At most one id under each list of encoded values. */
  ghost predicate Sole(table: Table, n: nat) {
    forall parts, i, j ::
      (|parts| == n && Clean(parts) && Find(table, KeyOf(parts, i)).Some? && Find(table, KeyOf(parts, j)).Some?) ==> i == j
  }

  predicate Guarded(idx: IndexDef) {
    idx.kind.BTree? && idx.unique
  }

  ghost predicate Healthy(idx: IndexDef, table: Table) {
    Ascending(table) && Owned(table, Arity(idx)) && (Guarded(idx) ==> Sole(table, Arity(idx)))
  }

  /** Another id already holds these encoded values. */
  ghost predicate Held(table: Table, parts: seq<string>, id: string) {
    exists j :: j != id && Find(table, KeyOf(parts, j)).Some?
  }

  method SearchNear(table: Table, key: string) returns (near: Near)
    requires Ascending(table)
    ensures NearOk(table, key, near)
  {
    if table == [] { return NotFound; }
    var p := 0;
    while p < |table| && Lt(table[p].key, key)
      invariant 0 <= p <= |table| && (p > 0 ==> Lt(table[p - 1].key, key))
    {
      p := p + 1;
    }
    if p < |table| && table[p].key == key { return Landed(p, 0); }
    if p < |table| { LtTotal(table[p].key, key); }
    if p == |table| { return Landed(p - 1, -1); }
    if p > 0 {
      if * { return Landed(p - 1, -1); }
    }
    return Landed(p, 1);
  }

  /** Reading the rows under the prefix tells whether another id holds the values. */
  lemma RowsTell(table: Table, parts: seq<string>, id: string)
    requires Ascending(table) && Owned(table, |parts|) && Clean(parts)
    ensures Held(table, parts, id) <==>
            exists k :: 0 <= k < |table| && StartsWith(table[k].key, Prefix(parts)) && table[k].id != id
  {
    forall k | 0 <= k < |table| && StartsWith(table[k].key, Prefix(parts)) && table[k].id != id ensures Held(table, parts, id) {
      StartsWithConcat(table[k].key, Prefix(parts));
      var j := table[k].key[|Prefix(parts)|..];
      assert KeyOf(parts, j) == table[k].key && table[k] in table;
      FindIsRow(table, table[k].key, table[k].id);
    }
    if Held(table, parts, id) {
      var j :| j != id && Find(table, KeyOf(parts, j)).Some?;
      FindIsRow(table, KeyOf(parts, j), j);
      PrefixDecides(parts, parts, j);
      var k :| 0 <= k < |table| && table[k] == Row(KeyOf(parts, j), j);
    }
  }

  lemma WroteHealthy(idx: IndexDef, a: Table, b: Table, entries: seq<seq<string>>, id: string)
    requires Healthy(idx, a) && Formed(entries, Arity(idx)) && Wrote(a, b, KeySet(entries, id), id)
    requires Guarded(idx) ==> forall k :: 0 <= k < |entries| ==> !Held(a, entries[k], id)
    ensures Healthy(idx, b)
  {
    forall parts, i | |parts| == Arity(idx) && Clean(parts) && Find(b, KeyOf(parts, i)).Some?
      ensures Find(b, KeyOf(parts, i)) == Some(i)
      ensures KeyOf(parts, i) in KeySet(entries, id) ==> i == id && parts in entries
    {
      if KeyOf(parts, i) in KeySet(entries, id) {
        var p :| p in entries && KeyOf(p, id) == KeyOf(parts, i);
        KeyInjective(p, id, parts, i);
      }
    }
    if Guarded(idx) {
      forall parts, i, j | |parts| == Arity(idx) && Clean(parts) && Find(b, KeyOf(parts, i)).Some? && Find(b, KeyOf(parts, j)).Some?
        ensures i == j
      {
        if parts in entries {
          var k :| 0 <= k < |entries| && entries[k] == parts;
          assert !Held(a, parts, id);
        }
      }
    }
  }

  lemma ErasedHealthy(idx: IndexDef, a: Table, b: Table, keys: set<string>)
    requires Healthy(idx, a) && Erased(a, b, keys)
    ensures Healthy(idx, b)
  {
  }

  /** Enters the document, or raises and changes nothing; a unique index raises exactly when another id holds the values. */
  method InsertEntry(t: Tools, idx: IndexDef, d: Doc, table: Table) returns (out: Table, raised: bool)
    requires ToolsOk(t) && Healthy(idx, table)
    ensures Healthy(idx, out)
    ensures raised <==> Guarded(idx) && !Skips(t, idx, d) && Held(table, Parts(t, idx, d), IdOf(t, d))
    ensures if raised then out == table else Wrote(table, out, KeysOf(t, idx, d), IdOf(t, d))
  {
    EntriesFormed(t, idx, d);
    var entries, id := Entries(t, idx, d), IdOf(t, d);
    if Guarded(idx) && !Skips(t, idx, d) {
      var parts := Parts(t, idx, d);
      assert entries[0] == parts;
      RowsTell(table, parts, id);
      var near := SearchNear(table, Prefix(parts));
      var dup := HasDuplicate(table, Prefix(parts), id, near);
      if dup { return table, true; }
    }
    out := PutAll(table, entries, id);
    WroteHealthy(idx, table, out, entries, id);
    return out, false;
  }

  method DeleteEntry(t: Tools, idx: IndexDef, d: Doc, table: Table) returns (out: Table)
    requires ToolsOk(t) && Healthy(idx, table)
    ensures Healthy(idx, out) && Erased(table, out, KeysOf(t, idx, d))
  {
    out := DropAll(table, Entries(t, idx, d), IdOf(t, d));
    ErasedHealthy(idx, table, out, KeysOf(t, idx, d));
  }

  // ---------- the index against the collection ----------

  ghost predicate LiveOk(t: Tools, live: map<string, Doc>) {
    forall i :: i in live ==> IdOf(t, live[i]) == i
  }

  /** The table holds exactly the keys of the live documents, each with its id. */
  ghost predicate Exact(t: Tools, idx: IndexDef, table: Table, live: map<string, Doc>) {
    && (forall x :: Find(table, x).Some? ==> var i := Find(table, x).value; i in live && x in KeysOf(t, idx, live[i]))
    && (forall i, x :: i in live && x in KeysOf(t, idx, live[i]) ==> Find(table, x) == Some(i))
  }

  lemma OneOwner(t: Tools, idx: IndexDef, d: Doc, e: Doc, x: string)
    requires ToolsOk(t) && x in KeysOf(t, idx, d) && x in KeysOf(t, idx, e)
    ensures IdOf(t, d) == IdOf(t, e)
  {
    EntriesFormed(t, idx, d);
    EntriesFormed(t, idx, e);
    KeysDisjoint(Entries(t, idx, d), IdOf(t, d), Entries(t, idx, e), IdOf(t, e), Arity(idx), x);
  }

  lemma AddKeepsExact(t: Tools, idx: IndexDef, live: map<string, Doc>, d: Doc, a: Table, b: Table)
    requires ToolsOk(t) && LiveOk(t, live) && Exact(t, idx, a, live) && IdOf(t, d) !in live
    requires Wrote(a, b, KeysOf(t, idx, d), IdOf(t, d))
    ensures LiveOk(t, live[IdOf(t, d) := d]) && Exact(t, idx, b, live[IdOf(t, d) := d])
  {
    forall i, x | i in live && x in KeysOf(t, idx, live[i]) && x in KeysOf(t, idx, d) ensures false {
      OneOwner(t, idx, live[i], d, x);
    }
  }

  lemma RemoveKeepsExact(t: Tools, idx: IndexDef, live: map<string, Doc>, i: string, a: Table, b: Table)
    requires ToolsOk(t) && LiveOk(t, live) && Exact(t, idx, a, live) && i in live
    requires Erased(a, b, KeysOf(t, idx, live[i]))
    ensures LiveOk(t, live - {i}) && Exact(t, idx, b, live - {i})
  {
    forall j, x | j in live && x in KeysOf(t, idx, live[j]) && x in KeysOf(t, idx, live[i]) ensures j == i {
      OneOwner(t, idx, live[j], live[i], x);
    }
  }

  predicate Differs(t: Tools, idx: IndexDef, d: Doc, e: Doc) {
    exists k :: 0 <= k < |idx.keys| && t.get(d, idx.keys[k].name) != t.get(e, idx.keys[k].name)
  }

  predicate Passes(idx: IndexDef, d: Doc) {
    idx.partial.Some? ==> idx.partial.value(d)
  }

  /**
    An update that changes no indexed field is not carried to the index, so it must
    not move the document across the partial filter (unless there is nothing to enter).
   */
  predicate Tracked(t: Tools, idx: IndexDef, o: Doc, d: Doc) {
    Differs(t, idx, o, d) || (Passes(idx, o) <==> Passes(idx, d)) || Entries(t, idx.(partial := None), d) == []
  }

  lemma UntouchedKeys(t: Tools, idx: IndexDef, o: Doc, d: Doc)
    requires !Differs(t, idx, o, d) && IdOf(t, d) == IdOf(t, o)
    ensures KeysOf(t, idx, d) == KeysOf(t, idx, o) <==> Tracked(t, idx, o, d)
  {
    assert Values(t, idx, d) == Values(t, idx, o);
    assert Parts(t, idx, d) == Parts(t, idx, o);
    var full := Entries(t, idx.(partial := None), d);
    assert Entries(t, idx.(partial := None), o) == full;
    assert Entries(t, idx, o) == if Passes(idx, o) then full else [];
    assert Entries(t, idx, d) == if Passes(idx, d) then full else [];
    if full != [] { assert KeyOf(full[0], IdOf(t, d)) in KeySet(full, IdOf(t, d)); }
  }

  /** Exactly then does the untouched table still match the collection. */
  lemma UntouchedExactly(t: Tools, idx: IndexDef, live: map<string, Doc>, table: Table, o: Doc, d: Doc)
    requires ToolsOk(t) && LiveOk(t, live) && Exact(t, idx, table, live)
    requires Proper(t, live, Update(o, d)) && !Differs(t, idx, o, d)
    ensures Exact(t, idx, table, live[IdOf(t, d) := d]) <==> Tracked(t, idx, o, d)
  {
    UntouchedKeys(t, idx, o, d);
    var i, now := IdOf(t, d), live[IdOf(t, d) := d];
    if Exact(t, idx, table, now) {
      forall x ensures x in KeysOf(t, idx, d) <==> x in KeysOf(t, idx, o) {
        assert x in KeysOf(t, idx, now[i]) ==> Find(table, x) == Some(i);
        assert x in KeysOf(t, idx, live[i]) ==> Find(table, x) == Some(i);
      }
      assert KeysOf(t, idx, d) == KeysOf(t, idx, o);
    }
  }

  // ---------- every run ----------

  datatype Change = Add(doc: Doc) | Remove(doc: Doc) | Update(was: Doc, doc: Doc)

  function LiveAfter(t: Tools, live: map<string, Doc>, c: Change): map<string, Doc> {
    match c
    case Add(d) => live[IdOf(t, d) := d]
    case Remove(d) => live - {IdOf(t, d)}
    case Update(_, d) => live[IdOf(t, d) := d]
  }

  /** What storage passes: a new id, or the live document and its successor. */
  predicate Proper(t: Tools, live: map<string, Doc>, c: Change) {
    match c
    case Add(d) => IdOf(t, d) !in live
    case Remove(d) => IdOf(t, d) in live && live[IdOf(t, d)] == d
    case Update(o, d) => IdOf(t, o) in live && live[IdOf(t, o)] == o && IdOf(t, d) == IdOf(t, o)
  }

  predicate Follows(t: Tools, idx: IndexDef, c: Change) {
    c.Update? ==> Tracked(t, idx, c.was, c.doc)
  }

  function Live(t: Tools, cs: seq<Change>): map<string, Doc> {
    if cs == [] then map[] else LiveAfter(t, Live(t, cs[..|cs| - 1]), cs[|cs| - 1])
  }

  ghost predicate ProperRun(t: Tools, cs: seq<Change>) {
    forall k :: 0 <= k < |cs| ==> Proper(t, Live(t, cs[..k]), cs[k])
  }

  /** The change would put a second id under the values another one holds. */
  ghost predicate Clashes(t: Tools, idx: IndexDef, c: Change, table: Table) {
    && Guarded(idx) && !c.Remove? && !Skips(t, idx, c.doc) && (c.Update? ==> Differs(t, idx, c.was, c.doc))
    && Held(table, Parts(t, idx, c.doc), IdOf(t, c.doc))
  }

  predicate SameId(t: Tools, c: Change) {
    c.Update? ==> IdOf(t, c.was) == IdOf(t, c.doc)
  }

  /** Removing a document's own keys does not change what other ids hold. */
  lemma HeldWithout(t: Tools, idx: IndexDef, o: Doc, d: Doc, a: Table, b: Table)
    requires ToolsOk(t) && idx.kind.BTree? && Erased(a, b, KeysOf(t, idx, o))
    ensures Held(b, Parts(t, idx, d), IdOf(t, d)) ==> Held(a, Parts(t, idx, d), IdOf(t, d))
    ensures IdOf(t, o) == IdOf(t, d) && Held(a, Parts(t, idx, d), IdOf(t, d)) ==> Held(b, Parts(t, idx, d), IdOf(t, d))
  {
    var parts, id := Parts(t, idx, d), IdOf(t, d);
    EntriesFormed(t, idx, o);
    PartsClean(t, idx, d);
    if Held(b, parts, id) {
      var j :| j != id && Find(b, KeyOf(parts, j)).Some?;
      assert Find(a, KeyOf(parts, j)).Some?;
    }
    if IdOf(t, o) == id && Held(a, parts, id) {
      var j :| j != id && Find(a, KeyOf(parts, j)).Some?;
      if KeyOf(parts, j) in KeysOf(t, idx, o) {
        KeysDisjoint([parts], j, Entries(t, idx, o), id, Arity(idx), KeyOf(parts, j));
      }
      assert Find(b, KeyOf(parts, j)).Some?;
    }
  }

  /** One index, one change; a raise in the insert of an update leaves the delete done. */
  method Maintain(t: Tools, idx: IndexDef, c: Change, table: Table, ghost live: map<string, Doc>)
    returns (out: Table, raised: bool)
    requires ToolsOk(t) && Healthy(idx, table)
    ensures Healthy(idx, out)
    ensures raised ==> Clashes(t, idx, c, table)
    ensures Clashes(t, idx, c, table) && SameId(t, c) ==> raised
    ensures !raised && LiveOk(t, live) && Proper(t, live, c) && Exact(t, idx, table, live) && Follows(t, idx, c)
            ==> Exact(t, idx, out, LiveAfter(t, live, c))
  {
    ghost var exact := LiveOk(t, live) && Proper(t, live, c) && Exact(t, idx, table, live) && Follows(t, idx, c);
    match c
    case Add(d) =>
      out, raised := InsertEntry(t, idx, d, table);
      if exact && !raised { AddKeepsExact(t, idx, live, d, table, out); }
    case Remove(d) =>
      raised := false;
      out := DeleteEntry(t, idx, d, table);
      if exact { RemoveKeepsExact(t, idx, live, IdOf(t, d), table, out); }
    case Update(o, d) =>
      if !Differs(t, idx, o, d) {
        if exact { UntouchedExactly(t, idx, live, table, o, d); }
        return table, false;
      }
      var mid := DeleteEntry(t, idx, o, table);
      if idx.kind.BTree? { HeldWithout(t, idx, o, d, table, mid); }
      out, raised := InsertEntry(t, idx, d, mid);
      if exact && !raised {
        RemoveKeepsExact(t, idx, live, IdOf(t, o), table, mid);
        AddKeepsExact(t, idx, live - {IdOf(t, o)}, d, mid, out);
        assert (live - {IdOf(t, o)})[IdOf(t, d) := d] == live[IdOf(t, d) := d];
      }
  }

  predicate FollowsAll(t: Tools, idx: IndexDef, cs: seq<Change>) {
    forall k :: 0 <= k < |cs| ==> Follows(t, idx, cs[k])
  }

  /** Every index that follows all the changes of the run is exact. */
  ghost predicate AllExact(t: Tools, defs: seq<IndexDef>, tables: seq<Table>, live: map<string, Doc>, cs: seq<Change>) {
    && |tables| == |defs| && LiveOk(t, live)
    && forall k :: 0 <= k < |defs| && FollowsAll(t, defs[k], cs) ==> Exact(t, defs[k], tables[k], live)
  }

  /** Without a partial filter an index follows every run. */
  lemma UnfilteredFollows(t: Tools, idx: IndexDef, cs: seq<Change>)
    requires idx.partial.None?
    ensures FollowsAll(t, idx, cs)
  {
  }

  class IndexManager {
    const tools: Tools
    const defs: seq<IndexDef>
    var tables: seq<Table>

    ghost predicate Valid()
      reads this
    {
      |tables| == |defs| && ToolsOk(tools) && forall k :: 0 <= k < |defs| ==> Healthy(defs[k], tables[k])
    }

    constructor (t: Tools, indexes: seq<IndexDef>)
      requires ToolsOk(t)
      ensures Valid() && tools == t && defs == indexes && forall k :: 0 <= k < |tables| ==> tables[k] == []
    {
      tools, defs, tables := t, indexes, seq(|indexes|, _ => []);
    }

    /** A change goes to the indexes in turn and stops at the first that raises. */
    method Apply(c: Change, ghost live: map<string, Doc>, ghost cs: seq<Change>) returns (raised: bool)
      requires Valid() && c in cs
      modifies this`tables
      ensures Valid()
      ensures raised ==> exists k :: 0 <= k < |defs| && Clashes(tools, defs[k], c, old(tables)[k])
      ensures SameId(tools, c) && (exists k :: 0 <= k < |defs| && Clashes(tools, defs[k], c, old(tables)[k])) ==> raised
      ensures !raised && Proper(tools, live, c) && AllExact(tools, defs, old(tables), live, cs)
              ==> AllExact(tools, defs, tables, LiveAfter(tools, live, c), cs)
    {
      ghost var was := tables;
      for k := 0 to |defs|
        invariant Valid()
        invariant forall j :: k <= j < |defs| ==> tables[j] == was[j]
        invariant SameId(tools, c) ==> forall j :: 0 <= j < k ==> !Clashes(tools, defs[j], c, was[j])
        invariant Proper(tools, live, c) && AllExact(tools, defs, was, live, cs) ==>
                    forall j :: 0 <= j < k && FollowsAll(tools, defs[j], cs) ==>
                      Exact(tools, defs[j], tables[j], LiveAfter(tools, live, c))
      {
        var out, failed := Maintain(tools, defs[k], c, tables[k], live);
        tables := tables[k := out];
        if failed { return true; }
      }
      return false;
    }

    /**
      Every run: a unique index never holds two ids under the same values, calls that
      raise included; and while no call raises, every index that follows the changes,
      in particular every one without a partial filter, holds exactly the entries of
      the live documents.
     */
    method Run(cs: seq<Change>) returns (raised: bool)
      requires Valid() && forall k :: 0 <= k < |tables| ==> tables[k] == []
      modifies this`tables
      ensures Valid()
      ensures (forall k :: 0 <= k < |defs| ==> !Guarded(defs[k])) ==> !raised
      ensures !raised && ProperRun(tools, cs) ==> AllExact(tools, defs, tables, Live(tools, cs), cs)
      ensures !raised && ProperRun(tools, cs) ==>
                forall k :: 0 <= k < |defs| && defs[k].partial.None? ==> Exact(tools, defs[k], tables[k], Live(tools, cs))
    {
      raised := false;
      EmptyIsExact(tools, defs, tables);
      for k := 0 to |cs|
        invariant Valid() && ((forall k :: 0 <= k < |defs| ==> !Guarded(defs[k])) ==> !raised)
        invariant !raised && ProperRun(tools, cs) ==> AllExact(tools, defs, tables, Live(tools, cs[..k]), cs)
      {
        var failed := Apply(cs[k], Live(tools, cs[..k]), cs);
        raised := raised || failed;
        assert cs[..k + 1][..k] == cs[..k];
      }
      assert cs[..|cs|] == cs;
      forall k | 0 <= k < |defs| && defs[k].partial.None? ensures FollowsAll(tools, defs[k], cs) {
        UnfilteredFollows(tools, defs[k], cs);
      }
    }
  }

  lemma EmptyIsExact(t: Tools, defs: seq<IndexDef>, tables: seq<Table>)
    requires |tables| == |defs| && forall k :: 0 <= k < |tables| ==> tables[k] == []
    ensures forall cs :: AllExact(t, defs, tables, map[], cs)
  {
  }

  /** What a unique index protects: live documents it covers never share their values. */
  lemma UniqueSeparates(t: Tools, idx: IndexDef, table: Table, live: map<string, Doc>, i: string, j: string)
    requires ToolsOk(t) && Guarded(idx) && Healthy(idx, table) && LiveOk(t, live) && Exact(t, idx, table, live)
    requires i in live && j in live && !Skips(t, idx, live[i]) && !Skips(t, idx, live[j])
    requires Values(t, idx, live[i]) == Values(t, idx, live[j])
    ensures i == j
  {
    var p := Parts(t, idx, live[i]);
    forall k | 0 <= k < |idx.keys| ensures p[k] == Parts(t, idx, live[j])[k] {
      assert Values(t, idx, live[i])[k] == Values(t, idx, live[j])[k];
    }
    assert p == Parts(t, idx, live[j]);
    EntriesFormed(t, idx, live[i]);
    assert Entries(t, idx, live[i])[0] == p && Entries(t, idx, live[j])[0] == p;
    assert KeyOf(p, i) in KeysOf(t, idx, live[i]) && KeyOf(p, j) in KeysOf(t, idx, live[j]);
  }

  // ---------- what the encoder can tell apart ----------

  /** The sortable form of a number, hexadecimal text, and the JSON text of a list or a dictionary. */
  datatype Encoder = Encoder(number: real -> string, hex: string -> string, json: Value -> string)

  function TextOf(e: Encoder, v: Value): string {
    if v.Str? then v.s else e.json(v)
  }

  function Encode(e: Encoder, v: Value): string {
    match v
    case Null => "00"
    case Num(n) => "1" + e.number(n)
    case _ => "2" + e.hex(TextOf(e, v))
  }

  ghost predicate EncodesAs(t: Tools, e: Encoder) {
    && (forall v :: t.encode(v) == Encode(e, v))
    && forall a, b :: e.hex(a) == e.hex(b) ==> a == b
  }

  /** Equal values, numbers of one sortable form, or texts and JSON texts that read the same. */
  predicate Alike(e: Encoder, v: Value, w: Value) {
    match (v, w)
    case (Null, Null) => true
    case (Num(m), Num(n)) => e.number(m) == e.number(n)
    case _ => !v.Null? && !v.Num? && !w.Null? && !w.Num? && TextOf(e, v) == TextOf(e, w)
  }

  lemma EncodesAlikeExactly(t: Tools, e: Encoder, v: Value, w: Value, direction: int)
    requires EncodesAs(t, e)
    ensures Encoded(t, v, direction) == Encoded(t, w, direction) <==> Alike(e, v, w)
  {
    var a, b := Encode(e, v), Encode(e, w);
    InvertUndoes(a);
    InvertUndoes(b);
    assert a[0] == (if v.Null? then '0' else if v.Num? then '1' else '2');
    assert b[0] == (if w.Null? then '0' else if w.Num? then '1' else '2');
    if !v.Null? { assert a[1..] == if v.Num? then e.number(v.n) else e.hex(TextOf(e, v)); }
    if !w.Null? { assert b[1..] == if w.Num? then e.number(w.n) else e.hex(TextOf(e, w)); }
  }

  ghost predicate AllAlike(t: Tools, e: Encoder, idx: IndexDef, c: Doc, d: Doc) {
    forall k :: 0 <= k < |idx.keys| ==> Alike(e, t.get(c, idx.keys[k].name), t.get(d, idx.keys[k].name))
  }

  lemma SamePartsExactly(t: Tools, e: Encoder, idx: IndexDef, c: Doc, d: Doc)
    requires EncodesAs(t, e)
    ensures Parts(t, idx, c) == Parts(t, idx, d) <==> AllAlike(t, e, idx, c, d)
  {
    forall k | 0 <= k < |idx.keys|
      ensures Parts(t, idx, c)[k] == Parts(t, idx, d)[k] <==> Alike(e, t.get(c, idx.keys[k].name), t.get(d, idx.keys[k].name))
    {
      EncodesAlikeExactly(t, e, t.get(c, idx.keys[k].name), t.get(d, idx.keys[k].name), idx.keys[k].direction);
    }
  }

  /** A unique index refuses a document exactly when another covered one has values the encoder cannot tell apart. */
  lemma HeldIsDuplicate(t: Tools, e: Encoder, idx: IndexDef, table: Table, live: map<string, Doc>, d: Doc)
    requires ToolsOk(t) && Guarded(idx) && Healthy(idx, table) && LiveOk(t, live) && Exact(t, idx, table, live)
    requires EncodesAs(t, e)
    ensures Held(table, Parts(t, idx, d), IdOf(t, d)) <==>
            exists j :: j in live && j != IdOf(t, d) && !Skips(t, idx, live[j]) && AllAlike(t, e, idx, live[j], d)
  {
    var p, id := Parts(t, idx, d), IdOf(t, d);
    PartsClean(t, idx, d);
    if Held(table, p, id) {
      var j :| j != id && Find(table, KeyOf(p, j)).Some?;
      EntriesFormed(t, idx, live[j]);
      assert KeyOf(p, j) in KeysOf(t, idx, live[j]);
      var q :| q in Entries(t, idx, live[j]) && KeyOf(q, j) == KeyOf(p, j);
      KeyInjective(q, j, p, j);
      SamePartsExactly(t, e, idx, live[j], d);
    }
    forall j | j in live && j != id && !Skips(t, idx, live[j]) && AllAlike(t, e, idx, live[j], d)
      ensures Held(table, p, id)
    {
      SamePartsExactly(t, e, idx, live[j], d);
      assert Entries(t, idx, live[j])[0] == p;
      assert KeyOf(p, j) in KeysOf(t, idx, live[j]);
    }
  }

  /** A string and the dictionary it is the JSON text of differ, and the second is refused as a duplicate of the first. */
  lemma TextMeetsDictionary(t: Tools, e: Encoder, idx: IndexDef, table: Table, live: map<string, Doc>, j: string,
                            d: Doc, f: string)
    requires ToolsOk(t) && Guarded(idx) && Healthy(idx, table) && LiveOk(t, live) && Exact(t, idx, table, live)
    requires EncodesAs(t, e) && |idx.keys| == 1 && idx.keys[0].name == f
    requires j in live && j != IdOf(t, d) && !Skips(t, idx, live[j])
    requires t.get(d, f).Obj? && t.get(live[j], f) == Str(e.json(t.get(d, f)))
    ensures t.get(live[j], f) != t.get(d, f) && Held(table, Parts(t, idx, d), IdOf(t, d))
  {
    assert AllAlike(t, e, idx, live[j], d);
    HeldIsDuplicate(t, e, idx, table, live, d);
  }

  /** A prefix lookup on an exact index finds precisely the live documents entered under those parts. */
  lemma LookupFindsLive(t: Tools, idx: IndexDef, table: Table, live: map<string, Doc>, parts: seq<string>, id: string)
    requires ToolsOk(t) && Healthy(idx, table) && LiveOk(t, live) && Exact(t, idx, table, live)
    requires |parts| == Arity(idx) && Clean(parts)
    ensures id in Matching(table, Prefix(parts), 0) <==> id in live && parts in Entries(t, idx, live[id])
  {
    MatchingMembers(table, Prefix(parts), 0, id);
    FindIsRow(table, KeyOf(parts, id), id);
    PrefixDecides(parts, parts, id);
    if id in Matching(table, Prefix(parts), 0) {
      var k :| 0 <= k < |table| && StartsWith(table[k].key, Prefix(parts)) && table[k].id == id;
      StartsWithConcat(table[k].key, Prefix(parts));
      var j := table[k].key[|Prefix(parts)|..];
      assert table[k].key == KeyOf(parts, j) && table[k] in table;
      FindIsRow(table, KeyOf(parts, j), id);
      EntriesFormed(t, idx, live[id]);
      var q :| q in Entries(t, idx, live[id]) && KeyOf(q, id) == KeyOf(parts, id);
      KeyInjective(q, id, parts, id);
    }
    if id in live && parts in Entries(t, idx, live[id]) {
      assert KeyOf(parts, id) in KeysOf(t, idx, live[id]);
      var k :| 0 <= k < |table| && table[k] == Row(KeyOf(parts, id), id);
    }
  }

  function OneRow(t: Tools, idx: IndexDef, o: Doc): Table {
    [Row(KeyOf(Parts(t, idx, o), IdOf(t, o)), IdOf(t, o))]
  }

  lemma OneRowIsExact(t: Tools, idx: IndexDef, o: Doc)
    requires ToolsOk(t) && Entries(t, idx, o) == [Parts(t, idx, o)] && idx.kind.BTree?
    ensures Exact(t, idx, OneRow(t, idx, o), map[IdOf(t, o) := o])
  {
    PartsClean(t, idx, o);
    var key := KeyOf(Parts(t, idx, o), IdOf(t, o));
    assert OneRow(t, idx, o)[0].key == key;
    assert KeysOf(t, idx, o) == {key};
  }

  /** A document that leaves the filter, its indexed fields untouched: the table, exact before, is not after. */
  lemma LeavesFilter(t: Tools, idx: IndexDef, o: Doc, d: Doc)
    requires ToolsOk(t) && idx.kind.BTree? && !idx.sparse && idx.partial.Some?
    requires idx.partial.value(o) && !idx.partial.value(d) && IdOf(t, d) == IdOf(t, o) && !Differs(t, idx, o, d)
    ensures Exact(t, idx, OneRow(t, idx, o), map[IdOf(t, o) := o])
    ensures !Exact(t, idx, OneRow(t, idx, o), map[IdOf(t, o) := d])
  {
    OneRowIsExact(t, idx, o);
    var live := map[IdOf(t, o) := o];
    UntouchedExactly(t, idx, live, OneRow(t, idx, o), o, d);
    assert live[IdOf(t, d) := d] == map[IdOf(t, o) := d];
  }

  function Open(): IndexDef {
    IndexDef(BTree, [Field("a", 1)], false, false, Some((d: Doc) => Get(d, "open") == Num(1.0)))
  }

  function Case(id: Value, v: Value, open: real): Doc {
    map[ID := id, "a" := v, "open" := Num(open)]
  }

  /** Closing a case takes it out of the filter on open ones and leaves its row in the index. */
  lemma PartialIndexGoesStale(t: Tools, id: Value, v: Value)
    requires ToolsOk(t) && forall d, f :: t.get(d, f) == Get(d, f)
    ensures Exact(t, Open(), OneRow(t, Open(), Case(id, v, 1.0)), map[t.text(id) := Case(id, v, 1.0)])
    ensures !Exact(t, Open(), OneRow(t, Open(), Case(id, v, 1.0)), map[t.text(id) := Case(id, v, 0.0)])
    ensures !Differs(t, Open(), Case(id, v, 1.0), Case(id, v, 0.0))
  {
    var o, d := Case(id, v, 1.0), Case(id, v, 0.0);
    assert Get(o, "a") == v == Get(d, "a") && Get(o, ID) == id == Get(d, ID);
    assert Get(o, "open") == Num(1.0) && Get(d, "open") == Num(0.0);
    LeavesFilter(t, Open(), o, d);
  }

  // ---------- what the keys hold ----------

  /** Two values whose codes differ before either ends lie in code order under an ascending field, and reversed under -1. */
  lemma DirectionOrders(t: Tools, idx: IndexDef, c: Doc, d: Doc, k: nat)
    requires k < |idx.keys|
    requires var a, b := t.encode(t.get(c, idx.keys[k].name)), t.encode(t.get(d, idx.keys[k].name));
             && Lt(a, b) && !StartsWith(b, a)
             && (forall i :: 0 <= i < |a| ==> Hex(a[i])) && (forall i :: 0 <= i < |b| ==> Hex(b[i]))
    ensures if idx.keys[k].direction == -1 then Lt(Parts(t, idx, d)[k], Parts(t, idx, c)[k])
            else Lt(Parts(t, idx, c)[k], Parts(t, idx, d)[k])
  {
    InvertReversesExactly(t.encode(t.get(c, idx.keys[k].name)), t.encode(t.get(d, idx.keys[k].name)));
  }

  /** A text index enters a document under every token of its string fields; a hashed one under every field's hash. */
  lemma WordEntriesExactly(t: Tools, idx: IndexDef, d: Doc, w: string)
    requires idx.partial.None? && !idx.kind.BTree?
    ensures [w] in Entries(t, idx, d) <==>
            exists k :: 0 <= k < |idx.keys| &&
              var v := t.get(d, idx.keys[k].name);
              if idx.kind == FullText then v.Str? && w in t.tokens(v.s) else w == t.hash(v)
  {
    var vs := Values(t, idx, d);
    var words := if idx.kind == FullText then Words(t, vs) else Hashes(t, vs);
    assert Entries(t, idx, d) == Singles(words);
    SinglesExactly(words, w);
    assert forall k :: 0 <= k < |vs| ==> vs[k] == t.get(d, idx.keys[k].name);
    if idx.kind == FullText {
      WordsExactly(t, vs, w);
    } else {
      assert w in words <==> exists k :: 0 <= k < |vs| && w == t.hash(vs[k]) by {
        assert forall k :: 0 <= k < |vs| ==> words[k] == t.hash(vs[k]);
      }
    }
  }

  lemma SinglesExactly(words: seq<string>, w: string)
    ensures [w] in Singles(words) <==> w in words
  {
    forall k | 0 <= k < |words| ensures Singles(words)[k] == [w] <==> words[k] == w {
      assert Singles(words)[k][0] == words[k];
    }
  }
}
