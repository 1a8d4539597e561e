/**
  The `$jsonSchema` validator.  A schema is itself a BSON document.  `Conforms` is
  the declarative meaning of a schema, without depth, order of checks or
  repetition; `Sat` with its flag set adds only the nesting limit; the methods are
  the checker.
  Field order never matters to the verdict, so documents are maps.
 */
module Schema {
  import opened Common

  datatype Bson =
    | Null
    | Bool(b: bool)
    | Int32(n: int)
    | Int64(n: int)
    | Double(x: real)
    | Str(s: string)
    | Arr(items: seq<Bson>)
    | Doc(fields: map<string, Bson>)
    | ObjectId(hex: string)
    | DateTime(ms: int)
    | Regex(source: string)
    | Binary(data: string)
    | OtherType

  datatype Reason =
    | DepthExceeded | TypeMismatch | Missing | Additional | Size | Combinator | Range | Pattern | NotInEnum | NotUnique

  datatype Outcome = Ok | Err(reason: Reason)

  /** The regular-expression library: which patterns compile, and what they match. */
  datatype RegexEngine = RegexEngine(compiles: string -> bool, matches: (string, string) -> bool)

  const MAX_NESTING_DEPTH := 100
  const MAX_REGEX_PATTERN_LEN := 1024

  // ---------- reading a schema ----------

  function Key(s: Bson, k: string): Option<Bson>
    requires s.Doc?
  {
    if k in s.fields then Some(s.fields[k]) else None
  }

  /** The array stored under `k`; `[]` when there is none. */
  function ArrayAt(s: Bson, k: string): seq<Bson>
    requires s.Doc?
  {
    if HasArr(s, k) then s.fields[k].items else []
  }

  predicate HasArr(s: Bson, k: string)
    requires s.Doc?
  {
    k in s.fields && s.fields[k].Arr?
  }

  predicate HasDoc(s: Bson, k: string)
    requires s.Doc?
  {
    k in s.fields && s.fields[k].Doc?
  }

  predicate HasStr(s: Bson, k: string)
    requires s.Doc?
  {
    k in s.fields && s.fields[k].Str?
  }

  function TypeSpec(s: Bson): Option<Bson>
    requires s.Doc?
  {
    if "bsonType" in s.fields then Some(s.fields["bsonType"]) else Key(s, "type")
  }

  function ToNumber(b: Bson): Option<real> {
    match b
    case Int32(n) => Some(n as real)
    case Int64(n) => Some(n as real)
    case Double(x) => Some(x)
    case _ => None
  }

  function NumberAt(s: Bson, k: string): Option<real>
    requires s.Doc?
  {
    if k in s.fields then ToNumber(s.fields[k]) else None
  }

  function TypeNames(b: Bson): set<string> {
    match b
    case Str(_) => {"string"}
    case Int32(_) => {"int", "number"}
    case Int64(_) => {"long", "number"}
    case Double(_) => {"double", "number"}
    case Bool(_) => {"bool", "boolean"}
    case Doc(_) => {"object"}
    case Arr(_) => {"array"}
    case Null => {"null"}
    case ObjectId(_) => {"objectId"}
    case DateTime(_) => {"date"}
    case Regex(_) => {"regex"}
    case Binary(_) => {"binData"}
    case OtherType => {}
  }

  /** A string names one type, an array a choice of types, anything else no restriction. */
  predicate NamesType(spec: Bson, names: set<string>) {
    match spec
    case Str(t) => t in names
    case Arr(ts) => exists i :: 0 <= i < |ts| && ts[i].Str? && ts[i].s in names
    case _ => true
  }

  predicate TypeOk(v: Bson, s: Bson)
    requires s.Doc?
  {
    TypeSpec(s).Some? ==> NamesType(TypeSpec(s).value, TypeNames(v))
  }

  function Utf8Length(s: string): nat {
    if s == "" then 0
    else (if s[0] < '\U{80}' then 1 else if s[0] < '\U{800}' then 2 else if s[0] < '\U{10000}' then 3 else 4)
         + Utf8Length(s[1..])
  }

  predicate Within(n: real, low: Option<real>, high: Option<real>) {
    (low.Some? ==> low.value <= n) && (high.Some? ==> n <= high.value)
  }

  // ---------- the meaning of a schema ----------

  predicate ScalarOk(re: RegexEngine, v: Bson, s: Bson)
    requires s.Doc?
  {
    && (ToNumber(v).Some? ==>
          var n := ToNumber(v).value;
          && Within(n, NumberAt(s, "minimum"), NumberAt(s, "maximum"))
          && (NumberAt(s, "exclusiveMinimum").Some? ==> NumberAt(s, "exclusiveMinimum").value < n)
          && (NumberAt(s, "exclusiveMaximum").Some? ==> n < NumberAt(s, "exclusiveMaximum").value))
    && (v.Str? ==>
          && Within(Utf8Length(v.s) as real, NumberAt(s, "minLength"), NumberAt(s, "maxLength"))
          && (HasStr(s, "pattern") ==>
                var p := s.fields["pattern"].s;
                Utf8Length(p) <= MAX_REGEX_PATTERN_LEN && re.compiles(p) && re.matches(p, v.s)))
    && (HasArr(s, "enum") ==> v in s.fields["enum"].items)
  }

  /** With `limit`, a document met deeper than the limit is refused; without, depth is ignored. */
  ghost predicate Sat(re: RegexEngine, v: Bson, s: Bson, depth: nat, limit: bool)
    requires s.Doc?
    decreases s, 3
  {
    || (v.Null? && TypeSpec(s).Some? && NamedNull(TypeSpec(s).value))
    || (&& TypeOk(v, s)
        && SatCombinators(re, v, s, depth, limit)
        && match v
           case Doc(_) => (limit ==> depth <= MAX_NESTING_DEPTH) && SatFields(re, v, s, depth, limit)
           case Arr(_) => SatItems(re, v, s, depth, limit)
           case _ => ScalarOk(re, v, s))
  }

  predicate NamedNull(spec: Bson) {
    (spec.Str? || spec.Arr?) && NamesType(spec, {"null"})
  }

  ghost predicate SatCombinators(re: RegexEngine, v: Bson, s: Bson, depth: nat, limit: bool)
    requires s.Doc?
    decreases s, 2
  {
    && AllOf(re, v, s, depth, limit)
    && AnyOf(re, v, s, depth, limit)
    && OneOf(re, v, s, depth, limit)
    && (HasDoc(s, "not") ==> !Sat(re, v, s.fields["not"], depth + 1, limit))
  }

  ghost predicate AllOf(re: RegexEngine, v: Bson, s: Bson, depth: nat, limit: bool)
    requires s.Doc?
    decreases s, 0
  {
    forall c :: c in ArrayAt(s, "allOf") && c.Doc? ==> Sat(re, v, c, depth + 1, limit)
  }

  ghost predicate AnyOf(re: RegexEngine, v: Bson, s: Bson, depth: nat, limit: bool)
    requires s.Doc?
    decreases s, 0
  {
    HasArr(s, "anyOf") ==> exists c :: c in ArrayAt(s, "anyOf") && c.Doc? && Sat(re, v, c, depth + 1, limit)
  }

  /** Entry `i` of the array is a schema that holds, and no other is. */
  ghost predicate OnlyMatch(re: RegexEngine, v: Bson, s: Bson, i: int, depth: nat, limit: bool)
    requires s.Doc?
    decreases s, 0
  {
    var cs := ArrayAt(s, "oneOf");
    && 0 <= i < |cs| && cs[i].Doc? && Sat(re, v, cs[i], depth + 1, limit)
    && forall j :: 0 <= j < |cs| && j != i && cs[j].Doc? ==> !Sat(re, v, cs[j], depth + 1, limit)
  }

  /** Exactly one entry of the array is a schema that holds. */
  ghost predicate OneOf(re: RegexEngine, v: Bson, s: Bson, depth: nat, limit: bool)
    requires s.Doc?
    decreases s, 1
  {
    HasArr(s, "oneOf") ==> exists i :: OnlyMatch(re, v, s, i, depth, limit)
  }

  ghost predicate SatFields(re: RegexEngine, v: Bson, s: Bson, depth: nat, limit: bool)
    requires s.Doc? && v.Doc?
    decreases s, 1
  {
    && (forall r :: r in ArrayAt(s, "required") && r.Str? ==> r.s in v.fields)
    && (HasDoc(s, "properties") ==>
          var props := s.fields["properties"].fields;
          && (forall f :: f in props && f in v.fields && props[f].Doc? ==>
                Sat(re, v.fields[f], props[f], depth + 1, limit))
          && (Key(s, "additionalProperties") == Some(Bool(false)) ==>
                forall f :: f in v.fields ==> f == "_id" || f in props))
    && Within(|v.fields| as real, NumberAt(s, "minProperties"), NumberAt(s, "maxProperties"))
  }

  ghost predicate SatItems(re: RegexEngine, v: Bson, s: Bson, depth: nat, limit: bool)
    requires s.Doc? && v.Arr?
    decreases s, 1
  {
    && Within(|v.items| as real, NumberAt(s, "minItems"), NumberAt(s, "maxItems"))
    && (Key(s, "uniqueItems") == Some(Bool(true)) ==>
          forall i, j :: 0 <= i < j < |v.items| ==> v.items[i] != v.items[j])
    && (HasDoc(s, "items") ==>
          forall i :: 0 <= i < |v.items| ==> Sat(re, v.items[i], s.fields["items"], depth + 1, limit))
  }

  /** The declarative semantics: depth plays no part. */
  ghost predicate Conforms(re: RegexEngine, v: Bson, s: Bson)
    requires s.Doc?
  {
    Sat(re, v, s, 0, false)
  }

  // ---------- the depth limit ----------

  /** Combinators, properties and items nest at most `n` deep. */
  ghost predicate NestedWithin(s: Bson, n: int)
    requires s.Doc?
    decreases s
  {
    && n >= 0
    && (forall c :: c in ArrayAt(s, "allOf") && c.Doc? ==> NestedWithin(c, n - 1))
    && (forall c :: c in ArrayAt(s, "anyOf") && c.Doc? ==> NestedWithin(c, n - 1))
    && (forall c :: c in ArrayAt(s, "oneOf") && c.Doc? ==> NestedWithin(c, n - 1))
    && (HasDoc(s, "not") ==> NestedWithin(s.fields["not"], n - 1))
    && (HasDoc(s, "items") ==> NestedWithin(s.fields["items"], n - 1))
    && (HasDoc(s, "properties") ==>
          var props := s.fields["properties"].fields;
          forall f :: f in props && props[f].Doc? ==> NestedWithin(props[f], n - 1))
  }

  /** Within the limit, and at any depth without one, the verdict is the same. */
  lemma {:induction false} LimitUnseen(re: RegexEngine, v: Bson, s: Bson, d: nat, d': nat, limit: bool)
    requires s.Doc? && (limit ==> NestedWithin(s, MAX_NESTING_DEPTH - d))
    ensures Sat(re, v, s, d, limit) <==> Sat(re, v, s, d', false)
    decreases s, 3
  {
    LimitUnseenByCombinators(re, v, s, d, d', limit);
    if v.Doc? {
      LimitUnseenByFields(re, v, s, d, d', limit);
    } else if v.Arr? {
      LimitUnseenByItems(re, v, s, d, d', limit);
    }
  }

  lemma {:induction false} LimitUnseenByCombinators(re: RegexEngine, v: Bson, s: Bson, d: nat, d': nat, limit: bool)
    requires s.Doc? && (limit ==> NestedWithin(s, MAX_NESTING_DEPTH - d))
    ensures SatCombinators(re, v, s, d, limit) <==> SatCombinators(re, v, s, d', false)
    decreases s, 2
  {
    LimitUnseenByAllOf(re, v, s, d, d', limit);
    LimitUnseenByAnyOf(re, v, s, d, d', limit);
    LimitUnseenByOneOf(re, v, s, d, d', limit);
    if HasDoc(s, "not") { LimitUnseen(re, v, s.fields["not"], d + 1, d' + 1, limit); }
  }

  lemma {:induction false} LimitUnseenByAllOf(re: RegexEngine, v: Bson, s: Bson, d: nat, d': nat, limit: bool)
    requires s.Doc? && (limit ==> NestedWithin(s, MAX_NESTING_DEPTH - d))
    ensures AllOf(re, v, s, d, limit) <==> AllOf(re, v, s, d', false)
    decreases s, 0
  {
    forall c | c in ArrayAt(s, "allOf") && c.Doc? ensures Sat(re, v, c, d + 1, limit) <==> Sat(re, v, c, d' + 1, false) {
      LimitUnseen(re, v, c, d + 1, d' + 1, limit);
    }
  }

  lemma {:induction false} LimitUnseenByAnyOf(re: RegexEngine, v: Bson, s: Bson, d: nat, d': nat, limit: bool)
    requires s.Doc? && (limit ==> NestedWithin(s, MAX_NESTING_DEPTH - d))
    ensures AnyOf(re, v, s, d, limit) <==> AnyOf(re, v, s, d', false)
    decreases s, 0
  {
    forall c | c in ArrayAt(s, "anyOf") && c.Doc? ensures Sat(re, v, c, d + 1, limit) <==> Sat(re, v, c, d' + 1, false) {
      LimitUnseen(re, v, c, d + 1, d' + 1, limit);
    }
  }

  lemma {:induction false} LimitUnseenByMatch(re: RegexEngine, v: Bson, s: Bson, k: int, d: nat, d': nat, limit: bool)
    requires s.Doc? && (limit ==> NestedWithin(s, MAX_NESTING_DEPTH - d))
    ensures OnlyMatch(re, v, s, k, d, limit) <==> OnlyMatch(re, v, s, k, d', false)
    decreases s, 0
  {
    var cs := ArrayAt(s, "oneOf");
    forall i | 0 <= i < |cs| && cs[i].Doc?
      ensures Sat(re, v, cs[i], d + 1, limit) <==> Sat(re, v, cs[i], d' + 1, false)
    {
      LimitUnseen(re, v, cs[i], d + 1, d' + 1, limit);
    }
  }

  lemma {:induction false} LimitUnseenByOneOf(re: RegexEngine, v: Bson, s: Bson, d: nat, d': nat, limit: bool)
    requires s.Doc? && (limit ==> NestedWithin(s, MAX_NESTING_DEPTH - d))
    ensures OneOf(re, v, s, d, limit) <==> OneOf(re, v, s, d', false)
    decreases s, 1
  {
    forall k ensures OnlyMatch(re, v, s, k, d, limit) <==> OnlyMatch(re, v, s, k, d', false) {
      LimitUnseenByMatch(re, v, s, k, d, d', limit);
    }
  }

  lemma {:induction false} LimitUnseenByFields(re: RegexEngine, v: Bson, s: Bson, d: nat, d': nat, limit: bool)
    requires s.Doc? && v.Doc? && (limit ==> NestedWithin(s, MAX_NESTING_DEPTH - d))
    ensures SatFields(re, v, s, d, limit) <==> SatFields(re, v, s, d', false)
    decreases s, 1
  {
    if HasDoc(s, "properties") {
      var props := s.fields["properties"].fields;
      forall f | f in props && f in v.fields && props[f].Doc?
        ensures Sat(re, v.fields[f], props[f], d + 1, limit) <==> Sat(re, v.fields[f], props[f], d' + 1, false)
      {
        LimitUnseen(re, v.fields[f], props[f], d + 1, d' + 1, limit);
      }
    }
  }

  lemma {:induction false} LimitUnseenByItems(re: RegexEngine, v: Bson, s: Bson, d: nat, d': nat, limit: bool)
    requires s.Doc? && v.Arr? && (limit ==> NestedWithin(s, MAX_NESTING_DEPTH - d))
    ensures SatItems(re, v, s, d, limit) <==> SatItems(re, v, s, d', false)
    decreases s, 1
  {
    if HasDoc(s, "items") {
      var c := s.fields["items"];
      forall i | 0 <= i < |v.items| ensures Sat(re, v.items[i], c, d + 1, limit) <==> Sat(re, v.items[i], c, d' + 1, false) {
        LimitUnseen(re, v.items[i], c, d + 1, d' + 1, limit);
      }
    }
  }

  /** `k` single-entry `allOf`s around a schema. */
  function Wrap(k: nat, core: Bson): (w: Bson)
    requires core.Doc?
    ensures w.Doc?
  {
    if k == 0 then core else Doc(map["allOf" := Arr([Wrap(k - 1, core)])])
  }

  lemma AllOfOnly(re: RegexEngine, v: Bson, c: Bson, d: nat, limit: bool)
    requires v.Doc? && c.Doc?
    ensures var s := Doc(map["allOf" := Arr([c])]);
            Sat(re, v, s, d, limit) <==> (limit ==> d <= MAX_NESTING_DEPTH) && Sat(re, v, c, d + 1, limit)
  {
    var s := Doc(map["allOf" := Arr([c])]);
    assert ArrayAt(s, "allOf") == [c] && c in ArrayAt(s, "allOf");
    assert AnyOf(re, v, s, d, limit) && OneOf(re, v, s, d, limit) && SatFields(re, v, s, d, limit);
    assert AllOf(re, v, s, d, limit) <==> Sat(re, v, c, d + 1, limit);
    assert SatCombinators(re, v, s, d, limit) <==> Sat(re, v, c, d + 1, limit);
  }

  lemma WrapStep(re: RegexEngine, v: Bson, inner: Bson, core: Bson, k: nat, d: nat, limit: bool)
    requires v.Doc? && inner.Doc? && core.Doc? && k > 0
    requires Sat(re, v, inner, d + 1, limit) == Sat(re, v, core, d + k, limit)
    ensures Sat(re, v, Doc(map["allOf" := Arr([inner])]), d, limit) == Sat(re, v, core, d + k, limit)
  {
    AllOfOnly(re, v, inner, d, limit);
    if limit && d > MAX_NESTING_DEPTH { DeepRefused(re, v, core, d + k); }
  }

  /** Each wrapper costs one level and nothing else. */
  lemma {:induction false} WrapSat(re: RegexEngine, v: Bson, core: Bson, k: nat, d: nat, limit: bool)
    requires v.Doc? && core.Doc?
    ensures Sat(re, v, Wrap(k, core), d, limit) == Sat(re, v, core, d + k, limit)
  {
    if k > 0 {
      WrapSat(re, v, core, k - 1, d + 1, limit);
      WrapStep(re, v, Wrap(k - 1, core), core, k, d, limit);
    }
  }

  lemma DeepRefused(re: RegexEngine, v: Bson, s: Bson, d: nat)
    requires v.Doc? && s.Doc? && d > MAX_NESTING_DEPTH
    ensures !Sat(re, v, s, d, true)
  {
  }

  function Negation(s: Bson): Bson {
    Doc(map["not" := s])
  }

  lemma NotOnly(re: RegexEngine, v: Bson, s: Bson, d: nat, limit: bool)
    requires v.Doc? && s.Doc?
    ensures Sat(re, v, Negation(s), d, limit) <==>
            (limit ==> d <= MAX_NESTING_DEPTH) && !Sat(re, v, s, d + 1, limit)
  {
    var n := Negation(s);
    assert n.fields["not"] == s;
    assert AllOf(re, v, n, d, limit) && AnyOf(re, v, n, d, limit) && OneOf(re, v, n, d, limit);
    assert SatCombinators(re, v, n, d, limit) <==> !Sat(re, v, s, d + 1, limit);
    assert SatFields(re, v, n, d, limit);
  }

  lemma DeepNegation(re: RegexEngine, v: Bson, s: Bson, k: nat, limit: bool)
    requires v.Doc? && s.Doc?
    ensures Sat(re, v, Wrap(k, Negation(s)), 0, limit) <==>
            (limit ==> k <= MAX_NESTING_DEPTH) && !Sat(re, v, s, k + 1, limit)
  {
    WrapSat(re, v, Negation(s), k, 0, limit);
    NotOnly(re, v, s, k, limit);
  }

  /**
    A negation `k` wrappers deep, on any document: below the limit it negates; exactly at
    it, where the negated schema is refused for its depth, it accepts everything; beyond,
    it refuses everything.
   */
  lemma NegationByDepth(re: RegexEngine, v: Bson, s: Bson, k: nat)
    requires v.Doc? && s.Doc?
    ensures Conforms(re, v, Wrap(k, Negation(s))) <==> !Conforms(re, v, s)
    ensures k == MAX_NESTING_DEPTH ==> Sat(re, v, Wrap(k, Negation(s)), 0, true)
    ensures k > MAX_NESTING_DEPTH ==> !Sat(re, v, Wrap(k, Negation(s)), 0, true)
    ensures k < MAX_NESTING_DEPTH && NestedWithin(s, MAX_NESTING_DEPTH - k - 1) ==>
              (Sat(re, v, Wrap(k, Negation(s)), 0, true) <==> Conforms(re, v, Wrap(k, Negation(s))))
  {
    NegationConforms(re, v, s, k);
    DeepNegation(re, v, s, k, true);
    if k + 1 > MAX_NESTING_DEPTH {
      DeepRefused(re, v, s, k + 1);
    } else if NestedWithin(s, MAX_NESTING_DEPTH - k - 1) {
      LimitUnseen(re, v, s, k + 1, 0, true);
    }
  }

  lemma NegationConforms(re: RegexEngine, v: Bson, s: Bson, k: nat)
    requires v.Doc? && s.Doc?
    ensures Conforms(re, v, Wrap(k, Negation(s))) <==> !Conforms(re, v, s)
  {
    DeepNegation(re, v, s, k, false);
    LimitUnseen(re, v, s, k + 1, 0, false);
  }

  lemma EmptyAccepts(re: RegexEngine, v: Bson, d: nat, limit: bool)
    requires v.Doc?
    ensures Sat(re, v, Doc(map[]), d, limit) <==> (limit ==> d <= MAX_NESTING_DEPTH)
  {
    var e := Doc(map[]);
    assert AnyOf(re, v, e, d, limit) && OneOf(re, v, e, d, limit) && SatCombinators(re, v, e, d, limit);
    assert SatFields(re, v, e, d, limit);
  }

  /** A schema only the limit makes satisfiable: `{not: {}}` is accepted at exactly one depth. */
  lemma LimitAcceptsTheImpossible(re: RegexEngine, v: Bson, k: nat)
    requires v.Doc?
    ensures !Conforms(re, v, Wrap(k, Negation(Doc(map[]))))
    ensures Sat(re, v, Wrap(k, Negation(Doc(map[]))), 0, true) <==> k == MAX_NESTING_DEPTH
  {
    EmptyAccepts(re, v, k + 1, true);
    EmptyAccepts(re, v, 0, false);
    DeepNegation(re, v, Doc(map[]), k, true);
    NegationByDepth(re, v, Doc(map[]), k);
  }

  // ---------- departures from the usual reading of the keywords ----------

  /** Lengths count UTF-8 bytes, which are characters exactly for ASCII strings. */
  lemma {:induction false} LengthCountsCharactersExactly(s: string)
    ensures |s| <= Utf8Length(s)
    ensures Utf8Length(s) == |s| <==> forall i :: 0 <= i < |s| ==> s[i] < '\U{80}'
  {
    if s != "" {
      LengthCountsCharactersExactly(s[1..]);
      assert forall i :: 0 < i < |s| ==> s[i] == s[1..][i - 1];
    }
  }

  /** The schemas agree on every keyword but `k`. */
  ghost predicate AgreeBut(s: Bson, t: Bson, k: string) {
    s.Doc? && t.Doc? && forall j :: j != k ==> Key(s, j) == Key(t, j)
  }

  lemma SameCombinators(re: RegexEngine, v: Bson, s: Bson, t: Bson, k: string, d: nat, limit: bool)
    requires AgreeBut(s, t, k) && k !in {"allOf", "anyOf", "oneOf", "not"}
    ensures SatCombinators(re, v, s, d, limit) <==> SatCombinators(re, v, t, d, limit)
  {
    assert Key(s, "allOf") == Key(t, "allOf") && Key(s, "anyOf") == Key(t, "anyOf");
    assert Key(s, "oneOf") == Key(t, "oneOf") && Key(s, "not") == Key(t, "not");
    SameAllOf(re, v, s, t, d, limit);
    SameAnyOf(re, v, s, t, d, limit);
    SameOneOf(re, v, s, t, d, limit);
    assert HasDoc(s, "not") <==> HasDoc(t, "not");
    assert HasDoc(s, "not") ==> t.fields["not"] == s.fields["not"];
  }

  lemma SameAllOf(re: RegexEngine, v: Bson, s: Bson, t: Bson, d: nat, limit: bool)
    requires s.Doc? && t.Doc? && Key(s, "allOf") == Key(t, "allOf")
    ensures AllOf(re, v, s, d, limit) <==> AllOf(re, v, t, d, limit)
  {
    assert ArrayAt(s, "allOf") == ArrayAt(t, "allOf");
  }

  lemma SameAnyOf(re: RegexEngine, v: Bson, s: Bson, t: Bson, d: nat, limit: bool)
    requires s.Doc? && t.Doc? && Key(s, "anyOf") == Key(t, "anyOf")
    ensures AnyOf(re, v, s, d, limit) <==> AnyOf(re, v, t, d, limit)
  {
    assert ArrayAt(s, "anyOf") == ArrayAt(t, "anyOf");
  }

  lemma SameOneOf(re: RegexEngine, v: Bson, s: Bson, t: Bson, d: nat, limit: bool)
    requires s.Doc? && t.Doc? && Key(s, "oneOf") == Key(t, "oneOf")
    ensures OneOf(re, v, s, d, limit) <==> OneOf(re, v, t, d, limit)
  {
    assert ArrayAt(s, "oneOf") == ArrayAt(t, "oneOf");
    forall i ensures OnlyMatch(re, v, s, i, d, limit) <==> OnlyMatch(re, v, t, i, d, limit) {}
  }

  /** `enum` is not looked at on objects and arrays. */
  lemma EnumUnseen(re: RegexEngine, v: Bson, s: Bson, t: Bson, d: nat, limit: bool)
    requires (v.Doc? || v.Arr?) && AgreeBut(s, t, "enum")
    ensures Sat(re, v, s, d, limit) <==> Sat(re, v, t, d, limit)
  {
    SameCombinators(re, v, s, t, "enum", d, limit);
    assert Key(s, "bsonType") == Key(t, "bsonType") && Key(s, "type") == Key(t, "type");
    if v.Doc? { SameFields(re, v, s, t, "enum", d, limit); } else { SameItems(re, v, s, t, "enum", d, limit); }
  }

  lemma SameFields(re: RegexEngine, v: Bson, s: Bson, t: Bson, k: string, d: nat, limit: bool)
    requires v.Doc? && AgreeBut(s, t, k) && k !in {"required", "properties", "minProperties", "maxProperties"}
    requires k == "additionalProperties" ==> !HasDoc(s, "properties")
    ensures SatFields(re, v, s, d, limit) <==> SatFields(re, v, t, d, limit)
  {
    assert Key(s, "required") == Key(t, "required") && Key(s, "properties") == Key(t, "properties");
    assert Key(s, "minProperties") == Key(t, "minProperties") && Key(s, "maxProperties") == Key(t, "maxProperties");
    assert k != "additionalProperties" ==> Key(s, "additionalProperties") == Key(t, "additionalProperties");
  }

  lemma SameItems(re: RegexEngine, v: Bson, s: Bson, t: Bson, k: string, d: nat, limit: bool)
    requires v.Arr? && AgreeBut(s, t, k) && k !in {"items", "minItems", "maxItems", "uniqueItems"}
    ensures SatItems(re, v, s, d, limit) <==> SatItems(re, v, t, d, limit)
  {
    assert Key(s, "items") == Key(t, "items") && Key(s, "uniqueItems") == Key(t, "uniqueItems");
    assert Key(s, "minItems") == Key(t, "minItems") && Key(s, "maxItems") == Key(t, "maxItems");
  }

  /** `additionalProperties` is not looked at without `properties`. */
  lemma AdditionalUnseen(re: RegexEngine, v: Bson, s: Bson, t: Bson, d: nat, limit: bool)
    requires v.Doc? && AgreeBut(s, t, "additionalProperties") && !HasDoc(s, "properties")
    ensures Sat(re, v, s, d, limit) <==> Sat(re, v, t, d, limit)
  {
    SameCombinators(re, v, s, t, "additionalProperties", d, limit);
    assert Key(s, "bsonType") == Key(t, "bsonType") && Key(s, "type") == Key(t, "type");
    SameFields(re, v, s, t, "additionalProperties", d, limit);
  }

  // ---------- types by name ----------

  /** The values a type name stands for; any other name stands for none. */
  predicate Admits(t: string, v: Bson) {
    || (t == "string" && v.Str?)
    || (t == "int" && v.Int32?)
    || (t == "long" && v.Int64?)
    || (t == "double" && v.Double?)
    || (t == "number" && (v.Int32? || v.Int64? || v.Double?))
    || ((t == "bool" || t == "boolean") && v.Bool?)
    || (t == "object" && v.Doc?)
    || (t == "array" && v.Arr?)
    || (t == "null" && v.Null?)
    || (t == "objectId" && v.ObjectId?)
    || (t == "date" && v.DateTime?)
    || (t == "regex" && v.Regex?)
    || (t == "binData" && v.Binary?)
  }

  lemma NamedExactly(t: string, v: Bson)
    ensures t in TypeNames(v) <==> Admits(t, v)
  {
  }

  /** A name admits its values, an array those of any name in it, and anything else every value. */
  predicate AdmittedBy(spec: Bson, v: Bson) {
    && (spec.Str? ==> Admits(spec.s, v))
    && (spec.Arr? ==> exists i :: 0 <= i < |spec.items| && spec.items[i].Str? && Admits(spec.items[i].s, v))
  }

  lemma NamesTypeExactly(spec: Bson, v: Bson)
    ensures NamesType(spec, TypeNames(v)) <==> AdmittedBy(spec, v)
  {
    if spec.Str? {
      NamedExactly(spec.s, v);
    } else if spec.Arr? {
      forall i | 0 <= i < |spec.items| && spec.items[i].Str?
        ensures spec.items[i].s in TypeNames(v) <==> Admits(spec.items[i].s, v)
      {
        NamedExactly(spec.items[i].s, v);
      }
    }
  }

  function TypeOnly(k: string, spec: Bson): Bson {
    Doc(map[k := spec])
  }

  lemma NoCombinators(re: RegexEngine, v: Bson, s: Bson, d: nat, limit: bool)
    requires s.Doc? && forall k :: k in {"allOf", "anyOf", "oneOf", "not"} ==> k !in s.fields
    ensures SatCombinators(re, v, s, d, limit)
  {
    assert "allOf" !in s.fields && "anyOf" !in s.fields && "oneOf" !in s.fields && "not" !in s.fields;
  }

  lemma TypeOnlyContent(re: RegexEngine, v: Bson, k: string, spec: Bson)
    requires k == "bsonType" || k == "type"
    ensures SatCombinators(re, v, TypeOnly(k, spec), 0, false)
    ensures v.Doc? ==> SatFields(re, v, TypeOnly(k, spec), 0, false)
    ensures v.Arr? ==> SatItems(re, v, TypeOnly(k, spec), 0, false)
    ensures ScalarOk(re, v, TypeOnly(k, spec))
  {
    var s := TypeOnly(k, spec);
    assert s.fields.Keys == {k};
    NoCombinators(re, v, s, 0, false);
  }

  /** A value conforms to a schema that names types, under either keyword, exactly when one of the names admits it. */
  lemma TypesByName(re: RegexEngine, v: Bson, k: string, spec: Bson)
    requires k == "bsonType" || k == "type"
    ensures Conforms(re, v, TypeOnly(k, spec)) <==> AdmittedBy(spec, v)
  {
    var s := TypeOnly(k, spec);
    assert s.fields.Keys == {k} && TypeSpec(s) == Some(spec);
    NamesTypeExactly(spec, v);
    TypeOnlyContent(re, v, k, spec);
  }

  /** In any schema, a value that satisfies it is one its type keyword admits. */
  lemma SatisfiedIsAdmitted(re: RegexEngine, v: Bson, s: Bson, d: nat, limit: bool)
    requires s.Doc? && Sat(re, v, s, d, limit)
    ensures "bsonType" in s.fields ==> AdmittedBy(s.fields["bsonType"], v)
    ensures "bsonType" !in s.fields && "type" in s.fields ==> AdmittedBy(s.fields["type"], v)
  {
    if TypeSpec(s).Some? { NamesTypeExactly(TypeSpec(s).value, v); }
  }

  /** Next to `bsonType`, `type` is not looked at. */
  lemma TypeUnseen(re: RegexEngine, v: Bson, s: Bson, t: Bson, d: nat, limit: bool)
    requires AgreeBut(s, t, "type") && "bsonType" in s.fields
    ensures Sat(re, v, s, d, limit) <==> Sat(re, v, t, d, limit)
  {
    SameCombinators(re, v, s, t, "type", d, limit);
    assert Key(s, "bsonType") == Key(t, "bsonType");
    if v.Doc? {
      SameFields(re, v, s, t, "type", d, limit);
    } else if v.Arr? {
      SameItems(re, v, s, t, "type", d, limit);
    } else {
      SameScalar(re, v, s, t, "type");
    }
  }

  lemma SameScalar(re: RegexEngine, v: Bson, s: Bson, t: Bson, k: string)
    requires AgreeBut(s, t, k) && k == "type"
    ensures ScalarOk(re, v, s) <==> ScalarOk(re, v, t)
  {
    assert Key(s, "minimum") == Key(t, "minimum") && Key(s, "maximum") == Key(t, "maximum");
    assert Key(s, "exclusiveMinimum") == Key(t, "exclusiveMinimum");
    assert Key(s, "exclusiveMaximum") == Key(t, "exclusiveMaximum");
    assert Key(s, "minLength") == Key(t, "minLength") && Key(s, "maxLength") == Key(t, "maxLength");
    assert Key(s, "pattern") == Key(t, "pattern") && Key(s, "enum") == Key(t, "enum");
  }

  // ---------- numbers and lengths ----------

  /** Bounds compare numbers of every kind by value, and bind nothing else. */
  lemma BoundsByValue(re: RegexEngine, n: int, m: int, x: real, y: real)
    ensures ScalarOk(re, Int32(n), Doc(map["minimum" := Int64(m)])) <==> m <= n
    ensures ScalarOk(re, Int64(n), Doc(map["maximum" := Int32(m)])) <==> n <= m
    ensures ScalarOk(re, Double(x), Doc(map["exclusiveMinimum" := Double(y)])) <==> y < x
    ensures ScalarOk(re, Double(x), Doc(map["exclusiveMaximum" := Int32(m)])) <==> x < m as real
    ensures forall b: bool :: ScalarOk(re, Bool(b), Doc(map["minimum" := Int32(m)]))
  {
  }

  function AtLeast(s: string, c: char): nat {
    if s == "" then 0 else (if s[0] >= c then 1 else 0) + AtLeast(s[1..], c)
  }

  /** The UTF-8 length: one byte a character, and one more past each of the three limits. */
  lemma {:induction false} BytesCounted(s: string)
    ensures Utf8Length(s) == |s| + AtLeast(s, '\U{80}') + AtLeast(s, '\U{800}') + AtLeast(s, '\U{10000}')
  {
    if s != "" { BytesCounted(s[1..]); }
  }

  // ---------- the checker ----------

  /** `Ok` exactly when the document conforms, for schemas nested within the limit. */
  method ValidateDocument(re: RegexEngine, doc: Bson, schema: Bson) returns (r: Outcome)
    requires doc.Doc? && schema.Doc?
    ensures r.Ok? <==> Sat(re, doc, schema, 0, true)
    ensures NestedWithin(schema, MAX_NESTING_DEPTH) ==> (r.Ok? <==> Conforms(re, doc, schema))
  {
    if NestedWithin(schema, MAX_NESTING_DEPTH) { LimitUnseen(re, doc, schema, 0, 0, true); }
    if schema.fields == map[] {
      assert AnyOf(re, doc, schema, 0, true) && OneOf(re, doc, schema, 0, true);
      assert SatCombinators(re, doc, schema, 0, true);
      assert SatFields(re, doc, schema, 0, true);
      return Ok;
    }
    if TypeSpec(schema).Some? && !NamesType(TypeSpec(schema).value, {"object"}) {
      return Err(TypeMismatch);
    }
    r := ValidateDocFields(re, doc, schema, 0);
  }

  method ValidateValue(re: RegexEngine, value: Bson, schema: Bson, depth: nat) returns (r: Outcome)
    requires schema.Doc?
    ensures r.Ok? <==> Sat(re, value, schema, depth, true)
    decreases schema, 4
  {
    if value.Null? && TypeSpec(schema).Some? && NamedNull(TypeSpec(schema).value) { return Ok; }
    if TypeSpec(schema).Some? && !NamesType(TypeSpec(schema).value, TypeNames(value)) {
      return Err(TypeMismatch);
    }
    r := ValidateCombinators(re, value, schema, depth);
    if r.Err? { return; }
    match value
    case Doc(_) => r := ValidateObject(re, value, schema, depth);
    case Arr(_) => r := ValidateArray(re, value, schema, depth);
    case _ => r := ValidateScalar(re, value, schema);
  }

  /** Called on documents only; the combinators are checked again on the way. */
  method ValidateObject(re: RegexEngine, value: Bson, schema: Bson, depth: nat) returns (r: Outcome)
    requires schema.Doc? && value.Doc?
    ensures r.Ok? <==> depth <= MAX_NESTING_DEPTH && TypeOk(value, schema)
                       && SatFields(re, value, schema, depth, true) && SatCombinators(re, value, schema, depth, true)
    decreases schema, 3
  {
    if depth > MAX_NESTING_DEPTH { return Err(DepthExceeded); }
    if TypeSpec(schema).Some? && !NamesType(TypeSpec(schema).value, TypeNames(value)) {
      return Err(TypeMismatch);
    }
    r := ValidateDocFields(re, value, schema, depth);
  }

  method ValidateDocFields(re: RegexEngine, doc: Bson, schema: Bson, depth: nat) returns (r: Outcome)
    requires schema.Doc? && doc.Doc?
    ensures r.Ok? <==> SatFields(re, doc, schema, depth, true) && SatCombinators(re, doc, schema, depth, true)
    decreases schema, 2
  {
    var required := ArrayAt(schema, "required");
    for i := 0 to |required|
      invariant forall k :: 0 <= k < i && required[k].Str? ==> required[k].s in doc.fields
    {
      if required[i].Str? && required[i].s !in doc.fields {
        assert required[i] in required;
        return Err(Missing);
      }
    }
    if HasDoc(schema, "properties") {
      var props := schema.fields["properties"].fields;
      var todo := props.Keys;
      while todo != {}
        invariant todo <= props.Keys
        invariant forall f :: f in props.Keys - todo && f in doc.fields && props[f].Doc? ==>
                    Sat(re, doc.fields[f], props[f], depth + 1, true)
      {
        var f :| f in todo;
        if f in doc.fields && props[f].Doc? {
          r := ValidateValue(re, doc.fields[f], props[f], depth + 1);
          if r.Err? { return; }
        }
        todo := todo - {f};
      }
      if Key(schema, "additionalProperties") == Some(Bool(false)) {
        todo := doc.fields.Keys;
        while todo != {}
          invariant todo <= doc.fields.Keys
          invariant forall f :: f in doc.fields.Keys - todo ==> f == "_id" || f in props
        {
          var f :| f in todo;
          if f != "_id" && f !in props { return Err(Additional); }
          todo := todo - {f};
        }
      }
    }
    if !Within(|doc.fields| as real, NumberAt(schema, "minProperties"), NumberAt(schema, "maxProperties")) {
      return Err(Size);
    }
    r := ValidateCombinators(re, doc, schema, depth);
  }

  method ValidateCombinators(re: RegexEngine, value: Bson, schema: Bson, depth: nat) returns (r: Outcome)
    requires schema.Doc?
    ensures r.Ok? <==> SatCombinators(re, value, schema, depth, true)
    decreases schema, 1
  {
    r := ValidateAllOf(re, value, schema, depth);
    if r.Err? { return; }
    if HasArr(schema, "anyOf") {
      var matched := MatchesAny(re, value, schema, depth);
      if !matched { return Err(Combinator); }
    }
    if HasArr(schema, "oneOf") {
      var matchCount := CountMatches(re, value, schema, depth);
      if matchCount != 1 { return Err(Combinator); }
    }
    if HasDoc(schema, "not") {
      var sub := ValidateValue(re, value, schema.fields["not"], depth + 1);
      if sub.Ok? { return Err(Combinator); }
    }
    r := Ok;
  }

  method ValidateAllOf(re: RegexEngine, value: Bson, schema: Bson, depth: nat) returns (r: Outcome)
    requires schema.Doc?
    ensures r.Ok? <==> AllOf(re, value, schema, depth, true)
    decreases schema, 0
  {
    var all := ArrayAt(schema, "allOf");
    for i := 0 to |all|
      invariant forall k :: 0 <= k < i && all[k].Doc? ==> Sat(re, value, all[k], depth + 1, true)
    {
      if all[i].Doc? {
        r := ValidateValue(re, value, all[i], depth + 1);
        if r.Err? { return; }
      }
    }
    r := Ok;
  }

  method MatchesAny(re: RegexEngine, value: Bson, schema: Bson, depth: nat) returns (matched: bool)
    requires schema.Doc? && HasArr(schema, "anyOf")
    ensures matched <==> AnyOf(re, value, schema, depth, true)
    decreases schema, 0
  {
    var any, i := ArrayAt(schema, "anyOf"), 0;
    matched := false;
    while i < |any| && !matched
      invariant 0 <= i <= |any|
      invariant matched <==> exists k :: 0 <= k < i && any[k].Doc? && Sat(re, value, any[k], depth + 1, true)
    {
      if any[i].Doc? {
        var sub := ValidateValue(re, value, any[i], depth + 1);
        matched := sub.Ok?;
      }
      i := i + 1;
    }
  }

  /** Stops counting at the second match. */
  method CountMatches(re: RegexEngine, value: Bson, schema: Bson, depth: nat) returns (matchCount: nat)
    requires schema.Doc? && HasArr(schema, "oneOf")
    ensures matchCount == 1 <==> OneOf(re, value, schema, depth, true)
    decreases schema, 0
  {
    var one, i := ArrayAt(schema, "oneOf"), 0;
    ghost var first := -1;
    matchCount := 0;
    while i < |one| && matchCount <= 1
      invariant 0 <= i <= |one| && matchCount <= 2 && first < i
      invariant matchCount >= 1 ==> 0 <= first && one[first].Doc? && Sat(re, value, one[first], depth + 1, true)
      invariant matchCount <= 1 ==> forall k :: 0 <= k < i && k != first && one[k].Doc? ==>
                                      !Sat(re, value, one[k], depth + 1, true)
      invariant matchCount == 0 ==> first == -1
      invariant matchCount == 2 ==>
        exists k :: 0 <= k < i && k != first && one[k].Doc? && Sat(re, value, one[k], depth + 1, true)
    {
      if one[i].Doc? {
        var sub := ValidateValue(re, value, one[i], depth + 1);
        if sub.Ok? {
          if matchCount == 0 { first := i; }
          matchCount := matchCount + 1;
        }
      }
      i := i + 1;
    }
    if matchCount == 1 { assert OnlyMatch(re, value, schema, first, depth, true); }
  }

  method ValidateArray(re: RegexEngine, value: Bson, schema: Bson, depth: nat) returns (r: Outcome)
    requires schema.Doc? && value.Arr?
    ensures r.Ok? <==> SatItems(re, value, schema, depth, true)
    decreases schema, 1
  {
    var arr := value.items;
    if !Within(|arr| as real, NumberAt(schema, "minItems"), NumberAt(schema, "maxItems")) { return Err(Size); }
    if Key(schema, "uniqueItems") == Some(Bool(true)) {
      for i := 0 to |arr|
        invariant forall a, b :: 0 <= a < i && a < b < |arr| ==> arr[a] != arr[b]
      {
        for j := i + 1 to |arr|
          invariant forall b :: i < b < j ==> arr[i] != arr[b]
        {
          if arr[i] == arr[j] { return Err(NotUnique); }
        }
      }
    }
    if HasDoc(schema, "items") {
      for i := 0 to |arr|
        invariant forall k :: 0 <= k < i ==> Sat(re, arr[k], schema.fields["items"], depth + 1, true)
      {
        r := ValidateValue(re, arr[i], schema.fields["items"], depth + 1);
        if r.Err? { return; }
      }
    }
    r := Ok;
  }

  method ValidateScalar(re: RegexEngine, value: Bson, schema: Bson) returns (r: Outcome)
    requires schema.Doc?
    ensures r.Ok? <==> ScalarOk(re, value, schema)
  {
    if ToNumber(value).Some? {
      var n := ToNumber(value).value;
      if NumberAt(schema, "minimum").Some? && n < NumberAt(schema, "minimum").value { return Err(Range); }
      if NumberAt(schema, "maximum").Some? && n > NumberAt(schema, "maximum").value { return Err(Range); }
      if NumberAt(schema, "exclusiveMinimum").Some? && n <= NumberAt(schema, "exclusiveMinimum").value { return Err(Range); }
      if NumberAt(schema, "exclusiveMaximum").Some? && n >= NumberAt(schema, "exclusiveMaximum").value { return Err(Range); }
    }
    if value.Str? {
      var len := Utf8Length(value.s) as real;
      if NumberAt(schema, "minLength").Some? && len < NumberAt(schema, "minLength").value { return Err(Size); }
      if NumberAt(schema, "maxLength").Some? && len > NumberAt(schema, "maxLength").value { return Err(Size); }
      if HasStr(schema, "pattern") {
        var pattern := schema.fields["pattern"].s;
        if Utf8Length(pattern) > MAX_REGEX_PATTERN_LEN { return Err(Pattern); }
        if !re.compiles(pattern) || !re.matches(pattern, value.s) { return Err(Pattern); }
      }
    }
    if HasArr(schema, "enum") && value !in schema.fields["enum"].items { return Err(NotInEnum); }
    r := Ok;
  }
}
