/**
  A version that comes again late, after other deliveries of the same document: when
  it can still change a user field, and exactly when it cannot.
 */
module LateDelivery {
  import opened Common
  import opened Strings
  import opened VectorClocks
  import opened Transform
  import opened Conflict
  import opened Pull

  /** A delivered version and what it meets. */
  datatype Version = Version(doc: Doc, met: Arrival)

  function Deliveries(s: Option<Doc>, vs: seq<Version>): Option<Doc> {
    if vs == [] then s
    else
      var v := vs[|vs| - 1];
      Step(v.met.context, Deliveries(s, vs[..|vs| - 1]), v.doc, v.met.changed)
  }

  ghost predicate MeetsOk(node: string, a: Arrival) {
    a.context.node == node && ContextOk(a.context)
  }

  /** Stored clocks only grow, whatever is delivered. */
  lemma {:induction false} DominanceLasts(l: Doc, c: Counters, vs: seq<Version>)
    requires Counted(c) && ID in l && SoundClock(l) && Dominates(ClockOf(l), c)
    requires forall v :: v in vs ==> OneDocument(l, v.doc) && SoundClock(v.doc) && ContextOk(v.met.context)
    ensures var d := Deliveries(Some(l), vs);
            d.Some? && SoundClock(d.value) && Dominates(ClockOf(d.value), c) && OneDocument(l, d.value)
  {
    if vs != [] {
      var init, v := vs[..|vs| - 1], vs[|vs| - 1];
      assert v in vs;
      DominanceLasts(l, c, init);
      var x, rc, m := v.met.context, v.met.changed, Deliveries(Some(l), init).value;
      if RealDiff(m, v.doc) != {} {
        ConflictStoresClock(x, m, v.doc, rc);
        DominatesTransitive(ClockOf(Delivered(x, Some(m), v.doc, rc).value), ClockOf(m), c);
      } else {
        SameContentStays(x, m, v.doc, rc);
      }
    }
  }

  /** The first delivery, as the store finds it. */
  ghost predicate Fit(s: Option<Doc>, r: Doc) {
    ID in r && SoundClock(r) && Clocked(r) && (s.Some? ==> OneDocument(s.value, r) && SoundClock(s.value))
  }

  ghost predicate LaterOk(node: string, r: Doc, vs: seq<Version>) {
    forall v :: v in vs ==> OneDocument(r, v.doc) && SoundClock(v.doc) && MeetsOk(node, v.met)
  }

  function Met(s: Option<Doc>, r: Doc, a: Arrival): Option<Doc> {
    Step(a.context, s, r, a.changed)
  }

  /** Delivered again after the versions `vs`, `r` changes no user field. */
  ghost predicate Harmless(s: Option<Doc>, r: Doc, first: Arrival, vs: seq<Version>, again: Arrival) {
    var now := Deliveries(Met(s, r, first), vs);
    now.Some? && Met(now, r, again).Some? && SameUserFields(Met(now, r, again).value, now.value)
  }

  /** The version was inserted or resolved, or one tick of the local clock puts it behind. */
  predicate Protected(node: string, s: Option<Doc>, r: Doc) {
    s.None? || RealDiff(s.value, r) != {} || Dominates(Ticked(ClockOf(s.value), node), ClockOf(r))
  }

  // ---------- protected versions ----------

  /** The stored document is ahead of `r`, or holds what `r` holds and will be ahead after its next change. */
  ghost predicate Standing(node: string, now: Doc, r: Doc) {
    && OneDocument(now, r) && SoundClock(now)
    && (|| Dominates(ClockOf(now), ClockOf(r))
        || (RealDiff(now, r) == {} && Dominates(Ticked(ClockOf(now), node), ClockOf(r))))
  }

  lemma SameContent(a: Doc, b: Doc, r: Doc)
    requires SameUserFields(a, b) && RealDiff(b, r) == {}
    ensures RealDiff(a, r) == {}
  {
    forall f ensures f !in RealDiff(a, r) {
      assert f !in RealDiff(b, r) && (Meta(f) || Look(a, f) == Look(b, f));
    }
  }

  lemma TickSurvivesMerge(l: Counters, v: Counters, r: Counters, node: string)
    requires Counted(l) && Counted(v) && Counted(r) && Dominates(Ticked(l, node), r)
    ensures Dominates(Ticked(Merged(l, v), node), r)
  {
    var a, b := Ticked(l, node), Ticked(Merged(l, v), node);
    MergeIsJoin(l, v, l);
    DominatesIsStrict(a, r);
    assert Below(a, b) by {
      forall n ensures At(a, n) <= At(b, n) { assert At(l, n) <= At(Merged(l, v), n); }
    }
    var n :| At(r, n) < At(a, n);
    assert At(r, n) < At(b, n);
    forall m ensures At(r, m) <= At(b, m) { assert At(r, m) <= At(a, m) <= At(b, m); }
    DominatesIsStrict(b, r);
  }

  lemma DeliveryKeepsStanding(node: string, now: Doc, r: Doc, v: Version)
    requires MeetsOk(node, v.met) && SoundClock(r) && Standing(node, now, r) && OneDocument(r, v.doc) && SoundClock(v.doc)
    ensures var d := Met(Some(now), v.doc, v.met); d.Some? && Standing(node, d.value, r)
  {
    var x, rc := v.met.context, v.met.changed;
    if RealDiff(now, v.doc) != {} {
      ConflictStoresClock(x, now, v.doc, rc);
      var d := Delivered(x, Some(now), v.doc, rc).value;
      if Dominates(ClockOf(now), ClockOf(r)) {
        DominatesTransitive(ClockOf(d), ClockOf(now), ClockOf(r));
      } else {
        TickSurvivesMerge(ClockOf(now), ClockOf(v.doc), ClockOf(r), node);
      }
    } else {
      SameContentStays(x, now, v.doc, rc);
      var d := Met(Some(now), v.doc, v.met).value;
      if RealDiff(now, r) == {} { SameContent(d, now, r); }
    }
  }

  lemma {:induction false} StandingLasts(node: string, now: Doc, r: Doc, vs: seq<Version>)
    requires SoundClock(r) && Standing(node, now, r) && LaterOk(node, r, vs)
    ensures var d := Deliveries(Some(now), vs); d.Some? && Standing(node, d.value, r)
  {
    if vs != [] {
      assert vs[|vs| - 1] in vs;
      StandingLasts(node, now, r, vs[..|vs| - 1]);
      DeliveryKeepsStanding(node, Deliveries(Some(now), vs[..|vs| - 1]).value, r, vs[|vs| - 1]);
    }
  }

  /** A protected version is harmless under every resolver and after any deliveries. */
  lemma ProtectedIsHarmless(node: string, s: Option<Doc>, r: Doc, first: Arrival, vs: seq<Version>, again: Arrival)
    requires Fit(s, r) && MeetsOk(node, first) && LaterOk(node, r, vs) && MeetsOk(node, again) && Protected(node, s, r)
    ensures Harmless(s, r, first, vs, again)
  {
    var x, rc := first.context, first.changed;
    if s.None? {
      InsertStoresClock(x, r, rc);
    } else if RealDiff(s.value, r) != {} {
      ConflictStoresClock(x, s.value, r, rc);
    } else {
      SameContentStays(x, s.value, r, rc);
    }
    var stored := Met(s, r, first).value;
    StandingLasts(node, stored, r, vs);
    AbsorbedStays(again.context, Deliveries(Some(stored), vs).value, r, again.changed);
  }

  // ---------- unprotected versions ----------

  lemma {:induction false} LongerName(names: set<string>) returns (w: string)
    ensures forall n :: n in names ==> |n| < |w|
  {
    if names == {} { return ""; }
    var n :| n in names;
    w := LongerName(names - {n});
    if |w| <= |n| { w := n + "x"; }
  }

  /** A change by a writer `r` has not seen, or none at all, leaves the clocks concurrent. */
  function Rival(node: string, l: Counters, r: Counters, w: string): Counters {
    if r == Ticked(l, node) then map[] else map[w := 1]
  }

  lemma RivalIsConcurrent(node: string, l: Counters, r: Counters, w: string)
    requires Counted(l) && Counted(r) && r != map[] && w !in l && w !in r && w != node
    requires !Dominates(Ticked(l, node), r)
    ensures var v := Rival(node, l, r, w);
            var m := Ticked(Merged(l, v), node);
            Counted(v) && !Dominates(m, r) && !Dominates(r, m) && (v != map[] ==> !Dominates(l, v))
  {
    var t := Ticked(l, node);
    DominatesIsStrict(t, r);
    if r == t {
      assert Merged(l, map[]) == l;
      DominatesIsStrict(r, t);
    } else {
      assert !Below(r, t);
      var n :| At(r, n) > At(t, n);
      var v: Counters := map[w := 1];
      var m := Ticked(Merged(l, v), node);
      assert v[w] == 1 && At(m, w) == 1 && At(r, w) == 0 && At(l, w) == 0;
      assert n != w && At(m, n) == At(t, n);
      assert n in r;
    }
  }

  ghost predicate FieldByField(x: Context) {
    x.resolver.FieldLevel? && x.ann == map[] && x.specs == map[] && x.changed == map[]
  }

  /** Under field merge, a field new to the local document arrives. */
  lemma NewFieldArrives(x: Context, l: Doc, v: Doc, f: string)
    requires FieldByField(x) && OneDocument(l, v) && !Meta(f) && f != ID && f !in l && f in v && v[f] != Null
    requires Clocked(v) ==> !Dominates(ClockOf(l), ClockOf(v))
    ensures var d := Step(x, Some(l), v, None);
            && d.Some? && f in d.value && d.value[f] == v[f] && OneDocument(d.value, v)
            && ClockOf(d.value) == NewClock(x, l, v)
  {
    assert f in RealDiff(l, v);
    FieldMergeKeepsId(l, v, {}, RealDiff(l, v));
    var resolved := Resolve(x, l, v, None);
    assert Get(resolved, f) == v[f] && f in resolved && Get(resolved, ID) == v[ID];
    var d := SetFields(x, l, v, resolved);
    assert d[VCLOCK] == Clock(NewClock(x, l, v)) && d[f] == v[f];
  }

  /** Under field merge, a field the concurrent remote version lacks is set to null. */
  lemma LackingVersionErases(x: Context, l: Doc, r: Doc, f: string)
    requires FieldByField(x) && OneDocument(l, r) && !Meta(f) && f != ID && f in l && l[f] != Null && f !in r
    requires Clocked(r) && !Dominates(ClockOf(l), ClockOf(r)) && !Dominates(ClockOf(r), ClockOf(l))
    ensures var d := Step(x, Some(l), r, None); d.Some? && Look(d.value, f) == Some(Null)
  {
    assert f in RealDiff(l, r);
    FieldMergeKeepsId(l, r, {}, RealDiff(l, r));
    var resolved := Resolve(x, l, r, None);
    assert f in resolved && resolved[f] == Null && Get(resolved, ID) == r[ID];
  }

  /** The version a rival writer delivers in between: one field nobody else has. */
  function RivalVersion(id: Value, f: string, c: Counters): Doc {
    if c == map[] then map[ID := id, f := Num(0.0)] else map[ID := id, f := Num(0.0), VCLOCK := Clock(c)]
  }

  lemma RivalVersionHolds(id: Value, f: string, c: Counters)
    requires f != ID && !Meta(f)
    ensures var v := RivalVersion(id, f, c); ID in v && v[ID] == id && f in v && v[f] == Num(0.0) && ClockOf(v) == c
  {
  }

  /** An unprotected version can come back: some resolver and one delivery in between let it change a user field. */
  lemma UnprotectedComesBack(node: string, l: Doc, r: Doc) returns (a: Arrival, v: Version)
    requires Fit(Some(l), r) && !Protected(node, Some(l), r)
    ensures MeetsOk(node, a) && LaterOk(node, r, [v]) && !Harmless(Some(l), r, a, [v], a)
  {
    var x := Context(node, FieldLevel, map[], y => y, y => "", map[], map[]);
    a := Arrival(x, None);
    var w := LongerName(l.Keys + r.Keys + ClockOf(l).Keys + ClockOf(r).Keys + {node, ID, STAMP, VCLOCK});
    assert w !in l && w !in r && w !in ClockOf(l) && w !in ClockOf(r) && w != node && w != ID && !Meta(w);
    SameContentStays(x, l, r, None);
    var first := Step(x, Some(l), r, None).value;
    assert Look(first, w) == Look(l, w);
    var c := Rival(node, ClockOf(l), ClockOf(r), w);
    RivalIsConcurrent(node, ClockOf(l), ClockOf(r), w);
    v := Version(RivalVersion(r[ID], w, c), a);
    RivalVersionHolds(r[ID], w, c);
    NewFieldArrives(x, first, v.doc, w);
    var m := Step(x, Some(first), v.doc, None).value;
    LackingVersionErases(x, m, r, w);
    assert [v][..0] == [];
    assert Deliveries(Some(first), [v]) == Some(m);
    assert Look(m, w) == Some(Num(0.0));
  }

  /**
    Late redelivery is harmless, whatever the resolver, annotations, pending updates and
    change records at each delivery and after any deliveries in between, if and only if
    the version was inserted or resolved, or one tick of the local clock it was
    recognised against dominates it.
   */
  lemma LateRedeliveryExactly(node: string, s: Option<Doc>, r: Doc)
    requires Fit(s, r)
    ensures (forall first: Arrival, vs: seq<Version>, again: Arrival ::
               (MeetsOk(node, first) && LaterOk(node, r, vs) && MeetsOk(node, again)) ==> Harmless(s, r, first, vs, again))
            <==> Protected(node, s, r)
  {
    if Protected(node, s, r) {
      forall first: Arrival, vs: seq<Version>, again: Arrival
        | MeetsOk(node, first) && LaterOk(node, r, vs) && MeetsOk(node, again)
        ensures Harmless(s, r, first, vs, again)
      {
        ProtectedIsHarmless(node, s, r, first, vs, again);
      }
    } else {
      var a, v := UnprotectedComesBack(node, s.value, r);
      assert !Harmless(s, r, a, [v], a);
    }
  }

  // ---------- the same under last-write-wins ----------

  /** Between concurrent clocks, last-write-wins lets the greater writer override. */
  lemma GreaterWriterOverrides(x: Context, l: Doc, r: Doc, rc: Option<set<string>>, ln: string, rn: string)
    requires x.resolver.LastWrite? && x.ann == map[] && x.specs == map[] && OneDocument(l, r) && RealDiff(l, r) != {}
    requires IsGreatest(ClockOf(l).Keys, ln) && IsGreatest(ClockOf(r).Keys, rn) && Lt(ln, rn)
    requires !Dominates(ClockOf(l), ClockOf(r)) && !Dominates(ClockOf(r), ClockOf(l))
    ensures Step(x, Some(l), r, rc) == Some(l + (r - {ID})[VCLOCK := Clock(NewClock(x, l, r))])
  {
    GreatestDetermined(ClockOf(l).Keys);
    GreatestDetermined(ClockOf(r).Keys);
    LtTotal(ln, rn);
    assert Clocked(l) && Clocked(r);
  }

  function Versioned(v: real, c: Counters): Doc {
    map[ID := Str("d"), "v" := Num(v), VCLOCK := Clock(c)]
  }

  lemma VersionsClash(v: real, c: Counters, u: real, d: Counters)
    requires v != u
    ensures var l, r := Versioned(v, c), Versioned(u, d);
            RealDiff(l, r) != {} && OneDocument(l, r) && ClockOf(l) == c && ClockOf(r) == d
  {
    assert "v" in RealDiff(Versioned(v, c), Versioned(u, d));
  }

  /** One writer's version over another's: the document becomes the later writer's, clocks merged. */
  lemma WriterStep(x: Context, v: real, c: Counters, ln: string, u: real, rn: string, m: Counters)
    requires x.resolver.LastWrite? && x.ann == map[] && x.specs == map[] && v != u
    requires IsGreatest(c.Keys, ln) && Lt(ln, rn) && c[ln] >= 1 && rn !in c
    requires x.node in c && m == c[rn := 1][x.node := c[x.node] + 1]
    ensures Step(x, Some(Versioned(v, c)), Versioned(u, map[rn := 1]), None) == Some(Versioned(u, m))
  {
    var d: Counters := map[rn := 1];
    var l, r := Versioned(v, c), Versioned(u, d);
    VersionsClash(v, c, u, d);
    NewWriterIsConcurrent(c, ln, rn);
    NewWriterMerges(c, rn, x.node);
    assert NewClock(x, l, r) == m;
    calc {
      Step(x, Some(l), r, None);
      { GreaterWriterOverrides(x, l, r, None, ln, rn); }
      Some(l + (r - {ID})[VCLOCK := Clock(m)]);
      { VersionedOverrides(v, c, u, d, m); }
      Some(Versioned(u, m));
    }
  }

  lemma NewWriterIsConcurrent(c: Counters, n: string, w: string)
    requires n in c && c[n] >= 1 && w !in c
    ensures !Dominates(c, map[w := 1]) && !Dominates(map[w := 1], c)
    ensures IsGreatest((map[w := 1]).Keys, w)
  {
    var d: Counters := map[w := 1];
    assert d[w] == 1 && At(c, w) == 0 && At(d, n) == 0;
  }

  lemma NewWriterMerges(c: Counters, w: string, n: string)
    requires n in c && w !in c
    ensures Ticked(Merged(c, map[w := 1]), n) == c[w := 1][n := c[n] + 1]
  {
    assert Merged(c, map[w := 1]) == c[w := 1];
  }

  lemma VersionedOverrides(v: real, c: Counters, u: real, d: Counters, m: Counters)
    ensures Versioned(v, c) + (Versioned(u, d) - {ID})[VCLOCK := Clock(m)] == Versioned(u, m)
  {
  }

  /**
    The no-difference path does not merge clocks: for any writers a < c < z, a version
    by z recognised that way, delivered again after one by c, undoes the latter.
   */
  lemma RecognisedVersionCanRevert(x: Context, a: string, c: string, z: string)
    requires x.node == a && x.resolver.LastWrite? && x.ann == map[] && x.specs == map[] && Lt(a, c) && Lt(c, z)
    ensures var l, r, s := Versioned(1.0, map[a := 1]), Versioned(1.0, map[z := 1]), Versioned(2.0, map[c := 1]);
            var m := Versioned(2.0, map[a := 2, c := 1]);
            && Step(x, Some(l), r, None) == Some(l)
            && Step(x, Some(l), s, None) == Some(m)
            && Step(x, Some(m), r, None) == Some(Versioned(1.0, map[a := 3, c := 1, z := 1]))
  {
    LtTransitive(a, c, z);
    LtTotal(a, c);
    LtTotal(c, z);
    LtTotal(a, z);
    Recognised(x, 1.0, map[a := 1], map[z := 1]);
    var one, two, three: Counters := map[a := 1], map[a := 2, c := 1], map[a := 3, c := 1, z := 1];
    assert two == one[c := 1][a := 2] && three == two[z := 1][a := 3];
    WriterStep(x, 1.0, one, a, 2.0, c, two);
    WriterStep(x, 2.0, two, c, 1.0, z, three);
  }

  lemma Recognised(x: Context, v: real, c: Counters, d: Counters)
    ensures Step(x, Some(Versioned(v, c)), Versioned(v, d), None) == Some(Versioned(v, c))
  {
    assert RealDiff(Versioned(v, c), Versioned(v, d)) == {};
  }
}
