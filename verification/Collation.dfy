/**
  String comparison under a collation: by folded text, or numeric-aware, where each
  string is cut into text and number segments compared pairwise.
 */
module Collation {
  import opened Common
  import opened Strings

  datatype Ordering = Less | Equal | Greater

  /** A number is its rank among the parsed values. */
  datatype Segment = Text(text: string) | Number(rank: int)

  /** The library functions: number parsing, lower-casing and removal of diacritics. */
  datatype Library = Library(parse: string -> Option<int>, lower: string -> string, strip: string -> string)

  datatype Collation = Collation(strength: int, numericOrdering: bool)

  // ---------- cutting a string into segments ----------

  /** A slice of the source and whether it was scanned as a number. */
  datatype Piece = Piece(numeric: bool, text: string)

  predicate Digit(c: char) {
    '0' <= c <= '9'
  }

  /** Length of the longest prefix of digits and dots. */
  function NumberPrefix(s: string): (n: nat)
    ensures n <= |s| && (n == 0 <==> s == "" || !(Digit(s[0]) || s[0] == '.'))
  {
    if s == "" || !(Digit(s[0]) || s[0] == '.') then 0 else 1 + NumberPrefix(s[1..])
  }

  /** Length of the longest prefix without a digit. */
  function TextPrefix(s: string): (n: nat)
    ensures n <= |s| && (n == 0 <==> s == "" || Digit(s[0]))
  {
    if s == "" || Digit(s[0]) then 0 else 1 + TextPrefix(s[1..])
  }

  predicate ScansNumber(s: string, first: bool) {
    s != "" && (Digit(s[0]) || (s[0] == '-' && first))
  }

  function PrefixLength(s: string, first: bool): nat {
    if ScansNumber(s, first) then NumberPrefix(s) else TextPrefix(s)
  }

  /** A leading minus sign consumes nothing; only `first` changes. */
  function Pieces(s: string, first: bool): seq<Piece>
    decreases |s|, first
  {
    if s == "" then [] else
      var n := PrefixLength(s, first);
      [Piece(ScansNumber(s, first), s[..n])] + Pieces(s[n..], false)
  }

  function SegmentOf(lib: Library, p: Piece): Segment {
    if p.numeric && lib.parse(p.text).Some? then Number(lib.parse(p.text).value) else Text(p.text)
  }

  function Segments(lib: Library, ps: seq<Piece>): seq<Segment> {
    seq(|ps|, i requires 0 <= i < |ps| => SegmentOf(lib, ps[i]))
  }

  function Joined(ps: seq<Piece>): string {
    if ps == [] then "" else ps[0].text + Joined(ps[1..])
  }

  lemma {:induction false} NumberPrefixIsNumeric(s: string)
    ensures forall i :: 0 <= i < NumberPrefix(s) ==> Digit(s[i]) || s[i] == '.'
    ensures NumberPrefix(s) < |s| ==> !Digit(s[NumberPrefix(s)])
  {
    if NumberPrefix(s) > 0 { NumberPrefixIsNumeric(s[1..]); }
  }

  lemma {:induction false} TextPrefixHasNoDigit(s: string)
    ensures forall i :: 0 <= i < TextPrefix(s) ==> !Digit(s[i])
    ensures TextPrefix(s) < |s| ==> Digit(s[TextPrefix(s)])
  {
    if TextPrefix(s) > 0 { TextPrefixHasNoDigit(s[1..]); }
  }

  predicate WellCut(p: Piece) {
    if p.numeric then forall i :: 0 <= i < |p.text| ==> Digit(p.text[i]) || p.text[i] == '.'
    else p.text != "" && forall i :: 0 <= i < |p.text| ==> !Digit(p.text[i])
  }

  /** The slices concatenate back to the input. */
  lemma {:induction false} PiecesJoin(s: string, first: bool)
    ensures Joined(Pieces(s, first)) == s
    decreases |s|, first
  {
    if s != "" {
      var n := PrefixLength(s, first);
      PiecesJoin(s[n..], false);
      assert Pieces(s, first)[1..] == Pieces(s[n..], false);
      assert s == s[..n] + s[n..];
    }
  }

  lemma FirstPieceWellCut(s: string, first: bool)
    requires s != ""
    ensures WellCut(Piece(ScansNumber(s, first), s[..PrefixLength(s, first)]))
  {
    NumberPrefixIsNumeric(s);
    TextPrefixHasNoDigit(s);
  }

  /** Number slices are digits and dots, text slices hold no digit. */
  lemma {:induction false} PiecesWellCut(s: string, first: bool)
    ensures forall k :: 0 <= k < |Pieces(s, first)| ==> WellCut(Pieces(s, first)[k])
    decreases |s|, first
  {
    if s != "" {
      FirstPieceWellCut(s, first);
      PiecesWellCut(s[PrefixLength(s, first)..], false);
    }
  }

  lemma PieceStep(s: string, i: nat, first: bool)
    requires i < |s|
    ensures var n := PrefixLength(s[i..], first);
            i + n <= |s| && Pieces(s[i..], first) == [Piece(ScansNumber(s[i..], first), s[i..i + n])] + Pieces(s[i + n..], false)
  {
    var n := PrefixLength(s[i..], first);
    assert s[i..][..n] == s[i..i + n] && s[i..][n..] == s[i + n..];
  }

  method ScanNumber(s: string, start: nat) returns (i: nat)
    requires start <= |s|
    ensures i == start + NumberPrefix(s[start..])
  {
    i := start;
    while i < |s| && (Digit(s[i]) || s[i] == '.')
      invariant start <= i <= |s| && start + NumberPrefix(s[start..]) == i + NumberPrefix(s[i..])
    {
      assert s[i..][1..] == s[i + 1..];
      i := i + 1;
    }
  }

  method ScanText(s: string, start: nat) returns (i: nat)
    requires start <= |s|
    ensures i == start + TextPrefix(s[start..])
  {
    i := start;
    while i < |s| && !Digit(s[i])
      invariant start <= i <= |s| && start + TextPrefix(s[start..]) == i + TextPrefix(s[i..])
    {
      assert s[i..][1..] == s[i + 1..];
      i := i + 1;
    }
  }

  lemma PieceDone(lib: Library, done: seq<Piece>, p: Piece, rest: seq<Piece>, all: seq<Piece>)
    requires done + ([p] + rest) == all
    ensures (done + [p]) + rest == all
    ensures Segments(lib, done + [p]) == Segments(lib, done) + [SegmentOf(lib, p)]
  {
    Regroup(done, [p], rest);
  }

  method SplitNumeric(lib: Library, s: string) returns (segs: seq<Segment>)
    ensures segs == Segments(lib, Pieces(s, true))
  {
    segs := [];
    var i := 0;
    ghost var done, rest, all := [], Pieces(s, true), Pieces(s, true);
    assert s[0..] == s;
    while i < |s|
      invariant 0 <= i <= |s| && segs == Segments(lib, done)
      invariant rest == Pieces(s[i..], segs == []) && done + rest == all
      decreases |s| - i, segs == []
    {
      ghost var p;
      var seg, next;
      seg, next, p := NextSegment(lib, s, i, segs == []);
      PieceDone(lib, done, p, Pieces(s[next..], false), all);
      segs, i, done, rest := segs + [seg], next, done + [p], Pieces(s[next..], false);
    }
  }

  /** One round of the loop: a number or a text segment; a leading minus sign yields an empty text and no progress. */
  method NextSegment(lib: Library, s: string, start: nat, first: bool) returns (seg: Segment, i: nat, ghost p: Piece)
    requires start < |s|
    ensures start <= i <= |s| && (i == start ==> first) && seg == SegmentOf(lib, p)
    ensures Pieces(s[start..], first) == [p] + Pieces(s[i..], false)
  {
    PieceStep(s, start, first);
    if Digit(s[start]) || (s[start] == '-' && first) {
      i := ScanNumber(s, start);
      var parsed := lib.parse(s[start..i]);
      seg := if parsed.Some? then Number(parsed.value) else Text(s[start..i]);
    } else {
      i := ScanText(s, start);
      seg := Text(s[start..i]);
    }
    p := Piece(ScansNumber(s[start..], first), s[start..i]);
  }

  // ---------- comparing ----------

  function Reverse(o: Ordering): Ordering {
    match o case Less => Greater case Equal => Equal case Greater => Less
  }

  function CompareText(a: string, b: string): Ordering {
    if Lt(a, b) then Less else if a == b then Equal else Greater
  }

  function CompareSegment(fold: string -> string, a: Segment, b: Segment): Ordering {
    match (a, b)
    case (Number(m), Number(n)) => if m < n then Less else if m == n then Equal else Greater
    case (Text(s), Text(t)) => CompareText(fold(s), fold(t))
    case (Number(_), Text(_)) => Less
    case (Text(_), Number(_)) => Greater
  }

  function CompareSegments(fold: string -> string, a: seq<Segment>, b: seq<Segment>): Ordering {
    if a == [] then (if b == [] then Equal else Less)
    else if b == [] then Greater
    else
      var o := CompareSegment(fold, a[0], b[0]);
      if o == Equal then CompareSegments(fold, a[1..], b[1..]) else o
  }

  function Fold(lib: Library, caseInsensitive: bool): string -> string {
    if caseInsensitive then lib.lower else s => s
  }

  function SortKey(lib: Library, c: Collation, s: string): string {
    if c.strength >= 3 then s else if c.strength == 1 then lib.strip(lib.lower(s)) else lib.lower(s)
  }

  function CompareStr(lib: Library, c: Collation, a: string, b: string): Ordering {
    if c.numericOrdering
    then CompareSegments(Fold(lib, c.strength <= 2), Segments(lib, Pieces(a, true)), Segments(lib, Pieces(b, true)))
    else CompareText(SortKey(lib, c, a), SortKey(lib, c, b))
  }

  method NumericStringCmp(lib: Library, a: string, b: string, caseInsensitive: bool) returns (o: Ordering)
    ensures o == CompareSegments(Fold(lib, caseInsensitive), Segments(lib, Pieces(a, true)), Segments(lib, Pieces(b, true)))
  {
    var sa := SplitNumeric(lib, a);
    var sb := SplitNumeric(lib, b);
    o := CompareInTurn(Fold(lib, caseInsensitive), sa, sb);
  }

  method CompareInTurn(fold: string -> string, a: seq<Segment>, b: seq<Segment>) returns (o: Ordering)
    ensures o == CompareSegments(fold, a, b)
  {
    ghost var whole := CompareSegments(fold, a, b);
    assert a[0..] == a && b[0..] == b;
    var i := 0;
    while i < |a| && i < |b|
      invariant 0 <= i <= |a| && i <= |b|
      invariant CompareSegments(fold, a[i..], b[i..]) == whole
    {
      o := CompareSegment(fold, a[i], b[i]);
      if o != Equal { return; }
      assert a[i..][1..] == a[i + 1..] && b[i..][1..] == b[i + 1..];
      i := i + 1;
    }
    o := if |a| < |b| then Less else if |a| == |b| then Equal else Greater;
  }

  // ---------- a total preorder ----------

  /** Two comparisons in a row, as the comparison of the ends must read. */
  predicate Chains(ab: Ordering, bc: Ordering, ac: Ordering) {
    && (ab == Equal ==> ac == bc)
    && (bc == Equal ==> ac == ab)
    && (ab == bc ==> ac == ab)
  }

  lemma TextOrder(a: string, b: string, c: string)
    ensures CompareText(b, a) == Reverse(CompareText(a, b)) && CompareText(a, a) == Equal
    ensures Chains(CompareText(a, b), CompareText(b, c), CompareText(a, c))
  {
    LtTotal(a, b);
    LtTotal(b, c);
    LtTotal(a, c);
    if Lt(a, b) && Lt(b, c) { LtTransitive(a, b, c); }
    if Lt(c, b) && Lt(b, a) { LtTransitive(c, b, a); }
  }

  lemma SegmentOrder(fold: string -> string, a: Segment, b: Segment, c: Segment)
    ensures CompareSegment(fold, b, a) == Reverse(CompareSegment(fold, a, b)) && CompareSegment(fold, a, a) == Equal
    ensures Chains(CompareSegment(fold, a, b), CompareSegment(fold, b, c), CompareSegment(fold, a, c))
  {
    if a.Text? && b.Text? { TextOrder(fold(a.text), fold(b.text), fold(b.text)); }
    if a.Text? { TextOrder(fold(a.text), fold(a.text), fold(a.text)); }
    if a.Text? && b.Text? && c.Text? { TextOrder(fold(a.text), fold(b.text), fold(c.text)); }
    if b.Text? && c.Text? { TextOrder(fold(b.text), fold(c.text), fold(c.text)); }
  }

  lemma {:induction false} SegmentsOrder(fold: string -> string, a: seq<Segment>, b: seq<Segment>, c: seq<Segment>)
    ensures CompareSegments(fold, b, a) == Reverse(CompareSegments(fold, a, b)) && CompareSegments(fold, a, a) == Equal
    ensures Chains(CompareSegments(fold, a, b), CompareSegments(fold, b, c), CompareSegments(fold, a, c))
  {
    if a != [] {
      SegmentsOrder(fold, a[1..], a[1..], a[1..]);
      SegmentOrder(fold, a[0], a[0], a[0]);
      if b != [] {
        SegmentsOrder(fold, a[1..], b[1..], if c == [] then [] else c[1..]);
        SegmentOrder(fold, a[0], b[0], if c == [] then a[0] else c[0]);
      }
    }
  }

  /**
    Every collation orders all strings: a string equals itself, swapping the arguments
    reverses the answer, and answers chain transitively.
   */
  lemma CompareStrIsTotalPreorder(lib: Library, c: Collation, x: string, y: string, z: string)
    ensures CompareStr(lib, c, x, x) == Equal
    ensures CompareStr(lib, c, y, x) == Reverse(CompareStr(lib, c, x, y))
    ensures Chains(CompareStr(lib, c, x, y), CompareStr(lib, c, y, z), CompareStr(lib, c, x, z))
  {
    TextOrder(SortKey(lib, c, x), SortKey(lib, c, y), SortKey(lib, c, z));
    var a, b, d := Segments(lib, Pieces(x, true)), Segments(lib, Pieces(y, true)), Segments(lib, Pieces(z, true));
    SegmentsOrder(Fold(lib, c.strength <= 2), a, b, d);
  }

  // ---------- numbers in the order ----------

  predicate Digits(s: string) {
    s != "" && forall i :: 0 <= i < |s| ==> Digit(s[i])
  }

  predicate NoDigits(s: string) {
    forall i :: 0 <= i < |s| ==> !Digit(s[i])
  }

  /** What follows a number and is not scanned into it. */
  predicate Ends(s: string) {
    s == "" || !(Digit(s[0]) || s[0] == '.')
  }

  lemma {:induction false} NumberPrefixOf(a: string, rest: string)
    requires (forall i :: 0 <= i < |a| ==> Digit(a[i])) && Ends(rest)
    ensures NumberPrefix(a + rest) == |a|
  {
    if a == "" {
      assert a + rest == rest;
    } else {
      assert (a + rest)[1..] == a[1..] + rest;
      NumberPrefixOf(a[1..], rest);
    }
  }

  lemma {:induction false} TextPrefixOf(p: string, s: string)
    requires NoDigits(p) && s != "" && Digit(s[0])
    ensures TextPrefix(p + s) == |p|
  {
    if p == "" {
      assert p + s == s;
    } else {
      assert (p + s)[1..] == p[1..] + s;
      TextPrefixOf(p[1..], s);
    }
  }

  lemma NumberFirst(a: string, rest: string, first: bool)
    requires Digits(a) && Ends(rest)
    ensures Pieces(a + rest, first) == [Piece(true, a)] + Pieces(rest, false)
  {
    NumberPrefixOf(a, rest);
    assert (a + rest)[..|a|] == a && (a + rest)[|a|..] == rest;
  }

  /** The pieces of a digit-free prefix before a number. */
  function Lead(p: string): seq<Piece> {
    if p == "" then [] else if p[0] == '-' then [Piece(true, ""), Piece(false, p)] else [Piece(false, p)]
  }

  lemma TextFirst(p: string, s: string)
    requires NoDigits(p) && p != "" && s != "" && Digit(s[0])
    ensures Pieces(p + s, false) == [Piece(false, p)] + Pieces(s, false) && PrefixLength(p + s, false) == |p|
  {
    TextPrefixOf(p, s);
    var w := p + s;
    assert w[..|p|] == p && w[|p|..] == s;
  }

  lemma LeadFirst(p: string, s: string)
    requires NoDigits(p) && p != "" && s != "" && Digit(s[0])
    ensures Pieces(p + s, true) == Lead(p) + Pieces(s, false)
  {
    var w := p + s;
    TextFirst(p, s);
    if p[0] == '-' {
      assert NumberPrefix(w) == 0 && w[..0] == "" && w[0..] == w;
      assert Pieces(w, true) == [Piece(true, "")] + Pieces(w, false);
    } else {
      assert PrefixLength(w, true) == PrefixLength(w, false);
    }
  }

  lemma PiecesOfNumbered(p: string, a: string, rest: string)
    requires NoDigits(p) && Digits(a) && Ends(rest)
    ensures Pieces(p + a + rest, true) == Lead(p) + ([Piece(true, a)] + Pieces(rest, false))
  {
    Regroup(p, a, rest);
    if p == "" {
      assert p + (a + rest) == a + rest;
      NumberFirst(a, rest, true);
    } else {
      LeadFirst(p, a + rest);
      NumberFirst(a, rest, false);
    }
  }

  lemma {:induction false} CommonSegments(fold: string -> string, h: seq<Segment>, a: seq<Segment>, b: seq<Segment>)
    ensures CompareSegments(fold, h + a, h + b) == CompareSegments(fold, a, b)
  {
    if h == [] {
      assert h + a == a && h + b == b;
    } else {
      assert (h + a)[1..] == h[1..] + a && (h + b)[1..] == h[1..] + b;
      SegmentOrder(fold, h[0], h[0], h[0]);
      CommonSegments(fold, h[1..], a, b);
    }
  }

  lemma SegmentsOfNumbered(lib: Library, p: string, a: string, rest: string)
    requires NoDigits(p) && Digits(a) && Ends(rest)
    ensures Segments(lib, Pieces(p + a + rest, true)) ==
            Segments(lib, Lead(p)) + ([SegmentOf(lib, Piece(true, a))] + Segments(lib, Pieces(rest, false)))
  {
    PiecesOfNumbered(p, a, rest);
  }

  /** After a common prefix without digits, numbers decide by rank; equal ranks leave it to what follows. */
  lemma NumbersCompareByRank(lib: Library, c: Collation, p: string, a: string, x: string, b: string, y: string)
    requires c.numericOrdering && NoDigits(p) && Digits(a) && Digits(b) && Ends(x) && Ends(y)
    requires lib.parse(a).Some? && lib.parse(b).Some?
    ensures var m, n := lib.parse(a).value, lib.parse(b).value;
            CompareStr(lib, c, p + a + x, p + b + y) ==
            if m < n then Less else if m > n then Greater
            else CompareSegments(Fold(lib, c.strength <= 2), Segments(lib, Pieces(x, false)), Segments(lib, Pieces(y, false)))
  {
    SegmentsOfNumbered(lib, p, a, x);
    SegmentsOfNumbered(lib, p, b, y);
    var xs, ys := Segments(lib, Pieces(x, false)), Segments(lib, Pieces(y, false));
    var m, n := Number(lib.parse(a).value), Number(lib.parse(b).value);
    CommonSegments(Fold(lib, c.strength <= 2), Segments(lib, Lead(p)), [m] + xs, [n] + ys);
    assert ([m] + xs)[1..] == xs && ([n] + ys)[1..] == ys;
  }

  /** A minus sign makes no number: a string that starts with one sorts after every string that starts with a number. */
  lemma MinusSortsAfterNumbers(lib: Library, c: Collation, a: string, b: string)
    requires c.numericOrdering && a != "" && a[0] == '-' && lib.parse("").None?
    requires b != "" && Digit(b[0]) && lib.parse(b[..NumberPrefix(b)]).Some?
    ensures CompareStr(lib, c, a, b) == Greater
  {
    assert a[..0] == "";
    assert Pieces(a, true)[0] == Piece(true, "");
    assert Pieces(b, true)[0] == Piece(true, b[..NumberPrefix(b)]);
    assert Segments(lib, Pieces(a, true))[0] == Text("");
  }

  // ---------- what the order is ----------

  /** Texts compare by their first difference, and a text comes before one that continues it. */
  lemma TextByDifference(p: string, a: char, x: string, b: char, y: string)
    ensures a < b ==> CompareText(p + ([a] + x), p + ([b] + y)) == Less
    ensures CompareText(p, p + ([b] + y)) == Less
  {
    LtCommonPrefix(p, [a] + x, [b] + y);
    LtCommonPrefix(p, "", [b] + y);
    assert p + "" == p;
  }

  /** Without numeric ordering: strength 3 and up compares as written, 2 ignores case, 1 case and accents. */
  lemma StrengthDecides(lib: Library, c: Collation, a: string, b: string)
    requires !c.numericOrdering
    ensures c.strength >= 3 ==> CompareStr(lib, c, a, b) == CompareText(a, b)
    ensures c.strength == 2 ==> CompareStr(lib, c, a, b) == CompareText(lib.lower(a), lib.lower(b))
    ensures c.strength == 1 ==>
              CompareStr(lib, c, a, b) == CompareText(lib.strip(lib.lower(a)), lib.strip(lib.lower(b)))
    ensures CompareText(a, b) == Equal <==> a == b
  {
    LtTotal(a, b);
  }

  lemma {:induction false} AllText(s: string)
    requires NoDigits(s)
    ensures TextPrefix(s) == |s|
  {
    if s != "" { AllText(s[1..]); }
  }

  lemma OnePiece(s: string)
    requires NoDigits(s) && s != "" && s[0] != '-'
    ensures Pieces(s, true) == [Piece(false, s)]
  {
    AllText(s);
    assert s[..|s|] == s && s[|s|..] == "";
  }

  lemma OneSegment(fold: string -> string, a: string, b: string)
    ensures CompareSegments(fold, [Text(a)], [Text(b)]) == CompareText(fold(a), fold(b))
  {
    var x, y := [Text(a)], [Text(b)];
    assert x[1..] == [] && y[1..] == [];
    assert CompareSegments(fold, x[1..], y[1..]) == Equal;
  }

  /** With numeric ordering, texts without digits compare as texts, case ignored at strength 2 and below. */
  lemma TextsFoldCase(lib: Library, c: Collation, a: string, b: string)
    requires c.numericOrdering && NoDigits(a) && NoDigits(b) && a != "" && b != "" && a[0] != '-' && b[0] != '-'
    ensures CompareStr(lib, c, a, b) == if c.strength <= 2 then CompareText(lib.lower(a), lib.lower(b)) else CompareText(a, b)
  {
    OnePiece(a);
    OnePiece(b);
    assert Segments(lib, Pieces(a, true)) == [Text(a)] && Segments(lib, Pieces(b, true)) == [Text(b)];
    OneSegment(Fold(lib, c.strength <= 2), a, b);
  }
}
