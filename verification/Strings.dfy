/** The lexicographic order of keys and node ids. */
module Strings {

  predicate Lt(a: string, b: string) {
    b != "" && (a == "" || a[0] < b[0] || (a[0] == b[0] && Lt(a[1..], b[1..])))
  }

  predicate StartsWith(s: string, prefix: string) {
    prefix == "" || (s != "" && s[0] == prefix[0] && StartsWith(s[1..], prefix[1..]))
  }

  lemma {:induction false} LtTotal(a: string, b: string)
    ensures Lt(a, b) || Lt(b, a) || a == b
    ensures !(Lt(a, b) && Lt(b, a)) && !Lt(a, a)
  {
    if a != "" { LtTotal(a[1..], a[1..]); }
    if a != "" && b != "" {
      LtTotal(a[1..], b[1..]);
      assert a == [a[0]] + a[1..] && b == [b[0]] + b[1..];
    }
  }

  lemma {:induction false} LtTransitive(a: string, b: string, c: string)
    requires Lt(a, b) && Lt(b, c)
    ensures Lt(a, c)
  {
    if a != "" && a[0] == b[0] == c[0] { LtTransitive(a[1..], b[1..], c[1..]); }
  }

  lemma {:induction false} LtCommonPrefix(p: string, a: string, b: string)
    ensures Lt(p + a, p + b) <==> Lt(a, b)
  {
    if p == "" {
      assert p + a == a && p + b == b;
    } else {
      LtCommonPrefix(p[1..], a, b);
      assert (p + a)[1..] == p[1..] + a && (p + b)[1..] == p[1..] + b;
    }
  }

  lemma {:induction false} StartsWithConcat(s: string, p: string)
    ensures StartsWith(s, p) <==> |p| <= |s| && s == p + s[|p|..]
  {
    if p != "" && s != "" {
      StartsWithConcat(s[1..], p[1..]);
      assert s == [s[0]] + s[1..] && p == [p[0]] + p[1..];
    }
  }

  /** What starts with a prefix is not below it. */
  lemma {:induction false} PrefixNotAbove(s: string, p: string)
    requires StartsWith(s, p)
    ensures !Lt(s, p)
  {
    if p != "" { PrefixNotAbove(s[1..], p[1..]); }
  }

  /** Past a string above the prefix that does not start with it, none does. */
  lemma {:induction false} PrefixBlock(p: string, s: string, t: string)
    requires Lt(s, t) && !Lt(s, p) && !StartsWith(s, p)
    ensures !StartsWith(t, p)
  {
    if s[0] == t[0] == p[0] { PrefixBlock(p[1..], s[1..], t[1..]); }
  }
}
