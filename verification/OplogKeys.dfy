/**
  Oplog keys: nanoseconds zero-padded to twenty digits, a dash, a UUID.  Below
  10^20 ns the strings sort by time, then by UUID.
 */
module OplogKeys {
  import opened Strings

  const WIDTH := 20

  function Pow10(w: nat): nat {
    if w == 0 then 1 else 10 * Pow10(w - 1)
  }

  function Padded(n: nat, w: nat): (s: string)
    ensures |s| == w
  {
    if w == 0 then "" else Padded(n / 10, w - 1) + [('0' as int + n % 10) as char]
  }

  function KeyOf(timeNs: nat, uuid: string): string
    requires timeNs < Pow10(WIDTH)
  {
    Padded(timeNs, WIDTH) + "-" + uuid
  }

  lemma {:induction false} PaddedOrder(n: nat, m: nat, w: nat, x: string, y: string)
    requires n < m < Pow10(w)
    ensures Lt(Padded(n, w) + x, Padded(m, w) + y)
  {
    var d, e := ('0' as int + n % 10) as char, ('0' as int + m % 10) as char;
    var p, q := Padded(n / 10, w - 1), Padded(m / 10, w - 1);
    assert Padded(n, w) + x == p + ([d] + x) && Padded(m, w) + y == q + ([e] + y);
    if n / 10 < m / 10 {
      PaddedOrder(n / 10, m / 10, w - 1, [d] + x, [e] + y);
    } else {
      assert n / 10 == m / 10 && n % 10 < m % 10;
      LtCommonPrefix(p, [d] + x, [e] + y);
    }
  }

  /** Key strings compare as (time, uuid) pairs. */
  lemma KeysSortByTime(t1: nat, u1: string, t2: nat, u2: string)
    requires t1 < Pow10(WIDTH) && t2 < Pow10(WIDTH)
    ensures Lt(KeyOf(t1, u1), KeyOf(t2, u2)) <==> t1 < t2 || (t1 == t2 && Lt(u1, u2))
  {
    var p1, p2 := Padded(t1, WIDTH), Padded(t2, WIDTH);
    assert KeyOf(t1, u1) == p1 + ("-" + u1) && KeyOf(t2, u2) == p2 + ("-" + u2);
    if t1 < t2 {
      PaddedOrder(t1, t2, WIDTH, "-" + u1, "-" + u2);
    } else if t2 < t1 {
      PaddedOrder(t2, t1, WIDTH, "-" + u2, "-" + u1);
      LtTotal(KeyOf(t1, u1), KeyOf(t2, u2));
    } else {
      LtCommonPrefix(p1, "-" + u1, "-" + u2);
      LtCommonPrefix("-", u1, u2);
    }
  }
}
