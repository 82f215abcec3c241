/** The order SQLite's ORDER BY puts TEXT columns in (the default BINARY
    collation: code point by code point, a proper prefix first), and its
    extension to a tuple of columns, `ORDER BY c1, c2, ...`. */
module TextOrder {

  /** a sorts no later than b under the BINARY collation. */
  predicate StrLe(a: string, b: string)
    decreases |a|
  {
    a == [] || (b != [] && (a[0] < b[0] || (a[0] == b[0] && StrLe(a[1..], b[1..]))))
  }

  lemma {:induction false} StrLeRefl(a: string)
    ensures StrLe(a, a)
    decreases |a|
  {
    if a != [] {
      StrLeRefl(a[1..]);
    }
  }

  lemma {:induction false} StrLeTotal(a: string, b: string)
    ensures StrLe(a, b) || StrLe(b, a)
    decreases |a|
  {
    if a != [] && b != [] && a[0] == b[0] {
      StrLeTotal(a[1..], b[1..]);
    }
  }

  lemma {:induction false} StrLeAntisym(a: string, b: string)
    requires StrLe(a, b) && StrLe(b, a)
    ensures a == b
    decreases |a|
  {
    if a != [] {
      StrLeAntisym(a[1..], b[1..]);
      assert a == [a[0]] + a[1..] && b == [b[0]] + b[1..];
    }
  }

  lemma {:induction false} StrLeTrans(a: string, b: string, c: string)
    requires StrLe(a, b) && StrLe(b, c)
    ensures StrLe(a, c)
    decreases |a|
  {
    if a != [] && b != [] && c != [] && a[0] == b[0] == c[0] {
      StrLeTrans(a[1..], b[1..], c[1..]);
    }
  }

  /** Tuple order of `ORDER BY c1, c2, ...`: the first column decides unless
      the values are equal, in which case the rest decides. */
  predicate KeyLe(a: seq<string>, b: seq<string>)
    decreases |a|
  {
    a == [] || (b != [] && StrLe(a[0], b[0]) && (a[0] != b[0] || KeyLe(a[1..], b[1..])))
  }

  lemma {:induction false} KeyLeRefl(a: seq<string>)
    ensures KeyLe(a, a)
    decreases |a|
  {
    if a != [] {
      StrLeRefl(a[0]);
      KeyLeRefl(a[1..]);
    }
  }

  lemma {:induction false} KeyLeTotal(a: seq<string>, b: seq<string>)
    ensures KeyLe(a, b) || KeyLe(b, a)
    decreases |a|
  {
    if a != [] && b != [] {
      StrLeTotal(a[0], b[0]);
      if a[0] == b[0] {
        KeyLeTotal(a[1..], b[1..]);
      }
    }
  }

  lemma {:induction false} KeyLeTrans(a: seq<string>, b: seq<string>, c: seq<string>)
    requires KeyLe(a, b) && KeyLe(b, c)
    ensures KeyLe(a, c)
    decreases |a|
  {
    if a != [] {
      StrLeTrans(a[0], b[0], c[0]);
      if a[0] == c[0] && a[0] != b[0] {
        StrLeAntisym(a[0], b[0]);
      }
      if a[0] == b[0] && b[0] == c[0] {
        KeyLeTrans(a[1..], b[1..], c[1..]);
      }
    }
  }

  /** On one-column keys the tuple order is the column order. */
  lemma KeyLeSingle(a: string, b: string)
    ensures KeyLe([a], [b]) <==> StrLe(a, b)
  {
    assert [a][1..] == [] && [b][1..] == [];
  }

  /** On two-column keys: the first column decides, the second breaks ties. */
  lemma KeyLePair(a1: string, a2: string, b1: string, b2: string)
    ensures KeyLe([a1, a2], [b1, b2]) <==> StrLe(a1, b1) && (a1 == b1 ==> StrLe(a2, b2))
  {
    assert [a1, a2][1..] == [a2] && [b1, b2][1..] == [b2];
    KeyLeSingle(a2, b2);
  }
}
