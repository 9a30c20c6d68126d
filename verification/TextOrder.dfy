// Lexicographic order on text, the order String::cmp uses, and how prefixes sit in it.

module TextOrder {

  datatype Ordering = Less | Equal | Greater

  function Rank(o: Ordering): int {
    match o case Less => 0 case Equal => 1 case Greater => 2
  }

  function Flip(o: Ordering): Ordering {
    match o case Less => Greater case Equal => Equal case Greater => Less
  }

  function CmpText(a: string, b: string): Ordering {
    if a == [] then (if b == [] then Equal else Less)
    else if b == [] then Greater
    else if a[0] < b[0] then Less
    else if b[0] < a[0] then Greater
    else CmpText(a[1..], b[1..])
  }

  predicate AtMost(a: string, b: string) { CmpText(a, b) != Greater }

  lemma {:induction false} CmpTextFlips(a: string, b: string)
    ensures CmpText(b, a) == Flip(CmpText(a, b))
  {
    if a != [] && b != [] {
      CmpTextFlips(a[1..], b[1..]);
    }
  }

  lemma {:induction false} CmpTextEqual(a: string, b: string)
    ensures CmpText(a, b) == Equal <==> a == b
  {
    if a != [] && b != [] {
      CmpTextEqual(a[1..], b[1..]);
      assert a == [a[0]] + a[1..] && b == [b[0]] + b[1..];
    }
  }

  lemma {:induction false} CmpTextTransitive(a: string, b: string, c: string)
    requires AtMost(a, b) && AtMost(b, c)
    ensures AtMost(a, c)
    ensures CmpText(a, c) == Equal ==> CmpText(a, b) == Equal == CmpText(b, c)
  {
    if a != [] && b != [] && c != [] && a[0] == b[0] == c[0] {
      CmpTextTransitive(a[1..], b[1..], c[1..]);
    }
  }

  /** Text is never below its own prefix. */
  lemma {:induction false} PrefixIsAtMost(p: string, a: string)
    requires p <= a
    ensures AtMost(p, a)
  {
    if p != [] {
      assert p[0] == a[0];
      PrefixIsAtMost(p[1..], a[1..]);
    }
  }

  /** Texts sharing a prefix are contiguous: whatever lies between two of them has it as well. */
  lemma {:induction false} PrefixIsContiguous(p: string, a: string, b: string, c: string)
    requires AtMost(a, b) && AtMost(b, c)
    requires p <= a && p <= c
    ensures p <= b
  {
    if p != [] {
      assert p[0] == a[0] == c[0];
      PrefixIsContiguous(p[1..], a[1..], b[1..], c[1..]);
      assert p == [p[0]] + p[1..] && b == [b[0]] + b[1..];
    }
  }
}
