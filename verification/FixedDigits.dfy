// Numbers printed in a fixed number of digits, with leading zeros, and how such texts sort.

module FixedDigits {
  import opened Division
  import opened Results
  import opened TextFormat
  import opened TextOrder

  function Pow(base: nat, w: nat): nat { if w == 0 then 1 else base * Pow(base, w - 1) }

  function Zeros(k: nat): string { seq(k, _ => '0') }

  /** format!("{:0w}", n) in the given base: longer numbers are not cut. */
  function Padded(n: nat, base: nat, w: nat): string
    requires 2 <= base <= 16
  {
    var digits := Show(n, base);
    if |digits| < w then Zeros(w - |digits|) + digits else digits
  }

  /** The last w digits of n. */
  function Fixed(n: nat, base: nat, w: nat): (s: string)
    requires 2 <= base <= 16
    ensures |s| == w
  {
    if w == 0 then "" else Fixed(n / base, base, w - 1) + [DIGITS[n % base]]
  }

  lemma MultiplyUp(p: nat, q: nat, base: nat)
    requires p <= q
    ensures p * base <= q * base
  {
    assert (q - p) * base >= 0;
    assert (q - p) * base == q * base - p * base;
  }

  lemma DivideBelow(n: nat, base: nat, p: nat)
    requires base > 0 && n < base * p
    ensures n / base < p
  {
    if p <= n / base {
      MultiplyUp(p, n / base, base);
    }
  }

  lemma PartsRise(q: nat, r: nat, t: nat, u: nat, base: nat)
    requires r < base && u < base && q * base + r < t * base + u
    ensures q < t || (q == t && r < u)
  {
    if t < q {
      MultiplyUp(t + 1, q, base);
    }
  }

  lemma QuotientRises(n: nat, m: nat, base: nat)
    requires base >= 2 && n < m
    ensures n / base < m / base || (n / base == m / base && n % base < m % base)
    ensures n % base < base && m % base < base
  {
    QuotientRemainder(n, base);
    QuotientRemainder(m, base);
    PartsRise(n / base, n % base, m / base, m % base, base);
  }

  lemma WiderThanOne(n: nat, base: nat, w: nat)
    requires 2 <= base <= n < Pow(base, w)
    ensures w > 1
  {
    assert Pow(base, 1) == base * Pow(base, 0);
  }

  lemma {:induction false} FixedSmall(n: nat, base: nat, w: nat)
    requires 2 <= base <= 16 && n < base && w > 0
    ensures Fixed(n, base, w) == Zeros(w - 1) + [DIGITS[n]]
  {
    SmallDivision(n, base);
    if w == 1 {
      assert Fixed(n / base, base, 0) == Zeros(0);
    } else {
      SmallDivision(0, base);
      FixedSmall(0, base, w - 1);
      assert Fixed(n / base, base, w - 1) == Zeros(w - 2) + ['0'] == Zeros(w - 1);
    }
  }

  lemma SmallDivision(n: nat, base: nat)
    requires n < base
    ensures n / base == 0 && n % base == n
  {
    DivMod(n, base, 0, n);
  }

  /** Padding a number that fits gives its last w digits. */
  lemma {:induction false} PaddedIsFixed(n: nat, base: nat, w: nat)
    requires 2 <= base <= 16 && w > 0 && n < Pow(base, w)
    ensures |Show(n, base)| <= w && Zeros(w - |Show(n, base)|) + Show(n, base) == Fixed(n, base, w)
    ensures Padded(n, base, w) == Fixed(n, base, w)
  {
    hide DIGITS;
    if n < base {
      FixedSmall(n, base, w);
    } else {
      DivideBelow(n, base, Pow(base, w - 1));
      QuotientRemainder(n, base);
      WiderThanOne(n, base, w);
      PaddedIsFixed(n / base, base, w - 1);
      FrontOfPadded(n, base, w);
    }
    assert Zeros(0) + Show(n, base) == Show(n, base);
  }

  lemma FrontOfPadded(n: nat, base: nat, w: nat)
    requires 2 <= base <= 16 && n >= base && |Show(n / base, base)| <= w - 1
    requires Zeros(w - 1 - |Show(n / base, base)|) + Show(n / base, base) == Fixed(n / base, base, w - 1)
    ensures |Show(n, base)| <= w && Zeros(w - |Show(n, base)|) + Show(n, base) == Fixed(n, base, w)
  {
    ShowEnds(n, base);
    hide Show, DIGITS;
    assert Zeros(w - |Show(n, base)|) + Show(n, base)
        == (Zeros(w - 1 - |Show(n / base, base)|) + Show(n / base, base)) + [DIGITS[n % base]];
  }

  lemma {:induction false} CmpTextAppend(a: string, b: string, x: char, y: char)
    requires |a| == |b|
    ensures CmpText(a + [x], b + [y]) ==
      if CmpText(a, b) != Equal then CmpText(a, b) else if x < y then Less else if y < x then Greater else Equal
  {
    if a == [] {
      assert a + [x] == [x] && b + [y] == [y];
    } else {
      assert (a + [x])[1..] == a[1..] + [x] && (b + [y])[1..] == b[1..] + [y];
      CmpTextAppend(a[1..], b[1..], x, y);
    }
  }

  lemma DigitsRise(d: nat, e: nat)
    requires d < e < 16
    ensures DIGITS[d] < DIGITS[e]
  {
  }

  lemma AppendDigits(a: string, b: string, d: nat, e: nat)
    requires |a| == |b| && d < 16 && e < 16
    requires CmpText(a, b) == Less || (a == b && d < e)
    ensures CmpText(a + [DIGITS[d]], b + [DIGITS[e]]) == Less
  {
    hide CmpText;
    CmpTextAppend(a, b, DIGITS[d], DIGITS[e]);
    if CmpText(a, b) != Less {
      CmpTextEqual(a, b);
      DigitsRise(d, e);
    }
  }

  /** A number without its last digit, and that digit. */
  function Front(n: nat, base: nat): nat
    requires 2 <= base <= 16
  {
    n / base
  }

  function Last(n: nat, base: nat): (d: nat)
    requires 2 <= base <= 16
    ensures d < base
  {
    n % base
  }

  /** What the last digit leaves of two numbers of width w. */
  lemma OneDigitLess(n: nat, m: nat, base: nat, w: nat)
    requires 2 <= base <= 16 && n < m < Pow(base, w)
    ensures w > 0 && Front(m, base) < Pow(base, w - 1)
    ensures Front(n, base) < Front(m, base) || (Front(n, base) == Front(m, base) && Last(n, base) < Last(m, base))
  {
    DivideBelow(m, base, Pow(base, w - 1));
    QuotientRises(n, m, base);
  }

  lemma FixedEnds(n: nat, base: nat, w: nat)
    requires 2 <= base <= 16 && w > 0
    ensures Fixed(n, base, w) == Fixed(Front(n, base), base, w - 1) + [DIGITS[Last(n, base)]]
  {
  }

  /** Numbers of the same width sort as text. */
  lemma {:induction false} FixedOrder(n: nat, m: nat, base: nat, w: nat)
    requires 2 <= base <= 16 && n < m < Pow(base, w)
    ensures CmpText(Fixed(n, base, w), Fixed(m, base, w)) == Less
    decreases w
  {
    hide CmpText, DIGITS, Pow, Fixed, Front, Last;
    OneDigitLess(n, m, base, w);
    FixedEnds(n, base, w);
    FixedEnds(m, base, w);
    if Front(n, base) != Front(m, base) {
      FixedOrder(Front(n, base), Front(m, base), base, w - 1);
    }
    AppendDigits(Fixed(Front(n, base), base, w - 1), Fixed(Front(m, base), base, w - 1), Last(n, base), Last(m, base));
  }

  lemma PaddedOrder(n: nat, m: nat, base: nat, w: nat)
    requires 2 <= base <= 16 && w > 0 && n < m < Pow(base, w)
    ensures CmpText(Padded(n, base, w), Padded(m, base, w)) == Less
  {
    PaddedIsFixed(n, base, w);
    PaddedIsFixed(m, base, w);
    FixedOrder(n, m, base, w);
  }

  // ---------- texts of any two numbers ----------

  lemma {:induction false} PowRises(base: nat, v: nat, w: nat)
    requires base >= 1 && v <= w
    ensures 1 <= Pow(base, v) <= Pow(base, w)
    decreases w
  {
    if v < w {
      PowRises(base, v, w - 1);
      assert Pow(base, w - 1) * (base - 1) >= 0;
    } else if v > 0 {
      PowRises(base, v - 1, v - 1);
      assert Pow(base, v - 1) * (base - 1) >= 0;
    }
  }

  lemma PowOneMore(base: nat, w: nat)
    ensures Pow(base, w + 1) == base * Pow(base, w)
  {
  }

  lemma OneDigitMoreFits(n: nat, base: nat, v: nat)
    requires base >= 2 && n / base < Pow(base, v)
    ensures n < Pow(base, v + 1)
  {
    hide Pow;
    PowOneMore(base, v);
    QuotientRemainder(n, base);
    MultiplyUp(n / base + 1, Pow(base, v), base);
    assert (n / base + 1) * base == n / base * base + base;
  }

  lemma {:induction false} ShowFits(n: nat, base: nat)
    requires 2 <= base <= 16
    ensures n < Pow(base, |Show(n, base)|)
  {
    hide Show, DIGITS, Pow;
    ShowEnds(n, base);
    QuotientRemainder(n, base);
    if n < base {
      PowRises(base, 0, 0);
      OneDigitMoreFits(n, base, 0);
    } else {
      ShowFits(n / base, base);
      OneDigitMoreFits(n, base, |Show(n / base, base)|);
    }
  }

  /** The text of a number never gets shorter as the number grows. */
  lemma {:induction false} ShowGrows(n: nat, m: nat, base: nat)
    requires 2 <= base <= 16 && n <= m
    ensures 1 <= |Show(n, base)| <= |Show(m, base)|
  {
    hide DIGITS;
    ShowEnds(n, base);
    ShowEnds(m, base);
    if n >= base {
      if n < m {
        QuotientRises(n, m, base);
      }
      QuotientRemainder(n, base);
      ShowGrows(n / base, m / base, base);
    }
  }

  /** A number's text has the digits its width holds, however it was padded. */
  lemma PaddedFits(n: nat, base: nat, w: nat)
    requires 2 <= base <= 16 && w > 0
    ensures var v := |Padded(n, base, w)|;
      v >= w && n < Pow(base, v) && Padded(n, base, v) == Padded(n, base, w)
  {
    hide Pow, Show;
    ShowFits(n, base);
    PowRises(base, |Show(n, base)|, |Padded(n, base, w)|);
  }

  lemma DropOneDigit(m: nat, base: nat, w: nat)
    requires 2 <= base <= 16 && 0 < w < |Padded(m, base, w)|
    ensures m >= base
    ensures Padded(m, base, w) == Padded(m / base, base, w) + [DIGITS[m % base]]
  {
    QuotientRemainder(m, base);
    ShowEnds(m, base);
    hide Show, DIGITS;
  }

  /** m without its last d digits. */
  function Cut(m: nat, base: nat, d: nat): nat
    requires 2 <= base <= 16
  {
    if d == 0 then m else Cut(m / base, base, d - 1)
  }

  /** Cutting digits off a number cuts them off its text. */
  lemma {:induction false} CutText(m: nat, base: nat, w: nat, d: nat)
    requires 2 <= base <= 16 && w > 0 && w + d <= |Padded(m, base, w)|
    ensures Padded(Cut(m, base, d), base, w) == Padded(m, base, w)[..|Padded(m, base, w)| - d]
    decreases d
  {
    hide Show, DIGITS, Padded;
    if d > 0 {
      DropOneDigit(m, base, w);
      QuotientRemainder(m, base);
      CutText(m / base, base, w, d - 1);
    }
  }

  /** It is dividing by a power of the base. */
  lemma {:induction false} CutDivides(m: nat, base: nat, d: nat)
    requires 2 <= base <= 16
    ensures Pow(base, d) > 0 && Cut(m, base, d) == m / Pow(base, d)
    decreases d
  {
    PowRises(base, 0, d);
    if d == 0 {
      WholePower(m, base);
    } else {
      PowRises(base, 0, d - 1);
      CutDivides(m / base, base, d - 1);
      DivideTwice(m, base, Pow(base, d - 1));
      PowOneMore(base, d - 1);
    }
    hide Pow;
  }

  lemma WholePower(m: nat, base: nat)
    ensures Pow(base, 0) == 1 && m / Pow(base, 0) == m
  {
  }

  lemma Regroup(q: nat, r: nat, t: nat, u: nat, a: nat, b: nat)
    requires r < a && u < b && q == t * b + u
    ensures q * a + r == t * (a * b) + (u * a + r) && u * a + r < a * b
  {
    MultiplyUp(u + 1, b, a);
    assert (t * b + u) * a == t * b * a + u * a;
  }

  lemma Parts(m: nat, a: nat)
    requires a > 0
    ensures m / a * a + m % a == m && 0 <= m % a < a
  {
  }

  lemma DivideTwice(m: nat, a: nat, b: nat)
    requires a > 0 && b > 0
    ensures a * b > 0 && m / a / b == m / (a * b)
  {
    Parts(m, a);
    Parts(m / a, b);
    Regroup(m / a, m % a, m / a / b, m / a % b, a, b);
    DivMod(m, a * b, m / a / b, m / a % b * a + m % a);
  }

  lemma {:induction false} CmpTextLonger(a: string, b: string, c: string)
    requires |a| == |b| && c != []
    ensures CmpText(a, b + c) == if a == b then Less else CmpText(a, b)
  {
    if a == [] {
      assert b + c == c;
    } else {
      assert (b + c)[1..] == b[1..] + c && (b + c)[0] == b[0];
      CmpTextLonger(a[1..], b[1..], c);
      assert a == [a[0]] + a[1..] && b == [b[0]] + b[1..];
    }
  }

  /** n is as wide as m, or no more than m without the digits it has more. */
  predicate TextsInOrder(n: nat, m: nat, base: nat, w: nat)
    requires 2 <= base <= 16
  {
    var v, more := |Padded(n, base, w)|, |Padded(m, base, w)|;
    v == more || (v < more && n <= Cut(m, base, more - v))
  }

  lemma PaddedGrows(n: nat, m: nat, base: nat, w: nat)
    requires 2 <= base <= 16 && n <= m
    ensures |Padded(n, base, w)| <= |Padded(m, base, w)|
  {
    ShowGrows(n, m, base);
    hide Show;
  }

  /** Which two numbers sort as text the way they do as numbers, padded or not. */
  lemma TextsSortIff(n: nat, m: nat, base: nat, w: nat)
    requires 2 <= base <= 16 && w > 0 && n < m
    ensures CmpText(Padded(n, base, w), Padded(m, base, w)) == Less <==> TextsInOrder(n, m, base, w)
  {
    hide Padded, CmpText, Pow, Cut;
    PaddedGrows(n, m, base, w);
    PaddedFits(m, base, w);
    PaddedFits(n, base, w);
    var v := |Padded(n, base, w)|;
    var d := |Padded(m, base, w)| - v;
    if d == 0 {
      PaddedOrder(n, m, base, v);
    } else {
      CutText(m, base, w, d);
      ShorterTextSorts(n, Cut(m, base, d), Padded(m, base, w), base, w);
    }
  }

  lemma ShorterTextSorts(n: nat, q: nat, long: string, base: nat, w: nat)
    requires 2 <= base <= 16 && w > 0
    requires |Padded(n, base, w)| < |long| && Padded(q, base, w) == long[..|Padded(n, base, w)|]
    ensures CmpText(Padded(n, base, w), long) == Less <==> n <= q
  {
    PaddedFits(n, base, w);
    PaddedFits(q, base, w);
    hide Padded, CmpText, Pow;
    var v := |Padded(n, base, w)|;
    assert long == long[..v] + long[v..];
    CmpTextLonger(Padded(n, base, w), long[..v], long[v..]);
    if n < q {
      PaddedOrder(n, q, base, v);
    } else if q < n {
      PaddedOrder(q, n, base, v);
      CmpTextFlips(Padded(q, base, v), Padded(n, base, v));
      CmpTextEqual(Padded(q, base, v), Padded(n, base, v));
    }
  }

  // ---------- reading back ----------

  lemma {:induction false} ZerosRead(k: nat, base: nat)
    requires 2 <= base <= 16
    ensures ReadDigits(Zeros(k), base) == Some(0)
  {
    if k > 0 {
      ZerosRead(k - 1, base);
      assert Zeros(k)[..k - 1] == Zeros(k - 1);
    }
  }

  lemma NothingReads(base: nat)
    requires 2 <= base <= 16
    ensures ReadDigits([], base) == Some(0)
  {
  }

  lemma {:induction false} LeadingZerosRead(k: nat, s: string, base: nat)
    requires 2 <= base <= 16
    ensures ReadDigits(Zeros(k) + s, base) == ReadDigits(s, base)
    decreases |s|
  {
    hide DigitValue, Zeros, ReadDigits;
    ZerosRead(k, base);
    if s == [] {
      assert Zeros(k) + s == Zeros(k);
      NothingReads(base);
    } else {
      var front, last := s[..|s| - 1], s[|s| - 1];
      LeadingZerosRead(k, front, base);
      ReadOneMore(front, last, base);
      ReadOneMore(Zeros(k) + front, last, base);
      assert s == front + [last] && Zeros(k) + s == (Zeros(k) + front) + [last];
    }
  }

  /** A padded number reads back, and has no sign in front. */
  lemma PaddedReads(n: nat, base: nat, w: nat)
    requires 2 <= base <= 16
    ensures var s := Padded(n, base, w);
      && s != [] && |s| >= w && ReadDigits(s, base) == Some(n) && s[0] != '+'
  {
    var digits := Show(n, base);
    var zeros: nat := if |digits| < w then w - |digits| else 0;
    ReadDigitsShow(n, base);
    ShowIsDigits(n, base);
    LeadingZerosRead(zeros, digits, base);
    hide Show, ReadDigits;
    var s := Padded(n, base, w);
    assert s == Zeros(zeros) + digits;
    assert s[0] == '0' || s[0] in digits;
  }
}
