/** The string operations the modelled code takes from its standard libraries. */
module Text {

  // ---------- Trimming ----------

  /** White space and line terminators as `String.prototype.trim` counts them. */
  predicate IsSpace(c: char) {
    c in "\t\n\r \U{0B}\U{0C}\U{A0}\U{1680}\U{2028}\U{2029}\U{202F}\U{205F}\U{3000}\U{FEFF}"
    || '\U{2000}' <= c <= '\U{200A}'
  }

  function TrimLeft(s: string): (r: string)
    ensures r != [] ==> !IsSpace(r[0])
  {
    if s != [] && IsSpace(s[0]) then TrimLeft(s[1..]) else s
  }

  function TrimRight(s: string): (r: string)
    ensures |r| <= |s|
    ensures r != [] ==> !IsSpace(r[|r| - 1]) && r[0] == s[0]
  {
    if s != [] && IsSpace(s[|s| - 1]) then TrimRight(s[..|s| - 1]) else s
  }

  function Trim(s: string): (r: string)
    ensures r != [] ==> !IsSpace(r[0]) && !IsSpace(r[|r| - 1])
  {
    TrimRight(TrimLeft(s))
  }

  predicate AllSpace(s: string) {
    forall i :: 0 <= i < |s| ==> IsSpace(s[i])
  }

  lemma {:induction false} TrimLeftDropsSpace(s: string) returns (left: string)
    ensures s == left + TrimLeft(s) && AllSpace(left)
  {
    hide IsSpace, TrimLeft;
    left := "";
    TrimLeftStep(s);
    if s != [] && IsSpace(s[0]) {
      var rest := TrimLeftDropsSpace(s[1..]);
      left := [s[0]] + rest;
      assert s == [s[0]] + (rest + TrimLeft(s[1..]));
    }
  }

  lemma TrimLeftStep(s: string)
    ensures TrimLeft(s) == if s != [] && IsSpace(s[0]) then TrimLeft(s[1..]) else s
  {
    hide IsSpace;
  }

  lemma {:induction false} TrimRightDropsSpace(s: string) returns (right: string)
    ensures s == TrimRight(s) + right && AllSpace(right)
  {
    hide IsSpace;
    right := "";
    if s != [] && IsSpace(s[|s| - 1]) {
      var rest := TrimRightDropsSpace(s[..|s| - 1]);
      right := rest + [s[|s| - 1]];
    }
  }

  /** `p` is `s` without some white space at its two ends, and has none left there itself. */
  ghost predicate TrimmedTo(s: string, p: string) {
    && (p != [] ==> !IsSpace(p[0]) && !IsSpace(p[|p| - 1]))
    && exists left, right :: s == left + p + right && AllSpace(left) && AllSpace(right)
  }

  /** Trimming takes white space off the two ends and nothing else. */
  lemma TrimDropsSpace(s: string)
    ensures TrimmedTo(s, Trim(s))
  {
    var left := TrimLeftDropsSpace(s);
    var right := TrimRightDropsSpace(TrimLeft(s));
    assert s == left + Trim(s) + right;
  }

  lemma {:induction false} TrimLeftOf(left: string, s: string)
    requires AllSpace(left) && (s != [] ==> !IsSpace(s[0]))
    ensures TrimLeft(left + s) == s
  {
    hide IsSpace;
    if left == [] {
      assert left + s == s;
    } else {
      assert (left + s)[1..] == left[1..] + s;
      TrimLeftOf(left[1..], s);
    }
  }

  lemma {:induction false} TrimRightOf(s: string, right: string)
    requires AllSpace(right) && (s != [] ==> !IsSpace(s[|s| - 1]))
    ensures TrimRight(s + right) == s
  {
    hide IsSpace;
    if right == [] {
      assert s + right == s;
    } else {
      var k := |right| - 1;
      assert (s + right)[..|s + right| - 1] == s + right[..k];
      TrimRightOf(s, right[..k]);
    }
  }

  /** There is only one way to trim. */
  lemma TrimUnique(s: string, p: string)
    requires TrimmedTo(s, p)
    ensures Trim(s) == p
  {
    hide IsSpace, Trim;
    var left, right :| s == left + p + right && AllSpace(left) && AllSpace(right);
    if p == [] {
      assert AllSpace(s) by { assert s == left + right; }
      TrimEmptyIff(s);
    } else {
      assert s == left + (p + right);
      TrimLeftOf(left, p + right);
      TrimRightOf(p, right);
      TrimIs(s);
    }
  }

  lemma TrimIs(s: string)
    ensures Trim(s) == TrimRight(TrimLeft(s))
  {
  }

  /** Two texts that are the same once the white space around them is off. */
  ghost predicate SameCore(a: string, b: string) {
    exists core :: TrimmedTo(a, core) && TrimmedTo(b, core)
  }

  lemma SameCoreIff(a: string, b: string)
    ensures SameCore(a, b) <==> Trim(a) == Trim(b)
  {
    hide Trim, TrimmedTo;
    TrimDropsSpace(a);
    TrimDropsSpace(b);
    if core :| TrimmedTo(a, core) && TrimmedTo(b, core) {
      TrimUnique(a, core);
      TrimUnique(b, core);
    }
  }

  /** Only white space is trimmed to nothing. */
  lemma TrimEmptyIff(s: string)
    ensures Trim(s) == "" <==> AllSpace(s)
  {
    hide IsSpace, Trim;
    TrimDropsSpace(s);
    var left, right :| s == left + Trim(s) + right && AllSpace(left) && AllSpace(right);
    if Trim(s) == "" {
      assert s == left + right;
    } else {
      assert s[|left|] == Trim(s)[0];
    }
  }

  /** White space by code point: WhiteSpace and LineTerminator of ECMA-262. */
  lemma SpaceCodes(c: char)
    ensures IsSpace(c) <==>
              || c as int in {0x9, 0xA, 0xB, 0xC, 0xD, 0x20, 0xA0, 0x1680}
              || c as int in {0x2028, 0x2029, 0x202F, 0x205F, 0x3000, 0xFEFF}
              || 0x2000 <= c as int <= 0x200A
  {
  }

  // ---------- Searching ----------

  lemma SliceOfSlice(s: string, from: nat, to: nat, a: nat, b: nat)
    requires from <= to <= |s| && a <= b <= to - from
    ensures s[from..to][a..b] == s[from + a..from + b]
  {
    var x, y := s[from..to][a..b], s[from + a..from + b];
    forall k | 0 <= k < |x| ensures x[k] == y[k] {
      assert s[from..to][a + k] == s[from + (a + k)];
    }
  }

  /** `s.includes(p)`. */
  predicate Contains(s: string, p: string)
    ensures Contains(s, p) <==> exists k :: 0 <= k <= |s| && p <= s[k..]
  {
    if p <= s then
      assert s[0..] == s;
      true
    else if s == [] then
      assert s[0..] == s;
      false
    else
      assert forall k :: 1 <= k <= |s| ==> s[k..] == s[1..][k - 1..];
      assert s[0..] == s;
      assert forall k :: 0 <= k <= |s[1..]| ==> s[1..][k..] == s[k + 1..];
      Contains(s[1..], p)
  }

  ghost predicate IsAround(s: string, a: string, p: string, b: string) {
    s == a + p + b
  }

  /** What is contained stands between what comes before and what comes after. */
  lemma ContainsIff(s: string, p: string)
    ensures Contains(s, p) <==> exists a, b :: IsAround(s, a, p, b)
  {
    hide Contains;
    if Contains(s, p) {
      var k :| 0 <= k <= |s| && p <= s[k..];
      assert s == s[..k] + p + s[k + |p|..];
      assert IsAround(s, s[..k], p, s[k + |p|..]);
    }
    if a, b :| IsAround(s, a, p, b) {
      assert s[|a|..] == p + b;
    }
  }

  // ---------- Splitting and joining ----------

  /** `s.split(c)`. */
  function SplitOn(s: string, c: char): (r: seq<string>)
    ensures r != []
  {
    if s == [] then [""]
    else
      var rest := SplitOn(s[1..], c);
      if s[0] == c then [""] + rest else [[s[0]] + rest[0]] + rest[1..]
  }

  /** `parts.join(c)`. */
  function JoinWith(parts: seq<string>, c: char): string {
    if parts == [] then "" else if |parts| == 1 then parts[0] else parts[0] + [c] + JoinWith(parts[1..], c)
  }

  lemma {:induction false} SplitPartsLack(s: string, c: char)
    ensures forall p :: p in SplitOn(s, c) ==> c !in p
  {
    if s != [] {
      SplitPartsLack(s[1..], c);
      var rest := SplitOn(s[1..], c);
      assert rest[0] in rest;
    }
  }

  lemma {:induction false} JoinOfSplit(s: string, c: char)
    ensures JoinWith(SplitOn(s, c), c) == s
  {
    if s != [] {
      JoinOfSplit(s[1..], c);
      var rest := SplitOn(s[1..], c);
      var all := SplitOn(s, c);
      if s[0] == c {
        assert all[1..] == rest;
      } else {
        assert all[1..] == rest[1..];
      }
    }
  }

  /** Splitting at a separator in the middle splits both sides. */
  lemma {:induction false} SplitAround(a: string, c: char, b: string)
    ensures SplitOn(a + [c] + b, c) == SplitOn(a, c) + SplitOn(b, c)
  {
    var s := a + [c] + b;
    if a == [] {
      assert s[1..] == b;
    } else {
      assert s[1..] == a[1..] + [c] + b;
      SplitAround(a[1..], c, b);
    }
  }

  lemma {:induction false} SplitOfWhole(s: string, c: char)
    requires c !in s
    ensures SplitOn(s, c) == [s]
  {
    if s != [] {
      assert c !in s[1..];
      SplitOfWhole(s[1..], c);
      assert s == [s[0]] + s[1..];
    }
  }

  lemma {:induction false} SplitOfJoin(parts: seq<string>, c: char)
    requires parts != [] && forall p :: p in parts ==> c !in p
    ensures SplitOn(JoinWith(parts, c), c) == parts
  {
    assert parts[0] in parts;
    SplitOfWhole(parts[0], c);
    if |parts| > 1 {
      SplitOfJoin(parts[1..], c);
      SplitAround(parts[0], c, JoinWith(parts[1..], c));
    }
  }

  // ---------- Decimal numerals ----------

  predicate IsDigit(c: char) {
    '0' <= c <= '9'
  }

  function Digit(n: nat): (c: char)
    requires n < 10
    ensures IsDigit(c)
  {
    '0' + n as char
  }

  function DigitValue(c: char): (n: nat)
    requires IsDigit(c)
    ensures n < 10 && Digit(n) == c
  {
    (c - '0') as nat
  }

  /** The decimal numeral of a natural number, without padding. */
  function Decimal(n: nat): (s: string)
    ensures s != [] && forall c :: c in s ==> IsDigit(c)
  {
    if n < 10 then [Digit(n)] else Decimal(n / 10) + [Digit(n % 10)]
  }

  lemma DecimalInjective(a: nat, b: nat)
    requires Decimal(a) == Decimal(b)
    ensures a == b
  {
    DecimalLength(a);
    DecimalLength(b);
    if a >= 10 && b >= 10 {
      var x, y := Decimal(a / 10), Decimal(b / 10);
      assert x == Decimal(a)[..|x|] && y == Decimal(b)[..|y|];
      DecimalInjective(a / 10, b / 10);
      assert Decimal(a)[|x|] == Digit(a % 10) && Decimal(b)[|y|] == Digit(b % 10);
    }
  }

  /** A numeral read back is the number. */
  lemma {:induction false} DecimalReadsBack(n: nat)
    ensures var s := Decimal(n); (forall i :: 0 <= i < |s| ==> IsDigit(s[i])) && NumberValue(s) == n
  {
    var s := Decimal(n);
    assert forall i :: 0 <= i < |s| ==> s[i] in s;
    if n < 10 {
      assert s[..0] == "";
      DigitReadsBack(n);
    } else {
      DecimalReadsBack(n / 10);
      assert s[..|s| - 1] == Decimal(n / 10);
      DigitReadsBack(n % 10);
    }
  }

  lemma DigitReadsBack(d: nat)
    requires d < 10
    ensures DigitValue(Digit(d)) == d
  {
  }

  lemma DecimalLength(n: nat)
    ensures |Decimal(n)| < 2 <==> n < 10
    ensures |Decimal(n)| < 3 <==> n < 100
    ensures |Decimal(n)| < 4 <==> n < 1000
    ensures |Decimal(n)| < 5 <==> n < 10000
  {
  }

  function Pow10(w: nat): (p: nat)
    ensures p > 0
  {
    if w == 0 then 1 else 10 * Pow10(w - 1)
  }

  /** The decimal numeral padded with zeros to `w` places. */
  function Padded(n: nat, w: nat): (s: string)
    requires n < Pow10(w)
    ensures |s| == w && forall i :: 0 <= i < w ==> IsDigit(s[i])
  {
    if w == 0 then [] else Padded(n / 10, w - 1) + [Digit(n % 10)]
  }

  function NumberValue(s: string): (n: nat)
    requires forall i :: 0 <= i < |s| ==> IsDigit(s[i])
    ensures n < Pow10(|s|) && Padded(n, |s|) == s
  {
    if s == [] then 0
    else
      var k := |s| - 1;
      assert s == s[..k] + [s[k]];
      10 * NumberValue(s[..k]) + DigitValue(s[k])
  }

  // ---------- String order ----------

  /** `<` on strings: the first difference decides, a proper prefix comes first. */
  predicate StrLess(a: string, b: string) {
    b != [] && (a == [] || a[0] < b[0] || (a[0] == b[0] && StrLess(a[1..], b[1..])))
  }

  lemma {:induction false} StrLessTotal(a: string, b: string)
    ensures StrLess(a, b) ==> !StrLess(b, a)
    ensures !StrLess(a, b) && !StrLess(b, a) ==> a == b
    ensures !StrLess(a, a)
  {
    if a != [] && b != [] {
      StrLessTotal(a[1..], b[1..]);
    }
    if a != [] {
      StrLessTotal(a[1..], a[1..]);
    }
  }

  /** Equal-length heads are compared first, then the tails. */
  lemma {:induction false} StrLessConcat(a: string, x: string, b: string, y: string)
    requires |a| == |b|
    ensures StrLess(a + x, b + y) <==> StrLess(a, b) || (a == b && StrLess(x, y))
  {
    if a == [] {
      assert a + x == x && b + y == y;
    } else {
      assert (a + x)[1..] == a[1..] + x && (b + y)[1..] == b[1..] + y;
      StrLessConcat(a[1..], x, b[1..], y);
    }
  }

  /** Padded numerals of one width are ordered as numbers. */
  lemma {:induction false} PaddedLess(a: nat, b: nat, w: nat)
    requires a < Pow10(w) && b < Pow10(w)
    ensures StrLess(Padded(a, w), Padded(b, w)) <==> a < b
    ensures Padded(a, w) == Padded(b, w) <==> a == b
  {
    if w > 0 {
      PaddedLess(a / 10, b / 10, w - 1);
      var x, y := [Digit(a % 10)], [Digit(b % 10)];
      var p, q := Padded(a / 10, w - 1), Padded(b / 10, w - 1);
      StrLessConcat(p, x, q, y);
      assert x[1..] == [] && y[1..] == [];
      assert StrLess(x, y) <==> a % 10 < b % 10;
      assert (p + x)[..w - 1] == p && (q + y)[..w - 1] == q;
      assert (p + x)[w - 1] == Digit(a % 10) && (q + y)[w - 1] == Digit(b % 10);
      assert a == b <==> a / 10 == b / 10 && a % 10 == b % 10;
    }
  }
}
