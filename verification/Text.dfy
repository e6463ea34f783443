/** Python string operations used by the checker and the release builders: stripping,
    substring search, first-occurrence replacement, and the order `sorted` uses. */
module Text {

  /** The characters `str.strip()` removes. */
  predicate IsSpace(c: char) {
    var n := c as int;
    || 0x09 <= n <= 0x0D || 0x1C <= n <= 0x20 || n == 0x85 || n == 0xA0 || n == 0x1680
    || 0x2000 <= n <= 0x200A || n == 0x2028 || n == 0x2029 || n == 0x202F || n == 0x205F || n == 0x3000
  }

  predicate AllSpace(s: string) {
    forall i | 0 <= i < |s| :: IsSpace(s[i])
  }

  /** Neither end is a blank. */
  predicate Trimmed(s: string) {
    s == "" || (!IsSpace(s[0]) && !IsSpace(s[|s| - 1]))
  }

  function LStrip(s: string): string {
    if s != "" && IsSpace(s[0]) then LStrip(s[1..]) else s
  }

  function RStrip(s: string): string {
    if s != "" && IsSpace(s[|s| - 1]) then RStrip(s[..|s| - 1]) else s
  }

  function Strip(s: string): string {
    RStrip(LStrip(s))
  }

  lemma {:induction false} LStripSplit(s: string) returns (pad: string)
    ensures s == pad + LStrip(s) && AllSpace(pad)
    ensures LStrip(s) == "" || !IsSpace(LStrip(s)[0])
  {
    if s != "" && IsSpace(s[0]) {
      var rest := LStripSplit(s[1..]);
      pad := [s[0]] + rest;
    } else {
      pad := "";
    }
  }

  lemma {:induction false} RStripSplit(s: string) returns (pad: string)
    ensures s == RStrip(s) + pad && AllSpace(pad)
    ensures RStrip(s) == "" || !IsSpace(RStrip(s)[|RStrip(s)| - 1])
  {
    if s != "" && IsSpace(s[|s| - 1]) {
      var rest := RStripSplit(s[..|s| - 1]);
      pad := rest + [s[|s| - 1]];
    } else {
      pad := "";
    }
  }

  /** Stripping splits the string as blanks, a trimmed core, and blanks. */
  lemma StripSplit(s: string) returns (front: string, back: string)
    ensures s == front + Strip(s) + back && AllSpace(front) && AllSpace(back) && Trimmed(Strip(s))
  {
    front := LStripSplit(s);
    var core := LStrip(s);
    back := RStripSplit(core);
    assert RStrip(core) != "" ==> RStrip(core)[0] == core[0];
  }

  lemma {:induction false} LStripPadded(pad: string, s: string)
    requires AllSpace(pad)
    ensures LStrip(pad + s) == LStrip(s)
  {
    if pad == "" {
      assert pad + s == s;
    } else {
      assert (pad + s)[1..] == pad[1..] + s;
      LStripPadded(pad[1..], s);
    }
  }

  lemma {:induction false} RStripPadded(s: string, pad: string)
    requires AllSpace(pad)
    ensures RStrip(s + pad) == RStrip(s)
  {
    if pad == "" {
      assert s + pad == s;
    } else {
      var t := s + pad;
      assert t[..|t| - 1] == s + pad[..|pad| - 1];
      RStripPadded(s, pad[..|pad| - 1]);
    }
  }

  /** The trimmed core of a split is unique, so it is what `strip` returns. */
  lemma StripUnique(front: string, core: string, back: string)
    requires AllSpace(front) && AllSpace(back) && Trimmed(core)
    ensures Strip(front + core + back) == core
  {
    assert front + core + back == front + (core + back);
    LStripPadded(front, core + back);
    if core == "" {
      assert core + back == back + "";
      LStripPadded(back, "");
    } else {
      assert (core + back)[0] == core[0];
      RStripPadded(core, back);
    }
  }

  lemma StripPadded(front: string, s: string, back: string)
    requires AllSpace(front) && AllSpace(back)
    ensures Strip(front + s + back) == Strip(s)
  {
    var f, b := StripSplit(s);
    assert front + s + back == (front + f) + Strip(s) + (b + back);
    StripUnique(front + f, Strip(s), b + back);
  }

  lemma StripTrimmed(s: string)
    requires Trimmed(s)
    ensures Strip(s) == s
  {
  }

  /** `s[p:].startswith(pat)` */
  predicate OccursAt(pat: string, s: string, p: nat) {
    p + |pat| <= |s| && s[p..p + |pat|] == pat
  }

  /** `pat in s` */
  predicate Contains(s: string, pat: string) {
    exists p | 0 <= p <= |s| :: OccursAt(pat, s, p)
  }

  predicate StartsWith(s: string, pat: string) {
    pat <= s
  }

  /** Leftmost occurrence at or after position p. */
  function FindFrom(s: string, pat: string, p: nat): (r: int)
    requires p <= |s|
    ensures r == -1 ==> forall q: nat | p <= q :: !OccursAt(pat, s, q)
    ensures r != -1 ==> p <= r && OccursAt(pat, s, r) && forall q: nat | p <= q < r :: !OccursAt(pat, s, q)
    decreases |s| - p
  {
    if OccursAt(pat, s, p) then p
    else if p == |s| then -1
    else FindFrom(s, pat, p + 1)
  }

  /** `s.replace(pat, by, 1)`: only the leftmost occurrence. */
  function ReplaceFirst(s: string, pat: string, with: string): string {
    var p := FindFrom(s, pat, 0);
    if p == -1 then s else s[..p] + with + s[p + |pat|..]
  }

  /** `str(n)` */
  function Decimal(n: nat): string {
    if n < 10 then [DIGITS[n]] else Decimal(n / 10) + [DIGITS[n % 10]]
  }

  const DIGITS := "0123456789"

  function DigitValue(c: char): nat {
    if '0' <= c <= '9' then (c as int) - ('0' as int) else 0
  }

  /** Reading a decimal numeral back, left to right. */
  function Numeral(s: string): nat {
    if s == "" then 0 else 10 * Numeral(s[..|s| - 1]) + DigitValue(s[|s| - 1])
  }

  lemma {:induction false} NumeralDecimal(n: nat)
    ensures Numeral(Decimal(n)) == n
  {
    var s := Decimal(n);
    if n < 10 {
      assert s[..0] == "";
      assert DigitValue(DIGITS[n]) == n;
    } else {
      NumeralDecimal(n / 10);
      assert s[..|s| - 1] == Decimal(n / 10);
      assert DigitValue(DIGITS[n % 10]) == n % 10;
    }
  }

  lemma DecimalInjective(m: nat, n: nat)
    ensures Decimal(m) == Decimal(n) ==> m == n
  {
    NumeralDecimal(m);
    NumeralDecimal(n);
  }

  /** Code-point order of strings, as `sorted` compares them. */
  predicate AtMost(a: string, b: string) {
    || a == ""
    || (b != "" && (a[0] < b[0] || (a[0] == b[0] && AtMost(a[1..], b[1..]))))
  }

  lemma {:induction false} AtMostTotal(a: string, b: string)
    ensures AtMost(a, b) || AtMost(b, a)
    ensures AtMost(a, b) && AtMost(b, a) ==> a == b
  {
    if a != "" && b != "" && a[0] == b[0] {
      AtMostTotal(a[1..], b[1..]);
      assert a == [a[0]] + a[1..] && b == [b[0]] + b[1..];
    }
  }

  lemma {:induction false} AtMostTransitive(a: string, b: string, c: string)
    requires AtMost(a, b) && AtMost(b, c)
    ensures AtMost(a, c)
  {
    if a != "" && b != "" && c != "" && a[0] == b[0] == c[0] {
      AtMostTransitive(a[1..], b[1..], c[1..]);
    }
  }

  predicate IsLeast(m: string, s: set<string>) {
    m in s && forall x | x in s :: AtMost(m, x)
  }

  lemma {:induction false} LeastExists(s: set<string>)
    requires s != {}
    ensures exists m :: IsLeast(m, s)
  {
    var x :| x in s;
    AtMostTotal(x, x);
    if s == {x} {
      assert IsLeast(x, s);
    } else {
      LeastExists(s - {x});
      var m :| IsLeast(m, s - {x});
      AtMostTotal(x, m);
      if AtMost(x, m) {
        forall y | y in s ensures AtMost(x, y) {
          if y != x { AtMostTransitive(x, m, y); }
        }
        assert IsLeast(x, s);
      } else {
        assert IsLeast(m, s);
      }
    }
  }

  /** `sorted(keys)` for a duplicate-free collection of keys. */
  function Sorted(s: set<string>): seq<string> {
    if s == {} then []
    else
      LeastExists(s);
      assert forall x, y | IsLeast(x, s) && IsLeast(y, s) :: x == y by {
        forall x, y | IsLeast(x, s) && IsLeast(y, s) ensures x == y { AtMostTotal(x, y); }
      }
      var m :| IsLeast(m, s);
      [m] + Sorted(s - {m})
  }

  /** The list holds each key once, in order. */
  lemma {:induction false} SortedIsListing(s: set<string>)
    ensures forall x :: x in Sorted(s) <==> x in s
    ensures |Sorted(s)| == |s|
    ensures forall i, j | 0 <= i < j < |Sorted(s)| :: AtMost(Sorted(s)[i], Sorted(s)[j])
  {
    if s != {} {
      var r := Sorted(s);
      SortedIsListing(s - {r[0]});
      assert r[1..] == Sorted(s - {r[0]});
      assert forall x :: x in r <==> x == r[0] || x in r[1..];
      forall i, j | 0 <= i < j < |r| ensures AtMost(r[i], r[j]) {
        assert r[j] == r[1..][j - 1];
        if i > 0 { assert r[i] == r[1..][i - 1]; }
      }
    }
  }

  /** Comparing sorted key lists is comparing key sets. */
  lemma SortedEqualIffSameKeys(a: set<string>, b: set<string>)
    ensures Sorted(a) == Sorted(b) <==> a == b
  {
    if Sorted(a) == Sorted(b) {
      SortedIsListing(a);
      SortedIsListing(b);
    }
  }
}
