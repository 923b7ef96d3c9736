/** The parts of java.lang behaviour that the monitor's helpers rely on:
    32-bit `int` arithmetic, `Integer.parseInt`/`Integer.toString`,
    `Integer.toHexString`, `String.trim`, lower-casing and `String.contains`. */
module JavaLang {
  import opened Wrappers

  const MinInt: int := -0x8000_0000
  const MaxInt: int := 0x7fff_ffff

  /** The values of a Java `int`. */
  type Int32 = x: int | -0x8000_0000 <= x <= 0x7fff_ffff

  /** Two's-complement wrap-around of a mathematical integer into an `int`,
      as Java's `int` multiplication does on overflow. */
  function Wrap32(x: int): (r: Int32)
    ensures (r - x) % 0x1_0000_0000 == 0
    ensures MinInt <= x <= MaxInt ==> r == x
  {
    var m := x % 0x1_0000_0000;
    if m > MaxInt then m - 0x1_0000_0000 else m
  }

  /** Java's `/` on `int` by a positive divisor: the quotient truncated toward zero. */
  function JavaDiv(a: int, b: int): (q: int)
    requires b > 0
    ensures a >= 0 ==> 0 <= q && q * b <= a < q * b + b
    ensures a < 0 ==> q <= 0 && a <= q * b < a + b
  {
    if a >= 0 then a / b else -((-a) / b)
  }

  // ---- decimal integers ----

  predicate IsDigit(c: char) {
    '0' <= c <= '9'
  }

  predicate AllDigits(s: string) {
    forall i :: 0 <= i < |s| ==> IsDigit(s[i])
  }

  /** The value of a string of decimal digits, most significant first. */
  function DigitsValue(ds: string): nat
    requires AllDigits(ds)
  {
    if ds == [] then 0
    else DigitsValue(ds[..|ds| - 1]) * 10 + (ds[|ds| - 1] as int - '0' as int)
  }

  /** `Integer.parseInt(s)`: an optional sign, one or more decimal digits and
      nothing else, whose value fits in an `int`; `None` where Java throws
      `NumberFormatException`. */
  function ParseInt(s: string): (r: Option<int>)
    ensures r.Some? ==> MinInt <= r.value <= MaxInt
    ensures r.Some? ==> |s| > 0
  {
    var signed := |s| > 0 && (s[0] == '-' || s[0] == '+');
    var digits := if signed then s[1..] else s;
    if |digits| == 0 || !AllDigits(digits) then None
    else
      var v: int := if |s| > 0 && s[0] == '-' then -(DigitsValue(digits) as int) else DigitsValue(digits);
      if MinInt <= v <= MaxInt then Some(v) else None
  }

  /** The shortest decimal spelling of a natural number. */
  function NatToString(n: nat): (s: string)
    ensures |s| > 0 && AllDigits(s)
  {
    var d := [('0' as int + n % 10) as char];
    if n < 10 then d else NatToString(n / 10) + d
  }

  /** `Integer.toString(n)`. */
  function IntToString(n: int): (r: string)
    ensures n >= 0 ==> AllDigits(r) && |r| > 0
    ensures n < 0 ==> |r| > 1 && r[0] == '-' && AllDigits(r[1..])
  {
    if n < 0 then "-" + NatToString(-(n as int)) else NatToString(n)
  }

  lemma {:induction false} NatToStringValue(n: nat)
    ensures DigitsValue(NatToString(n)) == n
  {
    var s := NatToString(n);
    assert s[..|s| - 1] == if n < 10 then [] else NatToString(n / 10);
    if n >= 10 {
      NatToStringValue(n / 10);
    }
  }

  /** `Integer.parseInt` reads back what `Integer.toString` writes, for every `int`. */
  lemma ParseIntToString(n: Int32)
    ensures ParseInt(IntToString(n)) == Some(n)
  {
    var m: nat := if n < 0 then -(n as int) else n;
    NatToStringValue(m);
    var s := IntToString(n);
    if n < 0 {
      assert s[1..] == NatToString(m);
    } else {
      assert IsDigit(s[0]);
    }
  }

  // ---- hexadecimal ----

  /** The lower-case hexadecimal digit for `d`. */
  function HexDigit(d: nat): (c: char)
    requires d < 16
  {
    if d < 10 then ('0' as int + d) as char else ('a' as int + d - 10) as char
  }

  predicate IsLowerHexDigit(c: char) {
    '0' <= c <= '9' || 'a' <= c <= 'f'
  }

  /** The value of a lower-case hexadecimal digit. */
  function HexValue(c: char): (d: nat)
    requires IsLowerHexDigit(c)
    ensures d < 16 && HexDigit(d) == c
  {
    if c <= '9' then c as int - '0' as int else c as int - 'a' as int + 10
  }

  /** `Integer.toHexString(n)` for a non-negative `n`: lower-case, no leading zeros. */
  function ToHexString(n: nat): (s: string)
    ensures 1 <= |s|
    ensures |s| == 1 <==> n < 16
    ensures n < 256 ==> |s| <= 2
    ensures forall i :: 0 <= i < |s| ==> IsLowerHexDigit(s[i])
  {
    if n < 16 then [HexDigit(n)] else ToHexString(n / 16) + [HexDigit(n % 16)]
  }

  // ---- strings ----

  /** `String.trim()` at the front: drops leading characters up to U+0020. */
  function TrimStart(s: string): (r: string)
    ensures |r| <= |s| && r == s[|s| - |r|..]
    ensures |r| > 0 ==> r[0] > ' '
    ensures forall i :: 0 <= i < |s| - |r| ==> s[i] <= ' '
  {
    if |s| > 0 && s[0] <= ' ' then TrimStart(s[1..]) else s
  }

  /** `String.trim()` at the back: drops trailing characters up to U+0020. */
  function TrimEnd(s: string): (r: string)
    ensures |r| <= |s| && r == s[..|r|]
    ensures |r| > 0 ==> r[|r| - 1] > ' '
    ensures forall i :: |r| <= i < |s| ==> s[i] <= ' '
  {
    if |s| > 0 && s[|s| - 1] <= ' ' then TrimEnd(s[..|s| - 1]) else s
  }

  /** `String.trim()`. */
  function Trim(s: string): (r: string)
    ensures |r| <= |s|
    ensures |r| > 0 ==> r[0] > ' ' && r[|r| - 1] > ' '
  {
    TrimEnd(TrimStart(s))
  }

  /** A trimmed string is empty exactly when every character is at most U+0020. */
  lemma TrimEmptyIffBlank(s: string)
    ensures Trim(s) == [] <==> forall i :: 0 <= i < |s| ==> s[i] <= ' '
  {
    var t := TrimStart(s);
    if t != [] {
      assert t[0] > ' ';
      assert TrimEnd(t) != [];
      assert s[|s| - |t|] == t[0];
    }
  }

  /** Lower-casing of the ASCII letters; every other character is kept. */
  function LowerChar(c: char): char {
    if 'A' <= c <= 'Z' then (c as int + 32) as char else c
  }

  function Lower(s: string): (r: string)
    ensures |r| == |s|
  {
    seq(|s|, i requires 0 <= i < |s| => LowerChar(s[i]))
  }

  /** Lower-casing leaves no upper-case ASCII letter and changes no other character. */
  lemma LowerIsLowerCase(s: string)
    ensures forall i :: 0 <= i < |s| ==> !('A' <= Lower(s)[i] <= 'Z')
    ensures forall i :: 0 <= i < |s| && !('A' <= s[i] <= 'Z') ==> Lower(s)[i] == s[i]
  {
  }

  /** `String.contains`: `sub` occurs as a contiguous part of `s`. */
  function Contains(s: string, sub: string): (r: bool)
    ensures r ==> |sub| <= |s|
    ensures sub == [] ==> r
  {
    |sub| <= |s| && (s[..|sub|] == sub || Contains(s[1..], sub))
  }

  /** `sub` occurs in `s` starting at position `k`. */
  predicate OccursAt(s: string, sub: string, k: nat) {
    k + |sub| <= |s| && s[k..k + |sub|] == sub
  }

  /** An occurrence at any position makes `Contains` hold. */
  lemma {:induction false} ContainsAt(s: string, sub: string, k: nat)
    requires OccursAt(s, sub, k)
    ensures Contains(s, sub)
  {
    if k > 0 {
      assert s[1..][k - 1..k - 1 + |sub|] == s[k..k + |sub|];
      ContainsAt(s[1..], sub, k - 1);
    }
  }

  /** `Contains` holds only where there is an occurrence: the converse of
      `ContainsAt`. */
  lemma {:induction false} ContainsOccurs(s: string, sub: string)
    requires Contains(s, sub)
    ensures exists k: nat :: OccursAt(s, sub, k)
  {
    if s[..|sub|] == sub {
      assert OccursAt(s, sub, 0);
    } else {
      ContainsOccurs(s[1..], sub);
      var k: nat :| OccursAt(s[1..], sub, k);
      assert s[1..][k..k + |sub|] == s[k + 1..k + 1 + |sub|];
      assert OccursAt(s, sub, k + 1);
    }
  }
}
