/** Decimal and length-prefixed text, as `std::to_string` and the key builders print it.
    Everything here is about telling printed values apart again. */
module Numerals {

  type byte = x: int | 0 <= x < 256

  predicate IsDigit(c: char) {
    '0' <= c <= '9'
  }

  function DigitChar(d: int): (c: char)
    requires 0 <= d < 10
    ensures IsDigit(c) && c as int == '0' as int + d
  {
    ('0' as int + d) as char
  }

  // std::to_string of a non-negative number.
  function ShowNat(n: nat): (s: string)
    ensures s != [] && forall i :: 0 <= i < |s| ==> IsDigit(s[i])
  {
    if n < 10 then [DigitChar(n)] else ShowNat(n / 10) + [DigitChar(n % 10)]
  }

  // std::to_string of a signed number.
  function ShowInt(x: int): string {
    if x < 0 then "-" + ShowNat(-x) else ShowNat(x)
  }

  function ReadNat(s: string): int {
    if s == [] then 0 else 10 * ReadNat(s[..|s| - 1]) + (s[|s| - 1] as int - '0' as int)
  }

  lemma {:induction false} ReadShowNat(n: nat)
    ensures ReadNat(ShowNat(n)) == n
  {
    if n < 10 {
      assert ShowNat(n)[..0] == [];
    } else {
      ReadShowNat(n / 10);
      assert ShowNat(n)[..|ShowNat(n)| - 1] == ShowNat(n / 10);
    }
  }

  /** Printing a number loses nothing. */
  lemma ShowIntInjective(x: int, y: int)
    requires ShowInt(x) == ShowInt(y)
    ensures x == y
  {
    assert x < 0 <==> ShowInt(x)[0] == '-';
    assert y < 0 <==> ShowInt(y)[0] == '-';
    if x < 0 {
      assert ShowNat(-x) == ShowInt(x)[1..] == ShowNat(-y);
      ReadShowNat(-x);
      ReadShowNat(-y);
    } else {
      ReadShowNat(x);
      ReadShowNat(y);
    }
  }

  // A decimal numeral, and the number it stands for.
  predicate Decimal(s: string) {
    if s != [] && s[0] == '-' then AllDigits(s[1..]) else AllDigits(s)
  }

  predicate AllDigits(s: string) {
    s != [] && forall i :: 0 <= i < |s| ==> IsDigit(s[i])
  }

  function ReadDecimal(s: string): int {
    if s != [] && s[0] == '-' then -ReadNat(s[1..]) else ReadNat(s)
  }

  /** A printed number is a numeral that reads as that number. */
  lemma ReadShowInt(x: int)
    ensures Decimal(ShowInt(x)) && ReadDecimal(ShowInt(x)) == x
  {
    if x < 0 {
      assert ShowInt(x)[1..] == ShowNat(-x);
      ReadShowNat(-x);
    } else {
      assert IsDigit(ShowNat(x)[0]);
      ReadShowNat(x);
    }
  }

  function Pow10(k: nat): nat {
    if k == 0 then 1 else 10 * Pow10(k - 1)
  }

  lemma {:induction false} ShowNatLength(n: nat, k: nat)
    requires k > 0 && n < Pow10(k)
    ensures |ShowNat(n)| <= k
  {
    if n >= 10 {
      ShowNatLength(n / 10, k - 1);
    }
  }

  // No 64-bit number takes more than 21 characters.
  lemma ShowIntLength(x: int)
    requires -0x8000_0000_0000_0000 <= x < 0x1_0000_0000_0000_0000
    ensures |ShowInt(x)| <= 21
  {
    assert Pow10(20) == 100_000_000_000_000_000_000 by {
      assert Pow10(5) == 100_000;
      assert Pow10(10) == 10_000_000_000;
      assert Pow10(15) == 1_000_000_000_000_000;
    }
    ShowNatLength(if x < 0 then -x else x, 20);
  }

  lemma ShowIntChars(x: int)
    ensures ShowInt(x) != []
    ensures forall c :: c in ShowInt(x) ==> c == '-' || IsDigit(c)
  {
  }

  predicate Free(c: char, s: string) {
    forall i :: 0 <= i < |s| ==> s[i] != c
  }

  /** A separator that neither prefix contains splits both texts at the same place. */
  lemma SeparatorSplits(c: char, p: string, x: string, q: string, y: string)
    requires Free(c, p) && Free(c, q)
    requires p + [c] + x == q + [c] + y
    ensures p == q && x == y
  {
    var t := p + [c] + x;
    assert t[|p|] == c && t[|q|] == c;
    assert forall i :: 0 <= i < |p| ==> t[i] == p[i];
    assert forall i :: 0 <= i < |q| ==> t[i] == q[i];
    assert |q| <= |p| && |p| <= |q|;
    assert p == t[..|p|] && q == t[..|q|];
    assert x == t[|p| + 1..] && y == t[|q| + 1..];
  }

  // A value preceded by its own length: "5:hello".
  function Field(v: string): string {
    ShowNat(|v|) + ":" + v
  }

  /** A length-prefixed field can be read off the front of any text, whatever bytes it holds. */
  lemma FieldSplits(a: string, x: string, b: string, y: string)
    requires Field(a) + x == Field(b) + y
    ensures a == b && x == y
  {
    assert Field(a) + x == ShowNat(|a|) + [':'] + (a + x);
    assert Field(b) + y == ShowNat(|b|) + [':'] + (b + y);
    SeparatorSplits(':', ShowNat(|a|), a + x, ShowNat(|b|), b + y);
    ReadShowNat(|a|);
    ReadShowNat(|b|);
    assert a == (a + x)[..|a|] && x == (a + x)[|a|..];
    assert b == (b + y)[..|b|] && y == (b + y)[|b|..];
  }

  lemma TagSplits(tag: string, x: string, y: string)
    requires tag + x == tag + y
    ensures x == y
  {
    assert x == (tag + x)[|tag|..];
    assert y == (tag + y)[|tag|..];
  }
}
