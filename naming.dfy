/** Sprite names: "{base}_{index}" as string.Format renders them
    (SliceSpriteSheets.cs:251), with the index written in decimal. */
module Naming {

  function DigitChar(d: nat): (c: char)
    requires d < 10
    ensures '0' <= c <= '9'
  {
    ['0', '1', '2', '3', '4', '5', '6', '7', '8', '9'][d]
  }

  function DigitValue(c: char): (d: nat)
    requires '0' <= c <= '9'
    ensures d < 10 && DigitChar(d) == c
  {
    if c == '0' then 0 else if c == '1' then 1 else if c == '2' then 2
    else if c == '3' then 3 else if c == '4' then 4 else if c == '5' then 5
    else if c == '6' then 6 else if c == '7' then 7 else if c == '8' then 8 else 9
  }

  predicate IsDigits(s: string)
  {
    forall k :: 0 <= k < |s| ==> '0' <= s[k] <= '9'
  }

  /** Decimal rendering of a natural number, most significant digit first,
      no leading zeros. */
  function Decimal(n: nat): (s: string)
    ensures |s| > 0 && IsDigits(s)
    ensures |s| > 1 ==> s[0] != '0'
  {
    if n < 10 then [DigitChar(n)] else Decimal(n / 10) + [DigitChar(n % 10)]
  }

  /** The value of a string of decimal digits. */
  function DecimalValue(s: string): nat
    requires IsDigits(s)
  {
    if s == [] then 0 else 10 * DecimalValue(s[..|s| - 1]) + DigitValue(s[|s| - 1])
  }

  /** Reading back a rendered index gives the index. */
  lemma {:induction false} DecimalRoundTrip(n: nat)
    ensures DecimalValue(Decimal(n)) == n
  {
    var s := Decimal(n);
    if n < 10 {
      assert s[..0] == [];
      assert DigitChar(DigitValue(s[0])) == DigitChar(n);
      DigitCharInjective(DigitValue(s[0]), n);
    } else {
      DecimalRoundTrip(n / 10);
      assert s[..|s| - 1] == Decimal(n / 10);
      DigitCharInjective(DigitValue(s[|s| - 1]), n % 10);
    }
  }

  lemma DigitCharInjective(a: nat, b: nat)
    requires a < 10 && b < 10 && DigitChar(a) == DigitChar(b)
    ensures a == b
  {
  }

  /** Different indices get different decimal renderings. */
  lemma DecimalInjective(m: nat, n: nat)
    requires Decimal(m) == Decimal(n)
    ensures m == n
  {
    DecimalRoundTrip(m);
    DecimalRoundTrip(n);
  }

  /** string.Format's rendering of an int: a minus sign before negatives.
      Read back as decimal, the digits give the number's magnitude. */
  function IntText(n: int): (s: string)
    ensures n >= 0 ==> IsDigits(s) && DecimalValue(s) == n
    ensures n < 0 ==> |s| > 1 && s[0] == '-' && IsDigits(s[1..]) && DecimalValue(s[1..]) == -n
  {
    if n < 0 then
      DecimalRoundTrip(-n);
      assert ("-" + Decimal(-n))[1..] == Decimal(-n);
      "-" + Decimal(-n)
    else
      DecimalRoundTrip(n);
      Decimal(n)
  }

  /** The name of the sprite with the given index on a sheet named `base`:
      the sheet name, an underscore, and text that reads back as the index. */
  function SpriteName(base: string, index: int): (s: string)
    ensures |s| > |base| + 1 && s[..|base| + 1] == base + "_"
    ensures index >= 0 ==> IsDigits(s[|base| + 1..]) && DecimalValue(s[|base| + 1..]) == index
  {
    assert (base + "_" + IntText(index))[|base| + 1..] == IntText(index);
    base + "_" + IntText(index)
  }

  /** On one sheet, sprites with different non-negative indices get different
      names. */
  lemma SpriteNameInjective(base: string, m: nat, n: nat)
    requires SpriteName(base, m) == SpriteName(base, n)
    ensures m == n
  {
    var k := |base| + 1;
    assert SpriteName(base, m)[k..] == SpriteName(base, n)[k..];
  }
}
