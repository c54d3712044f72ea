/**
 * String helpers shared by the model: decimal rendering of naturals as
 * Python's `str(n)`, `format(n, "03d")` and a JavaScript number in a
 * template literal print them, and substring search as JavaScript's
 * `String.prototype.includes` performs it.
 */
module Text {

  predicate IsDigitChar(c: char) {
    '0' <= c <= '9'
  }

  function DigitChar(d: nat): (c: char)
    requires d < 10
    ensures IsDigitChar(c)
  {
    "0123456789"[d]
  }

  function DigitValue(c: char): (d: nat)
    requires IsDigitChar(c)
    ensures d < 10
  {
    c as nat - '0' as nat
  }

  /** Shortest decimal rendering of `n`, without sign or leading zeros. */
  function Decimal(n: nat): (s: string)
    ensures |s| >= 1
    ensures forall i :: 0 <= i < |s| ==> IsDigitChar(s[i])
  {
    if n < 10 then [DigitChar(n)] else Decimal(n / 10) + [DigitChar(n % 10)]
  }

  /** The error both image scripts raise when fewer than four markers are found. */
  function NeedMarkersMessage(n: nat): string {
    "Need 4 corner tags \U{2013} found " + Decimal(n)
  }

  /** The value of a string of decimal digits (leading zeros allowed). */
  function ParseDecimal(s: string): nat
    requires forall i :: 0 <= i < |s| ==> IsDigitChar(s[i])
  {
    if s == [] then 0 else ParseDecimal(s[..|s| - 1]) * 10 + DigitValue(s[|s| - 1])
  }

  lemma {:induction false} ParseDecimalOfDecimal(n: nat)
    ensures ParseDecimal(Decimal(n)) == n
  {
    if n >= 10 {
      ParseDecimalOfDecimal(n / 10);
      assert Decimal(n)[..|Decimal(n)| - 1] == Decimal(n / 10);
    }
  }

  lemma DecimalInjective(m: nat, n: nat)
    requires Decimal(m) == Decimal(n)
    ensures m == n
  {
    ParseDecimalOfDecimal(m);
    ParseDecimalOfDecimal(n);
  }

  lemma {:induction false} DecimalLength(n: nat)
    ensures n < 10 ==> |Decimal(n)| == 1
    ensures 10 <= n < 100 ==> |Decimal(n)| == 2
    ensures 100 <= n < 1000 ==> |Decimal(n)| == 3
    ensures n >= 1000 ==> |Decimal(n)| >= 4
  {
    if n >= 10 {
      DecimalLength(n / 10);
    }
  }

  /** `format(n, "03d")`: zero-padded to at least three digits, never truncated. */
  function ZeroPad3(n: nat): string {
    if n < 10 then "00" + Decimal(n)
    else if n < 100 then "0" + Decimal(n)
    else Decimal(n)
  }

  lemma {:induction false} ParseLeadingZero(s: string)
    requires forall i :: 0 <= i < |s| ==> IsDigitChar(s[i])
    ensures ParseDecimal("0" + s) == ParseDecimal(s)
  {
    if s != [] {
      var init := s[..|s| - 1];
      assert ("0" + s)[..|"0" + s| - 1] == "0" + init;
      ParseLeadingZero(init);
    }
  }

  /** The padded form has at least three digits and reads back as `n`. */
  lemma ZeroPad3Shape(n: nat)
    ensures forall i :: 0 <= i < |ZeroPad3(n)| ==> IsDigitChar(ZeroPad3(n)[i])
    ensures n < 1000 ==> |ZeroPad3(n)| == 3
    ensures n >= 1000 ==> ZeroPad3(n) == Decimal(n)
    ensures ParseDecimal(ZeroPad3(n)) == n
  {
    DecimalLength(n);
    ParseDecimalOfDecimal(n);
    if n < 10 {
      ParseLeadingZero(Decimal(n));
      ParseLeadingZero("0" + Decimal(n));
      assert "00" + Decimal(n) == "0" + ("0" + Decimal(n));
    } else if n < 100 {
      ParseLeadingZero(Decimal(n));
    }
  }

  function StartsWith(s: string, prefix: string): bool {
    |prefix| <= |s| && s[..|prefix|] == prefix
  }

  /** `s.includes(sub)`. */
  function Contains(s: string, sub: string): bool
    decreases |s|
  {
    StartsWith(s, sub) || (s != [] && Contains(s[1..], sub))
  }

  /** `sub` occurs in `s` starting at index `i`. */
  predicate OccursAt(s: string, sub: string, i: int) {
    0 <= i && i + |sub| <= |s| && s[i..i + |sub|] == sub
  }

  lemma {:induction false} ContainsIff(s: string, sub: string)
    ensures Contains(s, sub) <==> exists i :: OccursAt(s, sub, i)
  {
    if StartsWith(s, sub) {
      assert OccursAt(s, sub, 0);
    } else if s == [] {
    } else {
      ContainsIff(s[1..], sub);
      if exists i :: OccursAt(s, sub, i) {
        var i :| OccursAt(s, sub, i);
        assert i != 0;
        assert OccursAt(s[1..], sub, i - 1);
      }
      if exists j :: OccursAt(s[1..], sub, j) {
        var j :| OccursAt(s[1..], sub, j);
        assert OccursAt(s, sub, j + 1);
      }
    }
  }

  lemma ContainsWhole(a: string, sub: string, b: string)
    ensures Contains(a + sub + b, sub)
  {
    ContainsIff(a + sub + b, sub);
    assert OccursAt(a + sub + b, sub, |a|);
  }
}
