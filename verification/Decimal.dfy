/** Decimal numerals and their values. */
module Decimal {
  predicate IsDigit(c: char) {
    '0' <= c <= '9'
  }

  predicate AllDigits(s: string) {
    forall i :: 0 <= i < |s| ==> IsDigit(s[i])
  }

  function Digit(d: nat): (c: char)
    requires d < 10
    ensures IsDigit(c) && DigitValue(c) == d
  {
    ('0' as int + d) as char
  }

  function DigitValue(c: char): (d: nat)
    requires IsDigit(c)
    ensures d < 10
  {
    c as int - '0' as int
  }

  /** `n` in decimal, without leading zeros. */
  function Numeral(n: nat): (s: string)
    ensures s != [] && AllDigits(s)
  {
    if n < 10 then [Digit(n)] else Numeral(n / 10) + [Digit(n % 10)]
  }

  function ValueOf(s: string): nat
    requires AllDigits(s)
  {
    if |s| == 0 then 0 else ValueOf(s[..|s| - 1]) * 10 + DigitValue(s[|s| - 1])
  }

  /** Reading back a numeral gives its number, so numerals are distinct. */
  lemma {:induction false} ValueOfNumeral(n: nat)
    ensures ValueOf(Numeral(n)) == n
  {
    if n < 10 {
      assert [Digit(n)][..0] == [];
    } else {
      ValueOfNumeral(n / 10);
      var s := Numeral(n);
      assert s[..|s| - 1] == Numeral(n / 10);
    }
  }

  ghost predicate AllZeros(s: string) {
    forall i :: 0 <= i < |s| ==> s[i] == '0'
  }

  /** `s` is the numeral of `n` after `k` zeros. */
  ghost predicate Padded(s: string, n: nat, k: nat) {
    k <= |s| && AllZeros(s[..k]) && s[k..] == Numeral(n)
  }

  lemma {:induction false} ZerosDoNotCount(s: string, k: nat)
    requires AllDigits(s) && k < |s| && AllZeros(s[..k])
    ensures ValueOf(s) == ValueOf(s[k..])
    decreases |s|
  {
    var front := s[..|s| - 1];
    if k < |front| {
      assert front[..k] == s[..k] && s[k..][..|s| - 1 - k] == front[k..];
      ZerosDoNotCount(front, k);
    } else if k > 0 {
      assert s[..k][k - 1] == '0' && front[..k - 1] == s[..k][..k - 1] && front[k - 1..] == [front[k - 1]];
      assert AllZeros(front[..k - 1]);
      ZerosDoNotCount(front, k - 1);
      OneDigit(front[k - 1]);
    }
    assert s[k..][|s| - 1 - k] == s[|s| - 1];
    OneDigit(s[|s| - 1]);
  }

  lemma OneDigit(c: char)
    requires IsDigit(c)
    ensures ValueOf([c]) == DigitValue(c)
  {
    var s := [c];
    assert |s[..0]| == 0;
  }

  lemma {:induction false} Unpad(s: string) returns (k: nat)
    requires s != [] && AllDigits(s)
    ensures Padded(s, ValueOf(s), k)
  {
    var front, last := s[..|s| - 1], s[|s| - 1];
    if |front| == 0 {
      k := 0;
      OneDigit(last);
      assert s == [last];
    } else {
      k := Unpad(front);
      var v := ValueOf(front);
      if v == 0 {
        assert front[k..] == ['0'];
        forall i | 0 <= i < |front|
          ensures s[i] == '0'
        {
          assert s[i] == if i < k then front[..k][i] else front[k..][i - k];
        }
        k := |front|;
        assert s[k..] == [last];
      } else {
        assert s[..k] == front[..k] && s[k..] == front[k..] + [last];
      }
    }
  }

  /** A text of digits has the value `n` if and only if it is the numeral of `n`, perhaps after zeros. */
  lemma ValueExactly(s: string, n: nat)
    requires s != []
    ensures AllDigits(s) && ValueOf(s) == n <==> exists k :: Padded(s, n, k)
  {
    if AllDigits(s) {
      var k := Unpad(s);
    }
    if k: nat :| Padded(s, n, k) {
      forall i | 0 <= i < |s|
        ensures IsDigit(s[i])
      {
        assert s[i] == if i < k then s[..k][i] else Numeral(n)[i - k];
      }
      assert k < |s|;
      ZerosDoNotCount(s, k);
      ValueOfNumeral(n);
    }
  }
}
