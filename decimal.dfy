/** Decimal digit strings: what strconv.Atoi reads and what fmt's %d verb writes. */
module Decimal {

  predicate IsDigit(c: char) { '0' <= c <= '9' }

  predicate AllDigits(s: string) { forall i :: 0 <= i < |s| ==> IsDigit(s[i]) }

  function DigitValue(c: char): (d: nat)
    requires IsDigit(c)
    ensures d < 10
  {
    c as int - '0' as int
  }

  function DigitChar(d: nat): (c: char)
    requires d < 10
    ensures IsDigit(c) && DigitValue(c) == d
  {
    ('0' as int + d) as char
  }

  /** The number a digit string denotes, read left to right as n := n*10 + digit. */
  function Value(s: string): nat
    requires AllDigits(s)
  {
    if s == [] then 0 else 10 * Value(s[..|s| - 1]) + DigitValue(s[|s| - 1])
  }

  /** The shortest decimal notation of n ("0" for zero): strconv.Itoa of a natural. */
  function FromNat(n: nat): (s: string)
    ensures 1 <= |s| && AllDigits(s)
  {
    if n < 10 then [DigitChar(n)] else FromNat(n / 10) + [DigitChar(n % 10)]
  }

  /** s widened to at least w characters with leading zeros, as the 0 flag of %0wd does. */
  function ZeroPad(s: string, w: nat): (r: string)
    ensures |r| == if |s| < w then w else |s|
    ensures r[|r| - |s|..] == s
  {
    if |s| < w then Zeros(w - |s|) + s else s
  }

  function Zeros(k: nat): (z: string)
    ensures |z| == k
  {
    seq(k, _ => '0')
  }

  /** Reading back the notation of n gives n. */
  lemma {:induction false} ValueFromNat(n: nat)
    ensures Value(FromNat(n)) == n
  {
    if n >= 10 {
      var s := FromNat(n);
      assert s[..|s| - 1] == FromNat(n / 10);
      ValueFromNat(n / 10);
    }
  }

  /** A leading zero does not change the value of a digit string. */
  lemma {:induction false} ValueLeadingZero(s: string)
    requires AllDigits(s)
    ensures AllDigits("0" + s) && Value("0" + s) == Value(s)
  {
    if s != [] {
      var z := "0" + s;
      assert z[..|z| - 1] == "0" + s[..|s| - 1];
      ValueLeadingZero(s[..|s| - 1]);
    }
  }

  /** Leading zeros do not change the value of a digit string. */
  lemma {:induction false} ValueZeros(k: nat, s: string)
    requires AllDigits(s)
    ensures AllDigits(Zeros(k) + s) && Value(Zeros(k) + s) == Value(s)
  {
    if k > 0 {
      ValueZeros(k - 1, s);
      assert Zeros(k) + s == "0" + (Zeros(k - 1) + s);
      ValueLeadingZero(Zeros(k - 1) + s);
    } else {
      assert Zeros(k) + s == s;
    }
  }

  /** Zero padding keeps a digit string a digit string, with the same value. */
  lemma ValueZeroPad(s: string, w: nat)
    requires AllDigits(s)
    ensures AllDigits(ZeroPad(s, w)) && Value(ZeroPad(s, w)) == Value(s)
  {
    if |s| < w {
      ValueZeros(w - |s|, s);
    }
  }

  /** Any non-empty digit string is the shortest notation of its value behind leading
      zeros. */
  lemma {:induction false} DigitsCanonical(d: string)
    requires 1 <= |d| && AllDigits(d)
    ensures |FromNat(Value(d))| <= |d|
    ensures d == Zeros(|d| - |FromNat(Value(d))|) + FromNat(Value(d))
  {
    var init, c := d[..|d| - 1], d[|d| - 1];
    var v := Value(d);
    assert DigitChar(DigitValue(c)) == c;
    if |d| == 1 {
      assert init == [];
      assert FromNat(v) == [c];
      assert d == Zeros(0) + [c];
    } else {
      DigitsCanonical(init);
      var vi := Value(init);
      assert d == init + [c];
      if vi == 0 {
        assert FromNat(v) == [c];
        assert init == Zeros(|init|) by {
          assert init == Zeros(|init| - 1) + "0";
        }
        assert d == Zeros(|d| - 1) + [c];
      } else {
        assert v / 10 == vi && v % 10 == DigitValue(c);
        assert FromNat(v) == FromNat(vi) + [c];
        var k := |init| - |FromNat(vi)|;
        assert init == Zeros(k) + FromNat(vi);
        assert |d| - |FromNat(v)| == k;
        assert d == Zeros(k) + (FromNat(vi) + [c]);
      }
    }
  }
}
