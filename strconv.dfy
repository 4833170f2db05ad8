/** The two conversions of Go's strconv package the size flag relies on, for a 64-bit `int`. */
module Strconv {
  import opened Wrappers
  import opened Int64
  import opened Decimal

  /** The sign Atoi accepts in front of the digits, if any. */
  predicate HasSign(s: string) { |s| > 0 && (s[0] == '-' || s[0] == '+') }

  /** The text after the optional sign. */
  function Digits(s: string): string
  {
    if HasSign(s) then s[1..] else s
  }

  predicate Negative(s: string) { HasSign(s) && s[0] == '-' }

  function Abs(n: int): nat { if n < 0 then -n else n }

  /** strconv.Atoi: an optional '+' or '-' followed by one or more decimal digits
      whose value fits in an int64; anything else is a *NumError (None here). A
      result is accepted only in that form, carries the digits' value with the sign's
      direction, and every such text with a value up to MaxInt64 is accepted. */
  function Atoi(s: string): (r: Option<int>)
    ensures r.Some? ==> InRange(r.value)
    ensures r.Some? ==> 1 <= |Digits(s)| && AllDigits(Digits(s)) && Value(Digits(s)) == Abs(r.value)
    ensures r.Some? ==> (r.value < 0 ==> Negative(s)) && (Negative(s) ==> r.value <= 0)
    ensures 1 <= |Digits(s)| && AllDigits(Digits(s)) && Value(Digits(s)) <= MaxInt64 ==> r.Some?
  {
    var digits := if HasSign(s) then s[1..] else s;
    if digits == [] || !AllDigits(digits) then None
    else
      var n: int := if HasSign(s) && s[0] == '-' then 0 - Value(digits) as int else Value(digits);
      if InRange(n) then Some(n) else None
  }

  /** strconv.Itoa: the shortest decimal notation, with '-' for negatives. */
  function Itoa(n: int): string
  {
    if n < 0 then "-" + FromNat(-n) else FromNat(n)
  }

  /** Every int64 survives a trip through its decimal notation. */
  lemma AtoiItoa(n: int)
    requires InRange(n)
    ensures Atoi(Itoa(n)) == Some(n)
  {
    var s := Itoa(n);
    if n < 0 {
      var digits := FromNat(-n);
      assert s[0] == '-' && s[1..] == digits;
      ValueFromNat(-n);
      assert Value(digits) == -n;
    } else {
      var digits := FromNat(n);
      assert !HasSign(s) by { assert IsDigit(s[0]); }
      ValueFromNat(n);
      assert Value(digits) == n;
    }
  }

  /** Atoi rejects the empty string and a lone sign. */
  lemma AtoiRejectsEmptyDigits(s: string)
    requires s == [] || (|s| == 1 && HasSign(s))
    ensures Atoi(s) == None
  {
  }

  /** The converse of AtoiItoa: whatever Atoi accepts is the shortest notation of the
      value's magnitude, behind an optional sign and leading zeros. */
  lemma AtoiCanonical(s: string)
    requires Atoi(s).Some?
    ensures var n := Atoi(s).value;
      |FromNat(Abs(n))| <= |Digits(s)| &&
      s == s[..|s| - |Digits(s)|] + Zeros(|Digits(s)| - |FromNat(Abs(n))|) + FromNat(Abs(n))
    ensures s[..|s| - |Digits(s)|] in {"", "+", "-"}
  {
    var d := Digits(s);
    var n := Atoi(s).value;
    DigitsCanonical(d);
    var sign := s[..|s| - |d|];
    if HasSign(s) {
      assert sign == [s[0]];
    } else {
      assert sign == "";
    }
    assert s == sign + d;
  }
}
