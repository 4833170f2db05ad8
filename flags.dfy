/** validateFlags: the check of the target database name and the parse of the size expression. */
module Flags {
  import opened Wrappers
  import opened Int64
  import opened Strconv
  import opened Decimal

  datatype FlagError =
    | MissingTestDB          // no target database name was given
    | InvalidSize(num: string) // strconv.Atoi refused the number in front of the unit

  predicate HasSuffix(s: string, unit: char) { |s| > 0 && s[|s| - 1] == unit }

  /** The recognised units and their multipliers to megabytes. */
  predicate IsUnit(unit: char) { unit == 'G' || unit == 'M' || unit == 'T' }

  function Multiplier(unit: char): (mul: int)
    requires IsUnit(unit)
  {
    if unit == 'G' then 1000 else if unit == 'M' then 1 else 1000000
  }

  /** The size in megabytes that validateFlags stores in sizeMB, or the error it returns.
      The units are tried in the order G, M, T; a string ending in none of them leaves
      the number at zero, so the size is 0 megabytes. */
  function SizeMB(testDB: string, sizeStr: string): (r: Result<int, FlagError>)
    ensures testDB == "" ==> r == Err(MissingTestDB)
    ensures r.Ok? ==> InRange(r.value)
  {
    if testDB == "" then Err(MissingTestDB)
    else if HasSuffix(sizeStr, 'G') then Scaled(sizeStr, 'G')
    else if HasSuffix(sizeStr, 'M') then Scaled(sizeStr, 'M')
    else if HasSuffix(sizeStr, 'T') then Scaled(sizeStr, 'T')
    else Ok(0)
  }

  /** The number in front of the unit, times the unit's multiplier, in int64 arithmetic,
      or the error naming the text Atoi refused. */
  function Scaled(sizeStr: string, unit: char): (r: Result<int, FlagError>)
    requires IsUnit(unit) && HasSuffix(sizeStr, unit)
    ensures r.Ok? ==> InRange(r.value)
    ensures Atoi(sizeStr[..|sizeStr| - 1]).None? ==> r == Err(InvalidSize(sizeStr[..|sizeStr| - 1]))
    ensures Atoi(sizeStr[..|sizeStr| - 1]).Some? ==>
      r == Ok(Wrap64(Atoi(sizeStr[..|sizeStr| - 1]).value * Multiplier(unit)))
  {
    var num := sizeStr[..|sizeStr| - 1];
    match Atoi(num)
    case None => Err(InvalidSize(num))
    case Some(n) => Ok(Wrap64(n * Multiplier(unit)))
  }

  /** Any number Atoi accepts, followed by a unit, is scaled by the unit's multiplier
      in int64 arithmetic; with a small enough number the product is exact. */
  lemma SizeWithUnit(testDB: string, num: string, unit: char)
    requires testDB != "" && IsUnit(unit) && Atoi(num).Some?
    ensures SizeMB(testDB, num + [unit]) == Ok(Wrap64(Atoi(num).value * Multiplier(unit)))
    ensures -9223372036854 <= Atoi(num).value <= 9223372036854 ==>
      SizeMB(testDB, num + [unit]) == Ok(Atoi(num).value * Multiplier(unit))
  {
    var s := num + [unit];
    assert s[..|s| - 1] == num;
    var n := Atoi(num).value;
    if -9223372036854 <= n <= 9223372036854 {
      Wrap64Exact(n * Multiplier(unit));
    }
  }

  /** In particular the decimal notation of every int64 followed by a unit. */
  lemma SizeWithItoa(testDB: string, n: int, unit: char)
    requires testDB != "" && InRange(n) && IsUnit(unit)
    ensures SizeMB(testDB, Itoa(n) + [unit]) == Ok(Wrap64(n * Multiplier(unit)))
  {
    AtoiItoa(n);
    SizeWithUnit(testDB, Itoa(n), unit);
  }

  /** A unit after something Atoi refuses is an error naming that text. */
  lemma SizeWithBadNumber(testDB: string, sizeStr: string, unit: char)
    requires testDB != "" && IsUnit(unit) && HasSuffix(sizeStr, unit)
    requires Atoi(sizeStr[..|sizeStr| - 1]) == None
    ensures SizeMB(testDB, sizeStr) == Err(InvalidSize(sizeStr[..|sizeStr| - 1]))
  {
  }

  /** Without a recognised unit the size is 0, whatever the digits say. */
  lemma SizeWithoutUnit(testDB: string, sizeStr: string)
    requires testDB != ""
    requires !HasSuffix(sizeStr, 'G') && !HasSuffix(sizeStr, 'M') && !HasSuffix(sizeStr, 'T')
    ensures SizeMB(testDB, sizeStr) == Ok(0)
  {
  }

  /** The flag values validateFlags reads and the sizeMB it writes (process-wide
      variables in the program, fields of one object here). */
  class Settings {
    var testDB: string
    var sizeStr: string
    var sizeMB: int

    constructor (testDB: string, sizeStr: string)
      ensures this.testDB == testDB && this.sizeStr == sizeStr && sizeMB == 0
    {
      this.testDB := testDB;
      this.sizeStr := sizeStr;
      sizeMB := 0;
    }

    /** Stores the parsed size in sizeMB and returns no error, or returns the
        error and leaves sizeMB as it was. */
    method ValidateFlags() returns (err: Option<FlagError>)
      modifies this`sizeMB
      ensures SizeMB(testDB, sizeStr).Ok? ==> err == None && sizeMB == SizeMB(testDB, sizeStr).value
      ensures SizeMB(testDB, sizeStr).Err? ==> err == Some(SizeMB(testDB, sizeStr).error) && sizeMB == old(sizeMB)
    {
      if testDB == "" {
        return Some(MissingTestDB);
      }
      var mul := 1000;
      var n := 0;
      if HasSuffix(sizeStr, 'G') || HasSuffix(sizeStr, 'M') || HasSuffix(sizeStr, 'T') {
        var unit := sizeStr[|sizeStr| - 1];
        mul := Multiplier(unit);
        var num := sizeStr[..|sizeStr| - 1];
        var parsed := Atoi(num);
        if parsed.None? {
          return Some(InvalidSize(num));
        }
        n := parsed.value;
      }
      sizeMB := Wrap64(n * mul);
      err := None;
    }
  }

  /** The help text promises '3' => 3GB, but a bare number yields 0; "3G" is 3000 MB. */
  lemma HelpTextExamples()
    ensures SizeMB("test", "3") == Ok(0)
    ensures SizeMB("test", "3G") == Ok(3000)
    ensures SizeMB("test", "10M") == Ok(10)
    ensures SizeMB("test", "1T") == Ok(1000000)
    ensures SizeMB("test", "G") == Err(InvalidSize(""))
    ensures SizeMB("", "3G") == Err(MissingTestDB)
  {
    assert SizeMB("test", "3G") == Ok(3000) by {
      SizeWithItoa("test", 3, 'G');
      assert Itoa(3) + ['G'] == "3G";
      Wrap64Exact(3000);
    }
    assert SizeMB("test", "10M") == Ok(10) by {
      SizeWithItoa("test", 10, 'M');
      assert Itoa(10) + ['M'] == "10M";
      Wrap64Exact(10);
    }
    assert SizeMB("test", "1T") == Ok(1000000) by {
      SizeWithItoa("test", 1, 'T');
      assert Itoa(1) + ['T'] == "1T";
      Wrap64Exact(1000000);
    }
  }

  /** Atoi's sign and leading zeros pass through: "+3G" is 3000 MB, "007M" is 7 MB, and a
      negative size such as "-2G" is accepted as -2000 MB. */
  lemma SignsAndLeadingZeros()
    ensures SizeMB("test", "+3G") == Ok(3000)
    ensures SizeMB("test", "007M") == Ok(7)
    ensures SizeMB("test", "-2G") == Ok(-2000)
  {
    assert Digits("+3") == "3" && Value("3") == 3;
    SizeWithUnit("test", "+3", 'G');
    assert "+3" + ['G'] == "+3G";
    assert Digits("007") == "007" && Value("007") == 7 by {
      assert "007"[..2] == "00" && "00"[..1] == "0";
    }
    SizeWithUnit("test", "007", 'M');
    assert "007" + ['M'] == "007M";
    assert Digits("-2") == "2" && Value("2") == 2;
    SizeWithUnit("test", "-2", 'G');
    assert "-2" + ['G'] == "-2G";
  }
}
