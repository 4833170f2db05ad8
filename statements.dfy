/** The text each worker sends to the server: its table name, its prepared multi-row
    INSERT, and the check of the affected-row count that InsertRows performs. */
module Statements {
  import opened Wrappers
  import opened Decimal

  /** strings.Join: the parts with one separator between neighbours. */
  function Join(parts: seq<string>, sep: string): string
  {
    if |parts| == 0 then ""
    else if |parts| == 1 then parts[0]
    else Join(parts[..|parts| - 1], sep) + sep + parts[|parts| - 1]
  }

  /** A join of equal-length parts is as long as the parts and the separators between
      them, starts with the first part and ends with the last. */
  lemma {:induction false} JoinShape(parts: seq<string>, sep: string, width: nat)
    requires |parts| >= 1 && forall i :: 0 <= i < |parts| ==> |parts[i]| == width
    ensures |Join(parts, sep)| == |parts| * (width + |sep|) - |sep|
    ensures Join(parts, sep)[..width] == parts[0]
    ensures Join(parts, sep)[|Join(parts, sep)| - width..] == parts[|parts| - 1]
  {
    if |parts| > 1 {
      var init := parts[..|parts| - 1];
      JoinShape(init, sep, width);
      var j := Join(init, sep);
      assert Join(parts, sep) == j + sep + parts[|parts| - 1];
      assert (|parts| - 1) * (width + |sep|) + width + |sep| == |parts| * (width + |sep|);
      assert Join(parts, sep)[..width] == j[..width];
    }
  }

  /** `bulk` copies of "(?)" joined by ",": one value group per row of a batch. */
  function Placeholders(bulk: nat): string
  {
    Join(seq(bulk, _ => "(?)"), ",")
  }

  /** The qmarks slice filled in a loop and then joined. */
  method BuildPlaceholders(bulk: nat) returns (qmarksStr: string)
    ensures qmarksStr == Placeholders(bulk)
  {
    var qmarks := new string[bulk];
    for i := 0 to bulk
      invariant forall k :: 0 <= k < i ==> qmarks[k] == "(?)"
    {
      qmarks[i] := "(?)";
    }
    assert qmarks[..] == seq(bulk, _ => "(?)");
    qmarksStr := Join(qmarks[..], ",");
  }

  /** The statement a worker prepares for its table: the table name follows
      "INSERT INTO " and the placeholder list closes the statement. */
  function InsertQuery(table: string, bulk: nat): (q: string)
    ensures |q| == 27 + |table| + |Placeholders(bulk)|
    ensures q[..12] == "INSERT INTO " && q[12..12 + |table|] == table
    ensures q[|q| - |Placeholders(bulk)|..] == Placeholders(bulk)
  {
    "INSERT INTO " + table + " (data) VALUES " + Placeholders(bulk)
  }

  /** A worker's statement has exactly one '?' parameter per row of a batch. */
  lemma InsertQueryParameters(t: nat, bulk: nat)
    requires bulk >= 1
    ensures multiset(InsertQuery(TableName(t), bulk))['?'] == bulk
  {
    var text := "INSERT INTO " + TableName(t) + " (data) VALUES ";
    NoParameterBeforeValues(t);
    assert InsertQuery(TableName(t), bulk) == text + Placeholders(bulk);
    assert multiset(text + Placeholders(bulk)) == multiset(text) + multiset(Placeholders(bulk));
    PlaceholderCounts(bulk);
  }

  /** The text in front of the placeholder list holds no '?'. */
  lemma NoParameterBeforeValues(t: nat)
    ensures multiset("INSERT INTO " + TableName(t) + " (data) VALUES ")['?'] == 0
  {
    NoParameterInKeywords();
    NoParameterInName(t);
    NoParameterInJoin("INSERT INTO ", TableName(t), " (data) VALUES ");
  }

  lemma NoParameterInJoin(a: string, b: string, c: string)
    requires multiset(a)['?'] == 0 && multiset(b)['?'] == 0 && multiset(c)['?'] == 0
    ensures multiset(a + b + c)['?'] == 0
  {
    assert multiset(a + b + c) == multiset(a) + multiset(b) + multiset(c);
  }

  /** A table name is letters and digits only. */
  lemma NoParameterInName(t: nat)
    ensures multiset(TableName(t))['?'] == 0
  {
    var digits := ZeroPad(FromNat(t), 3);
    ValueZeroPad(FromNat(t), 3);
    assert multiset(digits)['?'] == 0 by {
      assert forall i :: 0 <= i < |digits| ==> IsDigit(digits[i]);
      assert '?' !in digits;
    }
    assert multiset("table")['?'] == 0 by {
      assert '?' !in "table";
    }
    assert multiset("table" + digits) == multiset("table") + multiset(digits);
  }

  lemma NoParameterInKeywords()
    ensures multiset("INSERT INTO ")['?'] == 0
    ensures multiset(" (data) VALUES ")['?'] == 0
  {
    assert '?' !in "INSERT INTO ";
    assert '?' !in " (data) VALUES ";
  }

  /** One more row adds one more ",(?)". */
  lemma PlaceholdersStep(k: nat)
    requires k >= 1
    ensures Placeholders(k + 1) == Placeholders(k) + ",(?)"
  {
    var parts := seq(k + 1, _ => "(?)");
    assert parts[..k] == seq(k, _ => "(?)");
  }

  /** The placeholder list is "(?)" at every fourth position with a comma between
      neighbours: 4 * bulk - 1 characters. */
  lemma {:induction false} PlaceholdersLayout(bulk: nat)
    requires bulk >= 1
    ensures |Placeholders(bulk)| == 4 * bulk - 1
    ensures forall i :: 0 <= i < bulk ==> Placeholders(bulk)[4 * i..4 * i + 3] == "(?)"
    ensures forall i :: 0 <= i < bulk - 1 ==> Placeholders(bulk)[4 * i + 3] == ','
  {
    if bulk > 1 {
      PlaceholdersLayout(bulk - 1);
      PlaceholdersStep(bulk - 1);
      var prev := Placeholders(bulk - 1);
      var p := Placeholders(bulk);
      assert p == prev + ",(?)";
      forall i | 0 <= i < bulk
        ensures p[4 * i..4 * i + 3] == "(?)"
      {
        if i < bulk - 1 {
          assert p[4 * i..4 * i + 3] == prev[4 * i..4 * i + 3];
        } else {
          assert p[4 * i..4 * i + 3] == p[|prev| + 1..];
        }
      }
      forall i | 0 <= i < bulk - 1
        ensures p[4 * i + 3] == ','
      {
        if i < bulk - 2 {
          assert p[4 * i + 3] == prev[4 * i + 3];
        }
      }
    }
  }

  /** The list holds exactly `bulk` markers and `bulk - 1` commas. */
  lemma {:induction false} PlaceholderCounts(bulk: nat)
    requires bulk >= 1
    ensures multiset(Placeholders(bulk))['?'] == bulk
    ensures multiset(Placeholders(bulk))[','] == bulk - 1
  {
    GroupCounts();
    if bulk == 1 {
      assert Placeholders(1) == "(?)";
    } else {
      PlaceholderCounts(bulk - 1);
      PlaceholdersStep(bulk - 1);
      assert multiset(Placeholders(bulk)) == multiset(Placeholders(bulk - 1)) + multiset(",(?)");
    }
  }

  lemma GroupCounts()
    ensures multiset("(?)")['?'] == 1 && multiset("(?)")[','] == 0
    ensures multiset(",(?)")['?'] == 1 && multiset(",(?)")[','] == 1
  {
    assert multiset("(?)") == multiset{'(', '?', ')'};
    assert multiset(",(?)") == multiset{',', '(', '?', ')'};
  }

  /** fmt.Sprintf("table%03d", i): the index in at least three digits. */
  function TableName(i: nat): (name: string)
    ensures |name| >= 8 && name[..5] == "table"
  {
    "table" + ZeroPad(FromNat(i), 3)
  }

  /** The first thousand tables all have eight-character names. */
  lemma TableNameLength(i: nat)
    requires i < 1000
    ensures |TableName(i)| == 8
  {
    if i >= 10 {
      assert |FromNat(i)| == |FromNat(i / 10)| + 1;
      if i >= 100 {
        assert |FromNat(i / 10)| == |FromNat(i / 10 / 10)| + 1;
      }
    }
  }

  /** The index can be read back from a table name. */
  lemma TableNameIndex(i: nat)
    ensures AllDigits(TableName(i)[5..]) && Value(TableName(i)[5..]) == i
  {
    assert TableName(i)[5..] == ZeroPad(FromNat(i), 3);
    ValueZeroPad(FromNat(i), 3);
    ValueFromNat(i);
  }

  /** Different workers create different tables. */
  lemma TableNamesDistinct(i: nat, j: nat)
    requires i != j
    ensures TableName(i) != TableName(j)
  {
    TableNameIndex(i);
    TableNameIndex(j);
  }

  /** The error InsertRows returns when the server reports another row count. */
  datatype InsertError = RowCountMismatch(expected: int, affected: int)

  /** InsertRows' last check: an insert of `count` rows succeeds only when the
      server reports exactly `count` affected rows. */
  function CheckAffected(affected: int, count: int): (r: Option<InsertError>)
    ensures r.None? <==> affected == count
    ensures r.Some? ==> r.value.expected == count && r.value.affected == affected
  {
    if affected != count then Some(RowCountMismatch(count, affected)) else None
  }
}
