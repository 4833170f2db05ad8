/** The sizing plan computed at start-up: bytes per table, rows per table and the
    number of insert batches. The program computes the two ceilings in float64;
    here they are exact integer ceilings. */
module Sizing {
  import opened Int64

  /** The smallest q with q * d >= a. */
  function CeilDiv(a: int, d: int): (q: int)
    requires d >= 1
    ensures q * d >= a && (q - 1) * d < a
  {
    var f := (-a) / d;
    assert (-a) == f * d + (-a) % d;
    -f
  }

  /** Go's integer division, which truncates toward zero. */
  function GoQuot(a: int, d: int): (q: int)
    requires d >= 1
    ensures a >= 0 ==> q >= 0 && q * d <= a < (q + 1) * d
    ensures a < 0 ==> q <= 0 && (q - 1) * d < a <= q * d
  {
    var f := (if a >= 0 then a else -a) / d;
    assert (if a >= 0 then a else -a) == f * d + (if a >= 0 then a else -a) % d;
    assert (f + 1) * d == f * d + d;
    if a >= 0 then f else -f
  }

  function Max0(x: int): nat { if x < 0 then 0 else x }

  datatype Plan = Plan(
    randDataSize: int,   // payload characters per row: the row size minus the 8-byte id
    totalBytes: int,     // sizeMB * 1000 * 1000, in int64 arithmetic
    perThreadBytes: int, // bytes per table
    numRows: int,        // rows per table
    totalInserts: int)   // insert batches over all tables

  /** sizeMB * 1000 * 1000 evaluated in int64: the int64 congruent to the exact number of
      bytes modulo 2^64 (TotalBytesExact: the exact number for realistic sizes). */
  function TotalBytes(sizeMB: int): (t: int)
    ensures InRange(t) && (t - sizeMB * 1000000) % Modulus == 0
  {
    var w := Wrap64(sizeMB * 1000);
    MultipleSum(Wrap64(w * 1000) - w * 1000, w - sizeMB * 1000, 1000, Modulus);
    Wrap64(w * 1000)
  }

  /** Multiples of m stay multiples of m under a + c * b. */
  lemma MultipleSum(a: int, b: int, c: int, m: int)
    requires m >= 1 && a % m == 0 && b % m == 0
    ensures (a + c * b) % m == 0
  {
    var x := a / m + c * (b / m);
    assert a == m * (a / m) && b == m * (b / m);
    assert c * b == m * (c * (b / m));
    assert a + c * b == m * x;
    MultipleMod(m, x);
  }

  lemma MultipleMod(m: int, x: int)
    requires m >= 1
    ensures (m * x) % m == 0
  {
    var q, r := (m * x) / m, (m * x) % m;
    assert r == m * (x - q);
    if x - q >= 1 {
      MulLe(1, x - q, m);
    } else if x - q <= -1 {
      MulLe(x - q, -1, m);
    }
  }

  /** The plan for `threads` tables of rows of `rowSize` bytes, inserted `bulk` at a time.
      The total is sizeMB megabytes in bytes; each table gets the total split evenly and
      rounded up, in whole rows rounded up; and the batch count, or none when it is
      negative, is what the workers' loops consume together. */
  function MakePlan(sizeMB: int, threads: int, rowSize: int, bulk: int): (p: Plan)
    requires threads >= 1 && rowSize >= 8 && bulk >= 1
    ensures p.randDataSize >= 0 && p.randDataSize + 8 == rowSize
    ensures p.totalBytes == TotalBytes(sizeMB)
    ensures p.perThreadBytes * threads >= p.totalBytes > (p.perThreadBytes - 1) * threads
    ensures p.numRows * rowSize >= p.perThreadBytes > (p.numRows - 1) * rowSize
    ensures Max0(p.totalInserts) == threads * WorkerInserts(p.numRows, bulk)
  {
    var total := TotalBytes(sizeMB);
    var perThread := CeilDiv(total, threads);
    var numRows := CeilDiv(perThread, rowSize);
    ProducedEqualsConsumed(threads, numRows, bulk);
    Plan(rowSize - 8, total, perThread, numRows, threads * GoQuot(numRows + bulk - 1, bulk))
  }

  /** How many times a worker's loop `for inserted := 0; inserted < numRows; inserted += bulk`
      runs: the least k >= 0 with k * bulk >= numRows. */
  function WorkerInserts(numRows: int, bulk: int): (k: nat)
    requires bulk >= 1
    ensures k * bulk >= numRows
    ensures k == 0 || (k - 1) * bulk < numRows
  {
    if numRows <= 0 then 0 else CeilDiv(numRows, bulk)
  }

  /** WorkerInserts is the least count whose batches cover numRows. */
  lemma WorkerInsertsLeast(k: nat, numRows: int, bulk: int)
    requires bulk >= 1 && k * bulk >= numRows
    ensures WorkerInserts(numRows, bulk) <= k
  {
    var n := WorkerInserts(numRows, bulk);
    if k < n {
      MulLe(k, n - 1, bulk);
    }
  }

  /** A count whose batches leave rows uncovered is below the loop count. */
  lemma WorkerInsertsMore(k: nat, numRows: int, bulk: int)
    requires bulk >= 1 && k * bulk < numRows
    ensures k < WorkerInserts(numRows, bulk)
  {
    var n := WorkerInserts(numRows, bulk);
    if n <= k {
      MulLe(n, k, bulk);
    }
  }

  /** The rows a table receives: every batch is full, so at least the planned rows
      and less than one extra batch on top. */
  lemma TableRowsBounds(numRows: int, bulk: int)
    requires bulk >= 1 && numRows > 0
    ensures numRows <= WorkerInserts(numRows, bulk) * bulk < numRows + bulk
  {
  }

  /** The producer's batch count equals what the workers consume together: each of the
      `threads` workers runs its loop ceil(numRows / bulk) times, which Go computes as
      (numRows + bulk - 1) / bulk, truncated; a negative count sends nothing. */
  lemma ProducedEqualsConsumed(threads: int, numRows: int, bulk: int)
    requires threads >= 1 && bulk >= 1
    ensures Max0(threads * GoQuot(numRows + bulk - 1, bulk)) == threads * WorkerInserts(numRows, bulk)
  {
    var q := GoQuot(numRows + bulk - 1, bulk);
    if numRows <= 0 {
      assert q <= 0;
      assert threads * q <= 0;
    } else {
      assert q * bulk >= numRows && q >= 1 by {
        assert (q + 1) * bulk == q * bulk + bulk;
      }
      WorkerInsertsLeast(q, numRows, bulk);
      assert (q - 1) * bulk < numRows by {
        assert (q - 1) * bulk == q * bulk - bulk;
      }
      WorkerInsertsMore(q - 1, numRows, bulk);
      assert threads * q >= 0;
    }
  }

  lemma MulLe(a: int, b: int, c: nat)
    requires a <= b
    ensures a * c <= b * c
  {
  }

  /** Rounding only ever adds: the planned rows hold at least the requested bytes and
      less than one extra row per table beyond them. */
  lemma PlannedBytesBounds(sizeMB: int, threads: int, rowSize: int, bulk: int)
    requires threads >= 1 && rowSize >= 8 && bulk >= 1
    ensures var p := MakePlan(sizeMB, threads, rowSize, bulk);
      p.totalBytes <= threads * p.numRows * rowSize < p.totalBytes + threads * rowSize
  {
    var p := MakePlan(sizeMB, threads, rowSize, bulk);
    CeilingsCompose(p.totalBytes, threads, p.perThreadBytes, rowSize, p.numRows);
  }

  /** Two ceilings in a row: x rounded up to multiples of t, then to multiples of s. */
  lemma CeilingsCompose(total: int, t: nat, per: int, s: nat, rows: int)
    requires t >= 1 && s >= 1
    requires per * t >= total > (per - 1) * t
    requires rows * s >= per > (rows - 1) * s
    ensures total <= t * rows * s < total + t * s
  {
    var rowsBytes := rows * s;
    assert rowsBytes <= per + s - 1 by {
      assert (rows - 1) * s == rowsBytes - s;
    }
    assert per * t <= total + t - 1 by {
      assert (per - 1) * t == per * t - t;
    }
    MulLe(per, rowsBytes, t);
    MulLe(rowsBytes, per + s - 1, t);
    assert (per + s - 1) * t == per * t + s * t - t;
    assert t * rows * s == rowsBytes * t;
  }

  /** Sizes below about 9.2 million terabytes do not overflow int64. */
  lemma TotalBytesExact(sizeMB: int)
    requires -9223372036854 <= sizeMB <= 9223372036854
    ensures TotalBytes(sizeMB) == sizeMB * 1000000
  {
    Wrap64Exact(sizeMB * 1000);
    Wrap64Exact(sizeMB * 1000 * 1000);
  }

  /** The ceiling is the only q with q * d >= a > (q - 1) * d. */
  lemma CeilDivUnique(a: int, d: int, q: int)
    requires d >= 1 && q * d >= a > (q - 1) * d
    ensures CeilDiv(a, d) == q
  {
    var c := CeilDiv(a, d);
    if c < q {
      MulLe(c, q - 1, d);
    } else if c > q {
      MulLe(q, c - 1, d);
    }
  }

  /** "3G" on one table and on four tables, rows of 2048 bytes, 4000 rows per insert. */
  lemma PlanExamples()
    ensures MakePlan(3000, 1, 2048, 4000).numRows == 1464844
    ensures MakePlan(3000, 4, 2048, 4000).perThreadBytes == 750000000
    ensures MakePlan(3000, 4, 2048, 4000).numRows == 366211
    ensures WorkerInserts(366211, 4000) == 92
    ensures MakePlan(3000, 4, 2048, 4000).totalInserts == 368
  {
    TotalBytesExact(3000);
    CeilDivUnique(3000000000, 1, 3000000000);
    CeilDivUnique(3000000000, 2048, 1464844);
    CeilDivUnique(3000000000, 4, 750000000);
    CeilDivUnique(750000000, 2048, 366211);
    CeilDivUnique(366211, 4000, 92);
    assert GoQuot(366211 + 4000 - 1, 4000) == 92;
  }
}
