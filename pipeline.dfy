/** The producer goroutine, the per-table workers and main's coordination, run one
    after another: the producer fills the channel with every batch, then worker 0,
    worker 1, ... each drain their share from its front. */
module Pipeline {
  import opened Wrappers
  import opened Generator
  import opened Sizing
  import opened Statements

  /** The rows of one insert, as sent on the channel. */
  type Batch = seq<string>

  /** All rows of a sequence of batches, in channel order. */
  function Rows(batches: seq<Batch>): seq<string>
  {
    if batches == [] then [] else Rows(batches[..|batches| - 1]) + batches[|batches| - 1]
  }

  /** The characters of a sequence of rows, one row after the other. */
  function Concat(rows: seq<string>): string
  {
    if rows == [] then "" else Concat(rows[..|rows| - 1]) + rows[|rows| - 1]
  }

  /** Every batch holds `bulk` rows of `size` characters. */
  predicate FullBatches(batches: seq<Batch>, bulk: nat, size: nat)
  {
    forall i :: 0 <= i < |batches| ==>
      |batches[i]| == bulk && forall j :: 0 <= j < bulk ==> |batches[i][j]| == size
  }

  lemma {:induction false} ConcatAppend(a: seq<string>, b: seq<string>)
    ensures Concat(a + b) == Concat(a) + Concat(b)
    decreases |b|
  {
    if b != [] {
      assert (a + b)[..|a + b| - 1] == a + b[..|b| - 1];
      ConcatAppend(a, b[..|b| - 1]);
    } else {
      assert a + b == a;
    }
  }

  /** Full batches of `bulk` rows make `|batches| * bulk` rows. */
  lemma {:induction false} RowsLength(batches: seq<Batch>, bulk: nat, size: nat)
    requires FullBatches(batches, bulk, size)
    ensures |Rows(batches)| == |batches| * bulk
  {
    if batches != [] {
      var init := batches[..|batches| - 1];
      assert FullBatches(init, bulk, size) by {
        assert forall i :: 0 <= i < |init| ==> init[i] == batches[i];
      }
      RowsLength(init, bulk, size);
      MulSucc(|init|, bulk);
    }
  }

  /** The n bytes the random stream yields from position `from` on. */
  function Draw(random: nat -> byte, from: nat, n: nat): (bytes: seq<byte>)
    ensures |bytes| == n
  {
    seq(n, i requires 0 <= i < n => random(from + i))
  }

  /** Drawing m bytes and then n more is drawing m + n bytes. */
  lemma DrawSplit(random: nat -> byte, from: nat, m: nat, n: nat)
    ensures Draw(random, from, m) + Draw(random, from + m, n) == Draw(random, from, m + n)
  {
  }

  /** Payloads of adjacent runs of random bytes join into the payload of the whole run. */
  lemma PayloadExtend(random: nat -> byte, from: nat, m: nat, n: nat)
    ensures Payload(Draw(random, from, m)) + Payload(Draw(random, from + m, n))
         == Payload(Draw(random, from, m + n))
  {
    PayloadConcat(Draw(random, from, m), Draw(random, from + m, n));
    DrawSplit(random, from, m, n);
  }

  lemma MulSucc(a: int, c: int)
    ensures (a + 1) * c == a * c + c
  {
  }

  /** Slice i + 1 of count slices of equal width still fits in what is available. */
  lemma NextSliceFits(i: nat, count: nat, width: nat, available: nat)
    requires i < count && count * width <= available
    ensures (i + 1) * width == i * width + width <= available
  {
    MulLe(i + 1, count, width);
  }

  /** The rows, one after the other, are the payload of n random bytes from `from` on. */
  predicate Generated(rows: seq<string>, random: nat -> byte, from: nat, n: nat)
  {
    Concat(rows) == Payload(Draw(random, from, n))
  }

  /** Every row has `size` characters. */
  predicate Sized(rows: seq<string>, size: nat)
  {
    forall j :: 0 <= j < |rows| ==> |rows[j]| == size
  }

  /** Generating one more row keeps the rows in step with the random bytes drawn. */
  lemma AppendRow(done: seq<string>, s: string, size: nat, random: nat -> byte, from: nat, m: nat)
    requires Generated(done, random, from, m) && Sized(done, size)
    requires s == Payload(Draw(random, from + m, size))
    ensures Generated(done + [s], random, from, m + size) && Sized(done + [s], size)
  {
    ConcatAppend(done, [s]);
    assert Concat([s]) == s by { assert [s][..0] == []; }
    PayloadExtend(random, from, m, size);
    PayloadInAlphabet(Draw(random, from + m, size));
  }

  /** One batch: `bulk` rows, each GenData of the next `size` bytes of the random
      stream, starting at position `from`; `next` is where the following batch starts. */
  method GenBatch(bulk: nat, size: nat, random: nat -> byte, from: nat) returns (rows: Batch, next: nat)
    ensures |rows| == bulk && Sized(rows, size)
    ensures from <= next && Generated(rows, random, from, next - from)
  {
    var arr := new string[bulk];
    next := from;
    for j := 0 to bulk
      invariant from <= next
      invariant Generated(arr[..j], random, from, next - from) && Sized(arr[..j], size)
    {
      var s := GenData(Draw(random, next, size));
      ghost var done := arr[..j];
      arr[j] := s;
      assert arr[..j + 1] == done + [s];
      AppendRow(done, s, size, random, from, next - from);
      next := next + size;
    }
    assert arr[..bulk] == arr[..];
    rows := arr[..];
  }

  /** Sending one more full batch keeps every batch full and the rows in step with the
      random bytes drawn so far. */
  lemma AppendBatch(batches: seq<Batch>, rows: Batch, bulk: nat, size: nat,
                    random: nat -> byte, used: nat, next: nat)
    requires FullBatches(batches, bulk, size)
    requires |rows| == bulk && Sized(rows, size)
    requires used <= next
    requires Concat(Rows(batches)) == Payload(Draw(random, 0, used))
    requires Generated(rows, random, used, next - used)
    ensures FullBatches(batches + [rows], bulk, size)
    ensures Concat(Rows(batches + [rows])) == Payload(Draw(random, 0, next))
  {
    assert forall k :: 0 <= k < |batches| ==> (batches + [rows])[k] == batches[k];
    assert Rows(batches + [rows]) == Rows(batches) + rows by {
      assert (batches + [rows])[..|batches|] == batches;
    }
    ConcatAppend(Rows(batches), rows);
    PayloadExtend(random, 0, used, next - used);
  }

  /** The producer goroutine: `totalInserts` batches (none when it is not positive),
      every one full, their rows generated from the random stream consumed in order
      from its start; `used` is how many bytes were drawn. */
  method Producer(totalInserts: int, bulk: nat, size: nat, random: nat -> byte)
    returns (batches: seq<Batch>, used: nat)
    ensures |batches| == Max0(totalInserts)
    ensures FullBatches(batches, bulk, size)
    ensures Concat(Rows(batches)) == Payload(Draw(random, 0, used))
  {
    batches, used := [], 0;
    var i := 0;
    while i < totalInserts
      invariant 0 <= i <= Max0(totalInserts) && |batches| == i
      invariant FullBatches(batches, bulk, size)
      invariant Concat(Rows(batches)) == Payload(Draw(random, 0, used))
    {
      var rows, next := GenBatch(bulk, size, random, used);
      AppendBatch(batches, rows, bulk, size, random, used, next);
      batches := batches + [rows];
      used, i := next, i + 1;
    }
  }

  /** Rows of equal length make a text of that length times their number. */
  lemma {:induction false} ConcatLength(rows: seq<string>, size: nat)
    requires forall j :: 0 <= j < |rows| ==> |rows[j]| == size
    ensures |Concat(rows)| == |rows| * size
  {
    if rows != [] {
      var init := rows[..|rows| - 1];
      assert forall j :: 0 <= j < |init| ==> init[j] == rows[j];
      ConcatLength(init, size);
      MulSucc(|init|, size);
    }
  }

  /** Every row of full batches has `size` characters. */
  lemma {:induction false} RowsSized(batches: seq<Batch>, bulk: nat, size: nat)
    requires FullBatches(batches, bulk, size)
    ensures forall j :: 0 <= j < |Rows(batches)| ==> |Rows(batches)[j]| == size
  {
    if batches != [] {
      var init := batches[..|batches| - 1];
      assert FullBatches(init, bulk, size) by {
        assert forall i :: 0 <= i < |init| ==> init[i] == batches[i];
      }
      RowsSized(init, bulk, size);
      assert Rows(batches) == Rows(init) + batches[|batches| - 1];
    }
  }

  /** The producer draws exactly `size` random bytes per row: one batch of full rows
      after another consumes |batches| * bulk * size bytes of the stream. */
  lemma ProducerDraws(batches: seq<Batch>, bulk: nat, size: nat, random: nat -> byte, used: nat)
    requires FullBatches(batches, bulk, size)
    requires Concat(Rows(batches)) == Payload(Draw(random, 0, used))
    ensures used == |batches| * bulk * size
  {
    RowsLength(batches, bulk, size);
    RowsSized(batches, bulk, size);
    ConcatLength(Rows(batches), size);
    PayloadInAlphabet(Draw(random, 0, used));
  }

  /** The server confirmed all `bulk` rows of the first n inserts into table t. */
  predicate ConfirmedTable(rowsAffected: (nat, nat) -> int, t: nat, n: nat, bulk: int)
  {
    forall k :: 0 <= k < n ==> rowsAffected(t, k) == bulk
  }

  lemma ConfirmedTableNext(rowsAffected: (nat, nat) -> int, t: nat, n: nat, bulk: int)
    requires ConfirmedTable(rowsAffected, t, n, bulk) && rowsAffected(t, n) == bulk
    ensures ConfirmedTable(rowsAffected, t, n + 1, bulk)
  {
  }

  /** Why a run stops early: an insert reported the wrong number of rows, or a worker
      found the channel closed and empty. In the program the latter executes the statement
      with no arguments for its `bulk` placeholders; database/sql refuses that call with an
      argument-count error, InsertRows returns it and the worker panics. */
  datatype RunError = InsertFailed(table: string, cause: InsertError) | ChannelClosed(table: string)

  /** The worker goroutine of table `t`: prepares its statement, then runs
      `for inserted := 0; inserted < numRows; inserted += bulk`, taking one batch from
      the front of the channel per step, and stops at the first insert the server does
      not confirm in full. `rowsAffected(t, k)` is what the server reports for the k-th
      insert into table t. */
  method Worker(t: nat, numRows: int, bulk: int, channel: seq<Batch>, rowsAffected: (nat, nat) -> int)
    returns (err: Option<RunError>, taken: nat, query: string)
    requires bulk >= 1
    ensures query == InsertQuery(TableName(t), bulk)
    ensures taken <= |channel| && taken <= WorkerInserts(numRows, bulk)
    ensures err.None? <==> (WorkerInserts(numRows, bulk) <= |channel| &&
      ConfirmedTable(rowsAffected, t, WorkerInserts(numRows, bulk), bulk))
    ensures err.None? ==> taken == WorkerInserts(numRows, bulk)
    ensures err.Some? && err.value.InsertFailed? ==>
      taken >= 1 && err.value == InsertFailed(TableName(t), RowCountMismatch(bulk, rowsAffected(t, taken - 1)))
    ensures err.Some? && err.value.InsertFailed? ==>
      rowsAffected(t, taken - 1) != bulk && ConfirmedTable(rowsAffected, t, taken - 1, bulk)
    ensures err.Some? && err.value.ChannelClosed? ==>
      err.value.table == TableName(t) && taken == |channel| < WorkerInserts(numRows, bulk)
    ensures err.Some? && err.value.ChannelClosed? ==> ConfirmedTable(rowsAffected, t, taken, bulk)
  {
    var name := TableName(t);
    var qmarksStr := BuildPlaceholders(bulk);
    query := "INSERT INTO " + name + " (data) VALUES " + qmarksStr;
    var inserted := 0;
    taken := 0;
    while inserted < numRows
      invariant inserted == taken * bulk
      invariant taken <= |channel| && taken <= WorkerInserts(numRows, bulk)
      invariant ConfirmedTable(rowsAffected, t, taken, bulk)
      decreases numRows - inserted
    {
      WorkerInsertsMore(taken, numRows, bulk);
      if taken == |channel| {
        return Some(ChannelClosed(name)), taken, query;
      }
      var rows := channel[taken];
      taken := taken + 1;
      var failure := CheckAffected(rowsAffected(t, taken - 1), bulk);
      if failure.Some? {
        return Some(InsertFailed(name, failure.value)), taken, query;
      }
      ConfirmedTableNext(rowsAffected, t, taken - 1, bulk);
      MulSucc(taken - 1, bulk);
      inserted := inserted + bulk;
    }
    WorkerInsertsLeast(taken, numRows, bulk);
    err := None;
  }

  /** The share of n batches at `start`: full batches of bulk rows each, after which
      the channel holds the batches from start + n on. */
  lemma NextShare(batches: seq<Batch>, start: nat, n: nat, bulk: nat, size: nat)
    requires FullBatches(batches, bulk, size) && start + n <= |batches|
    ensures |Rows(batches[start..][..n])| == n * bulk
    ensures batches[start..][n..] == batches[start + n..]
  {
    var share := batches[start..][..n];
    assert FullBatches(share, bulk, size) by {
      assert forall k :: 0 <= k < n ==> share[k] == batches[start + k];
    }
    RowsLength(share, bulk, size);
  }

  /** The server confirmed all `bulk` rows of the first n inserts into each of the first
      `tables` tables. */
  predicate Confirmed(rowsAffected: (nat, nat) -> int, tables: nat, n: nat, bulk: int)
  {
    forall t, k :: 0 <= t < tables && 0 <= k < n ==> rowsAffected(t, k) == bulk
  }

  lemma ConfirmedNext(rowsAffected: (nat, nat) -> int, t: nat, n: nat, bulk: int)
    requires Confirmed(rowsAffected, t, n, bulk)
    requires ConfirmedTable(rowsAffected, t, n, bulk)
    ensures Confirmed(rowsAffected, t + 1, n, bulk)
  {
  }

  /** main's worker loop: table t's worker drains its share from the front of the
      channel, one table after the other. With exactly threads * ceil(numRows / bulk)
      full batches on the channel, the run succeeds exactly when the server confirms
      every insert, and then every table got its share and nothing is left over. */
  method RunWorkers(threads: nat, numRows: int, bulk: int, size: nat, batches: seq<Batch>,
                    rowsAffected: (nat, nat) -> int)
    returns (err: Option<RunError>, tableRows: seq<nat>, leftover: seq<Batch>)
    requires bulk >= 1
    requires |batches| == threads * WorkerInserts(numRows, bulk)
    requires FullBatches(batches, bulk, size)
    ensures err.None? <==> Confirmed(rowsAffected, threads, WorkerInserts(numRows, bulk), bulk)
    ensures err.None? ==> leftover == [] && |tableRows| == threads
    ensures err.None? ==> forall t :: 0 <= t < threads ==> tableRows[t] == WorkerInserts(numRows, bulk) * bulk
    ensures err.Some? ==> err.value.InsertFailed?
  {
    var n := WorkerInserts(numRows, bulk);
    var channel := batches;
    tableRows := [];
    var t, start := 0, 0;
    while t < threads
      invariant 0 <= t <= threads
      invariant start == t * n && start <= |batches| && channel == batches[start..]
      invariant |tableRows| == t && forall u :: 0 <= u < t ==> tableRows[u] == n * bulk
      invariant Confirmed(rowsAffected, t, n, bulk)
    {
      NextSliceFits(t, threads, n, |batches|);
      assert n <= |channel| == |batches| - start;
      var e, taken, _ := Worker(t, numRows, bulk, channel, rowsAffected);
      if e.Some? {
        assert !ConfirmedTable(rowsAffected, t, n, bulk);
        return e, tableRows, channel[taken..];
      }
      ConfirmedNext(rowsAffected, t, n, bulk);
      NextShare(batches, start, n, bulk, size);
      tableRows := tableRows + [|Rows(channel[..taken])|];
      channel := channel[taken..];
      t, start := t + 1, start + n;
    }
    err, leftover := None, channel;
  }

  /** main from the plan on: produce every batch, then let each table's worker insert
      its share. Succeeds exactly when the server confirms every insert; then the
      channel is drained completely and every table received ceil(numRows / bulk) full
      batches. The batches produced are threads * ceil(numRows / bulk) full batches
      whose rows are the payload of the first `drawn` bytes of the stream, rowSize - 8
      bytes per row. */
  method Populate(sizeMB: int, threads: int, rowSize: int, bulk: int,
                  random: nat -> byte, rowsAffected: (nat, nat) -> int)
    returns (err: Option<RunError>, tableRows: seq<nat>, leftover: seq<Batch>,
             produced: seq<Batch>, drawn: nat)
    requires threads >= 1 && rowSize >= 8 && bulk >= 1
    ensures |produced| == threads * WorkerInserts(MakePlan(sizeMB, threads, rowSize, bulk).numRows, bulk)
    ensures FullBatches(produced, bulk, rowSize - 8)
    ensures Generated(Rows(produced), random, 0, drawn) && drawn == |produced| * bulk * (rowSize - 8)
    ensures err.None? <==>
      Confirmed(rowsAffected, threads, WorkerInserts(MakePlan(sizeMB, threads, rowSize, bulk).numRows, bulk), bulk)
    ensures err.None? ==> leftover == [] && |tableRows| == threads
    ensures err.None? ==> forall t :: 0 <= t < threads ==>
      tableRows[t] == WorkerInserts(MakePlan(sizeMB, threads, rowSize, bulk).numRows, bulk) * bulk
    ensures err.Some? ==> err.value.InsertFailed?
  {
    var p := MakePlan(sizeMB, threads, rowSize, bulk);
    produced, drawn := Producer(p.totalInserts, bulk, p.randDataSize, random);
    ProducerDraws(produced, bulk, p.randDataSize, random, drawn);
    err, tableRows, leftover := RunWorkers(threads, p.numRows, bulk, p.randDataSize, produced, rowsAffected);
  }
}
