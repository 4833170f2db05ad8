# mariadb-datagen, modelled in Dafny

mariadb-datagen fills a MariaDB database with synthetic data of a requested size. It
reads a target database name and a size expression such as `3G`, `10M` or `1T`. It
creates one table per thread, named `table000`, `table001`, and so on. A producer
goroutine generates batches of random alphanumeric rows. Each table's worker takes
batches from a shared channel and inserts each one with a prepared multi-row
`INSERT`. After every insert it checks that the server reports the full batch.

The model covers the logic of `main.go` once the database, the goroutines and the
random source are abstracted away:

- `Flags`: the size-expression check (`validateFlags`).
  - As a function `SizeMB` with lemmas about it.
  - As a method `Settings.ValidateFlags` on an object holding the flag variables it reads and the `sizeMB` it writes.
- `Strconv`, `Decimal`, `Int64`: `strconv.Atoi` for a 64-bit `int`, decimal digit strings, and int64 wrap-around.
- `Generator`: `GenData`, a loop filling a character array from random bytes over the 62-character alphabet.
- `Sizing`: the start-up plan, meaning bytes per table, rows per table and the total number of insert batches, with Go's truncating division.
- `Statements`: the placeholder list, the `INSERT` text, the table names and the affected-rows check of `InsertRows`.
- `Pipeline`:
  - the producer loop and the worker loop, as methods with loop invariants;
  - `RunWorkers`, which runs all table workers;
  - `Populate`, which runs `main` from the plan onwards.

Randomness is an unbounded byte stream `random: nat -> byte`, consumed in order by the
single producer. The server's affected-row count for the k-th insert into table t is a
parameter, `rowsAffected(t, k)`.

The goroutines run one after the other in the model:

1. The producer puts every batch on the channel.
2. Worker 0, then worker 1, and so on each take their share from the channel's front.

Because every batch is full, any interleaving hands each worker the same number of
batches of the same size. Only which rows go to which table depends on the schedule.

Where the code and its help text disagree, the model follows the code. The help text
at `main.go:34` promises that `'3'` means 3 GB. In the code (`main.go:45-48, 68`), a size
string that ends in none of `G`, `M`, `T` leaves `n` at 0, so `sizeMB` becomes 0 and no
error is reported. `SizeWithoutUnit` and `HelpTextExamples` state this.

For 3 GB of 2048-byte rows inserted 4000 at a time, the exact figures are as follows
(`PlanExamples`):

- One table gets 1464844 rows.
- With four tables, each table gets 750000000 bytes, 366211 rows and 92 inserts, so 368 inserts in all.

The producer only ever sends full batches, so each of the four tables receives
92 * 4000 rows. No batch is shorter.

The code assumes three conditions it never checks. The model states them as preconditions:

- `threads >= 1`.
- `rowSize >= 8`. A smaller row size makes `GenData`'s `make` fail on a negative length. A row size of exactly 8 yields empty payloads.
- `bulk >= 1`. The batch count divides by it.

## Model

| member | source | states |
|---|---|---|
| Flags.SizeMB | main.go:40-70 | an empty database name is the error, before the size is looked at; a successful size fits in int64 |
| Flags.Scaled | main.go:49-68 | the number in front of a G/M/T unit, when Atoi accepts it, times the unit's multiplier in int64 arithmetic; otherwise the error naming the refused text |
| Flags.SizeWithUnit | main.go:48-68 | any text Atoi accepts, followed by G, M or T, gives n * 1000, n * 1 or n * 1000000 in int64 arithmetic, exactly n * multiplier when no overflow occurs |
| Flags.SizeWithItoa | main.go:48-68 | the decimal notation of every int64 followed by a unit gives the scaled value |
| Flags.SignsAndLeadingZeros | main.go:49-68 | "+3G" is 3000 MB, "007M" is 7 MB and "-2G" is accepted as -2000 MB |
| Flags.SizeWithBadNumber | main.go:49-66 | when Atoi refuses the text before the unit, the result is an error naming that text |
| Flags.SizeWithoutUnit | main.go:45-68 | a size string ending in none of G, M, T yields 0 MB and no error |
| Flags.HelpTextExamples | main.go:34 | "3" gives 0 (not the 3 GB the help text promises), "3G" 3000, "10M" 10, "1T" 1000000, "G" an error, an empty database name an error |
| Flags.Settings.constructor | main.go:20-29 | the flag values are stored, sizeMB starts at 0 |
| Flags.Settings.ValidateFlags | main.go:40-70 | on success sizeMB holds the parsed size and no error is returned; on any error sizeMB is left unchanged |
| Strconv.Atoi | main.go:51 | a result is produced only for an optional sign followed by one or more digits. It lies in int64 range, its magnitude is the digits' value, and it is negative only after '-' and never positive after '-'. Every such text whose digits are at most MaxInt64 is accepted |
| Strconv.AtoiCanonical | main.go:51 | the converse of AtoiItoa: an accepted text is an optional sign, leading zeros, then the shortest notation of the value's magnitude |
| Decimal.DigitsCanonical | main.go:51 | a non-empty digit string is leading zeros followed by the shortest notation of its value |
| Strconv.AtoiItoa | main.go:51 | Atoi reads back every int64 written in decimal |
| Strconv.AtoiRejectsEmptyDigits | main.go:51 | a bare sign or the empty string is refused |
| Int64.Wrap64 | main.go:68 | the int64 result of an arithmetic operation is in range and congruent to the exact value modulo 2^64 |
| Int64.Wrap64Exact | main.go:68 | a value already in int64 range is not changed |
| Decimal.ValueFromNat | main.go:252 | the decimal digits of a number read back as that number |
| Decimal.ZeroPad | main.go:252 | %03d padding: at least the width, the digits at the end |
| Decimal.ValueZeroPad | main.go:252 | zero padding does not change the value of the digits |
| Generator.CharOf | main.go:149 | a random byte becomes a character of the alphabet |
| Generator.GenData | main.go:139-152 | the result has one character per byte, and character i is the alphabet entry at byte i modulo 62 |
| Generator.PayloadInAlphabet | main.go:140-151 | the payload has the requested length and only alphanumeric characters |
| Generator.PayloadConcat | main.go:143-151 | generating from two byte runs in turn is generating from their concatenation |
| Generator.PayloadOnto | main.go:140-151 | every alphanumeric string is the payload of some bytes |
| Sizing.CeilDiv | main.go:193-194 | the result is the least q with q * d >= a |
| Sizing.GoQuot | main.go:196 | Go's division truncates toward zero, for positive and negative dividends |
| Sizing.TotalBytes | main.go:190 | sizeMB * 1000 * 1000 in int64: in range and congruent to the exact byte count modulo 2^64 |
| Sizing.MakePlan | main.go:186-197 | randDataSize is rowSize - 8; the total is TotalBytes(sizeMB); perThreadBytes is ceil(total / threads); numRows is ceil(perThreadBytes / rowSize); the batch count, or 0 when negative, is threads times the worker loop count |
| Sizing.WorkerInserts | main.go:244 | the worker loop runs the least k >= 0 times with k * bulk >= numRows |
| Sizing.WorkerInsertsLeast | main.go:244 | no count smaller than WorkerInserts covers numRows |
| Sizing.WorkerInsertsMore | main.go:244 | a count whose batches leave rows uncovered is below the loop count |
| Sizing.TableRowsBounds | main.go:244-246 | a table receives at least numRows rows and fewer than numRows + bulk |
| Sizing.ProducedEqualsConsumed | main.go:196-244 | Go's threads * ((numRows + bulk - 1) / bulk), or none when it is negative, equals threads times the worker loop count |
| Sizing.PlannedBytesBounds | main.go:190-194 | the planned rows hold at least the requested bytes, and less than one extra row per table beyond them |
| Sizing.TotalBytesExact | main.go:190 | sizeMB * 1000 * 1000 does not overflow for sizes up to about 9.2 million TB |
| Sizing.PlanExamples | main.go:186-197 | 3 GB of 2048-byte rows: 1464844 rows on one table; 366211 rows, 92 inserts per table and 368 in all on four |
| Statements.JoinShape | main.go:237 | strings.Join of equal-width parts has their widths plus one separator between neighbours, starts with the first part and ends with the last |
| Statements.InsertQuery | main.go:238 | the statement names the table right after "INSERT INTO " and ends with the placeholder list |
| Statements.InsertQueryParameters | main.go:233-238 | a worker's statement holds exactly bulk '?' parameters, one per row of a batch |
| Statements.BuildPlaceholders | main.go:233-237 | the filled and joined qmarks slice is bulk copies of "(?)" joined by "," |
| Statements.PlaceholdersStep | main.go:233-237 | one more row adds ",(?)" |
| Statements.PlaceholdersLayout | main.go:233-238 | the list has 4 * bulk - 1 characters, with "(?)" at every fourth position and a comma between neighbours |
| Statements.PlaceholderCounts | main.go:233-238 | the list holds exactly bulk markers and bulk - 1 commas |
| Statements.TableName | main.go:252 | a name is "table" followed by at least three digits |
| Statements.TableNameLength | main.go:252 | the first thousand names have eight characters |
| Statements.TableNameIndex | main.go:252 | the table index reads back from the name |
| Statements.TableNamesDistinct | main.go:252 | different workers create different tables |
| Statements.CheckAffected | main.go:164-167 | an insert fails exactly when the affected count differs from the batch size, and the error carries both numbers |
| Pipeline.Draw | main.go:143 | a draw of n bytes from the random stream has n bytes |
| Pipeline.DrawSplit | main.go:143 | consecutive draws join into one draw |
| Pipeline.PayloadExtend | main.go:143-151 | payloads of consecutive draws join into the payload of the joined draw |
| Pipeline.GenBatch | main.go:206-209 | a batch has bulk rows of randDataSize characters, and its rows are the payload of the consecutive bytes drawn |
| Pipeline.AppendBatch | main.go:204-210 | one more full batch keeps the sent rows equal to the payload of every byte drawn so far |
| Pipeline.Producer | main.go:201-213 | the producer sends max(totalInserts, 0) batches, all full, whose rows are the payload of the stream's first bytes in order |
| Pipeline.RowsLength | main.go:206 | full batches make bulk rows each |
| Pipeline.ConcatLength | main.go:208 | rows of equal size make text of that size times their number |
| Pipeline.RowsSized | main.go:206-209 | every row of full batches has randDataSize characters |
| Pipeline.ProducerDraws | main.go:204-209 | the producer draws exactly randDataSize random bytes per row |
| Pipeline.Worker | main.go:224-252 | the worker prepares "INSERT INTO tableNNN (data) VALUES (?),...". It succeeds exactly when the channel has ceil(numRows / bulk) batches for it and each insert is confirmed, and it then takes exactly that many. Otherwise it stops at the first insert not confirmed in full, after all earlier ones were confirmed, and reports that insert's count. If the channel is closed and empty first, it stops there, with every insert so far confirmed |
| Pipeline.NextShare | main.go:244-247 | a worker's share of full batches holds share * bulk rows, and the channel keeps the rest in order |
| Pipeline.RunWorkers | main.go:221-254 | given exactly threads * ceil(numRows / bulk) full batches, the run succeeds exactly when every insert is confirmed; then every table gets ceil(numRows / bulk) * bulk rows and the channel is empty; no worker ever finds it closed |
| Pipeline.Populate | main.go:186-254 | the plan, the producer and the workers together: the batches produced are exactly what the workers consume, all full and drawn from the stream in order, and the run succeeds exactly when the server confirms every insert |

## Left out

- `InitDB`, `DB.Close`, `CreateTable`, `PrepareContext` and `ExecContext` are database and network I/O. The affected-row count is a parameter of the model. The server's errors, which `InsertRows` passes on, are not modelled.
- `rand.Read` is nondeterministic. It becomes the byte stream `random`, and its error, which makes the program panic, is left out.
- The goroutines, the channel's capacity of `2 * threads` with its backpressure, and the `sync.WaitGroup` are left out. The model runs the producer, then the workers one after the other. Which table receives which rows under another schedule is not modelled.
- The progress bar, the flag registration in `init` and the `log.Fatalf` / `panic` exits are left out. A failed run is an error value.
- Pipeline.Worker: with a closed, empty channel the program executes the statement with no arguments for its `bulk` placeholders. database/sql refuses that call with an argument-count error, `InsertRows` returns it (`main.go:156-158`) and the worker panics. The model stops with `ChannelClosed` instead. With the plan's batch count this never happens (`RunWorkers`).
- Sizing.MakePlan: the float64 ceilings are exact integer ceilings. float64 rounding for totals beyond 2^53 bytes is not modelled.
- Sizing.MakePlan: the int64 overflow of `threads * ceil(numRows / bulk)` is not modelled. Neither is the overflow of the worker's `inserted` counter.
- Strconv.Atoi: it returns no value for both of Go's errors, `ErrSyntax` and `ErrRange`. The message text of the errors is left out.
- Go's `int` is taken to be 64 bits wide.
