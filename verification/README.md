# mockdata: a verified model of the row generator

`MockDataGenerator` (flightlesson/mockdata) writes mock rows for range-overlap benchmarks
to standard output. Each row has a handle, an interval `[e, e+d]` and a payload `'i:d'`.
There are three output modes:

- CSV (neither flag);
- one multi-row `INSERT INTO mock ... VALUES` statement (`sql`);
- the PostgreSQL `COPY mock ... FROM stdin` text format, preceded by a `CREATE TABLE`
  statement and ended by the `\.` line (`createTable`, which wins over `sql`).

This project models the generator's configuration and its `run()` method. It proves what
the output looks like for every configuration and every sequence of random draws.

Modules:

- `JavaInt`: Java's 32-bit `int` and its wrap-around (`Wrap`). This matters for
  `n_handles - 1` and for `e + d`.
- `Decimal`: Java's decimal rendering of an `int` (`Show`) and a parser that inverts it
  (`Parse`).
- `Fields`: joining fields with a separator character (`Join`) and splitting a line back
  into its fields (`Split`).
- `MockData`: the model itself.
  - `Generator` holds the constructor's ten fields.
  - `Draw` holds one row's three random results.
  - `GenerateRow` computes one row; `RowLine` renders it in the active mode.
  - `Prologue`, `RowLines`, `Epilogue` and `RunOutput` specify everything that is printed;
    `RunOutcome` specifies whether the run ends normally or with an exception.
  - `Run` is the loop of `run()`, carrying the `comma` variable. It is proved to print
    exactly `RunOutput` and to end as `RunOutcome` says.
- `MockDataLemmas`: the properties of that specification:
  - handle and endpoint ranges;
  - the order and number of rows;
  - the shape of each output mode;
  - a round trip from each printed row back to its numbers, the same in every mode and
    endpoint encoding;
  - that the `earliest` field has no effect.

Modelling choices:

- Randomness is an input. For row `i`, `draws[i]` gives:
  - what `rand.nextInt(n_handles-1)` returned;
  - what `rand.nextInt(latest)` returned;
  - the Gaussian width after the `(int)` cast.

  `DrawFits` requires only that a `nextInt` result lies in `[0, bound)` when the bound is
  positive, which is what `java.util.Random` guarantees.
- `Random.nextInt` throws `IllegalArgumentException` for a bound that is not positive.
  - Neither bound depends on the row. So with `nrows > 0`, a bad bound throws on row 0,
    after the prologue has been printed. `RunOutcome` and `RunOutput` say exactly that.
  - When both bounds are bad, the handle bound is reported, because it is drawn first.
  - `n_handles == Integer.MIN_VALUE` makes `n_handles - 1` wrap to `Integer.MAX_VALUE`, a
    valid bound.
- Standard output is the sequence of strings handed to `println`, one element per call.
  Two of them contain newlines of their own: the `CREATE TABLE` text, and the terminator
  `\.` followed by a newline. So the COPY stream ends with `\.` and an empty line.
- The high endpoint is `e + d` in `int` arithmetic, with no clamping. `HighNotBelowLow`
  proves that the printed high endpoint is at least the low one exactly when `e + d` does
  not overflow. When it does overflow, the printed high endpoint is negative.

Facts about the code that the model keeps as written, each with the lemma that proves it:

- The handle is `nextInt(n_handles - 1) + 1` (line 162), so it lies in `[1, n_handles - 1]`
  and never equals `n_handles` (`HandleInRange`). The `--handles` help text (line 65) says
  "Handles range from 1 to this".
- The low endpoint is `nextInt(latest)` (line 163). It lies in `[0, latest)` (`LowInRange`),
  and nothing clamps it or the high endpoint.
- The `earliest` field is stored (line 134) but `run()` never reads it (`EarliestIgnored`).
- The INSERT statement ends with its last tuple: no `;` follows (`InsertModeShape`). Its
  header (line 157) ends with a space.
- The COPY and INSERT headers (lines 155 and 157) name the columns `lowest, highest`.
  `CREATE_TABLE_SQL` (lines 24-25) defines them as `range_low` and `range_high`. The model
  prints both texts as written (`CopyHeader`, `InsertHeader`, `CreateTableSql`).
- `run()` does not validate its configuration. A non-positive bound surfaces as the
  `nextInt` exception described above (`RunOutcome`).

`Generator` is a datatype, not a member, so it has no row below. Its ten fields are the
constructor's parameters and the `final` fields it assigns (`src/main/java/mockdata/MockDataGenerator.java`
lines 117-139), in the same order and with the same types.

## Model

| member | source | states |
|---|---|---|
| JavaInt.Wrap | src/main/java/mockdata/MockDataGenerator.java:162 | Java `int` subtraction and addition: the result is the 32-bit value congruent to the exact result modulo 2^32. It equals the exact result when that fits. An overflow past `MAX_VALUE` gives a negative value, and one below `MIN_VALUE` gives a non-negative value. |
| Decimal.ParseShow | src/main/java/mockdata/MockDataGenerator.java:168-176 | The decimal text that string concatenation and `String.valueOf` give an `int` reads back as that `int`, negative numbers included. |
| Decimal.ShowShape | src/main/java/mockdata/MockDataGenerator.java:175-176 | A rendered number is all digits, or a minus sign followed by digits. |
| Decimal.ShowCanonical | src/main/java/mockdata/MockDataGenerator.java:168-176 | The rendered number is canonical, as `Integer.toString` promises: zero is `"0"`, any other number starts with a digit other than `0`, and a negative number has a digit other than `0` right after its minus sign. |
| Decimal.Show | src/main/java/mockdata/MockDataGenerator.java:168-176 | Java's decimal text of an `int`: at least one character, and a leading `-` exactly for negative numbers. `ParseShow` proves that it reads back as the number, `ShowCanonical` that it has no leading zero, and `ShowShape` and `ShowAvoids` which characters it contains. |
| Decimal.ShowAvoids | src/main/java/mockdata/MockDataGenerator.java:168-185 | A rendered number contains no character other than digits and `-`, so no separator (`,`, tab, `:`). |
| Fields.SplitJoin | src/main/java/mockdata/MockDataGenerator.java:180-185 | Splitting fields that were joined by a separator gives the fields back, provided none of them contains the separator. |
| Fields.Join | src/main/java/mockdata/MockDataGenerator.java:180-185 | Fields joined by a separator character, as `run()` glues `h`, `lowest`, `highest` and `stuff` with `"\t"` or `","`. `SplitJoin` proves that splitting on the separator gives the fields back. |
| MockData.HandleBound | src/main/java/mockdata/MockDataGenerator.java:162 | The bound of the handle draw is `n_handles - 1`, or `Integer.MAX_VALUE` when `n_handles` is `Integer.MIN_VALUE` (wrap-around). |
| MockData.NextInt | src/main/java/mockdata/MockDataGenerator.java:162-163 | `nextInt(bound)` succeeds exactly when `bound > 0`, with a value in `[0, bound)`. Otherwise it fails with the non-positive bound. |
| MockData.FloorAtZero | src/main/java/mockdata/MockDataGenerator.java:165 | The width is never negative. A non-negative draw is kept, and a negative one becomes 0. |
| MockData.Row.High | src/main/java/mockdata/MockDataGenerator.java:172-176 | The high endpoint `e + d` in `int` arithmetic. `HighNotBelowLow` proves that it is at least `e`, and exactly `e + d`, if and only if the sum does not overflow. |
| MockData.GenerateRow | src/main/java/mockdata/MockDataGenerator.java:161-165 | Row `i` exists exactly when both `nextInt` bounds are positive. It then has index `i`, handle in `[1, bound]`, low endpoint in `[0, latest)` and a width that is non-negative and equal to a non-negative draw. On failure the handle bound's exception wins. |
| MockData.Endpoint | src/main/java/mockdata/MockDataGenerator.java:169-178 | An endpoint is `to_timestamp(n)` for range type `"timestamp"` and the bare number otherwise. `EndpointRoundTrip` proves that it reads back as `n`, and `TimestampWrapsEndpoints` relates the two encodings. |
| MockData.Payload | src/main/java/mockdata/MockDataGenerator.java:168 | The payload `'i:d'`. `PayloadRoundTrip` proves that it reads back as `i` and `d`, and `PayloadConcatenation` that it is the concatenation `run()` builds. |
| MockData.RowFields | src/main/java/mockdata/MockDataGenerator.java:166-178 | The four printed fields in order: handle, `lowest`, `highest`, `stuff`. `FieldsRoundTrip` proves that they read back as the row's numbers. |
| MockData.CopyRow | src/main/java/mockdata/MockDataGenerator.java:180 | A COPY row joins the fields with tabs. `RowLineConcatenation` proves that it is `h\tlowest\thighest\tstuff`. |
| MockData.InsertRow | src/main/java/mockdata/MockDataGenerator.java:182 | An INSERT tuple is `comma(...)` around the comma-joined fields. `RowLineConcatenation` proves that it is `comma(h,lowest,highest,stuff)`, and `StripTuple` that the fields come back out. |
| MockData.CsvRow | src/main/java/mockdata/MockDataGenerator.java:185 | A CSV row joins the fields with commas. `RowLineConcatenation` proves that it is `h,lowest,highest,stuff`. |
| MockData.RowLine | src/main/java/mockdata/MockDataGenerator.java:179-186 | The line printed for a row in the active mode, with COPY winning over INSERT and a leading comma on every INSERT tuple but the first. `RowLineRoundTrip` proves that it reads back as the row's numbers in every mode. |
| MockData.RunOutcome | src/main/java/mockdata/MockDataGenerator.java:160-163 | `run()` throws exactly when there is at least one row and one of the two `nextInt` bounds is not positive. |
| MockData.RowCount | src/main/java/mockdata/MockDataGenerator.java:161 | `for (i = 0; i < nrows; ++i)` runs `max(nrows, 0)` times. `RunLayout` proves that a completed run prints exactly that many row lines. |
| MockData.Prologue | src/main/java/mockdata/MockDataGenerator.java:144-158 | The lines printed before the loop: the optional banner, the CREATE TABLE text in COPY mode, and the COPY or INSERT header. `InsertModeShape`, `CopyModeShape` and `CsvModeShape` state it per mode. |
| MockData.Epilogue | src/main/java/mockdata/MockDataGenerator.java:189-191 | Only COPY mode prints anything after the loop, the `\.` terminator. `CopyModeShape` proves that it is the last line. |
| MockData.RowLines | src/main/java/mockdata/MockDataGenerator.java:161 | The loop prints exactly one line per iteration. |
| MockData.RunOutput | src/main/java/mockdata/MockDataGenerator.java:142-192 | Everything `run()` prints: the prologue, the row lines and the epilogue, or only the prologue when a draw throws. `Run` is proved to print exactly this, and `RunLayout` and `RowInOrder` prove its layout. |
| MockData.FormatRow | src/main/java/mockdata/MockDataGenerator.java:166-186 | The loop body after the draws prints the row's line for the active mode. It sets `comma` to `","` in INSERT mode and leaves it alone otherwise. |
| MockData.Run | src/main/java/mockdata/MockDataGenerator.java:142-192 | `run()` prints exactly the prologue, each row line in order, and the epilogue. If a draw throws, it prints only the prologue. It ends normally or with the exception exactly as `RunOutcome` says. |
| MockDataLemmas.RunLayout | src/main/java/mockdata/MockDataGenerator.java:142-192 | A completed run is the prologue, then exactly `max(nrows, 0)` row lines, then the epilogue. |
| MockDataLemmas.ThrownRunPrintsPrologueOnly | src/main/java/mockdata/MockDataGenerator.java:144-163 | A run that throws has printed the prologue and nothing else, and has at least one row to draw. |
| MockDataLemmas.RowInOrder | src/main/java/mockdata/MockDataGenerator.java:161-186 | Output line `prologue + k` is the line of row `k`. That row has handle `handleDraw + 1`, low endpoint `lowDraw` and the floored width, so rows come out in index order. |
| MockDataLemmas.RunRowReadsBack | src/main/java/mockdata/MockDataGenerator.java:161-185 | Output line `prologue + k` reads back as handle `handleDraw + 1`, low `lowDraw`, high `lowDraw + d` in `int` arithmetic, and payload index `k` and width `d`. |
| MockDataLemmas.GeneratedRow | src/main/java/mockdata/MockDataGenerator.java:162-165 | Helper, a proof step that unfolds the definitions: with both bounds positive, row `i` is built from its draws: `h + 1`, `e`, and `d` floored at zero. |
| MockDataLemmas.HandleInRange | src/main/java/mockdata/MockDataGenerator.java:162 | With `n_handles >= 2`, every handle lies in `[1, n_handles - 1]`. |
| MockDataLemmas.TooFewHandlesThrows | src/main/java/mockdata/MockDataGenerator.java:162 | With `n_handles <= 1` (and above `MIN_VALUE`), the handle draw throws with bound `n_handles - 1`. |
| MockDataLemmas.LowInRange | src/main/java/mockdata/MockDataGenerator.java:163 | The low endpoint lies in `[0, latest)`. |
| MockDataLemmas.HighNotBelowLow | src/main/java/mockdata/MockDataGenerator.java:164-176 | For a row with `e, d >= 0`, the printed high endpoint is at least the printed low endpoint if and only if `e + d` does not overflow. It then exceeds the low endpoint by exactly `d`. |
| MockDataLemmas.GeneratedRowIsOrdered | src/main/java/mockdata/MockDataGenerator.java:163-165 | Every generated row has `e >= 0` and `d >= 0`. |
| MockDataLemmas.EndpointRoundTrip | src/main/java/mockdata/MockDataGenerator.java:169-178 | An endpoint, bare or as `to_timestamp(n)`, reads back as its number. |
| MockDataLemmas.PayloadRoundTrip | src/main/java/mockdata/MockDataGenerator.java:168 | The payload `'i:d'` reads back as `i` and `d`. |
| MockDataLemmas.PayloadConcatenation | src/main/java/mockdata/MockDataGenerator.java:168 | The payload is the concatenation of a quote, `i`, a colon, `d` and a quote. |
| MockDataLemmas.FieldsRoundTrip | src/main/java/mockdata/MockDataGenerator.java:168-178 | The four printed fields read back as handle, `e`, `e + d`, `i` and `d`. |
| MockDataLemmas.SplitRowFields | src/main/java/mockdata/MockDataGenerator.java:180-185 | No field contains a comma or a tab, so splitting a framed row on its separator gives back exactly the four fields. |
| MockDataLemmas.RowLineFraming | src/main/java/mockdata/MockDataGenerator.java:179-186 | Helper, a proof step that unfolds the definitions: COPY mode joins the four fields with tabs. CSV mode joins them with commas. INSERT mode wraps the comma-joined fields in parentheses, with a leading comma on every row but the first. COPY wins over INSERT. |
| MockDataLemmas.RowLineConcatenation | src/main/java/mockdata/MockDataGenerator.java:179-186 | Each mode's row line is the concatenation `run()` prints: `h\tlowest\thighest\tstuff`, `comma(h,lowest,highest,stuff)`, or `h,lowest,highest,stuff`. |
| MockDataLemmas.RowLineRoundTrip | src/main/java/mockdata/MockDataGenerator.java:179-186 | Every row line, read back in its own mode, gives exactly the row's numbers. |
| MockDataLemmas.SeparatedLineRoundTrip | src/main/java/mockdata/MockDataGenerator.java:180-185 | COPY and CSV rows read back as the row's numbers after splitting on the tab or the comma. |
| MockDataLemmas.InsertLineRoundTrip | src/main/java/mockdata/MockDataGenerator.java:182 | An INSERT tuple reads back as the row's numbers after stripping its leading comma and its parentheses. |
| MockDataLemmas.StripTuple | src/main/java/mockdata/MockDataGenerator.java:182 | Removing the optional leading comma and the parentheses from `comma(inside)` leaves `inside`. |
| MockDataLemmas.FormatsAgree | src/main/java/mockdata/MockDataGenerator.java:169-186 | One row's line, read back in any output mode and with any range type, gives the same numbers. |
| MockDataLemmas.RunsAgree | src/main/java/mockdata/MockDataGenerator.java:161-186 | The CSV, INSERT and COPY outputs of the same draws carry the same rows. Two generators that agree on `nrows`, `n_handles` and `latest` both complete when one does, and their `k`-th printed row lines read back as the same numbers, whatever their flags, range types, `earliest`, `mean` and `stddev`. |
| MockDataLemmas.TimestampWrapsEndpoints | src/main/java/mockdata/MockDataGenerator.java:169-178 | With range type `"timestamp"`, both endpoints are `to_timestamp(` + the text any other range type prints + `)`. The handle and payload fields do not change. |
| MockDataLemmas.InsertModeShape | src/main/java/mockdata/MockDataGenerator.java:152-157 | INSERT mode prints, in order: the optional banner, then the INSERT header, then row `k` as `(h,lowest,highest,stuff)`, with a leading comma for `k > 0`. Nothing follows the last row. |
| MockDataLemmas.InsertTupleInRun | src/main/java/mockdata/MockDataGenerator.java:181-183 | Output line `prologue + k` of an INSERT run is row `k`'s tuple, with a leading comma exactly when `k > 0`. |
| MockDataLemmas.SeparatedRowInRun | src/main/java/mockdata/MockDataGenerator.java:180-185 | Output line `prologue + k` of a COPY or CSV run splits on its tab or comma into exactly row `k`'s four fields. |
| MockDataLemmas.CopyModeShape | src/main/java/mockdata/MockDataGenerator.java:148-158 | COPY mode prints: the optional banner, the CREATE TABLE text and the COPY header, then one tab-separated row per index whose fields split back out, then the `\.` terminator as the last line. |
| MockDataLemmas.CsvModeShape | src/main/java/mockdata/MockDataGenerator.java:185 | CSV mode prints nothing around the rows except the optional banner. Each row splits on commas into exactly its four fields. |
| MockDataLemmas.RowLineStart | src/main/java/mockdata/MockDataGenerator.java:179-186 | A row line is non-empty and starts with a digit, `(` or `,`. |
| MockDataLemmas.RowLineIsNotFraming | src/main/java/mockdata/MockDataGenerator.java:144-157 | No row line equals the banner, the CREATE TABLE text, either header or the terminator. |
| MockDataLemmas.FramingOnlyInItsMode | src/main/java/mockdata/MockDataGenerator.java:148-158 | The CREATE TABLE text, the COPY header and the terminator appear only in COPY mode. The INSERT header appears only in INSERT mode. |
| MockDataLemmas.RowLineDependsOnMode | src/main/java/mockdata/MockDataGenerator.java:166-186 | A row line depends on the generator only through `createTable`, `sql` and `range_type`. |
| MockDataLemmas.EarliestIgnored | src/main/java/mockdata/MockDataGenerator.java:134 | Changing `earliest` changes neither the output nor the outcome of a run. |
| MockDataLemmas.RowLinesIgnoreEarliest | src/main/java/mockdata/MockDataGenerator.java:122 | Changing `earliest` changes no row line. |

## Left out

- `main`, the static `OPTIONS` block, help text and `System.exit` (lines 56-115) are command-line parsing, not generator logic. The generator is built directly from its ten fields.
- `java.util.Random` is not modelled: not its algorithm, not `nextGaussian`, and not the floating-point expression `(int) (rand.nextGaussian() * stddev + mean)` (line 164). Each row's draws are inputs. `mean` and `stddev` are kept as fields but influence nothing else.
- `System.out.println` is not real I/O here. The output is the sequence of printed strings, and the trailing newline each `println` adds is implicit.
- A `null` `range_type` would make the `switch` throw `NullPointerException` (line 169). The model's range type is always a string, so that path is not modelled.
- The log4j imports (lines 10-14) are unused by the code and are not modelled.
