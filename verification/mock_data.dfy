/** The row generator and renderer of `MockDataGenerator`: per-row handle, endpoints and
    width; the payload; the endpoint encoding; and the CSV, multi-row `INSERT` and
    `COPY ... FROM stdin` framings of the output.

    The pseudo-random source is not modelled: each row's three draws are an input (`Draw`),
    and standard output is the sequence of strings handed to `println`. */
module MockData {
  import opened Wrappers
  import opened JavaInt
  import opened Decimal
  import opened Fields

  const CreateTableSql: string :=
    "    CREATE TABLE mock (\n"
    + "      handle INT NOT NULL\n"
    + "      ,range_low <type> NOT NULL\n"
    + "      ,range_high <type> NOT NULL\n"
    + "      ,stuff TEXT\n"
    + "    );"
  // The banner and the headers are written as concatenations of shorter literals: the verifier
  // cannot read single characters out of a literal this long, and `FramingStarts` needs them.
  /** An SQL comment line, so that the banner does not disturb the SQL that follows. */
  const VerboseBanner: string := "-- " + "Generating nrows of mock data with handles madsets"
  /** The column list shared by the COPY and INSERT headers. */
  const Columns: string := "(handle, lowest, highest, stuff)"
  const CopyHeader: string := "COPY mock " + Columns + " FROM stdin;"
  const InsertHeader: string := "INSERT INTO mock " + Columns + " VALUES "
  /** The end-of-data marker of the COPY text format; `println` adds a second newline. */
  const CopyTerminator: string := "\\.\n"
  const TimestampType: string := "timestamp"
  const TimestampPrefix: string := "to_timestamp("

  /** The generator's configuration, fixed at construction. `earliest`, `mean` and `stddev`
      are kept as `MockDataGenerator` keeps them; the first is never read, the last two only shape
      the Gaussian width draw, which is an input here. */
  datatype Generator = Generator(
    verbose: bool,
    sql: bool,
    createTable: bool,
    nrows: Int32,
    nHandles: Int32,
    earliest: Int32,
    latest: Int32,
    mean: Int32,
    stddev: Int32,
    rangeType: string)

  /** What the random source returns for one row: the result of the handle `nextInt`, the
      result of the low-endpoint `nextInt`, and the Gaussian width already cast to `int`. */
  datatype Draw = Draw(handleDraw: int, lowDraw: int, widthDraw: Int32)

  /** `Random.nextInt` throws `IllegalArgumentException` for a bound that is not positive. */
  datatype Error = NonPositiveBound(bound: int)

  /** How `run()` ends: normally, or with the exception propagating out of it. */
  datatype Outcome = Completed | Thrown(error: Error)

  /** One generated row: its index, handle, low endpoint `e` and floored width `d`. */
  datatype Row = Row(index: nat, handle: Int32, low: Int32, width: Int32) {
    /** The high endpoint, `e + d` in Java `int` arithmetic. */
    function High(): Int32 {
      Wrap(low + width)
    }
  }

  /** The numbers a rendered row line carries. */
  datatype Decoded = Decoded(handle: int, low: int, high: int, index: int, width: int)

  // ---------------------------------------------------------------- per-row generation

  /** The bound of the handle draw, `n_handles - 1` in `int` arithmetic. */
  function HandleBound(g: Generator): (b: Int32)
    ensures g.nHandles > MIN ==> b == g.nHandles - 1
    ensures g.nHandles == MIN ==> b == MAX
  {
    Wrap(g.nHandles - 1)
  }

  /** What the random source may return: `nextInt(bound)` yields a value in `[0, bound)`
      whenever it does not throw. */
  predicate DrawFits(g: Generator, dr: Draw) {
    && (HandleBound(g) > 0 ==> 0 <= dr.handleDraw < HandleBound(g))
    && (g.latest > 0 ==> 0 <= dr.lowDraw < g.latest)
  }

  predicate DrawsFit(g: Generator, draws: seq<Draw>) {
    && g.nrows <= |draws|
    && forall k :: 0 <= k < |draws| ==> DrawFits(g, draws[k])
  }

  /** `rand.nextInt(bound)`, given the value the source would return for a valid bound. */
  function NextInt(bound: int, draw: int): (r: Result<int, Error>)
    requires bound > 0 ==> 0 <= draw < bound
    ensures r.Success? <==> bound > 0
    ensures r.Success? ==> 0 <= r.value < bound && r.value == draw
    ensures r.Failure? ==> r.error == NonPositiveBound(bound)
  {
    if bound <= 0 then Failure(NonPositiveBound(bound)) else Success(draw)
  }

  /** `if (d < 0) d = 0;` */
  function FloorAtZero(d: Int32): (w: Int32)
    ensures w >= 0
    ensures d >= 0 ==> w == d
    ensures d < 0 ==> w == 0
  {
    if d < 0 then 0 else d
  }

  /** Row `i` from its draws: handle `nextInt(n_handles-1)+1`, low `nextInt(latest)`, width the
      floored draw. The handle draw comes first, so its exception wins when both bounds are bad. */
  function GenerateRow(g: Generator, i: nat, dr: Draw): (r: Result<Row, Error>)
    requires DrawFits(g, dr)
    ensures r.Success? <==> HandleBound(g) > 0 && g.latest > 0
    ensures r.Failure? ==>
      r.error == NonPositiveBound(if HandleBound(g) <= 0 then HandleBound(g) else g.latest)
    ensures r.Success? ==>
      && r.value.index == i
      && 1 <= r.value.handle <= HandleBound(g)
      && 0 <= r.value.low < g.latest
      && r.value.width >= 0
      && (dr.widthDraw >= 0 ==> r.value.width == dr.widthDraw)
  {
    match NextInt(HandleBound(g), dr.handleDraw)
    case Failure(err) => Failure(err)
    case Success(h) =>
      match NextInt(g.latest, dr.lowDraw)
      case Failure(err) => Failure(err)
      case Success(e) => Success(Row(i, h + 1, e, FloorAtZero(dr.widthDraw)))
  }

  // ---------------------------------------------------------------- per-row rendering

  /** The text of one endpoint: `to_timestamp(n)` for range type "timestamp", else the bare number. */
  function Endpoint(rangeType: string, n: int): string {
    if rangeType == TimestampType then TimestampPrefix + Show(n) + ")" else Show(n)
  }

  /** The payload `'i:d'`. */
  function Payload(i: int, d: int): string {
    "'" + Join([Show(i), Show(d)], ':') + "'"
  }

  /** The four fields of a row, in printed order: handle, `lowest`, `highest` and `stuff`. */
  function RowFields(g: Generator, row: Row): seq<string> {
    [Show(row.handle), Endpoint(g.rangeType, row.low), Endpoint(g.rangeType, row.High()),
     Payload(row.index, row.width)]
  }

  /** COPY text format: `h<TAB>lowest<TAB>highest<TAB>stuff`. */
  function CopyRow(fields: seq<string>): string
    requires |fields| >= 1
  {
    Join(fields, '\t')
  }

  /** One tuple of the multi-row INSERT: `comma(h,lowest,highest,stuff)`. */
  function InsertRow(comma: string, fields: seq<string>): string
    requires |fields| >= 1
  {
    comma + "(" + Join(fields, ',') + ")"
  }

  /** CSV: `h,lowest,highest,stuff`. */
  function CsvRow(fields: seq<string>): string
    requires |fields| >= 1
  {
    Join(fields, ',')
  }

  /** The line printed for `row`. In INSERT mode every row but the first starts with a comma;
      COPY mode (create-table) takes precedence over INSERT mode. */
  function RowLine(g: Generator, row: Row): string {
    var fields := RowFields(g, row);
    if g.createTable then CopyRow(fields)
    else if g.sql then InsertRow(if row.index == 0 then "" else ",", fields)
    else CsvRow(fields)
  }

  // ---------------------------------------------------------------- reading rows back

  function ParseEndpoint(rangeType: string, s: string): Option<int> {
    if rangeType == TimestampType then
      if |TimestampPrefix| < |s| && s[..|TimestampPrefix|] == TimestampPrefix && s[|s| - 1] == ')'
      then Parse(s[|TimestampPrefix|..|s| - 1])
      else None
    else Parse(s)
  }

  function ParsePayload(s: string): Option<(int, int)> {
    if 2 <= |s| && s[0] == '\'' && s[|s| - 1] == '\'' then
      var parts := Split(s[1..|s| - 1], ':');
      if |parts| == 2 then
        match (Parse(parts[0]), Parse(parts[1]))
        case (Some(i), Some(d)) => Some((i, d))
        case _ => None
      else None
    else None
  }

  function DecodeFields(rangeType: string, fs: seq<string>): Option<Decoded> {
    if |fs| != 4 then None
    else
      match (Parse(fs[0]), ParseEndpoint(rangeType, fs[1]), ParseEndpoint(rangeType, fs[2]), ParsePayload(fs[3]))
      case (Some(h), Some(lo), Some(hi), Some((i, d))) => Some(Decoded(h, lo, hi, i, d))
      case _ => None
  }

  /** Reads a row line of `g`'s output mode back into its numbers. */
  function DecodeLine(g: Generator, line: string): Option<Decoded> {
    if g.createTable then DecodeFields(g.rangeType, Split(line, '\t'))
    else if g.sql then
      var body := if 0 < |line| && line[0] == ',' then line[1..] else line;
      if 2 <= |body| && body[0] == '(' && body[|body| - 1] == ')'
      then DecodeFields(g.rangeType, Split(body[1..|body| - 1], ','))
      else None
    else DecodeFields(g.rangeType, Split(line, ','))
  }

  /** The numbers `row` is meant to carry: handle, `e`, `e + d`, index and `d`. */
  function Expected(row: Row): Decoded {
    Decoded(row.handle, row.low, row.High(), row.index, row.width)
  }

  // ---------------------------------------------------------------- the whole run

  /** Number of loop iterations: `for (i = 0; i < nrows; ++i)`. */
  function RowCount(g: Generator): nat {
    if g.nrows < 0 then 0 else g.nrows
  }

  /** Whether `run()` finishes or throws from its first `nextInt`. Neither bound depends on
      the row, so a bad bound fails on row 0, and only when there is a row at all. */
  function RunOutcome(g: Generator): (o: Outcome)
    ensures o.Thrown? <==> g.nrows > 0 && (HandleBound(g) <= 0 || g.latest <= 0)
  {
    if g.nrows <= 0 then Completed
    else if HandleBound(g) <= 0 then Thrown(NonPositiveBound(HandleBound(g)))
    else if g.latest <= 0 then Thrown(NonPositiveBound(g.latest))
    else Completed
  }

  /** The lines printed before the loop. */
  function Prologue(g: Generator): seq<string> {
    (if g.verbose then [VerboseBanner] else [])
    + (if g.createTable then [CreateTableSql] else [])
    + (if g.createTable then [CopyHeader] else if g.sql then [InsertHeader] else [])
  }

  /** The lines printed after the loop. */
  function Epilogue(g: Generator): seq<string> {
    if g.createTable then [CopyTerminator] else []
  }

  /** The first `n` row lines: line `k` renders row `k`, generated from `draws[k]`. */
  function RowLines(g: Generator, draws: seq<Draw>, n: nat): (r: seq<string>)
    requires n <= |draws|
    requires n == 0 || (HandleBound(g) > 0 && g.latest > 0)
    requires forall k :: 0 <= k < |draws| ==> DrawFits(g, draws[k])
    ensures |r| == n
  {
    seq(n, k requires 0 <= k < n => RowLine(g, GenerateRow(g, k, draws[k]).value))
  }

  /** One more iteration appends the next row's line. */
  lemma RowLinesStep(g: Generator, draws: seq<Draw>, n: nat)
    requires n < |draws|
    requires HandleBound(g) > 0 && g.latest > 0
    requires forall k :: 0 <= k < |draws| ==> DrawFits(g, draws[k])
    ensures RowLines(g, draws, n + 1) == RowLines(g, draws, n) + [RowLine(g, GenerateRow(g, n, draws[n]).value)]
  {
    var next := RowLine(g, GenerateRow(g, n, draws[n]).value);
    var longer, shorter := RowLines(g, draws, n + 1), RowLines(g, draws, n);
    forall k | 0 <= k < n + 1 ensures longer[k] == (shorter + [next])[k] {
    }
  }

  /** Everything `run()` prints: the prologue, then, unless it throws, every row line and
      the epilogue. */
  function RunOutput(g: Generator, draws: seq<Draw>): seq<string>
    requires DrawsFit(g, draws)
  {
    if RunOutcome(g).Completed? then Prologue(g) + RowLines(g, draws, RowCount(g)) + Epilogue(g)
    else Prologue(g)
  }

  /** The body of `run()`'s loop after the draws: renders the payload and the endpoints,
      frames the row for the output mode, and in INSERT mode sets `comma` for the next row. */
  method FormatRow(g: Generator, row: Row, comma: string) returns (line: string, comma': string)
    requires row.index == 0 ==> comma == ""
    requires row.index > 0 && !g.createTable && g.sql ==> comma == ","
    ensures line == RowLine(g, row)
    ensures comma' == if !g.createTable && g.sql then "," else comma
  {
    comma' := comma;
    var stuff := Payload(row.index, row.width);
    var lowest := Endpoint(g.rangeType, row.low);
    var highest := Endpoint(g.rangeType, row.High());
    var fields := [Show(row.handle), lowest, highest, stuff];
    if g.createTable {
      line := CopyRow(fields);
    } else if g.sql {
      line := InsertRow(comma, fields);
      comma' := ",";
    } else {
      line := CsvRow(fields);
    }
  }

  /** `run()`: prints the prologue, draws and prints one row per iteration, carrying the
      INSERT-mode `comma` from row to row, then prints the epilogue. An exception from
      `nextInt` ends the run after the prologue. */
  method Run(g: Generator, draws: seq<Draw>) returns (out: seq<string>, outcome: Outcome)
    requires DrawsFit(g, draws)
    ensures out == RunOutput(g, draws)
    ensures outcome == RunOutcome(g)
  {
    out := Prologue(g);
    var comma := "";

    var i: nat := 0;
    while i < g.nrows
      invariant i <= RowCount(g)
      invariant i > 0 ==> HandleBound(g) > 0 && g.latest > 0
      invariant i == 0 ==> comma == ""
      invariant i > 0 && !g.createTable && g.sql ==> comma == ","
      invariant out == Prologue(g) + RowLines(g, draws, i)
    {
      var r := GenerateRow(g, i, draws[i]);
      if r.Failure? {
        assert out == Prologue(g);
        outcome := Thrown(r.error);
        return;
      }
      var line;
      line, comma := FormatRow(g, r.value, comma);
      RowLinesStep(g, draws, i);
      out := out + [line];
      i := i + 1;
    }

    assert i == RowCount(g) && RunOutcome(g) == Completed;
    if g.createTable {
      out := out + [CopyTerminator];
    } else {
      assert out + Epilogue(g) == out;
    }
    outcome := Completed;
  }
}
