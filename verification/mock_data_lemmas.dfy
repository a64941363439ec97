/** What the generator promises about its rows and its output, proved about the
    specification functions of `MockData` (which `MockData.Run` is proved to follow). */
module MockDataLemmas {
  import opened Wrappers
  import opened JavaInt
  import opened Decimal
  import opened Fields
  import opened MockData

  // ---------------------------------------------------------------- the row sequence

  /** A completed run prints the prologue, exactly `nrows` row lines, then the epilogue. */
  lemma RunLayout(g: Generator, draws: seq<Draw>)
    requires DrawsFit(g, draws)
    requires RunOutcome(g) == Completed
    ensures |RunOutput(g, draws)| == |Prologue(g)| + RowCount(g) + |Epilogue(g)|
    ensures RunOutput(g, draws)[..|Prologue(g)|] == Prologue(g)
    ensures RunOutput(g, draws)[|Prologue(g)| + RowCount(g)..] == Epilogue(g)
  {
    var out := RunOutput(g, draws);
    var p, r := Prologue(g), RowLines(g, draws, RowCount(g));
    assert out == p + r + Epilogue(g);
    assert out[..|p|] == p;
    assert out[|p| + |r|..] == Epilogue(g);
  }

  /** A run that throws has printed the prologue and nothing else. */
  lemma ThrownRunPrintsPrologueOnly(g: Generator, draws: seq<Draw>)
    requires DrawsFit(g, draws)
    requires RunOutcome(g).Thrown?
    ensures RunOutput(g, draws) == Prologue(g)
    ensures g.nrows > 0
  {
  }

  /** Row line `k` of a completed run is the rendering of row `k`, whose handle is
      `nextInt(n_handles-1)+1`, whose low endpoint is `nextInt(latest)` and whose width is the
      floored width draw: rows come out in order, one per index. */
  lemma RowInOrder(g: Generator, draws: seq<Draw>, k: nat)
    requires DrawsFit(g, draws)
    requires RunOutcome(g) == Completed
    requires k < RowCount(g)
    ensures |Prologue(g)| + k < |RunOutput(g, draws)|
    ensures RunOutput(g, draws)[|Prologue(g)| + k] == RowLine(g, GenerateRow(g, k, draws[k]).value)
    ensures RunOutput(g, draws)[|Prologue(g)| + k] ==
      RowLine(g, Row(k, draws[k].handleDraw + 1, draws[k].lowDraw, FloorAtZero(draws[k].widthDraw)))
  {
    var out := RunOutput(g, draws);
    var p, r := Prologue(g), RowLines(g, draws, RowCount(g));
    var row := Row(k, draws[k].handleDraw + 1, draws[k].lowDraw, FloorAtZero(draws[k].widthDraw));
    assert out == p + r + Epilogue(g);
    assert r[k] == RowLine(g, GenerateRow(g, k, draws[k]).value);
    assert GenerateRow(g, k, draws[k]).value == row by { GeneratedRow(g, k, draws[k]); }
    assert out[|p| + k] == r[k];
  }

  /** Row line `k` of a completed run reads back as handle `nextInt(n_handles-1)+1`, low
      endpoint `nextInt(latest)`, high endpoint `e + d` in `int` arithmetic, and payload
      `'k:d'` with `d` the floored width draw. */
  lemma RunRowReadsBack(g: Generator, draws: seq<Draw>, k: nat)
    requires DrawsFit(g, draws)
    requires RunOutcome(g) == Completed
    requires k < RowCount(g)
    ensures |Prologue(g)| + k < |RunOutput(g, draws)|
    ensures DecodeLine(g, RunOutput(g, draws)[|Prologue(g)| + k]) ==
      Some(Expected(Row(k, draws[k].handleDraw + 1, draws[k].lowDraw, FloorAtZero(draws[k].widthDraw))))
  {
    var row := Row(k, draws[k].handleDraw + 1, draws[k].lowDraw, FloorAtZero(draws[k].widthDraw));
    RowInOrder(g, draws, k);
    RowLineRoundTrip(g, row);
  }

  /** With both bounds positive, row `i` is made of its draws: the handle draw plus one, the
      low-endpoint draw and the floored width draw. */
  lemma GeneratedRow(g: Generator, i: nat, dr: Draw)
    requires DrawFits(g, dr)
    requires HandleBound(g) > 0 && g.latest > 0
    ensures GenerateRow(g, i, dr) == Success(Row(i, dr.handleDraw + 1, dr.lowDraw, FloorAtZero(dr.widthDraw)))
  {
  }

  // ---------------------------------------------------------------- per-row values

  /** With at least two handles, every handle lies in `[1, n_handles - 1]`. */
  lemma HandleInRange(g: Generator, i: nat, dr: Draw)
    requires DrawFits(g, dr)
    requires g.nHandles >= 2 && g.latest > 0
    ensures GenerateRow(g, i, dr).Success?
    ensures 1 <= GenerateRow(g, i, dr).value.handle <= g.nHandles - 1
  {
  }

  /** With fewer than two handles the handle draw throws: its bound `n_handles - 1` is not
      positive (for `Integer.MIN_VALUE` the subtraction wraps to `Integer.MAX_VALUE` instead). */
  lemma TooFewHandlesThrows(g: Generator, i: nat, dr: Draw)
    requires DrawFits(g, dr)
    requires MIN < g.nHandles <= 1
    ensures GenerateRow(g, i, dr) == Failure(NonPositiveBound(g.nHandles - 1))
  {
  }

  /** The low endpoint lies in `[0, latest)`. */
  lemma LowInRange(g: Generator, i: nat, dr: Draw)
    requires DrawFits(g, dr)
    requires HandleBound(g) > 0 && g.latest > 0
    ensures 0 <= GenerateRow(g, i, dr).value.low < g.latest
  {
  }

  /** The high endpoint read back from a row is at least its low endpoint exactly when
      `e + d` does not overflow an `int`; then it is `e + d` with `d >= 0`. */
  lemma HighNotBelowLow(g: Generator, row: Row)
    requires 0 <= row.low && 0 <= row.width
    ensures DecodeLine(g, RowLine(g, row)).Some?
    ensures var dec := DecodeLine(g, RowLine(g, row)).value;
      && dec.low == row.low
      && (dec.high >= dec.low <==> row.low + row.width <= MAX)
      && (row.low + row.width <= MAX ==> dec.high - dec.low == row.width)
  {
    RowLineRoundTrip(g, row);
  }

  /** Every row the generator can produce has a non-negative low endpoint and width. */
  lemma GeneratedRowIsOrdered(g: Generator, i: nat, dr: Draw)
    requires DrawFits(g, dr)
    requires GenerateRow(g, i, dr).Success?
    ensures 0 <= GenerateRow(g, i, dr).value.low && 0 <= GenerateRow(g, i, dr).value.width
  {
  }

  // ---------------------------------------------------------------- round trips

  lemma EndpointAvoids(rangeType: string, n: int, c: char)
    requires c == ',' || c == '\t'
    ensures c !in Endpoint(rangeType, n)
  {
    ShowAvoids(n, c);
    assert c !in TimestampPrefix;
    assert c !in ")";
  }

  lemma PayloadAvoids(i: int, d: int, c: char)
    requires c == ',' || c == '\t'
    ensures c !in Payload(i, d)
  {
    ShowAvoids(i, c);
    ShowAvoids(d, c);
    JoinAvoids([Show(i), Show(d)], ':', c);
  }

  /** An endpoint reads back as the number it renders, in either encoding. */
  lemma EndpointRoundTrip(rangeType: string, n: int)
    ensures ParseEndpoint(rangeType, Endpoint(rangeType, n)) == Some(n)
  {
    ParseShow(n);
    if rangeType == TimestampType {
      var s := Endpoint(rangeType, n);
      assert s == TimestampPrefix + Show(n) + ")";
      assert s[..|TimestampPrefix|] == TimestampPrefix;
      assert s[|TimestampPrefix|..|s| - 1] == Show(n);
    }
  }

  /** The payload `'i:d'` reads back as `i` and `d`. */
  lemma PayloadRoundTrip(i: int, d: int)
    ensures ParsePayload(Payload(i, d)) == Some((i, d))
  {
    var s := Payload(i, d);
    assert s[1..|s| - 1] == Join([Show(i), Show(d)], ':');
    ShowAvoids(i, ':');
    ShowAvoids(d, ':');
    SplitJoin([Show(i), Show(d)], ':');
    ParseShow(i);
    ParseShow(d);
  }

  /** The four fields read back as the row's numbers. */
  lemma FieldsRoundTrip(g: Generator, row: Row)
    ensures DecodeFields(g.rangeType, RowFields(g, row)) == Some(Expected(row))
  {
    ParseShow(row.handle);
    EndpointRoundTrip(g.rangeType, row.low);
    EndpointRoundTrip(g.rangeType, row.High());
    PayloadRoundTrip(row.index, row.width);
  }

  /** No field contains the separator of the framing, so splitting a framed row on it gives
      back exactly the four fields. */
  lemma SplitRowFields(g: Generator, row: Row, sep: char)
    requires sep == ',' || sep == '\t'
    ensures Split(Join(RowFields(g, row), sep), sep) == RowFields(g, row)
  {
    var fs := RowFields(g, row);
    ShowAvoids(row.handle, sep);
    EndpointAvoids(g.rangeType, row.low, sep);
    EndpointAvoids(g.rangeType, row.High(), sep);
    PayloadAvoids(row.index, row.width, sep);
    SplitJoin(fs, sep);
  }

  /** The three framings are the four fields joined by a comma or a tab; INSERT mode adds
      the leading comma and the parentheses. */
  lemma RowLineFraming(g: Generator, row: Row)
    ensures g.createTable ==> RowLine(g, row) == Join(RowFields(g, row), '\t')
    ensures !g.createTable && g.sql ==>
      RowLine(g, row) == (if row.index == 0 then "" else ",") + "(" + Join(RowFields(g, row), ',') + ")"
    ensures !g.createTable && !g.sql ==> RowLine(g, row) == Join(RowFields(g, row), ',')
  {
  }

  /** The payload is the concatenation `"'" + i + ":" + d + "'"`. */
  lemma PayloadConcatenation(i: int, d: int)
    ensures Payload(i, d) == "'" + Show(i) + ":" + Show(d) + "'"
  {
    var fs := [Show(i), Show(d)];
    assert fs[1..] == [Show(d)];
    assert Join(fs, ':') == Show(i) + [':'] + Show(d);
    assert "'" + (Show(i) + [':'] + Show(d)) == "'" + Show(i) + ":" + Show(d);
  }

  /** The framings spelled out as the concatenations `run()` prints: `h\tlowest\thighest\tstuff`,
      `comma(h,lowest,highest,stuff)` (grouped around the tuple's inside, which changes nothing
      since concatenation is associative) and `h,lowest,highest,stuff`. */
  lemma RowLineConcatenation(g: Generator, row: Row)
    ensures var lowest, highest := Endpoint(g.rangeType, row.low), Endpoint(g.rangeType, row.High());
      var stuff := "'" + Show(row.index) + ":" + Show(row.width) + "'";
      && (g.createTable ==>
        RowLine(g, row) == Show(row.handle) + "\t" + lowest + "\t" + highest + "\t" + stuff)
      && (!g.createTable && g.sql ==>
        RowLine(g, row) == (if row.index == 0 then "" else ",")
          + "(" + (Show(row.handle) + "," + lowest + "," + highest + "," + stuff) + ")")
      && (!g.createTable && !g.sql ==>
        RowLine(g, row) == Show(row.handle) + "," + lowest + "," + highest + "," + stuff)
  {
    var h, lowest, highest := Show(row.handle), Endpoint(g.rangeType, row.low), Endpoint(g.rangeType, row.High());
    var stuff := Payload(row.index, row.width);
    PayloadConcatenation(row.index, row.width);
    if g.createTable {
      Join4(h, lowest, highest, stuff, '\t');
    } else if g.sql {
      Join4(h, lowest, highest, stuff, ',');
    } else {
      Join4(h, lowest, highest, stuff, ',');
    }
  }

  /** Every row line reads back, in its own output mode, as the row's numbers. */
  lemma RowLineRoundTrip(g: Generator, row: Row)
    ensures DecodeLine(g, RowLine(g, row)) == Some(Expected(row))
  {
    if g.createTable {
      SeparatedLineRoundTrip(g, row, '\t');
    } else if g.sql {
      InsertLineRoundTrip(g, row);
    } else {
      SeparatedLineRoundTrip(g, row, ',');
    }
  }

  /** COPY and CSV lines: the fields joined by a tab or a comma read back as the row's numbers. */
  lemma SeparatedLineRoundTrip(g: Generator, row: Row, sep: char)
    requires sep == (if g.createTable then '\t' else ',')
    requires g.createTable || !g.sql
    ensures DecodeLine(g, RowLine(g, row)) == Some(Expected(row))
  {
    var fs := RowFields(g, row);
    assert RowLine(g, row) == Join(fs, sep) by { RowLineFraming(g, row); }
    assert Split(Join(fs, sep), sep) == fs by { SplitRowFields(g, row, sep); }
    assert DecodeFields(g.rangeType, fs) == Some(Expected(row)) by { FieldsRoundTrip(g, row); }
  }

  /** INSERT tuples: with the leading comma (if any) and the parentheses stripped, the fields
      joined by commas read back as the row's numbers. */
  lemma InsertLineRoundTrip(g: Generator, row: Row)
    requires !g.createTable && g.sql
    ensures DecodeLine(g, RowLine(g, row)) == Some(Expected(row))
  {
    var fs := RowFields(g, row);
    var inside := Join(fs, ',');
    assert RowLine(g, row) == (if row.index == 0 then "" else ",") + "(" + inside + ")" by {
      RowLineFraming(g, row);
    }
    DecodeTuple(g, RowLine(g, row), inside, row.index == 0);
    assert Split(inside, ',') == fs by { SplitRowFields(g, row, ','); }
    assert DecodeFields(g.rangeType, fs) == Some(Expected(row)) by { FieldsRoundTrip(g, row); }
  }

  /** In INSERT mode a tuple decodes as the comma-separated fields between its parentheses. */
  lemma DecodeTuple(g: Generator, line: string, inside: string, first: bool)
    requires !g.createTable && g.sql
    requires line == (if first then "" else ",") + "(" + inside + ")"
    ensures DecodeLine(g, line) == DecodeFields(g.rangeType, Split(inside, ','))
  {
    StripTuple(line, inside, first);
  }

  /** Stripping the optional leading comma and the parentheses from an INSERT tuple leaves
      its inside. */
  lemma StripTuple(line: string, inside: string, first: bool)
    requires line == (if first then "" else ",") + "(" + inside + ")"
    ensures var body := if 0 < |line| && line[0] == ',' then line[1..] else line;
      2 <= |body| && body[0] == '(' && body[|body| - 1] == ')' && body[1..|body| - 1] == inside
  {
    var body := "(" + inside + ")";
    if first {
      assert line == body;
    } else {
      assert line == [','] + body;
      assert line[1..] == body;
    }
    assert body[1..|body| - 1] == inside;
  }

  /** One row's line, read back in any output mode and with either endpoint encoding, gives
      the same numbers. */
  lemma FormatsAgree(g1: Generator, g2: Generator, row: Row)
    ensures DecodeLine(g1, RowLine(g1, row)) == DecodeLine(g2, RowLine(g2, row))
    ensures DecodeLine(g1, RowLine(g1, row)).Some?
  {
    RowLineRoundTrip(g1, row);
    RowLineRoundTrip(g2, row);
  }

  /** The CSV, INSERT and COPY outputs of the same draws carry the same rows: two generators
      that agree on `nrows`, `n_handles` and `latest` (whatever their flags, range types,
      `earliest`, `mean` and `stddev`) both complete, and their `k`-th row lines read back
      as the same numbers. */
  lemma RunsAgree(g1: Generator, g2: Generator, draws: seq<Draw>, k: nat)
    requires DrawsFit(g1, draws)
    requires g2.nrows == g1.nrows && g2.nHandles == g1.nHandles && g2.latest == g1.latest
    requires RunOutcome(g1) == Completed
    requires k < RowCount(g1)
    ensures DrawsFit(g2, draws) && RunOutcome(g2) == Completed && k < RowCount(g2)
    ensures |Prologue(g1)| + k < |RunOutput(g1, draws)|
    ensures |Prologue(g2)| + k < |RunOutput(g2, draws)|
    ensures DecodeLine(g1, RunOutput(g1, draws)[|Prologue(g1)| + k]) ==
      DecodeLine(g2, RunOutput(g2, draws)[|Prologue(g2)| + k])
    ensures DecodeLine(g1, RunOutput(g1, draws)[|Prologue(g1)| + k]).Some?
  {
    assert DrawsFit(g2, draws) by {
      forall j | 0 <= j < |draws| ensures DrawFits(g2, draws[j]) {
        assert DrawFits(g1, draws[j]);
      }
    }
    RunRowReadsBack(g1, draws, k);
    RunRowReadsBack(g2, draws, k);
  }

  /** Range type "timestamp" wraps both endpoints in `to_timestamp(...)` around the very text
      any other range type prints bare. */
  lemma TimestampWrapsEndpoints(g: Generator, other: string, row: Row)
    requires g.rangeType == TimestampType && other != TimestampType
    ensures RowFields(g, row)[1] == TimestampPrefix + RowFields(g.(rangeType := other), row)[1] + ")"
    ensures RowFields(g, row)[2] == TimestampPrefix + RowFields(g.(rangeType := other), row)[2] + ")"
    ensures RowFields(g, row)[0] == RowFields(g.(rangeType := other), row)[0]
    ensures RowFields(g, row)[3] == RowFields(g.(rangeType := other), row)[3]
  {
  }

  // ---------------------------------------------------------------- output modes

  /** INSERT mode (sql without create-table): the INSERT header comes first (after the verbose
      banner), the first row is `(h,low,high,'i:d')`, every later row starts with a comma, and
      nothing, not even a `;`, follows the last row. */
  lemma InsertModeShape(g: Generator, draws: seq<Draw>)
    requires DrawsFit(g, draws)
    requires g.sql && !g.createTable
    requires RunOutcome(g) == Completed
    ensures Prologue(g) == (if g.verbose then [VerboseBanner] else []) + [InsertHeader]
    ensures |RunOutput(g, draws)| == |Prologue(g)| + RowCount(g)
    ensures forall k :: 0 <= k < RowCount(g) ==>
      RunOutput(g, draws)[|Prologue(g)| + k] ==
        (if k == 0 then "" else ",") + "(" + Join(RowFields(g, GenerateRow(g, k, draws[k]).value), ',') + ")"
  {
    RunLayout(g, draws);
    forall k | 0 <= k < RowCount(g) {
      InsertTupleInRun(g, draws, k);
    }
  }

  lemma InsertTupleInRun(g: Generator, draws: seq<Draw>, k: nat)
    requires DrawsFit(g, draws)
    requires g.sql && !g.createTable
    requires RunOutcome(g) == Completed
    requires k < RowCount(g)
    ensures |Prologue(g)| + k < |RunOutput(g, draws)|
    ensures RunOutput(g, draws)[|Prologue(g)| + k] ==
      (if k == 0 then "" else ",") + "(" + Join(RowFields(g, GenerateRow(g, k, draws[k]).value), ',') + ")"
  {
    var row := GenerateRow(g, k, draws[k]).value;
    RowInOrder(g, draws, k);
    assert row.index == k;
    RowLineFraming(g, row);
  }

  /** COPY mode (create-table, whatever `sql` says): the CREATE TABLE text and the COPY header,
      then tab-separated rows, then the `\.` terminator line. */
  lemma CopyModeShape(g: Generator, draws: seq<Draw>)
    requires DrawsFit(g, draws)
    requires g.createTable
    requires RunOutcome(g) == Completed
    ensures Prologue(g) == (if g.verbose then [VerboseBanner] else []) + [CreateTableSql, CopyHeader]
    ensures |RunOutput(g, draws)| == |Prologue(g)| + RowCount(g) + 1
    ensures RunOutput(g, draws)[|RunOutput(g, draws)| - 1] == CopyTerminator
    ensures forall k :: 0 <= k < RowCount(g) ==>
      Split(RunOutput(g, draws)[|Prologue(g)| + k], '\t') == RowFields(g, GenerateRow(g, k, draws[k]).value)
  {
    RunLayout(g, draws);
    forall k | 0 <= k < RowCount(g) {
      SeparatedRowInRun(g, draws, k, '\t');
    }
  }

  /** CSV mode (neither flag): no header and no trailer; each row is its four fields joined
      by commas, and splitting it on commas gives them back. */
  lemma CsvModeShape(g: Generator, draws: seq<Draw>)
    requires DrawsFit(g, draws)
    requires !g.sql && !g.createTable
    requires RunOutcome(g) == Completed
    ensures Prologue(g) == if g.verbose then [VerboseBanner] else []
    ensures |RunOutput(g, draws)| == |Prologue(g)| + RowCount(g)
    ensures forall k :: 0 <= k < RowCount(g) ==>
      Split(RunOutput(g, draws)[|Prologue(g)| + k], ',') == RowFields(g, GenerateRow(g, k, draws[k]).value)
  {
    RunLayout(g, draws);
    forall k | 0 <= k < RowCount(g) {
      SeparatedRowInRun(g, draws, k, ',');
    }
  }

  /** Output line `prologue + k` of a COPY or CSV run splits on its separator into exactly
      row `k`'s four fields. */
  lemma SeparatedRowInRun(g: Generator, draws: seq<Draw>, k: nat, sep: char)
    requires DrawsFit(g, draws)
    requires g.createTable || !g.sql
    requires sep == (if g.createTable then '\t' else ',')
    requires RunOutcome(g) == Completed
    requires k < RowCount(g)
    ensures |Prologue(g)| + k < |RunOutput(g, draws)|
    ensures Split(RunOutput(g, draws)[|Prologue(g)| + k], sep) == RowFields(g, GenerateRow(g, k, draws[k]).value)
  {
    var row := GenerateRow(g, k, draws[k]).value;
    assert RunOutput(g, draws)[|Prologue(g)| + k] == RowLine(g, row) by { RowInOrder(g, draws, k); }
    assert RowLine(g, row) == Join(RowFields(g, row), sep) by { RowLineFraming(g, row); }
    SplitRowFields(g, row, sep);
  }

  /** A row line starts with a digit (the handle, which is at least 1), an opening
      parenthesis or a comma. */
  lemma RowLineStart(g: Generator, row: Row)
    requires row.handle >= 1
    ensures 0 < |RowLine(g, row)|
    ensures var c := RowLine(g, row)[0]; IsDigit(c) || c == '(' || c == ','
  {
    RowLineFraming(g, row);
    ShowShape(row.handle);
    var fs := RowFields(g, row);
    if g.createTable {
      JoinStartsWithFirst(fs, '\t');
    } else if !g.sql {
      JoinStartsWithFirst(fs, ',');
    }
  }

  /** A row line never equals a framing line, none of which starts like a row line. */
  lemma RowLineIsNotFraming(g: Generator, row: Row)
    requires row.handle >= 1
    ensures RowLine(g, row) != CreateTableSql && RowLine(g, row) != CopyHeader
    ensures RowLine(g, row) != CopyTerminator && RowLine(g, row) != InsertHeader
    ensures RowLine(g, row) != VerboseBanner
  {
    RowLineStart(g, row);
    FramingStarts();
  }

  lemma FramingStarts()
    ensures CreateTableSql[0] == ' ' && CopyHeader[0] == 'C' && CopyTerminator[0] == '\\'
    ensures InsertHeader[0] == 'I' && VerboseBanner[0] == '-'
  {
  }

  /** The CREATE TABLE text, the COPY header and the terminator appear only in COPY mode, and
      the INSERT header only in INSERT mode. */
  lemma FramingOnlyInItsMode(g: Generator, draws: seq<Draw>)
    requires DrawsFit(g, draws)
    ensures !g.createTable ==>
      CreateTableSql !in RunOutput(g, draws) && CopyHeader !in RunOutput(g, draws)
      && CopyTerminator !in RunOutput(g, draws)
    ensures g.createTable || !g.sql ==> InsertHeader !in RunOutput(g, draws)
  {
    var out := RunOutput(g, draws);
    var p := Prologue(g);
    if RunOutcome(g) == Completed {
      var r := RowLines(g, draws, RowCount(g));
      assert out == p + r + Epilogue(g);
      forall k | 0 <= k < |r|
        ensures r[k] != CreateTableSql && r[k] != CopyHeader && r[k] != CopyTerminator
        ensures r[k] != InsertHeader
      {
        var row := GenerateRow(g, k, draws[k]).value;
        assert r[k] == RowLine(g, row);
        RowLineIsNotFraming(g, row);
      }
    }
    assert CreateTableSql != CopyHeader && CreateTableSql != InsertHeader && CreateTableSql != VerboseBanner;
    assert CopyHeader != InsertHeader && CopyHeader != VerboseBanner && CopyHeader != CopyTerminator;
    assert InsertHeader != VerboseBanner && InsertHeader != CopyTerminator && CopyTerminator != VerboseBanner;
  }

  // ---------------------------------------------------------------- the unused field

  /** A row line depends on the generator only through its output mode and range type. */
  lemma RowLineDependsOnMode(g1: Generator, g2: Generator, row: Row)
    requires g1.createTable == g2.createTable && g1.sql == g2.sql && g1.rangeType == g2.rangeType
    ensures RowLine(g1, row) == RowLine(g2, row)
  {
  }

  /** The `earliest` field has no effect: changing it changes neither the output nor the outcome. */
  lemma EarliestIgnored(g: Generator, draws: seq<Draw>, earliest: Int32)
    requires DrawsFit(g, draws)
    ensures DrawsFit(g.(earliest := earliest), draws)
    ensures RunOutput(g.(earliest := earliest), draws) == RunOutput(g, draws)
    ensures RunOutcome(g.(earliest := earliest)) == RunOutcome(g)
  {
    var g' := g.(earliest := earliest);
    assert forall k :: 0 <= k < |draws| ==> DrawFits(g', draws[k]);
    if RunOutcome(g) == Completed && RowCount(g) > 0 {
      RowLinesIgnoreEarliest(g, draws, earliest, RowCount(g));
    }
  }

  lemma RowLinesIgnoreEarliest(g: Generator, draws: seq<Draw>, earliest: Int32, n: nat)
    requires n <= |draws| && HandleBound(g) > 0 && g.latest > 0
    requires forall k :: 0 <= k < |draws| ==> DrawFits(g, draws[k])
    ensures forall k :: 0 <= k < |draws| ==> DrawFits(g.(earliest := earliest), draws[k])
    ensures RowLines(g.(earliest := earliest), draws, n) == RowLines(g, draws, n)
  {
    var g' := g.(earliest := earliest);
    assert forall k :: 0 <= k < |draws| ==> DrawFits(g', draws[k]);
    var lines', lines := RowLines(g', draws, n), RowLines(g, draws, n);
    forall k | 0 <= k < n ensures lines'[k] == lines[k] {
      var row := GenerateRow(g, k, draws[k]).value;
      GeneratedRow(g, k, draws[k]);
      GeneratedRow(g', k, draws[k]);
      assert GenerateRow(g', k, draws[k]).value == row;
      RowLineDependsOnMode(g', g, row);
    }
  }
}
