/**
  `load_map`: the grid rows of the configuration file. Every line that, once
  stripped, is non-empty and starts with neither `Character` nor `Door` is a
  row of tab-separated integers.
*/
module MapLoader {
  import opened Results
  import opened Text
  import opened Geometry

  /** The line-filter of `load_map`. */
  predicate IsGridLine(line: string) {
    var t := Strip(line);
    !StartsWith(t, "Character") && !StartsWith(t, "Door") && t != []
  }

  /** `[int(x) for x in fields]`: the first field `int` refuses aborts the load. */
  function ParseFields(fields: seq<string>): (r: Result<seq<int>>)
    ensures r.Ok? ==> |r.value| == |fields|
  {
    if fields == [] then Ok([])
    else
      match ParseInt(fields[0])
      case Err(e) => Err(e)
      case Ok(v) =>
        match ParseFields(fields[1..])
        case Err(e) => Err(e)
        case Ok(vs) => Ok([v] + vs)
  }

  /** A row is refused exactly when one of its fields is not an integer. */
  lemma {:induction false} ParseFieldsOk(fields: seq<string>)
    ensures ParseFields(fields).Ok? <==> forall i :: 0 <= i < |fields| ==> ParseInt(fields[i]).Ok?
  {
    if fields != [] {
      ParseFieldsOk(fields[1..]);
      assert forall i :: 1 <= i < |fields| ==> fields[i] == fields[1..][i - 1];
    }
  }

  /** The row a grid line stands for. */
  function ParseRow(line: string): Result<seq<int>> {
    ParseFields(Split(Strip(line), '\t'))
  }

  /** The rows `load_map` builds from the lines, in file order. */
  function LoadedRows(lines: seq<string>): Result<seq<seq<int>>> {
    if lines == [] then Ok([])
    else
      match LoadedRows(lines[..|lines| - 1])
      case Err(e) => Err(e)
      case Ok(rows) => LoadLine(rows, lines[|lines| - 1])
  }

  /** One pass of the loop: a map line adds its parsed row, any other line
      is skipped. */
  function LoadLine(rows: seq<seq<int>>, line: string): Result<seq<seq<int>>> {
    if !IsGridLine(line) then Ok(rows)
    else
      match ParseRow(line)
      case Err(e) => Err(e)
      case Ok(row) => Ok(rows + [row])
  }

  /** While no line has failed, reading one more line applies `LoadLine`. */
  lemma LoadedNext(lines: seq<string>, i: nat, rows: seq<seq<int>>)
    requires i < |lines| && LoadedRows(lines[..i]) == Ok(rows)
    ensures LoadedRows(lines[..i + 1]) == LoadLine(rows, lines[i])
  {
    assert lines[..i + 1][..i] == lines[..i];
  }

  /** `load_map` over the lines already read from the file. */
  method LoadMap(lines: seq<string>) returns (r: Result<seq<seq<int>>>)
    ensures r == LoadedRows(lines)
  {
    var grid: seq<seq<int>> := [];
    for i := 0 to |lines|
      invariant LoadedRows(lines[..i]) == Ok(grid)
    {
      LoadedNext(lines, i, grid);
      var next := LoadLine(grid, lines[i]);
      if next.Err? {
        LoadFailsAt(lines, i);
        return next;
      }
      grid := next.value;
    }
    assert lines[..|lines|] == lines;
    return Ok(grid);
  }

  /** A failure at line `i` is the outcome for the whole file. */
  lemma LoadFailsAt(lines: seq<string>, i: nat)
    requires i < |lines| && LoadedRows(lines[..i + 1]).Err?
    ensures LoadedRows(lines) == LoadedRows(lines[..i + 1])
  {
    assert lines[..i + 1] + lines[i + 1..] == lines;
    LoadErrorSticks(lines[..i + 1], lines[i + 1..]);
  }

  /** Once a line fails to parse, no later line changes the outcome. */
  lemma {:induction false} LoadErrorSticks(lines: seq<string>, more: seq<string>)
    requires LoadedRows(lines).Err?
    ensures LoadedRows(lines + more) == LoadedRows(lines)
    decreases |more|
  {
    if more == [] {
      assert lines + more == lines;
    } else {
      var all := lines + more;
      var init := lines + more[..|more| - 1];
      assert all[..|all| - 1] == init;
      LoadErrorSticks(lines, more[..|more| - 1]);
      assert LoadedRows(all) == LoadedRows(init);
    }
  }

  /** The fields of a row as the file writes them (`str` of each entry). */
  function RenderFields(row: seq<int>): (fields: seq<string>)
    ensures |fields| == |row|
  {
    seq(|row|, i requires 0 <= i < |row| => Decimal(row[i]))
  }

  /** A row written back as the file holds it: fields joined by tabs. */
  function RenderRow(row: seq<int>): string
    requires |row| > 0
  {
    Join(RenderFields(row), '\t')
  }

  /** The grid written as file lines, one per row. */
  function RenderMap(g: seq<seq<int>>): seq<string>
    requires forall r :: 0 <= r < |g| ==> |g[r]| > 0
  {
    seq(|g|, r requires 0 <= r < |g| => RenderRow(g[r]))
  }

  /** A rendered row is a grid line and reads back as the row. */
  lemma RowRoundTrip(row: seq<int>)
    requires |row| > 0
    ensures IsGridLine(RenderRow(row)) && ParseRow(RenderRow(row)) == Ok(row)
  {
    RowStripped(row);
    RowSplits(row);
    FieldsRoundTrip(row, RenderFields(row));
  }

  /** A rendered row has no white space to strip and starts with a digit or
      a minus sign. */
  lemma RowStripped(row: seq<int>)
    requires |row| > 0
    ensures IsGridLine(RenderRow(row)) && Strip(RenderRow(row)) == RenderRow(row)
  {
    var line := RenderRow(row);
    RowEnds(row);
    DecimalLead(line[0]);
    BareLine(line);
  }

  /** A rendered row starts with the first entry's first character and ends
      with the last entry's last character. */
  lemma RowEnds(row: seq<int>)
    requires |row| > 0
    ensures |RenderRow(row)| > 0 && RenderRow(row)[0] == Decimal(row[0])[0]
    ensures RenderRow(row)[|RenderRow(row)| - 1] == Decimal(row[|row| - 1])[|Decimal(row[|row| - 1])| - 1]
  {
    JoinEnds(RenderFields(row), '\t', Decimal(row[0]), Decimal(row[|row| - 1]));
  }

  /** A digit or a minus sign is neither white space nor a `C` or a `D`. */
  lemma DecimalLead(c: char)
    requires IsDigit(c) || c == '-'
    ensures !IsSpace(c) && c != 'C' && c != 'D'
  {
  }

  /** A line that neither starts nor ends with white space and starts with
      neither `C` nor `D` is its own stripped form and a grid line. */
  lemma BareLine(line: string)
    requires |line| > 0 && !IsSpace(line[0]) && !IsSpace(line[|line| - 1])
    requires line[0] != 'C' && line[0] != 'D'
    ensures IsGridLine(line) && Strip(line) == line
  {
    assert Strip(line) == line by {
      StripPadded("", line, "");
      assert "" + line + "" == line;
    }
    assert !StartsWith(line, "Character") && !StartsWith(line, "Door") by {
      if |line| >= 4 {
        assert line[..4][0] == line[0];
      }
      if |line| >= 9 {
        assert line[..9][0] == line[0];
      }
    }
  }

  /** Splitting a rendered row on tabs gives its fields back. */
  lemma RowSplits(row: seq<int>)
    requires |row| > 0
    ensures Split(RenderRow(row), '\t') == RenderFields(row)
  {
    var fields := RenderFields(row);
    forall i | 0 <= i < |fields| ensures '\t' !in fields[i] {
      assert fields[i] == Decimal(row[i]);
    }
    SplitJoin(fields, '\t');
  }

  lemma {:induction false} FieldsRoundTrip(row: seq<int>, fields: seq<string>)
    requires |fields| == |row| && forall i :: 0 <= i < |row| ==> fields[i] == Decimal(row[i])
    ensures ParseFields(fields) == Ok(row)
  {
    if row != [] {
      ParseDecimal(row[0]);
      assert ParseInt(fields[0]) == Ok(row[0]);
      forall i | 0 <= i < |row[1..]| ensures fields[1..][i] == Decimal(row[1..][i]) {
        assert fields[1..][i] == fields[i + 1];
      }
      FieldsRoundTrip(row[1..], fields[1..]);
      assert ParseFields(fields) == Ok([row[0]] + row[1..]);
      assert [row[0]] + row[1..] == row;
    }
  }

  /** The first and last characters of joined pieces are those of the first and
      last pieces. */
  lemma {:induction false} JoinEnds(parts: seq<string>, sep: char, first: string, last: string)
    requires |parts| > 0 && forall i :: 0 <= i < |parts| ==> |parts[i]| > 0
    requires parts[0] == first && parts[|parts| - 1] == last
    ensures |Join(parts, sep)| > 0 && Join(parts, sep)[0] == first[0]
    ensures Join(parts, sep)[|Join(parts, sep)| - 1] == last[|last| - 1]
  {
    if |parts| > 1 {
      JoinEnds(parts[1..], sep, parts[1], last);
    }
  }

  /** Loading a rendered grid gives the grid back, whatever configuration lines
      (those starting with `Character` or `Door`) are mixed in after it. */
  lemma MapRoundTrip(g: seq<seq<int>>, extra: seq<string>)
    requires forall r :: 0 <= r < |g| ==> |g[r]| > 0
    requires forall i :: 0 <= i < |extra| ==> !IsGridLine(extra[i])
    ensures LoadedRows(RenderMap(g) + extra) == Ok(g)
  {
    RenderedRows(g);
    OtherLinesSkipped(RenderMap(g), extra);
  }

  lemma RenderedRows(g: seq<seq<int>>)
    requires forall r :: 0 <= r < |g| ==> |g[r]| > 0
    ensures LoadedRows(RenderMap(g)) == Ok(g)
  {
    var lines := RenderMap(g);
    forall i | 0 <= i < |lines| ensures IsGridLine(lines[i]) && ParseRow(lines[i]) == Ok(g[i]) {
      RowRoundTrip(g[i]);
    }
    AllGridLines(lines, g);
  }

  /** Lines that are all grid lines load as the rows they parse to. */
  lemma {:induction false} AllGridLines(lines: seq<string>, g: seq<seq<int>>)
    requires |lines| == |g|
    requires forall i :: 0 <= i < |lines| ==> IsGridLine(lines[i]) && ParseRow(lines[i]) == Ok(g[i])
    ensures LoadedRows(lines) == Ok(g)
  {
    if lines != [] {
      var n := |lines| - 1;
      assert LoadedRows(lines[..n]) == Ok(g[..n]) by {
        forall i | 0 <= i < n ensures IsGridLine(lines[..n][i]) && ParseRow(lines[..n][i]) == Ok(g[..n][i]) {
          assert lines[..n][i] == lines[i] && g[..n][i] == g[i];
        }
        AllGridLines(lines[..n], g[..n]);
      }
      GridLineAppends(lines, g[..n], g[n]);
      InitAndLast(g);
    }
  }

  lemma InitAndLast(g: seq<seq<int>>)
    requires |g| > 0
    ensures g[..|g| - 1] + [g[|g| - 1]] == g
  {
  }

  /** A last line that is a grid line and parses adds its row. */
  lemma GridLineAppends(lines: seq<string>, rows: seq<seq<int>>, row: seq<int>)
    requires |lines| > 0 && LoadedRows(lines[..|lines| - 1]) == Ok(rows)
    requires IsGridLine(lines[|lines| - 1]) && ParseRow(lines[|lines| - 1]) == Ok(row)
    ensures LoadedRows(lines) == Ok(rows + [row])
  {
  }

  /** Lines that are not grid lines leave the loaded rows as they are. */
  lemma {:induction false} OtherLinesSkipped(lines: seq<string>, extra: seq<string>)
    requires forall i :: 0 <= i < |extra| ==> !IsGridLine(extra[i])
    ensures LoadedRows(lines + extra) == LoadedRows(lines)
  {
    if extra == [] {
      assert lines + extra == lines;
    } else {
      var all := lines + extra;
      var init := extra[..|extra| - 1];
      assert all[..|all| - 1] == lines + init;
      var last := extra[|extra| - 1];
      assert all[|all| - 1] == last && !IsGridLine(last);
      OtherLinesSkipped(lines, init);
      match LoadedRows(lines + init)
      case Err(_) =>
      case Ok(rows) => assert LoadLine(rows, last) == Ok(rows);
    }
  }
}
