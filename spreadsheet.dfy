/**
 * The parts of Apache POI's sheet model the spreadsheet import reads: typed cells, physical rows,
 * and the row iterator as the import walks it.
 */
module Spreadsheet {
  import opened Wrappers
  import opened Money

  /** A non-blank cell. Excel keeps every number, dates included, as a number. */
  datatype Cell = Number(number: Decimal) | Text(text: string)

  /**
   * A physical row: its 0-based row number and its cells up to `getLastCellNum`, with a blank or
   * missing cell as `None` (`MissingCellPolicy.RETURN_BLANK_AS_NULL`).
   */
  datatype SheetRow = SheetRow(rowNum: int, cells: seq<Option<Cell>>)

  /** `getNumericCellValue`: a text cell throws IllegalStateException. */
  function NumericValue(c: Cell): (r: Result<Decimal>)
    ensures r.Ok? <==> c.Number?
    ensures r.Ok? ==> r.value == c.number
    ensures r.Err? ==> r.error == IllegalState
  {
    if c.Number? then Ok(c.number) else Err(IllegalState)
  }

  /** `getStringCellValue`: a numeric cell throws IllegalStateException. */
  function StringValue(c: Cell): (r: Result<string>)
    ensures r.Ok? <==> c.Text?
    ensures r.Ok? ==> r.value == c.text
    ensures r.Err? ==> r.error == IllegalState
  {
    if c.Text? then Ok(c.text) else Err(IllegalState)
  }

  /**
   * `getLocalDateTimeCellValue().toLocalDate()`: the serial's whole days. A negative serial is
   * not a valid Excel date, so POI returns null and `toLocalDate` throws; a text cell throws
   * IllegalStateException.
   */
  function DateValue(c: Cell): (r: Result<int>)
    ensures r.Ok? <==> c.Number? && 0 <= c.number.unscaled
    ensures r.Ok? ==> r.value == IntegerPart(c.number) && 0 <= r.value
    ensures c.Text? ==> r == Err(IllegalState)
    ensures c.Number? && c.number.unscaled < 0 ==> r == Err(NullPointer)
  {
    var serial :- NumericValue(c);
    if serial.unscaled < 0 then Err(NullPointer)
    else
      assert serial.scale > 0 ==> 0 <= IntegerPart(serial) * Pow10(serial.scale);
      Ok(IntegerPart(serial))
  }

  /** `r` unless it failed, with `done` in front. */
  function Prepend<D>(done: seq<D>, r: Result<seq<D>>): Result<seq<D>>
  {
    if r.Err? then r else Ok(done + r.value)
  }

  /**
   * The import's row loop. `rowIterator.next()` yields each physical row in turn; a row numbered
   * 0 is the header and is replaced by the row after it, so a header with nothing after it makes
   * `next()` throw NoSuchElementException. Each row is parsed in turn (the first failure is
   * thrown) and kept when `keep` holds of the result.
   */
  function ParseRows<D>(rows: seq<SheetRow>, parse: SheetRow -> Result<D>, keep: D -> bool): (r: Result<seq<D>>)
    ensures r.Ok? ==> |r.value| <= |rows|
    ensures r.Ok? ==> forall i :: 0 <= i < |r.value| ==> keep(r.value[i])
    ensures r.Ok? ==> forall i :: 0 <= i < |r.value| ==> exists j :: 0 <= j < |rows| && parse(rows[j]) == Ok(r.value[i])
    decreases |rows|
  {
    if rows == [] then Ok([])
    else if rows[0].rowNum == 0 && |rows| == 1 then Err(NoSuchElement)
    else
      var skip := if rows[0].rowNum == 0 then 1 else 0;
      var d :- parse(rows[skip]);
      var rest :- ParseRows(rows[skip + 1..], parse, keep);
      var here := if keep(d) then [d] else [];
      assert forall i :: 0 <= i < |rest| ==> exists j :: 0 <= j < |rows| && parse(rows[j]) == Ok(rest[i]) by {
        forall i | 0 <= i < |rest|
          ensures exists j :: 0 <= j < |rows| && parse(rows[j]) == Ok(rest[i])
        {
          var j :| 0 <= j < |rows[skip + 1..]| && parse(rows[skip + 1..][j]) == Ok(rest[i]);
          assert rows[skip + 1..][j] == rows[j + skip + 1];
        }
      }
      assert forall i :: 0 <= i < |here| ==> parse(rows[skip]) == Ok(here[i]);
      Ok(here + rest)
  }

  /**
   * The column loop of one row: `for j < getLastCellNum()`, each non-blank cell folded into the
   * DTO by `step(rowNum, j, cell, dto)`, blank cells skipped, the first failure thrown. This is the
   * fold over the row's first `n` cells.
   */
  function ReadCells<D>(row: SheetRow, n: nat, start: D, step: (int, nat, Cell, D) -> Result<D>): Result<D>
    requires n <= |row.cells|
    decreases n
  {
    if n == 0 then Ok(start)
    else
      var acc :- ReadCells(row, n - 1, start, step);
      match row.cells[n - 1]
      case None => Ok(acc)
      case Some(c) => step(row.rowNum, n - 1, c, acc)
  }

  /** A failure stops the column loop: the cells after it change nothing. */
  lemma {:induction false} ReadCellsStops<D>(row: SheetRow, m: nat, n: nat, start: D, step: (int, nat, Cell, D) -> Result<D>)
    requires m <= n <= |row.cells| && ReadCells(row, m, start, step).Err?
    ensures ReadCells(row, n, start, step) == ReadCells(row, m, start, step)
    decreases n
  {
    if m < n {
      ReadCellsStops(row, m, n - 1, start, step);
    }
  }

  /**
   * When whether a cell is accepted depends only on its column and content, the column loop
   * succeeds exactly when every non-blank cell is accepted.
   */
  lemma {:induction false} ReadCellsSucceeds<D>(row: SheetRow, n: nat, start: D, step: (int, nat, Cell, D) -> Result<D>,
                                                fits: (nat, Cell) -> bool)
    requires n <= |row.cells|
    requires forall rowNum: int, j: nat, c: Cell, d: D :: step(rowNum, j, c, d).Ok? == fits(j, c)
    ensures ReadCells(row, n, start, step).Ok? <==>
      forall j :: 0 <= j < n && row.cells[j].Some? ==> fits(j, row.cells[j].value)
    decreases n
  {
    if n > 0 {
      ReadCellsSucceeds(row, n - 1, start, step, fits);
    }
  }

  /** The column loop, as the import runs it. */
  method ReadRow<D>(row: SheetRow, start: D, step: (int, nat, Cell, D) -> Result<D>) returns (r: Result<D>)
    ensures r == ReadCells(row, |row.cells|, start, step)
  {
    var acc := start;
    for j := 0 to |row.cells|
      invariant ReadCells(row, j, start, step) == Ok(acc)
    {
      if row.cells[j].Some? {
        var next := step(row.rowNum, j, row.cells[j].value, acc);
        if next.Err? {
          ReadCellsStops(row, j + 1, |row.cells|, start, step);
          return next;
        }
        acc := next.value;
      }
    }
    return Ok(acc);
  }

  /** A whole row read by the column loop. */
  function RowParser<D>(start: D, step: (int, nat, Cell, D) -> Result<D>): SheetRow -> Result<D>
  {
    (row: SheetRow) => ReadCells(row, |row.cells|, start, step)
  }

  /** One turn of the row loop: the rows from `i` on, unfolded once. */
  lemma ParseRowsFrom<D>(rows: seq<SheetRow>, i: nat, parse: SheetRow -> Result<D>, keep: D -> bool)
    requires i < |rows|
    ensures rows[i].rowNum == 0 && i + 1 == |rows| ==> ParseRows(rows[i..], parse, keep) == Err(NoSuchElement)
    ensures !(rows[i].rowNum == 0 && i + 1 == |rows|) ==>
      var current := if rows[i].rowNum == 0 then i + 1 else i;
      current < |rows|
      && ParseRows(rows[i..], parse, keep) ==
         (if parse(rows[current]).Err? then Err(parse(rows[current]).error)
          else Prepend(if keep(parse(rows[current]).value) then [parse(rows[current]).value] else [],
                       ParseRows(rows[current + 1..], parse, keep)))
  {
    var rest := rows[i..];
    assert rest[0] == rows[i];
    if !(rows[i].rowNum == 0 && i + 1 == |rows|) {
      var current := if rows[i].rowNum == 0 then i + 1 else i;
      assert rest[current - i] == rows[current];
      assert rest[current - i + 1..] == rows[current + 1..];
    }
  }

  lemma PrependNothing<D>(r: Result<seq<D>>)
    ensures Prepend([], r) == r
  {
    if r.Ok? {
      assert [] + r.value == r.value;
    }
  }

  /** Collecting in two steps is collecting once. */
  lemma PrependTwice<D>(a: seq<D>, b: seq<D>, r: Result<seq<D>>)
    ensures Prepend(a, Prepend(b, r)) == Prepend(a + b, r)
  {
    if r.Ok? {
      assert a + (b + r.value) == (a + b) + r.value;
    }
  }

  /** The row loop, as the import runs it: header skipped, each row read, the kept ones collected. */
  method ReadSheet<D>(rows: seq<SheetRow>, start: D, step: (int, nat, Cell, D) -> Result<D>, keep: D -> bool)
    returns (r: Result<seq<D>>)
    ensures r == ParseRows(rows, RowParser(start, step), keep)
  {
    var parse := RowParser(start, step);
    var kept: seq<D> := [];
    var i := 0;
    assert rows[i..] == rows;
    PrependNothing(ParseRows(rows, parse, keep));
    while i < |rows|
      invariant 0 <= i <= |rows|
      invariant ParseRows(rows, parse, keep) == Prepend(kept, ParseRows(rows[i..], parse, keep))
    {
      ParseRowsFrom(rows, i, parse, keep);
      var current := i;
      if rows[current].rowNum == 0 {
        if current + 1 == |rows| {
          return Err(NoSuchElement);
        }
        current := current + 1;
      }
      var d := ReadRow(rows[current], start, step);
      if d.Err? {
        return Err(d.error);
      }
      var here := if keep(d.value) then [d.value] else [];
      PrependTwice(kept, here, ParseRows(rows[current + 1..], parse, keep));
      kept := kept + here;
      i := current + 1;
    }
    assert rows[i..] == [];
    assert kept + [] == kept;
    return Ok(kept);
  }

  /** The rows POI hands out: numbered from 0 upward, each number once, in order. */
  predicate WellFormed(rows: seq<SheetRow>)
  {
    (forall i :: 0 <= i < |rows| ==> rows[i].rowNum >= 0)
    && (forall i, j :: 0 <= i < j < |rows| ==> rows[i].rowNum < rows[j].rowNum)
  }

  /** The rows after the header, when the sheet has one. */
  function Body(rows: seq<SheetRow>): seq<SheetRow>
  {
    if rows != [] && rows[0].rowNum == 0 then rows[1..] else rows
  }

  /** Every row parses. */
  predicate AllParse<D>(rows: seq<SheetRow>, parse: SheetRow -> Result<D>)
  {
    forall i :: 0 <= i < |rows| ==> parse(rows[i]).Ok?
  }

  /** The parse of every row, in order. */
  function Parses<D>(rows: seq<SheetRow>, parse: SheetRow -> Result<D>): (ds: seq<D>)
    requires AllParse(rows, parse)
    ensures |ds| == |rows| && forall i :: 0 <= i < |rows| ==> Ok(ds[i]) == parse(rows[i])
  {
    seq(|rows|, i requires 0 <= i < |rows| && AllParse(rows, parse) => parse(rows[i]).value)
  }

  /** The elements `keep` holds of, in their order. */
  function Kept<D(!new)>(ds: seq<D>, keep: D -> bool): (r: seq<D>)
    ensures forall d :: d in r <==> d in ds && keep(d)
    ensures |r| <= |ds|
  {
    if ds == [] then []
    else (if keep(ds[0]) then [ds[0]] else []) + Kept(ds[1..], keep)
  }

  /** Without header rows, every row is parsed, and the kept parses come back in row order. */
  lemma {:induction false} HeaderlessRows<D(!new)>(rows: seq<SheetRow>, parse: SheetRow -> Result<D>, keep: D -> bool)
    requires forall i :: 0 <= i < |rows| ==> rows[i].rowNum != 0
    ensures ParseRows(rows, parse, keep).Ok? <==> AllParse(rows, parse)
    ensures ParseRows(rows, parse, keep).Ok? ==> ParseRows(rows, parse, keep).value == Kept(Parses(rows, parse), keep)
    decreases |rows|
  {
    if rows != [] {
      var tail := rows[1..];
      HeaderlessRows(tail, parse, keep);
      assert forall i :: 1 <= i < |rows| ==> rows[i] == tail[i - 1];
      if AllParse(rows, parse) {
        assert AllParse(tail, parse);
        assert Parses(rows, parse)[1..] == Parses(tail, parse);
      }
    }
  }

  /**
   * On a sheet as POI hands it out (and not one that holds only a header), the import parses every
   * row but the header, in order; it succeeds exactly when each of them parses, and then yields the
   * kept parses in row order.
   */
  lemma SheetRows<D(!new)>(rows: seq<SheetRow>, parse: SheetRow -> Result<D>, keep: D -> bool)
    requires WellFormed(rows) && !(|rows| == 1 && rows[0].rowNum == 0)
    ensures ParseRows(rows, parse, keep).Ok? <==> AllParse(Body(rows), parse)
    ensures ParseRows(rows, parse, keep).Ok? ==>
      ParseRows(rows, parse, keep).value == Kept(Parses(Body(rows), parse), keep)
  {
    var body := Body(rows);
    assert forall i :: 0 <= i < |body| ==> body[i].rowNum != 0 by {
      if rows != [] && rows[0].rowNum == 0 {
        assert forall i :: 1 <= i < |rows| ==> rows[0].rowNum < rows[i].rowNum;
      }
    }
    HeaderlessRows(body, parse, keep);
    if rows != [] && rows[0].rowNum == 0 {
      SkipHeader(rows, parse, keep);
    }
  }

  /** Parsing past the header is parsing the rows after it. */
  lemma SkipHeader<D>(rows: seq<SheetRow>, parse: SheetRow -> Result<D>, keep: D -> bool)
    requires |rows| > 1 && rows[0].rowNum == 0 && rows[1].rowNum != 0
    ensures ParseRows(rows, parse, keep) == ParseRows(rows[1..], parse, keep)
  {
    assert rows[1..][1..] == rows[2..];
  }

  /** A sheet that holds only its header row makes the import throw. */
  lemma HeaderOnlySheetFails<D>(cells: seq<Option<Cell>>, parse: SheetRow -> Result<D>, keep: D -> bool)
    ensures ParseRows([SheetRow(0, cells)], parse, keep) == Err(NoSuchElement)
  {
  }
}
