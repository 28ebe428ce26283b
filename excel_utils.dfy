/**
 * `ExcelUtils`: the spreadsheet import. A `.xlsx` upload's first sheet is read row by row into
 * product, price-list or price DTOs (one fixed column per field); every DTO whose owning id is set
 * is then created through its service, in sheet order.
 */
module ExcelUtils {
  import opened Wrappers
  import opened Money
  import opened Text
  import opened Entities
  import opened Database
  import opened Spreadsheet
  import ProductService
  import PriceListService
  import PriceService

  // ---- The upload ----

  /** `fileName.startsWith(".xlsx", fileName.length() - 5)`: a negative offset never matches. */
  predicate EndsWithXlsx(name: string)
  {
    |name| >= 5 && name[|name| - 5..] == ".xlsx"
  }

  /**
   * `readXlsxFile`: the first sheet of the uploaded workbook. `workbook` is what reading the
   * upload yields, `None` when the stream cannot be read. A null file name throws
   * NullPointerException; a name not ending in ".xlsx", or an unreadable upload, is a BadRequest.
   */
  function ReadXlsxFile(fileName: Option<string>, workbook: Option<seq<SheetRow>>): (r: Result<seq<SheetRow>>)
    ensures fileName.None? ==> r == Err(NullPointer)
    ensures fileName.Some? ==> (r.Ok? <==> EndsWithXlsx(fileName.value) && workbook.Some?)
    ensures fileName.Some? && r.Err? ==> r.error == BadRequest
    ensures r.Ok? ==> r.value == workbook.value
  {
    if fileName.None? then Err(NullPointer)
    else if !EndsWithXlsx(fileName.value) then Err(BadRequest)
    else if workbook.None? then Err(BadRequest)
    else Ok(workbook.value)
  }

  /** The accepted names are exactly those made of some stem followed by ".xlsx" (case matters). */
  lemma XlsxNames(name: string)
    ensures EndsWithXlsx(name) <==> exists stem :: name == stem + ".xlsx"
  {
    if EndsWithXlsx(name) {
      var stem := name[..|name| - 5];
      assert name == stem + ".xlsx";
    }
    if exists stem :: name == stem + ".xlsx" {
      var stem :| name == stem + ".xlsx";
      assert name[|name| - 5..] == ".xlsx";
    }
  }

  /** Neither an upper-case extension nor the bare extension's tail is accepted. */
  lemma XlsxNameExamples()
    ensures !EndsWithXlsx("prices.XLSX") && !EndsWithXlsx("xlsx") && EndsWithXlsx(".xlsx")
  {
    assert "prices.XLSX"[6..] == ".XLSX";
  }

  // ---- Reading a cell ----

  const LongMin: int := -0x8000_0000_0000_0000
  const LongMax: int := 0x7FFF_FFFF_FFFF_FFFF
  const IntMin: int := -0x8000_0000
  const IntMax: int := 0x7FFF_FFFF

  /** Java's narrowing of a floating-point value: out-of-range values saturate at the bound. */
  function Saturate(n: int, lo: int, hi: int): (r: int)
    requires lo <= hi
    ensures lo <= r <= hi
    ensures lo <= n <= hi ==> r == n
    ensures n < lo ==> r == lo
    ensures hi < n ==> r == hi
  {
    if n < lo then lo else if hi < n then hi else n
  }

  /** `Double.valueOf(x).longValue()`. */
  function LongValue(d: Decimal): int
  {
    Saturate(IntegerPart(d), LongMin, LongMax)
  }

  /** `(int) x`. */
  function IntValue(d: Decimal): int
  {
    Saturate(IntegerPart(d), IntMin, IntMax)
  }

  /** An id cell passes its service's `idValidation`. */
  predicate IdFits(keys: set<int>, c: Cell)
  {
    c.Number? && IdValidation(Some(LongValue(c.number)), keys).Pass?
  }

  /** The failures a cell can cause: a cell of the wrong type, or a refusal naming the cell. */
  predicate CellError(e: Error, rowNum: int, column: int)
  {
    e == IllegalState || (e.IllegalArgument? && e.reason.AtCell? && e.reason.row == rowNum && e.reason.column == column)
  }

  /**
   * An id column: the number's `longValue()`, which must pass the owning service's
   * `idValidation`; its IllegalArgumentException is rethrown naming the cell.
   */
  function IdCell(keys: set<int>, c: Cell, rowNum: int, column: int): (r: Result<int>)
    ensures r.Ok? <==> IdFits(keys, c)
    ensures r.Ok? ==> r.value == LongValue(c.number) && r.value in keys && r.value != 0
    ensures r.Err? ==> CellError(r.error, rowNum, column)
    ensures c.Number? && r.Err? ==>
      r.error == IllegalArgument(AtCell(IdValidation(Some(LongValue(c.number)), keys).error.reason, rowNum, column))
  {
    var v :- NumericValue(c);
    var check := IdValidation(Some(LongValue(v)), keys);
    if check.Fail? then Err(IllegalArgument(AtCell(check.error.reason, rowNum, column)))
    else Ok(LongValue(v))
  }

  /** `Arrays.stream(us).filter(u -> u.toString().equals(name)).findFirst()`. */
  function FindUnit(us: seq<Unit>, name: string): (r: Option<Unit>)
    ensures r.Some? ==> r.value in us && UnitName(r.value) == name
    ensures r.None? ==> forall i :: 0 <= i < |us| ==> UnitName(us[i]) != name
  {
    if us == [] then None
    else if UnitName(us[0]) == name then Some(us[0])
    else FindUnit(us[1..], name)
  }

  /** The unit whose name is the cell's text upper-cased; any other text is refused, naming the cell. */
  function UnitCell(c: Cell, rowNum: int, column: int): (r: Result<Unit>)
    ensures r.Ok? <==> c.Text? && FindUnit(Units, Upper(c.text)).Some?
    ensures r.Ok? ==> UnitName(r.value) == Upper(c.text)
    ensures c.Text? && r.Err? ==> r == Err(IllegalArgument(AtCell(WrongUnit(c.text), rowNum, column)))
    ensures r.Err? ==> CellError(r.error, rowNum, column)
  {
    var text :- StringValue(c);
    match FindUnit(Units, Upper(text))
    case Some(u) => Ok(u)
    case None => Err(IllegalArgument(AtCell(WrongUnit(text), rowNum, column)))
  }

  /** Every unit is read from its own name, in any letter case, and from nothing else. */
  lemma UnitCellReads(text: string, u: Unit, rowNum: int, column: int)
    ensures UnitCell(Text(text), rowNum, column) == Ok(u) <==> Upper(text) == UnitName(u)
  {
    assert Units[0] == MILLILITER && Units[1] == LITRE && Units[2] == GRAM && Units[3] == KILOGRAM && Units[4] == PIECE;
    if Upper(text) == UnitName(u) {
      var i := match u case MILLILITER => 0 case LITRE => 1 case GRAM => 2 case KILOGRAM => 3 case PIECE => 4;
      assert Units[i] == u;
      var found := FindUnit(Units, Upper(text));
      if found.Some? {
        UnitNamesDiffer(found.value, u);
      }
    }
  }

  /** No two units share a name. */
  lemma UnitNamesDiffer(u: Unit, v: Unit)
    requires UnitName(u) == UnitName(v)
    ensures u == v
  {
  }

  /** A lower-case unit name is read as its unit. */
  lemma LowerCaseUnit()
    ensures UnitCell(Text("gram"), 1, 4) == Ok(GRAM)
  {
    UnitCellReads("gram", GRAM, 1, 4);
  }

  /** The cell in column `j`, when `j` is among the first `n` columns and the cell is not blank. */
  function CellAt(row: SheetRow, n: nat, j: nat): Option<Cell>
    requires n <= |row.cells|
  {
    if j < n then row.cells[j] else None
  }

  /** Each field is null for a blank column and otherwise what its column holds. */
  predicate IdField(cell: Option<Cell>, field: Option<int>, keys: set<int>)
  {
    match cell
    case None => field.None?
    case Some(c) => c.Number? && field == Some(LongValue(c.number)) && field.value in keys && field.value != 0
  }

  predicate TextField(cell: Option<Cell>, field: Option<string>)
  {
    match cell
    case None => field.None?
    case Some(c) => c.Text? && field == Some(c.text)
  }

  predicate CountField(cell: Option<Cell>, field: Option<int>)
  {
    match cell
    case None => field.None?
    case Some(c) => c.Number? && field == Some(IntValue(c.number))
  }

  predicate UnitField(cell: Option<Cell>, field: Option<Unit>)
  {
    match cell
    case None => field.None?
    case Some(c) => c.Text? && field.Some? && UnitName(field.value) == Upper(c.text)
  }

  predicate DecimalField(cell: Option<Cell>, field: Option<Decimal>)
  {
    match cell
    case None => field.None?
    case Some(c) => c.Number? && field == Some(c.number)
  }

  predicate DateField(cell: Option<Cell>, field: Option<int>)
  {
    match cell
    case None => field.None?
    case Some(c) => c.Number? && 0 <= c.number.unscaled && field == Some(IntegerPart(c.number))
  }

  // ---- Creating what was read ----

  /** Imported DTOs as created: the k-th one made under id `first + k`. */
  function Numbered<D, E>(make: (D, int) -> E, ds: seq<D>, first: int): seq<E>
  {
    if ds == [] then [] else
      var last := |ds| - 1;
      Numbered(make, ds[..last], first) + [make(ds[last], first + last)]
  }

  /** The k-th created DTO is the k-th one read, made under id `first + k`. */
  lemma {:induction false} NumberedAt<D, E>(make: (D, int) -> E, ds: seq<D>, first: int)
    ensures |Numbered(make, ds, first)| == |ds|
    ensures forall k :: 0 <= k < |ds| ==> Numbered(make, ds, first)[k] == make(ds[k], first + k)
  {
    if ds != [] {
      var last := |ds| - 1;
      NumberedAt(make, ds[..last], first);
      assert forall k :: 0 <= k < last ==> ds[..last][k] == ds[k];
    }
  }

  /** Creating one more DTO appends it, made under the next id. */
  lemma NumberedGrow<D, E>(make: (D, int) -> E, ds: seq<D>, first: int, k: nat)
    requires k < |ds|
    ensures Numbered(make, ds[..k + 1], first) == Numbered(make, ds[..k], first) + [make(ds[k], first + k)]
  {
    assert ds[..k + 1][..k] == ds[..k];
  }

  /** The rows an import adds: the k-th DTO's row under id `first + k`. */
  function NewRows<D, R>(rowOf: D -> R, ds: seq<D>, first: int): map<int, R>
  {
    if ds == [] then map[] else
      var last := |ds| - 1;
      NewRows(rowOf, ds[..last], first)[first + last := rowOf(ds[last])]
  }

  /** The new rows sit under `first` .. `first + |ds| - 1`, the k-th DTO's row under `first + k`. */
  lemma {:induction false} NewRowsAt<D, R>(rowOf: D -> R, ds: seq<D>, first: int)
    ensures forall x :: x in NewRows(rowOf, ds, first) <==> first <= x < first + |ds|
    ensures forall k :: 0 <= k < |ds| ==> NewRows(rowOf, ds, first)[first + k] == rowOf(ds[k])
  {
    if ds != [] {
      var last := |ds| - 1;
      NewRowsAt(rowOf, ds[..last], first);
      assert forall k :: 0 <= k < last ==> ds[..last][k] == ds[k];
    }
  }

  /** Creating one more DTO adds its row under the next id. */
  lemma NewRowsGrow<D, R>(rows: map<int, R>, rowOf: D -> R, ds: seq<D>, first: int, k: nat)
    requires k < |ds|
    ensures (rows + NewRows(rowOf, ds[..k], first))[first + k := rowOf(ds[k])] == rows + NewRows(rowOf, ds[..k + 1], first)
  {
    assert ds[..k + 1][..k] == ds[..k];
  }

  // ---- Products: subcategory id, name, brand, quantity, unit, manufacturer ----

  /** The cells a product row accepts, column by column. */
  predicate ProductCellFits(t: Tables, column: nat, c: Cell)
  {
    if column == 0 then IdFits(t.subcategories.Keys, c)
    else if column == 1 || column == 2 || column == 5 then c.Text?
    else if column == 3 then c.Number?
    else if column == 4 then c.Text? && FindUnit(Units, Upper(c.text)).Some?
    else false
  }

  /** One non-blank cell of a product row; a column past the sixth is refused, naming the cell. */
  function ProductCell(t: Tables, rowNum: int, column: nat, c: Cell, dto: ProductDTO): (r: Result<ProductDTO>)
    ensures r.Ok? <==> ProductCellFits(t, column, c)
    ensures r.Err? ==> CellError(r.error, rowNum, column)
    ensures column > 5 ==> r == Err(IllegalArgument(AtCell(NotOwnedData, rowNum, column)))
  {
    if column == 0 then
      var id :- IdCell(t.subcategories.Keys, c, rowNum, column);
      Ok(dto.(subcategoryId := Some(id)))
    else if column == 1 then
      var name :- StringValue(c);
      Ok(dto.(name := Some(name)))
    else if column == 2 then
      var brand :- StringValue(c);
      Ok(dto.(brand := Some(brand)))
    else if column == 3 then
      var quantity :- NumericValue(c);
      Ok(dto.(quantity := Some(IntValue(quantity))))
    else if column == 4 then
      var unit :- UnitCell(c, rowNum, column);
      Ok(dto.(unit := Some(unit)))
    else if column == 5 then
      var manufacturer :- StringValue(c);
      Ok(dto.(manufacturer := Some(manufacturer)))
    else Err(IllegalArgument(AtCell(NotOwnedData, rowNum, column)))
  }

  function ProductStep(t: Tables): (int, nat, Cell, ProductDTO) -> Result<ProductDTO>
  {
    (rowNum: int, column: nat, c: Cell, dto: ProductDTO) => ProductCell(t, rowNum, column, c, dto)
  }

  /** What a product row read from its first `n` columns holds. */
  predicate ProductColumns(t: Tables, row: SheetRow, n: nat, dto: ProductDTO)
    requires n <= |row.cells|
  {
    && IdField(CellAt(row, n, 0), dto.subcategoryId, t.subcategories.Keys)
    && TextField(CellAt(row, n, 1), dto.name)
    && TextField(CellAt(row, n, 2), dto.brand)
    && CountField(CellAt(row, n, 3), dto.quantity)
    && UnitField(CellAt(row, n, 4), dto.unit)
    && TextField(CellAt(row, n, 5), dto.manufacturer)
    && dto.id.None? && dto.priceListsId.None?
  }

  /**
   * A product row is read exactly when every non-blank cell fits its column (so nothing past the
   * sixth column), and then each field is its column's value, or null when that cell is blank.
   */
  lemma {:induction false} ProductRowRead(t: Tables, row: SheetRow, n: nat)
    requires n <= |row.cells|
    ensures ReadCells(row, n, EmptyProductDTO, ProductStep(t)).Ok? <==>
      forall j :: 0 <= j < n && row.cells[j].Some? ==> ProductCellFits(t, j, row.cells[j].value)
    ensures ReadCells(row, n, EmptyProductDTO, ProductStep(t)).Ok? ==>
      ProductColumns(t, row, n, ReadCells(row, n, EmptyProductDTO, ProductStep(t)).value)
  {
    ReadCellsSucceeds(row, n, EmptyProductDTO, ProductStep(t), (j: nat, c: Cell) => ProductCellFits(t, j, c));
    ProductRowHolds(t, row, n);
  }

  /** Every column read so far holds what its cell held. */
  lemma {:induction false} ProductRowHolds(t: Tables, row: SheetRow, n: nat)
    requires n <= |row.cells|
    ensures ReadCells(row, n, EmptyProductDTO, ProductStep(t)).Ok? ==>
      ProductColumns(t, row, n, ReadCells(row, n, EmptyProductDTO, ProductStep(t)).value)
    decreases n
  {
    if n > 0 {
      ProductRowHolds(t, row, n - 1);
      if ReadCells(row, n - 1, EmptyProductDTO, ProductStep(t)).Ok? {
        ProductColumnRead(t, row, n);
      }
    }
  }

  /** One more column read keeps the row's fields what their columns hold. */
  lemma ProductColumnRead(t: Tables, row: SheetRow, n: nat)
    requires 0 < n <= |row.cells|
    requires ReadCells(row, n - 1, EmptyProductDTO, ProductStep(t)).Ok?
    requires ProductColumns(t, row, n - 1, ReadCells(row, n - 1, EmptyProductDTO, ProductStep(t)).value)
    ensures ReadCells(row, n, EmptyProductDTO, ProductStep(t)).Ok? ==>
      ProductColumns(t, row, n, ReadCells(row, n, EmptyProductDTO, ProductStep(t)).value)
  {
    var acc := ReadCells(row, n - 1, EmptyProductDTO, ProductStep(t)).value;
    if row.cells[n - 1].None? {
      assert ReadCells(row, n, EmptyProductDTO, ProductStep(t)) == Ok(acc);
      assert forall j: nat :: CellAt(row, n, j) == CellAt(row, n - 1, j);
    } else {
      var c := row.cells[n - 1].value;
      assert ReadCells(row, n, EmptyProductDTO, ProductStep(t)) == ProductCell(t, row.rowNum, n - 1, c, acc);
      if ProductCell(t, row.rowNum, n - 1, c, acc).Ok? {
        ProductCellRead(t, row, n, c, acc);
      }
    }
  }

  /** A non-blank cell read sets its own column's field and leaves the others as they were. */
  lemma ProductCellRead(t: Tables, row: SheetRow, n: nat, c: Cell, acc: ProductDTO)
    requires 0 < n <= |row.cells| && row.cells[n - 1] == Some(c)
    requires ProductColumns(t, row, n - 1, acc)
    requires ProductCell(t, row.rowNum, n - 1, c, acc).Ok?
    ensures ProductColumns(t, row, n, ProductCell(t, row.rowNum, n - 1, c, acc).value)
  {
    assert forall j: nat :: j != n - 1 ==> CellAt(row, n, j) == CellAt(row, n - 1, j);
    assert CellAt(row, n, n - 1) == Some(c);
  }

  /** A product row is kept when it names a subcategory. */
  predicate ProductKept(dto: ProductDTO)
  {
    dto.subcategoryId.Some?
  }

  /** The product DTOs the sheet yields, in row order. */
  function ParseProducts(t: Tables, sheet: seq<SheetRow>): (r: Result<seq<ProductDTO>>)
    ensures r.Ok? ==> forall i :: 0 <= i < |r.value| ==>
      r.value[i].id.None? && r.value[i].priceListsId.None?
      && IdValidation(r.value[i].subcategoryId, t.subcategories.Keys).Pass?
  {
    var r := ParseRows(sheet, RowParser(EmptyProductDTO, ProductStep(t)), ProductKept);
    assert r.Ok? ==> forall i :: 0 <= i < |r.value| ==>
      r.value[i].id.None? && r.value[i].priceListsId.None?
      && IdValidation(r.value[i].subcategoryId, t.subcategories.Keys).Pass? by {
      if r.Ok? {
        forall i | 0 <= i < |r.value|
          ensures r.value[i].id.None? && r.value[i].priceListsId.None?
            && IdValidation(r.value[i].subcategoryId, t.subcategories.Keys).Pass?
        {
          var j :| 0 <= j < |sheet| && RowParser(EmptyProductDTO, ProductStep(t))(sheet[j]) == Ok(r.value[i]);
          ProductRowRead(t, sheet[j], |sheet[j].cells|);
        }
      }
    }
    r
  }

  /** The DTO `productService.create` returns for an imported product saved under `k`. */
  function CreatedProduct(dto: ProductDTO, k: int): ProductDTO
  {
    dto.(id := Some(k))
  }

  /** The row `productService.create` stores for an imported product. */
  function ProductRowOf(dto: ProductDTO): ProductRow
  {
    ProductRow(dto.subcategoryId.GetOr(0), dto.name, dto.brand, dto.quantity, dto.unit, dto.manufacturer)
  }

  /**
   * `createProducts`: the sheet's products are read and created in row order; a failing cell
   * throws before anything is created. Each creation succeeds, so the products come back with
   * consecutive new ids and only the products table grows.
   */
  method CreateProducts(db: Database, sheet: seq<SheetRow>) returns (r: Result<seq<ProductDTO>>)
    requires db.Valid()
    modifies db`tables, db`nextId
    ensures db.Valid()
    ensures ParseProducts(old(db.tables), sheet).Err? ==>
      r == Err(ParseProducts(old(db.tables), sheet).error)
      && db.tables == old(db.tables) && db.nextId == old(db.nextId)
    ensures ParseProducts(old(db.tables), sheet).Ok? ==>
      var kept := ParseProducts(old(db.tables), sheet).value;
      r == Ok(Numbered(CreatedProduct, kept, old(db.nextId)))
      && db.tables == old(db.tables).(products := old(db.tables).products + NewRows(ProductRowOf, kept, old(db.nextId)))
      && db.nextId == old(db.nextId) + |kept|
  {
    var parsed := ReadSheet(sheet, EmptyProductDTO, ProductStep(db.tables), ProductKept);
    assert parsed == ParseProducts(db.tables, sheet);
    if parsed.Err? {
      return Err(parsed.error);
    }
    var created := CreateEachProduct(db, parsed.value);
    r := Ok(created);
  }

  /** The creation loop of `createProducts`: `productService.create` on each DTO read, in order. */
  method CreateEachProduct(db: Database, kept: seq<ProductDTO>) returns (created: seq<ProductDTO>)
    requires db.Valid()
    requires forall i :: 0 <= i < |kept| ==>
      kept[i].id.None? && kept[i].priceListsId.None? && IdValidation(kept[i].subcategoryId, db.tables.subcategories.Keys).Pass?
    modifies db`tables, db`nextId
    ensures db.Valid()
    ensures created == Numbered(CreatedProduct, kept, old(db.nextId))
    ensures db.tables == old(db.tables).(products := old(db.tables).products + NewRows(ProductRowOf, kept, old(db.nextId)))
    ensures db.nextId == old(db.nextId) + |kept|
  {
    ghost var t0 := db.tables;
    ghost var next0 := db.nextId;
    assert IdsBelow(t0, next0);
    created := [];
    for k := 0 to |kept|
      invariant db.Valid()
      invariant db.nextId == next0 + k
      invariant db.tables == t0.(products := t0.products + NewRows(ProductRowOf, kept[..k], next0))
      invariant created == Numbered(CreatedProduct, kept[..k], next0)
    {
      var dto := kept[k];
      assert ProductService.ConvertFromDTO(db.tables, dto).Ok?;
      var one := ProductService.Create(db, dto);
      NewRowsGrow(t0.products, ProductRowOf, kept, next0, k);
      NumberedGrow(CreatedProduct, kept, next0, k);
      created := created + [one.value];
    }
    assert kept[..|kept|] == kept;
  }

  // ---- Price lists: store id, product id, current price ----

  predicate PriceListCellFits(t: Tables, column: nat, c: Cell)
  {
    if column == 0 then IdFits(t.stores.Keys, c)
    else if column == 1 then IdFits(t.products.Keys, c)
    else if column == 2 then c.Number?
    else false
  }

  /**
   * One non-blank cell of a price-list row. The current price is `BigDecimal.valueOf` of the
   * number, which cannot fail on a finite cell value.
   */
  function PriceListCell(t: Tables, rowNum: int, column: nat, c: Cell, dto: PriceListDTO): (r: Result<PriceListDTO>)
    ensures r.Ok? <==> PriceListCellFits(t, column, c)
    ensures r.Err? ==> CellError(r.error, rowNum, column)
    ensures column > 2 ==> r == Err(IllegalArgument(AtCell(NotOwnedData, rowNum, column)))
  {
    if column == 0 then
      var id :- IdCell(t.stores.Keys, c, rowNum, column);
      Ok(dto.(storeId := Some(id)))
    else if column == 1 then
      var id :- IdCell(t.products.Keys, c, rowNum, column);
      Ok(dto.(productId := Some(id)))
    else if column == 2 then
      var price :- NumericValue(c);
      Ok(dto.(currentPrice := Some(price)))
    else Err(IllegalArgument(AtCell(NotOwnedData, rowNum, column)))
  }

  function PriceListStep(t: Tables): (int, nat, Cell, PriceListDTO) -> Result<PriceListDTO>
  {
    (rowNum: int, column: nat, c: Cell, dto: PriceListDTO) => PriceListCell(t, rowNum, column, c, dto)
  }

  predicate PriceListColumns(t: Tables, row: SheetRow, n: nat, dto: PriceListDTO)
    requires n <= |row.cells|
  {
    && IdField(CellAt(row, n, 0), dto.storeId, t.stores.Keys)
    && IdField(CellAt(row, n, 1), dto.productId, t.products.Keys)
    && DecimalField(CellAt(row, n, 2), dto.currentPrice)
    && dto.id.None? && dto.storeName.None? && dto.priceHistoryList == Some([])
  }

  /**
   * A price-list row is read exactly when every non-blank cell fits its column, and then each field
   * is its column's value (null when blank), with an empty history.
   */
  lemma {:induction false} PriceListRowRead(t: Tables, row: SheetRow, n: nat)
    requires n <= |row.cells|
    ensures ReadCells(row, n, EmptyPriceListDTO, PriceListStep(t)).Ok? <==>
      forall j :: 0 <= j < n && row.cells[j].Some? ==> PriceListCellFits(t, j, row.cells[j].value)
    ensures ReadCells(row, n, EmptyPriceListDTO, PriceListStep(t)).Ok? ==>
      PriceListColumns(t, row, n, ReadCells(row, n, EmptyPriceListDTO, PriceListStep(t)).value)
  {
    ReadCellsSucceeds(row, n, EmptyPriceListDTO, PriceListStep(t), (j: nat, c: Cell) => PriceListCellFits(t, j, c));
    PriceListRowHolds(t, row, n);
  }

  /** Every column read so far holds what its cell held. */
  lemma {:induction false} PriceListRowHolds(t: Tables, row: SheetRow, n: nat)
    requires n <= |row.cells|
    ensures ReadCells(row, n, EmptyPriceListDTO, PriceListStep(t)).Ok? ==>
      PriceListColumns(t, row, n, ReadCells(row, n, EmptyPriceListDTO, PriceListStep(t)).value)
    decreases n
  {
    if n > 0 {
      PriceListRowHolds(t, row, n - 1);
      if ReadCells(row, n - 1, EmptyPriceListDTO, PriceListStep(t)).Ok? {
        PriceListColumnRead(t, row, n);
      }
    }
  }

  /** One more column read keeps the row's fields what their columns hold. */
  lemma PriceListColumnRead(t: Tables, row: SheetRow, n: nat)
    requires 0 < n <= |row.cells|
    requires ReadCells(row, n - 1, EmptyPriceListDTO, PriceListStep(t)).Ok?
    requires PriceListColumns(t, row, n - 1, ReadCells(row, n - 1, EmptyPriceListDTO, PriceListStep(t)).value)
    ensures ReadCells(row, n, EmptyPriceListDTO, PriceListStep(t)).Ok? ==>
      PriceListColumns(t, row, n, ReadCells(row, n, EmptyPriceListDTO, PriceListStep(t)).value)
  {
    var acc := ReadCells(row, n - 1, EmptyPriceListDTO, PriceListStep(t)).value;
    assert forall j: nat :: j != n - 1 ==> CellAt(row, n, j) == CellAt(row, n - 1, j);
    if row.cells[n - 1].Some? {
      var c := row.cells[n - 1].value;
      assert ReadCells(row, n, EmptyPriceListDTO, PriceListStep(t)) == PriceListCell(t, row.rowNum, n - 1, c, acc);
    }
  }

  /** A price list as the import reads it: new, with no history, a valid store and, if any, a valid product. */
  predicate ImportedPriceList(t: Tables, dto: PriceListDTO)
  {
    && dto.id.None? && dto.priceHistoryList == Some([])
    && IdValidation(dto.storeId, t.stores.Keys).Pass?
    && (dto.productId.Some? ==> IdValidation(dto.productId, t.products.Keys).Pass?)
  }

  predicate PriceListKept(dto: PriceListDTO)
  {
    dto.storeId.Some?
  }

  /** The price-list DTOs the sheet yields, in row order. */
  function ParsePriceLists(t: Tables, sheet: seq<SheetRow>): (r: Result<seq<PriceListDTO>>)
    ensures r.Ok? ==> forall i :: 0 <= i < |r.value| ==>
      ImportedPriceList(t, r.value[i])
  {
    var r := ParseRows(sheet, RowParser(EmptyPriceListDTO, PriceListStep(t)), PriceListKept);
    assert r.Ok? ==> forall i :: 0 <= i < |r.value| ==>
      ImportedPriceList(t, r.value[i]) by {
      if r.Ok? {
        forall i | 0 <= i < |r.value|
          ensures ImportedPriceList(t, r.value[i])
        {
          var j :| 0 <= j < |sheet| && RowParser(EmptyPriceListDTO, PriceListStep(t))(sheet[j]) == Ok(r.value[i]);
          PriceListRowRead(t, sheet[j], |sheet[j].cells|);
        }
      }
    }
    r
  }

  /** `priceListService.create` succeeds on an imported list only if it has a product and a current price. */
  predicate Creatable(dto: PriceListDTO)
  {
    dto.productId.Some? && dto.currentPrice.Some?
  }

  /** How many imported lists are created before the first that cannot be. */
  function CreatablePrefix(ds: seq<PriceListDTO>): (m: nat)
    ensures m <= |ds|
    ensures forall k :: 0 <= k < m ==> Creatable(ds[k])
    ensures m < |ds| ==> !Creatable(ds[m])
  {
    if ds == [] || !Creatable(ds[0]) then 0 else 1 + CreatablePrefix(ds[1..])
  }

  /** The creatable prefix ends at the first list that is not creatable. */
  lemma CreatablePrefixEnds(ds: seq<PriceListDTO>, k: nat)
    requires k <= |ds| && forall i :: 0 <= i < k ==> Creatable(ds[i])
    requires k < |ds| ==> !Creatable(ds[k])
    ensures CreatablePrefix(ds) == k
  {
  }

  /** Why `priceListService.create` refuses an imported list: no product id, else no current price. */
  function CreateError(dto: PriceListDTO): Error
  {
    if dto.productId.None? then IllegalArgument(NullOrZeroId) else NullPointer
  }

  /** The row `priceListService.create` stores: the current price is truncated to two decimals. */
  function PriceListRowOf(dto: PriceListDTO): PriceListRow
  {
    PriceListRow(dto.storeId.GetOr(0), dto.productId.GetOr(0),
                 if dto.currentPrice.Some? then Some(SetScale2Down(dto.currentPrice.value)) else None)
  }

  /** The DTO `priceListService.create` returns for an imported list saved under `k`. */
  function CreatedPriceList(t: Tables, dto: PriceListDTO, k: int): PriceListDTO
  {
    var store := dto.storeId.GetOr(0);
    PriceListDTO(Some(k), dto.storeId, if store in t.stores then Some(t.stores[store].name) else None,
                 dto.productId, if dto.currentPrice.Some? then Some(SetScale2Down(dto.currentPrice.value)) else None,
                 Some([]))
  }
  function CreatedPriceListIn(t: Tables): (PriceListDTO, int) -> PriceListDTO
  {
    (dto: PriceListDTO, k: int) => CreatedPriceList(t, dto, k)
  }

  /** An imported list that can be created comes back with its store's name and a truncated price. */
  lemma CreatedPriceListHolds(t: Tables, dto: PriceListDTO, k: int)
    requires dto.storeId.Some? && dto.storeId.value in t.stores && Creatable(dto)
    ensures CreatedPriceList(t, dto, k).storeName == Some(t.stores[dto.storeId.value].name)
    ensures CreatedPriceList(t, dto, k).currentPrice == Some(SetScale2Down(dto.currentPrice.value))
    ensures CreatedPriceList(t, dto, k).currentPrice.value.scale == 2
  {
  }

  /**
   * `createPriceLists`: the sheet's price lists are read, then created in row order. A list with
   * no product id or no current price makes `create` throw; the lists before it stay created.
   */
  method CreatePriceLists(db: Database, sheet: seq<SheetRow>) returns (r: Result<seq<PriceListDTO>>)
    requires db.Valid()
    modifies db`tables, db`nextId
    ensures db.Valid()
    ensures ParsePriceLists(old(db.tables), sheet).Err? ==>
      r == Err(ParsePriceLists(old(db.tables), sheet).error)
      && db.tables == old(db.tables) && db.nextId == old(db.nextId)
    ensures ParsePriceLists(old(db.tables), sheet).Ok? ==>
      var kept := ParsePriceLists(old(db.tables), sheet).value;
      var m := CreatablePrefix(kept);
      db.tables == old(db.tables).(priceLists := old(db.tables).priceLists + NewRows(PriceListRowOf, kept[..m], old(db.nextId)))
      && db.nextId == old(db.nextId) + m
      && (m == |kept| ==> r == Ok(Numbered(CreatedPriceListIn(old(db.tables)), kept, old(db.nextId))))
      && (m < |kept| ==> r == Err(CreateError(kept[m])))
  {
    var parsed := ReadSheet(sheet, EmptyPriceListDTO, PriceListStep(db.tables), PriceListKept);
    assert parsed == ParsePriceLists(db.tables, sheet);
    if parsed.Err? {
      return Err(parsed.error);
    }
    r := CreateEachPriceList(db, parsed.value);
  }

  /**
   * The creation loop of `createPriceLists`: `priceListService.create` on each DTO read, in order,
   * until one throws.
   */
  method CreateEachPriceList(db: Database, kept: seq<PriceListDTO>) returns (r: Result<seq<PriceListDTO>>)
    requires db.Valid()
    requires forall i :: 0 <= i < |kept| ==>
      ImportedPriceList(db.tables, kept[i])
    modifies db`tables, db`nextId
    ensures db.Valid()
    ensures var m := CreatablePrefix(kept);
      db.tables == old(db.tables).(priceLists := old(db.tables).priceLists + NewRows(PriceListRowOf, kept[..m], old(db.nextId)))
      && db.nextId == old(db.nextId) + m
      && (m == |kept| ==> r == Ok(Numbered(CreatedPriceListIn(old(db.tables)), kept, old(db.nextId))))
      && (m < |kept| ==> r == Err(CreateError(kept[m])))
  {
    ghost var t0 := db.tables;
    ghost var next0 := db.nextId;
    assert IdsBelow(t0, next0);
    var created: seq<PriceListDTO> := [];
    for k := 0 to |kept|
      invariant forall i :: 0 <= i < k ==> Creatable(kept[i])
      invariant db.Valid()
      invariant db.nextId == next0 + k
      invariant db.tables == t0.(priceLists := t0.priceLists + NewRows(PriceListRowOf, kept[..k], next0))
      invariant created == Numbered(CreatedPriceListIn(t0), kept[..k], next0)
    {
      var one := CreateOnePriceList(db, kept[k]);
      if one.Err? {
        CreatablePrefixEnds(kept, k);
        return Err(one.error);
      }
      assert Creatable(kept[k]);
      NewRowsGrow(t0.priceLists, PriceListRowOf, kept, next0, k);
      NumberedGrow(CreatedPriceListIn(t0), kept, next0, k);
      created := created + [one.value];
    }
    CreatablePrefixEnds(kept, |kept|);
    assert kept[..|kept|] == kept;
    r := Ok(created);
  }

  /** `priceListService.create` on one imported list. */
  method CreateOnePriceList(db: Database, dto: PriceListDTO) returns (r: Result<PriceListDTO>)
    requires db.Valid()
    requires ImportedPriceList(db.tables, dto)
    modifies db`tables, db`nextId
    ensures db.Valid()
    ensures r.Ok? <==> Creatable(dto)
    ensures !Creatable(dto) ==> r == Err(CreateError(dto)) && db.tables == old(db.tables) && db.nextId == old(db.nextId)
    ensures Creatable(dto) ==>
      r == Ok(CreatedPriceList(old(db.tables), dto, old(db.nextId)))
      && db.tables == old(db.tables).(priceLists := old(db.tables).priceLists[old(db.nextId) := PriceListRowOf(dto)])
      && db.nextId == old(db.nextId) + 1
  {
    ghost var before := db.tables;
    CreatedOrRefused(before, dto);
    r := PriceListService.Create(db, dto);
    if Creatable(dto) {
      SavedConverts(before, db.tables, dto, old(db.nextId));
    }
  }

  /**
   * What `priceListService.create` makes of one imported list: it is refused exactly when it is
   * not creatable, with that reason; otherwise it is converted as its row says.
   */
  lemma CreatedOrRefused(t: Tables, dto: PriceListDTO)
    requires ImportedPriceList(t, dto)
    ensures PriceListService.PriceListFromDTO(t, dto).Ok? <==> Creatable(dto)
    ensures !Creatable(dto) ==> PriceListService.PriceListFromDTO(t, dto) == Err(CreateError(dto))
    ensures Creatable(dto) ==>
      var pl := PriceListService.PriceListFromDTO(t, dto).value;
      PriceListService.RowOf(pl) == PriceListRowOf(dto) && pl.id.None? && pl.priceHistoryList == []
  {
    assert !PriceListService.HasHistory(dto);
  }

  /** Saved under `k`, a created list converts back to the DTO `create` returns. */
  lemma SavedConverts(t: Tables, t': Tables, dto: PriceListDTO, k: int)
    requires dto.id.None? && dto.priceHistoryList == Some([]) && Creatable(dto)
    requires IdValidation(dto.storeId, t.stores.Keys).Pass? && IdValidation(dto.productId, t.products.Keys).Pass?
    requires t'.stores == t.stores
    ensures PriceListService.PriceListFromDTO(t, dto).Ok?
    ensures PriceListService.ConvertToDTO(t', PriceListService.Saved(PriceListService.PriceListFromDTO(t, dto).value, k))
      == Ok(CreatedPriceList(t, dto, k))
  {
    assert !PriceListService.HasHistory(dto);
    var pl := PriceListService.PriceListFromDTO(t, dto).value;
    var r := PriceListService.ConvertToDTO(t', PriceListService.Saved(pl, k));
    assert PriceListService.Saved(pl, k).priceHistoryList == [];
    assert r.Ok? && r.value.priceHistoryList == Some([]);
  }

  // ---- Prices: price-list id, price, date ----

  predicate PriceCellFits(t: Tables, column: nat, c: Cell)
  {
    if column == 0 then IdFits(t.priceLists.Keys, c)
    else if column == 1 then c.Number?
    else if column == 2 then c.Number? && 0 <= c.number.unscaled
    else false
  }

  /** One non-blank cell of a price row. */
  function PriceCell(t: Tables, rowNum: int, column: nat, c: Cell, dto: PriceDTO): (r: Result<PriceDTO>)
    ensures r.Ok? <==> PriceCellFits(t, column, c)
    ensures r.Err? ==> CellError(r.error, rowNum, column) || r.error == NullPointer
    ensures column > 2 ==> r == Err(IllegalArgument(AtCell(NotOwnedData, rowNum, column)))
  {
    if column == 0 then
      var id :- IdCell(t.priceLists.Keys, c, rowNum, column);
      Ok(dto.(priceListId := Some(id)))
    else if column == 1 then
      var price :- NumericValue(c);
      Ok(dto.(price := Some(price)))
    else if column == 2 then
      var day :- DateValue(c);
      Ok(dto.(date := Some(day)))
    else Err(IllegalArgument(AtCell(NotOwnedData, rowNum, column)))
  }

  function PriceStep(t: Tables): (int, nat, Cell, PriceDTO) -> Result<PriceDTO>
  {
    (rowNum: int, column: nat, c: Cell, dto: PriceDTO) => PriceCell(t, rowNum, column, c, dto)
  }

  predicate PriceColumns(t: Tables, row: SheetRow, n: nat, dto: PriceDTO)
    requires n <= |row.cells|
  {
    && IdField(CellAt(row, n, 0), dto.priceListId, t.priceLists.Keys)
    && DecimalField(CellAt(row, n, 1), dto.price)
    && DateField(CellAt(row, n, 2), dto.date)
    && dto.id.None?
  }

  /**
   * A price row is read exactly when every non-blank cell fits its column, and then each field is
   * its column's value, or null when that cell is blank.
   */
  lemma {:induction false} PriceRowRead(t: Tables, row: SheetRow, n: nat)
    requires n <= |row.cells|
    ensures ReadCells(row, n, EmptyPriceDTO, PriceStep(t)).Ok? <==>
      forall j :: 0 <= j < n && row.cells[j].Some? ==> PriceCellFits(t, j, row.cells[j].value)
    ensures ReadCells(row, n, EmptyPriceDTO, PriceStep(t)).Ok? ==>
      PriceColumns(t, row, n, ReadCells(row, n, EmptyPriceDTO, PriceStep(t)).value)
  {
    ReadCellsSucceeds(row, n, EmptyPriceDTO, PriceStep(t), (j: nat, c: Cell) => PriceCellFits(t, j, c));
    PriceRowHolds(t, row, n);
  }

  /** Every column read so far holds what its cell held. */
  lemma {:induction false} PriceRowHolds(t: Tables, row: SheetRow, n: nat)
    requires n <= |row.cells|
    ensures ReadCells(row, n, EmptyPriceDTO, PriceStep(t)).Ok? ==>
      PriceColumns(t, row, n, ReadCells(row, n, EmptyPriceDTO, PriceStep(t)).value)
    decreases n
  {
    if n > 0 {
      PriceRowHolds(t, row, n - 1);
      if ReadCells(row, n - 1, EmptyPriceDTO, PriceStep(t)).Ok? {
        PriceColumnRead(t, row, n);
      }
    }
  }

  /** One more column read keeps the row's fields what their columns hold. */
  lemma PriceColumnRead(t: Tables, row: SheetRow, n: nat)
    requires 0 < n <= |row.cells|
    requires ReadCells(row, n - 1, EmptyPriceDTO, PriceStep(t)).Ok?
    requires PriceColumns(t, row, n - 1, ReadCells(row, n - 1, EmptyPriceDTO, PriceStep(t)).value)
    ensures ReadCells(row, n, EmptyPriceDTO, PriceStep(t)).Ok? ==>
      PriceColumns(t, row, n, ReadCells(row, n, EmptyPriceDTO, PriceStep(t)).value)
  {
    var acc := ReadCells(row, n - 1, EmptyPriceDTO, PriceStep(t)).value;
    assert forall j: nat :: j != n - 1 ==> CellAt(row, n, j) == CellAt(row, n - 1, j);
    if row.cells[n - 1].Some? {
      var c := row.cells[n - 1].value;
      assert ReadCells(row, n, EmptyPriceDTO, PriceStep(t)) == PriceCell(t, row.rowNum, n - 1, c, acc);
    }
  }

  predicate PriceKept(dto: PriceDTO)
  {
    dto.priceListId.Some?
  }

  /** The price DTOs the sheet yields, in row order. */
  function ParsePrices(t: Tables, sheet: seq<SheetRow>): (r: Result<seq<PriceDTO>>)
    ensures r.Ok? ==> forall i :: 0 <= i < |r.value| ==>
      r.value[i].id.None? && IdValidation(r.value[i].priceListId, t.priceLists.Keys).Pass?
  {
    var r := ParseRows(sheet, RowParser(EmptyPriceDTO, PriceStep(t)), PriceKept);
    assert r.Ok? ==> forall i :: 0 <= i < |r.value| ==>
      r.value[i].id.None? && IdValidation(r.value[i].priceListId, t.priceLists.Keys).Pass? by {
      if r.Ok? {
        forall i | 0 <= i < |r.value|
          ensures r.value[i].id.None? && IdValidation(r.value[i].priceListId, t.priceLists.Keys).Pass?
        {
          var j :| 0 <= j < |sheet| && RowParser(EmptyPriceDTO, PriceStep(t))(sheet[j]) == Ok(r.value[i]);
          PriceRowRead(t, sheet[j], |sheet[j].cells|);
        }
      }
    }
    r
  }

  /** The DTO `priceService.create` returns for an imported price saved under `k`. */
  function CreatedPrice(dto: PriceDTO, k: int): PriceDTO
  {
    dto.(id := Some(k))
  }

  function PriceRowOf(dto: PriceDTO): PriceRow
  {
    PriceRow(dto.price, dto.date, To(dto.priceListId))
  }

  /**
   * `createPrices`: the sheet's prices are read and created in row order; a failing cell throws
   * before anything is created. Each creation succeeds, so the prices come back with consecutive
   * new ids, each owned by the list its row names, and only the prices table grows.
   */
  method CreatePrices(db: Database, sheet: seq<SheetRow>) returns (r: Result<seq<PriceDTO>>)
    requires db.Valid()
    modifies db`tables, db`nextId
    ensures db.Valid()
    ensures ParsePrices(old(db.tables), sheet).Err? ==>
      r == Err(ParsePrices(old(db.tables), sheet).error)
      && db.tables == old(db.tables) && db.nextId == old(db.nextId)
    ensures ParsePrices(old(db.tables), sheet).Ok? ==>
      var kept := ParsePrices(old(db.tables), sheet).value;
      r == Ok(Numbered(CreatedPrice, kept, old(db.nextId)))
      && db.tables == old(db.tables).(prices := old(db.tables).prices + NewRows(PriceRowOf, kept, old(db.nextId)))
      && db.nextId == old(db.nextId) + |kept|
  {
    var parsed := ReadSheet(sheet, EmptyPriceDTO, PriceStep(db.tables), PriceKept);
    assert parsed == ParsePrices(db.tables, sheet);
    if parsed.Err? {
      return Err(parsed.error);
    }
    var created := CreateEachPrice(db, parsed.value);
    r := Ok(created);
  }

  /** The creation loop of `createPrices`: `priceService.create` on each DTO read, in order. */
  method CreateEachPrice(db: Database, kept: seq<PriceDTO>) returns (created: seq<PriceDTO>)
    requires db.Valid()
    requires forall i :: 0 <= i < |kept| ==>
      kept[i].id.None? && IdValidation(kept[i].priceListId, db.tables.priceLists.Keys).Pass?
    modifies db`tables, db`nextId
    ensures db.Valid()
    ensures created == Numbered(CreatedPrice, kept, old(db.nextId))
    ensures db.tables == old(db.tables).(prices := old(db.tables).prices + NewRows(PriceRowOf, kept, old(db.nextId)))
    ensures db.nextId == old(db.nextId) + |kept|
  {
    ghost var t0 := db.tables;
    ghost var next0 := db.nextId;
    assert IdsBelow(t0, next0);
    created := [];
    for k := 0 to |kept|
      invariant db.Valid()
      invariant db.nextId == next0 + k
      invariant db.tables == t0.(prices := t0.prices + NewRows(PriceRowOf, kept[..k], next0))
      invariant created == Numbered(CreatedPrice, kept[..k], next0)
    {
      var dto := kept[k];
      assert PriceService.ConvertFromDTO(db.tables, dto).Ok?;
      var one := PriceService.Create(db, dto);
      NewRowsGrow(t0.prices, PriceRowOf, kept, next0, k);
      NumberedGrow(CreatedPrice, kept, next0, k);
      created := created + [one.value];
    }
    assert kept[..|kept|] == kept;
  }
}
