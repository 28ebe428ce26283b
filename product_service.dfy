/**
 * `ProductService`: converters, the guarded create/update/delete, and the three product finders,
 * which pick one repository search from the arguments.
 */
module ProductService {
  import opened Wrappers
  import opened Entities
  import opened Database
  import opened SortOrder
  import opened ProductQueries
  import PriceListService

  /** The row `save` stores; the price lists are the lists' side of the association. */
  function RowOf(p: Product): ProductRow
  {
    ProductRow(p.subcategoryId, p.name, p.brand, p.quantity, p.unit, p.manufacturer)
  }

  /**
   * `convertToDTO`: the scalars and the subcategory's id are copied; `priceListsId` lists the price
   * lists' ids in order, or is null when the product's list is null.
   */
  function ConvertToDTO(p: Product): (r: ProductDTO)
    ensures r.id == p.id && r.subcategoryId == Some(p.subcategoryId)
    ensures r.name == p.name && r.brand == p.brand && r.quantity == p.quantity
      && r.unit == p.unit && r.manufacturer == p.manufacturer
    ensures r.priceListsId.None? <==> p.priceList.None?
    ensures p.priceList.Some? ==> r.priceListsId == p.priceList
  {
    ProductDTO(p.id, Some(p.subcategoryId), p.name, p.brand, p.quantity, p.unit, p.manufacturer, p.priceList)
  }

  /** `listConverterToDTO`: one DTO per product, in order. */
  function ConvertAllToDTO(ps: seq<Product>): (r: seq<ProductDTO>)
    ensures |r| == |ps| && forall i :: 0 <= i < |ps| ==> r[i] == ConvertToDTO(ps[i])
  {
    seq(|ps|, i requires 0 <= i < |ps| => ConvertToDTO(ps[i]))
  }

  /**
   * `convertFromDTO`: the subcategory id must pass the subcategory service's `idValidation`, after
   * which the subcategory's lookup cannot throw; the scalars are copied and the price-list list is
   * null.
   */
  function ConvertFromDTO(t: Tables, dto: ProductDTO): (r: Result<Product>)
    ensures r.Ok? <==> IdValidation(dto.subcategoryId, t.subcategories.Keys).Pass?
    ensures r.Err? ==> r == Err(IdValidation(dto.subcategoryId, t.subcategories.Keys).error)
    ensures r.Ok? ==> (r.value.id == dto.id && Some(r.value.subcategoryId) == dto.subcategoryId
      && r.value.subcategoryId in t.subcategories)
    ensures r.Ok? ==> (r.value.name == dto.name && r.value.brand == dto.brand && r.value.quantity == dto.quantity
      && r.value.unit == dto.unit && r.value.manufacturer == dto.manufacturer)
    ensures r.Ok? ==> r.value.priceList.None?
  {
    var check := IdValidation(dto.subcategoryId, t.subcategories.Keys);
    if check.Fail? then Err(check.error)
    else
      Ok(Product(dto.id, dto.subcategoryId.value, dto.name, dto.brand, dto.quantity, dto.unit,
                 dto.manufacturer, None))
  }

  /** A DTO naming a stored subcategory comes back unchanged, except that its price lists are dropped. */
  lemma DTORoundTrip(t: Tables, dto: ProductDTO)
    requires IdValidation(dto.subcategoryId, t.subcategories.Keys).Pass?
    ensures ConvertFromDTO(t, dto).Ok?
    ensures ConvertToDTO(ConvertFromDTO(t, dto).value) == dto.(priceListsId := None)
  {
  }

  /**
   * A stored product whose subcategory is stored (and not id 0) converts back to itself, apart from
   * its price lists, which the converter never restores.
   */
  lemma EntityRoundTrip(t: Tables, k: int)
    requires k in t.products
    requires t.products[k].subcategoryId in t.subcategories && t.products[k].subcategoryId != 0
    ensures ConvertFromDTO(t, ConvertToDTO(LoadProduct(t, k))) == Ok(LoadProduct(t, k).(priceList := None))
  {
  }

  /** `findById`: the stored product; a missing id throws NotFoundException. */
  function FindById(t: Tables, id: Option<int>): (r: Result<Product>)
    ensures r.Ok? <==> id.Some? && id.value in t.products
    ensures r.Ok? ==> r.value == LoadProduct(t, id.value) && r.value.id == id
    ensures id.Some? && id.value !in t.products ==> r == Err(NotFound)
  {
    var _ :- FindRow(t.products, id);
    Ok(LoadProduct(t, id.value))
  }

  /** `create`: id 0 is refused; otherwise the DTO is converted, saved, and converted back. */
  method Create(db: Database, dto: ProductDTO) returns (r: Result<ProductDTO>)
    requires db.Valid()
    modifies db`tables, db`nextId
    ensures db.Valid()
    ensures !CreateAllowed(dto.id) ==>
      r == Err(IllegalArgument(NewIdZero)) && db.tables == old(db.tables) && db.nextId == old(db.nextId)
    ensures CreateAllowed(dto.id) && ConvertFromDTO(old(db.tables), dto).Err? ==>
      r == Err(ConvertFromDTO(old(db.tables), dto).error) && db.tables == old(db.tables) && db.nextId == old(db.nextId)
    ensures CreateAllowed(dto.id) && ConvertFromDTO(old(db.tables), dto).Ok? ==>
      var p := ConvertFromDTO(old(db.tables), dto).value;
      var k := NewKey(p.id, old(db.tables).products.Keys, old(db.nextId));
      db.tables == old(db.tables).(products := old(db.tables).products[k := RowOf(p)])
      && db.nextId == (if p.id.Some? && p.id.value in old(db.tables).products then old(db.nextId) else old(db.nextId) + 1)
      && r == Ok(dto.(id := Some(k), priceListsId := None))
  {
    if !CreateAllowed(dto.id) {
      return Err(IllegalArgument(NewIdZero));
    }
    var converted := ConvertFromDTO(db.tables, dto);
    if converted.Err? {
      return Err(converted.error);
    }
    var p := converted.value;
    var k := db.SaveKey(p.id, db.tables.products.Keys);
    db.tables := db.tables.(products := db.tables.products[k := RowOf(p)]);
    r := Ok(ConvertToDTO(p.(id := Some(k))));
  }

  /** Every listed id is a stored price list. */
  predicate AllPriceListsStored(t: Tables, ids: seq<int>)
  {
    forall j :: 0 <= j < |ids| ==> ids[j] in t.priceLists
  }

  /**
   * The product `update` saves: the id must pass `idValidation` and the DTO must convert; the
   * product's price lists are then the lists `priceListsId` names, in order, each looked up by the
   * price-list service (a missing one throws NotFound, a null id list throws).
   */
  function UpdatedProduct(t: Tables, dto: ProductDTO): (r: Result<Product>)
    ensures r.Ok? <==>
      IdValidation(dto.id, t.products.Keys).Pass? && IdValidation(dto.subcategoryId, t.subcategories.Keys).Pass?
      && dto.priceListsId.Some? && AllPriceListsStored(t, dto.priceListsId.value)
    ensures IdValidation(dto.id, t.products.Keys).Fail? ==> r == Err(IdValidation(dto.id, t.products.Keys).error)
    ensures IdValidation(dto.id, t.products.Keys).Pass? && ConvertFromDTO(t, dto).Err? ==>
      r == Err(ConvertFromDTO(t, dto).error)
    ensures IdValidation(dto.id, t.products.Keys).Pass? && ConvertFromDTO(t, dto).Ok? && dto.priceListsId.None? ==>
      r == Err(NullPointer)
    ensures r.Ok? ==> r.value == ConvertFromDTO(t, dto).value.(priceList := dto.priceListsId)
  {
    var check := IdValidation(dto.id, t.products.Keys);
    if check.Fail? then Err(check.error)
    else
      var p :- ConvertFromDTO(t, dto);
      if dto.priceListsId.None? then Err(NullPointer)
      else if !AllPriceListsStored(t, dto.priceListsId.value) then Err(NotFound)
      else Ok(p.(priceList := dto.priceListsId))
  }

  /** A successful update answers with the DTO it was given. */
  lemma UpdateEchoes(t: Tables, dto: ProductDTO)
    requires UpdatedProduct(t, dto).Ok?
    ensures ConvertToDTO(UpdatedProduct(t, dto).value) == dto
  {
  }

  /**
   * `update`: validate the id, convert the DTO, then replace the product's price lists with the
   * lists found for `priceListsId`, one by one, and save. Only the product's own row is written:
   * the lists stay attached to whatever product their rows name.
   */
  method Update(db: Database, dto: ProductDTO) returns (r: Result<ProductDTO>)
    requires db.Valid()
    modifies db`tables
    ensures db.Valid()
    ensures UpdatedProduct(old(db.tables), dto).Err? ==>
      r == Err(UpdatedProduct(old(db.tables), dto).error) && db.tables == old(db.tables)
    ensures UpdatedProduct(old(db.tables), dto).Ok? ==>
      db.tables == old(db.tables).(products := old(db.tables).products[dto.id.value := RowOf(UpdatedProduct(old(db.tables), dto).value)])
      && r == Ok(ConvertToDTO(UpdatedProduct(old(db.tables), dto).value))
  {
    ghost var spec := UpdatedProduct(db.tables, dto);
    var check := IdValidation(dto.id, db.tables.products.Keys);
    if check.Fail? {
      return Err(check.error);
    }
    var converted := ConvertFromDTO(db.tables, dto);
    if converted.Err? {
      return Err(converted.error);
    }
    // The product's own lookup, whose list is replaced below, cannot fail after the validation.
    assert dto.id.value in db.tables.products;
    if dto.priceListsId.None? {
      return Err(NullPointer);
    }
    var ids := dto.priceListsId.value;
    var priceLists: seq<int> := [];
    var i := 0;
    while i < |ids|
      invariant 0 <= i <= |ids|
      invariant priceLists == ids[..i]
      invariant AllPriceListsStored(db.tables, priceLists)
    {
      var found := PriceListService.FindById(db.tables, Some(ids[i]));
      if found.Err? {
        assert !AllPriceListsStored(db.tables, ids);
        return Err(found.error);
      }
      priceLists := priceLists + [found.value.id.value];
      i := i + 1;
    }
    assert ids[..i] == ids;
    var p := converted.value.(priceList := Some(priceLists));
    assert spec == Ok(p);
    db.tables := db.tables.(products := db.tables.products[dto.id.value := RowOf(p)]);
    r := Ok(ConvertToDTO(p));
  }

  /** `deleteById`: the id must pass `idValidation`; then the row is removed. */
  method DeleteById(db: Database, id: Option<int>) returns (r: Outcome)
    requires db.Valid()
    modifies db`tables
    ensures db.Valid()
    ensures r == IdValidation(id, old(db.tables).products.Keys)
    ensures r.Fail? ==> db.tables == old(db.tables)
    ensures r.Pass? ==> db.tables == old(db.tables).(products := old(db.tables).products - {id.value})
  {
    r := IdValidation(id, db.tables.products.Keys);
    if r.Pass? {
      db.tables := db.tables.(products := db.tables.products - {id.value});
    }
  }

  // ---- Finders ----

  /** A product search with the ordering the database is asked for. */
  datatype Search = Search(query: Query, sort: Sort)

  /** The ids of the products the search returns (in ascending id order; the sort is the database's). */
  function Results(t: Tables, s: Search): seq<int>
  {
    Run(t, s.query)
  }

  /** `keyword == null || keyword.isEmpty()`. */
  predicate Blank(keyword: Option<string>)
  {
    keyword.None? || keyword.value == []
  }

  /** `findProductsByKeyword`: every product for a blank keyword, else the keyword search. */
  function FindProductsByKeyword(keyword: Option<string>, sort: Sort): (s: Search)
    ensures s.sort == sort
  {
    if Blank(keyword) then Search(All, sort) else Search(ByKeyword(keyword.value), sort)
  }

  /** `findProductsByCategoryAndByKeyword`: the category search, joined with the keyword when it is not blank. */
  function FindProductsByCategoryAndByKeyword(categoryName: string, keyword: Option<string>, sort: Sort): (s: Search)
    ensures s.sort == sort
  {
    if Blank(keyword) then Search(ByCategory(categoryName), sort)
    else Search(ByCategoryAndKeyword(categoryName, keyword.value), sort)
  }

  /** `findProductsBySubcategoryAndByKeyword`: the same choice over the subcategory searches. */
  function FindProductsBySubcategoryAndByKeyword(subcategoryName: string, keyword: Option<string>, sort: Sort): (s: Search)
    ensures s.sort == sort
  {
    if Blank(keyword) then Search(BySubcategory(subcategoryName), sort)
    else Search(BySubcategoryAndKeyword(subcategoryName, keyword.value), sort)
  }

  /**
   * The keyword finder returns every stored product when the keyword is blank (it never throws
   * NotFound), and otherwise exactly the products whose name, brand or manufacturer contains it.
   */
  lemma KeywordFinderReturns(t: Tables, keyword: Option<string>, sort: Sort)
    ensures forall x :: x in Results(t, FindProductsByKeyword(keyword, sort)) <==>
      x in t.products && (Blank(keyword) || KeywordMatch(t.products[x], keyword.value))
  {
  }

  /**
   * The category finder returns the products of the named category for a blank keyword; otherwise
   * the combined search, in which a brand or manufacturer match needs no category match.
   */
  lemma CategoryFinderReturns(t: Tables, categoryName: string, keyword: Option<string>, sort: Sort)
    ensures Blank(keyword) ==> forall x :: x in Results(t, FindProductsByCategoryAndByKeyword(categoryName, keyword, sort)) <==>
      x in t.products && CategoryMatch(t, t.products[x], categoryName)
    ensures !Blank(keyword) ==> forall x :: x in Results(t, FindProductsByCategoryAndByKeyword(categoryName, keyword, sort)) <==>
      x in t.products && CategoryKeywordMatch(t, t.products[x], categoryName, keyword.value)
  {
    var q := FindProductsByCategoryAndByKeyword(categoryName, keyword, sort).query;
    if Blank(keyword) {
      assert q == ByCategory(categoryName);
    } else {
      assert q == ByCategoryAndKeyword(categoryName, keyword.value);
    }
  }

  /** The subcategory finder, likewise. */
  lemma SubcategoryFinderReturns(t: Tables, subcategoryName: string, keyword: Option<string>, sort: Sort)
    ensures Blank(keyword) ==> forall x :: x in Results(t, FindProductsBySubcategoryAndByKeyword(subcategoryName, keyword, sort)) <==>
      x in t.products && SubcategoryMatch(t, t.products[x], subcategoryName)
    ensures !Blank(keyword) ==> forall x :: x in Results(t, FindProductsBySubcategoryAndByKeyword(subcategoryName, keyword, sort)) <==>
      x in t.products && SubcategoryKeywordMatch(t, t.products[x], subcategoryName, keyword.value)
  {
    var q := FindProductsBySubcategoryAndByKeyword(subcategoryName, keyword, sort).query;
    if Blank(keyword) {
      assert q == BySubcategory(subcategoryName);
    } else {
      assert q == BySubcategoryAndKeyword(subcategoryName, keyword.value);
    }
  }
}
