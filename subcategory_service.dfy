/**
 * `SubcategoryService`: converters (the one from a DTO replaces a stored subcategory's fields
 * and product list), and the guarded create/update/delete.
 */
module SubcategoryService {
  import opened Wrappers
  import opened Entities
  import opened Database

  /** The ids of the products filed under subcategory `k` (`mappedBy = "subcategory"`), ascending. */
  function ProductIdsOf(t: Tables, k: int): (r: seq<int>)
    ensures forall x :: x in r <==> x in t.products && t.products[x].subcategoryId == k
    ensures Increasing(r)
  {
    IdsWhere(t.products, (p: ProductRow) => p.subcategoryId == k)
  }

  /** A stored subcategory, loaded with its products. */
  function LoadSubcategory(t: Tables, k: int): Subcategory
    requires k in t.subcategories
  {
    var row := t.subcategories[k];
    Subcategory(Some(k), row.name, row.category, Some(ProductIdsOf(t, k)))
  }

  /** The row `save` stores; the product list is the products' side of the association. */
  function RowOf(s: Subcategory): SubcategoryRow
  {
    SubcategoryRow(s.name, s.category)
  }

  /**
   * `convertToDTO`: id, name, the category's id and the product ids in list order; a null
   * product list gives null `productsId`, and a null category throws at `getCategory().getId()`.
   */
  function ConvertToDTO(s: Subcategory): (r: Result<SubcategoryDTO>)
    ensures r.Ok? <==> s.category.To?
    ensures r.Err? ==> r.error == NullPointer
    ensures r.Ok? ==> r.value.id == s.id && r.value.name == s.name && r.value.categoryId == s.category.id
    ensures r.Ok? ==> (r.value.productsId.None? <==> s.productList.None?)
    ensures r.Ok? && s.productList.Some? ==> r.value.productsId == s.productList
  {
    if s.category.Null? then Err(NullPointer)
    else Ok(SubcategoryDTO(s.id, s.name, s.category.id, s.productList))
  }

  /** `listConverterToDTO`: one DTO per subcategory, in order; the first failure is thrown. */
  function ConvertAllToDTO(ss: seq<Subcategory>): (r: Result<seq<SubcategoryDTO>>)
    ensures r.Ok? <==> forall i :: 0 <= i < |ss| ==> ss[i].category.To?
    ensures r.Err? ==> r.error == NullPointer
    ensures r.Ok? ==> |r.value| == |ss| && forall i :: 0 <= i < |ss| ==> Ok(r.value[i]) == ConvertToDTO(ss[i])
  {
    if ss == [] then Ok([])
    else
      var d :- ConvertToDTO(ss[0]);
      var ds :- ConvertAllToDTO(ss[1..]);
      assert forall i :: 1 <= i < |ss| ==> ss[i] == ss[1..][i - 1];
      Ok([d] + ds)
  }

  /** The DTO names a stored subcategory to update rather than a new one. */
  predicate Existing(dto: SubcategoryDTO)
  {
    dto.id.Some? && dto.id.value != 0
  }

  /** Every listed id is a stored product. */
  predicate AllProductsStored(t: Tables, ids: seq<int>)
  {
    forall j :: 0 <= j < |ids| ==> ids[j] in t.products
  }

  /**
   * `convertFromDTO`. For a non-null, non-zero id the id is validated and the stored subcategory
   * is loaded; its name and category are overwritten, and its product list is emptied and refilled
   * with the DTO's products, in order (a missing product throws NotFound, a null id list throws).
   * Otherwise a new subcategory with the DTO's id and name and a null product list is built. Both
   * paths validate the category id before attaching the category.
   */
  function SubcategoryFromDTO(t: Tables, dto: SubcategoryDTO): (r: Result<Subcategory>)
    ensures r.Ok? ==> r.value.id == dto.id && r.value.name == dto.name
    ensures r.Ok? ==> IdValidation(dto.categoryId, t.categories.Keys).Pass? && r.value.category == To(dto.categoryId)
    ensures Existing(dto) ==> (r.Ok? <==>
      IdValidation(dto.id, t.subcategories.Keys).Pass? && IdValidation(dto.categoryId, t.categories.Keys).Pass?
      && dto.productsId.Some? && AllProductsStored(t, dto.productsId.value))
    ensures Existing(dto) && IdValidation(dto.id, t.subcategories.Keys).Fail? ==>
      r == Err(IdValidation(dto.id, t.subcategories.Keys).error)
    ensures Existing(dto) && r.Ok? ==> r.value.productList == dto.productsId
    ensures !Existing(dto) ==> (r.Ok? <==> IdValidation(dto.categoryId, t.categories.Keys).Pass?)
    ensures !Existing(dto) && r.Ok? ==> r.value.productList.None?
  {
    if Existing(dto) then
      var check := IdValidation(dto.id, t.subcategories.Keys);
      if check.Fail? then Err(check.error)
      else
        var stored := LoadSubcategory(t, dto.id.value);
        var categoryCheck := IdValidation(dto.categoryId, t.categories.Keys);
        if categoryCheck.Fail? then Err(categoryCheck.error)
        else if dto.productsId.None? then Err(NullPointer)
        else if !AllProductsStored(t, dto.productsId.value) then Err(NotFound)
        else Ok(stored.(name := dto.name, category := To(dto.categoryId), productList := dto.productsId))
    else
      var categoryCheck := IdValidation(dto.categoryId, t.categories.Keys);
      if categoryCheck.Fail? then Err(categoryCheck.error)
      else Ok(Subcategory(dto.id, dto.name, To(dto.categoryId), None))
  }

  /** `convertFromDTO`, with the loop that refills the loaded subcategory's product list. */
  method ConvertFromDTO(t: Tables, dto: SubcategoryDTO) returns (r: Result<Subcategory>)
    ensures r == SubcategoryFromDTO(t, dto)
  {
    if Existing(dto) {
      var check := IdValidation(dto.id, t.subcategories.Keys);
      if check.Fail? {
        return Err(check.error);
      }
      var s := LoadSubcategory(t, dto.id.value);
      s := s.(name := dto.name);
      var categoryCheck := IdValidation(dto.categoryId, t.categories.Keys);
      if categoryCheck.Fail? {
        return Err(categoryCheck.error);
      }
      s := s.(category := To(dto.categoryId));
      if dto.productsId.None? {
        return Err(NullPointer);
      }
      var products := FindProducts(t, dto.productsId.value);
      if products.Err? {
        return Err(products.error);
      }
      r := Ok(s.(productList := Some(products.value)));
    } else {
      var categoryCheck := IdValidation(dto.categoryId, t.categories.Keys);
      if categoryCheck.Fail? {
        return Err(categoryCheck.error);
      }
      r := Ok(Subcategory(dto.id, dto.name, To(dto.categoryId), None));
    }
  }

  /** The loop of `convertFromDTO`: each id's product is looked up in order; a missing one is NotFound. */
  method FindProducts(t: Tables, ids: seq<int>) returns (r: Result<seq<int>>)
    ensures r.Ok? <==> AllProductsStored(t, ids)
    ensures r.Ok? ==> r.value == ids
    ensures r.Err? ==> r.error == NotFound
  {
    var products: seq<int> := [];
    var i := 0;
    while i < |ids|
      invariant 0 <= i <= |ids|
      invariant products == ids[..i]
      invariant AllProductsStored(t, products)
    {
      var found := FindRow(t.products, Some(ids[i]));
      if found.Err? {
        assert !AllProductsStored(t, ids);
        return Err(found.error);
      }
      products := products + [ids[i]];
      i := i + 1;
    }
    assert ids[..i] == ids;
    r := Ok(products);
  }

  /** A DTO naming a stored subcategory, a stored category and stored products comes back unchanged. */
  lemma DTORoundTrip(t: Tables, dto: SubcategoryDTO)
    requires IdValidation(dto.id, t.subcategories.Keys).Pass? && IdValidation(dto.categoryId, t.categories.Keys).Pass?
    requires dto.productsId.Some? && AllProductsStored(t, dto.productsId.value)
    ensures SubcategoryFromDTO(t, dto).Ok?
    ensures ConvertToDTO(SubcategoryFromDTO(t, dto).value) == Ok(dto)
  {
  }

  /** A stored subcategory whose category is stored comes back unchanged from its DTO. */
  lemma EntityRoundTrip(t: Tables, k: int)
    requires k in t.subcategories && k != 0
    requires t.subcategories[k].category.To? && IdValidation(t.subcategories[k].category.id, t.categories.Keys).Pass?
    ensures ConvertToDTO(LoadSubcategory(t, k)).Ok?
    ensures SubcategoryFromDTO(t, ConvertToDTO(LoadSubcategory(t, k)).value) == Ok(LoadSubcategory(t, k))
  {
    var ids := ProductIdsOf(t, k);
    assert AllProductsStored(t, ids);
  }

  /** `findById`: the stored subcategory; a missing id throws NotFoundException. */
  function FindById(t: Tables, id: Option<int>): (r: Result<Subcategory>)
    ensures r.Ok? <==> id.Some? && id.value in t.subcategories
    ensures r.Ok? ==> r.value == LoadSubcategory(t, id.value) && r.value.id == id
    ensures id.Some? && id.value !in t.subcategories ==> r == Err(NotFound)
  {
    var _ :- FindRow(t.subcategories, id);
    Ok(LoadSubcategory(t, id.value))
  }

  /**
   * `create` refuses only id 0. Any other non-null id takes the existing-subcategory path of the
   * converter, so an id with no row fails its validation, and a stored id is overwritten.
   */
  lemma CreateWithUnknownIdFails(t: Tables, dto: SubcategoryDTO)
    requires CreateAllowed(dto.id) && dto.id.Some? && dto.id.value !in t.subcategories
    ensures SubcategoryFromDTO(t, dto) == Err(IllegalArgument(NoSuchId))
  {
  }

  /**
   * `create`: id 0 is refused; otherwise the DTO is converted, the category is validated and
   * attached once more (the converter already did, so this cannot fail), the product list is set
   * to null, and the subcategory is saved and converted back.
   */
  method Create(db: Database, dto: SubcategoryDTO) returns (r: Result<SubcategoryDTO>)
    requires db.Valid()
    modifies db`tables, db`nextId
    ensures db.Valid()
    ensures !CreateAllowed(dto.id) ==>
      r == Err(IllegalArgument(NewIdZero)) && db.tables == old(db.tables) && db.nextId == old(db.nextId)
    ensures CreateAllowed(dto.id) && SubcategoryFromDTO(old(db.tables), dto).Err? ==>
      r == Err(SubcategoryFromDTO(old(db.tables), dto).error) && db.tables == old(db.tables) && db.nextId == old(db.nextId)
    ensures CreateAllowed(dto.id) && SubcategoryFromDTO(old(db.tables), dto).Ok? ==>
      var s := SubcategoryFromDTO(old(db.tables), dto).value;
      var k := NewKey(s.id, old(db.tables).subcategories.Keys, old(db.nextId));
      db.tables == old(db.tables).(subcategories := old(db.tables).subcategories[k := RowOf(s)])
      && r == Ok(SubcategoryDTO(Some(k), dto.name, dto.categoryId, None))
  {
    if !CreateAllowed(dto.id) {
      return Err(IllegalArgument(NewIdZero));
    }
    var converted := ConvertFromDTO(db.tables, dto);
    if converted.Err? {
      return Err(converted.error);
    }
    assert IdValidation(dto.categoryId, db.tables.categories.Keys).Pass?;
    var s := converted.value.(category := To(dto.categoryId), productList := None);
    var k := db.SaveKey(s.id, db.tables.subcategories.Keys);
    db.tables := db.tables.(subcategories := db.tables.subcategories[k := RowOf(s)]);
    r := ConvertToDTO(s.(id := Some(k)));
  }

  /**
   * `update`: the id must pass `idValidation`; the converted subcategory then overwrites that row,
   * and the result lists the DTO's products.
   */
  method Update(db: Database, dto: SubcategoryDTO) returns (r: Result<SubcategoryDTO>)
    requires db.Valid()
    modifies db`tables
    ensures db.Valid()
    ensures IdValidation(dto.id, old(db.tables).subcategories.Keys).Fail? ==>
      r == Err(IdValidation(dto.id, old(db.tables).subcategories.Keys).error) && db.tables == old(db.tables)
    ensures IdValidation(dto.id, old(db.tables).subcategories.Keys).Pass? && SubcategoryFromDTO(old(db.tables), dto).Err? ==>
      r == Err(SubcategoryFromDTO(old(db.tables), dto).error) && db.tables == old(db.tables)
    ensures IdValidation(dto.id, old(db.tables).subcategories.Keys).Pass? && SubcategoryFromDTO(old(db.tables), dto).Ok? ==>
      var s := SubcategoryFromDTO(old(db.tables), dto).value;
      db.tables == old(db.tables).(subcategories := old(db.tables).subcategories[dto.id.value := RowOf(s)])
      && r == Ok(dto)
  {
    var check := IdValidation(dto.id, db.tables.subcategories.Keys);
    if check.Fail? {
      return Err(check.error);
    }
    var converted := ConvertFromDTO(db.tables, dto);
    if converted.Err? {
      return Err(converted.error);
    }
    db.tables := db.tables.(subcategories := db.tables.subcategories[dto.id.value := RowOf(converted.value)]);
    r := ConvertToDTO(converted.value);
  }

  /** `deleteById`: the id must pass `idValidation`; then the row is removed. */
  method DeleteById(db: Database, id: Option<int>) returns (r: Outcome)
    requires db.Valid()
    modifies db`tables
    ensures db.Valid()
    ensures r == IdValidation(id, old(db.tables).subcategories.Keys)
    ensures r.Fail? ==> db.tables == old(db.tables)
    ensures r.Pass? ==> db.tables == old(db.tables).(subcategories := old(db.tables).subcategories - {id.value})
  {
    r := IdValidation(id, db.tables.subcategories.Keys);
    if r.Pass? {
      db.tables := db.tables.(subcategories := db.tables.subcategories - {id.value});
    }
  }
}
