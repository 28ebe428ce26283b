/**
 * `CategoryService`: converters that recurse into the category's subcategories, and the guarded
 * create/update/delete.
 */
module CategoryService {
  import opened Wrappers
  import opened Entities
  import opened Database
  import SubcategoryService

  /** The ids of the subcategories of category `k` (`mappedBy = "category"`), ascending. */
  function SubcategoryIdsOf(t: Tables, k: int): (r: seq<int>)
    ensures forall x :: x in r <==> x in t.subcategories && t.subcategories[x].category == To(Some(k))
    ensures Increasing(r)
  {
    IdsWhere(t.subcategories, (s: SubcategoryRow) => s.category == To(Some(k)))
  }

  /** A stored category, loaded with its subcategories. */
  function LoadCategory(t: Tables, k: int): (c: Category)
    requires k in t.categories
    ensures c.id == Some(k) && |c.subcategoryList| == |SubcategoryIdsOf(t, k)|
    ensures forall i :: 0 <= i < |c.subcategoryList| ==>
      c.subcategoryList[i].category == To(Some(k))
  {
    var ids := SubcategoryIdsOf(t, k);
    assert forall i :: 0 <= i < |ids| ==> ids[i] in t.subcategories && t.subcategories[ids[i]].category == To(Some(k)) by {
      forall i | 0 <= i < |ids|
        ensures ids[i] in t.subcategories && t.subcategories[ids[i]].category == To(Some(k))
      {
        assert ids[i] in ids;
      }
    }
    Category(Some(k), t.categories[k].name,
             seq(|ids|, i requires 0 <= i < |ids| => SubcategoryService.LoadSubcategory(t, ids[i])))
  }

  /** The row `save` stores; the subcategory list is the subcategories' side of the association. */
  function RowOf(c: Category): CategoryRow
  {
    CategoryRow(c.name)
  }

  /**
   * `convertToDTO`: id and name are copied and each subcategory is converted by the subcategory
   * service, in order.
   */
  function ConvertToDTO(c: Category): (r: Result<CategoryDTO>)
    ensures r.Ok? <==> forall i :: 0 <= i < |c.subcategoryList| ==> c.subcategoryList[i].category.To?
    ensures r.Ok? ==> r.value.id == c.id && r.value.name == c.name && r.value.subcategoryList.Some?
    ensures r.Ok? ==> (|r.value.subcategoryList.value| == |c.subcategoryList|
      && forall i :: 0 <= i < |c.subcategoryList| ==>
        Ok(r.value.subcategoryList.value[i]) == SubcategoryService.ConvertToDTO(c.subcategoryList[i]))
  {
    var subcategories :- SubcategoryService.ConvertAllToDTO(c.subcategoryList);
    Ok(CategoryDTO(c.id, c.name, Some(subcategories)))
  }

  /**
   * A loaded category always converts, one DTO per subcategory pointing back at it, and the
   * converted DTOs are exactly those of the stored subcategories of `k`.
   */
  lemma LoadedConverts(t: Tables, k: int)
    requires k in t.categories
    ensures ConvertToDTO(LoadCategory(t, k)).Ok?
    ensures var ds := ConvertToDTO(LoadCategory(t, k)).value.subcategoryList.value;
      |ds| == |SubcategoryIdsOf(t, k)|
      && forall i :: 0 <= i < |ds| ==> ds[i].categoryId == Some(k) && ds[i].id == Some(SubcategoryIdsOf(t, k)[i])
  {
    var c := LoadCategory(t, k);
    var ids := SubcategoryIdsOf(t, k);
    var ds := ConvertToDTO(c).value.subcategoryList.value;
    forall i | 0 <= i < |ds|
      ensures ds[i].categoryId == Some(k) && ds[i].id == Some(ids[i])
    {
      assert Ok(ds[i]) == SubcategoryService.ConvertToDTO(c.subcategoryList[i]);
    }
  }

  /** `if (subcategory.getCategory() == null) subcategory.setCategory(category)`. */
  function Adopt(s: Subcategory, parent: Ref): (r: Subcategory)
    ensures s.category.To? ==> r == s
    ensures s.category.Null? ==> r == s.(category := parent)
  {
    if s.category.Null? then s.(category := parent) else s
  }

  /**
   * The subcategories of `convertFromDTO`: each DTO converted by the subcategory service in turn
   * and adopted by the new category when it has none; the first failure decides the error.
   */
  function ConvertSubcategories(t: Tables, ds: seq<SubcategoryDTO>, parent: Ref): (r: Result<seq<Subcategory>>)
    ensures r.Ok? <==> forall i :: 0 <= i < |ds| ==> SubcategoryService.SubcategoryFromDTO(t, ds[i]).Ok?
    ensures r.Ok? ==> |r.value| == |ds| && forall i :: 0 <= i < |ds| ==>
      r.value[i] == Adopt(SubcategoryService.SubcategoryFromDTO(t, ds[i]).value, parent)
    decreases |ds|
  {
    if ds == [] then Ok([])
    else
      var init := ds[..|ds| - 1];
      assert forall i :: 0 <= i < |init| ==> init[i] == ds[i];
      var ss :- ConvertSubcategories(t, init, parent);
      var s :- SubcategoryService.SubcategoryFromDTO(t, ds[|ds| - 1]);
      Ok(ss + [Adopt(s, parent)])
  }

  /** Once a prefix of the subcategories fails to convert, the whole list fails with its error. */
  lemma {:induction false} ConvertSubcategoriesPrefixFails(t: Tables, ds: seq<SubcategoryDTO>, n: nat, parent: Ref)
    requires n <= |ds| && ConvertSubcategories(t, ds[..n], parent).Err?
    ensures ConvertSubcategories(t, ds, parent) == ConvertSubcategories(t, ds[..n], parent)
    decreases |ds|
  {
    if n < |ds| {
      var init := ds[..|ds| - 1];
      assert init[..n] == ds[..n];
      ConvertSubcategoriesPrefixFails(t, init, n, parent);
    } else {
      assert ds[..n] == ds;
    }
  }

  /**
   * `convertFromDTO`: id and name are copied and every subcategory DTO is converted, in order, the
   * new category adopting each child without a category; a null subcategory list throws.
   */
  function CategoryFromDTO(t: Tables, dto: CategoryDTO): (r: Result<Category>)
    ensures dto.subcategoryList.None? ==> r == Err(NullPointer)
    ensures r.Ok? ==> r.value.id == dto.id && r.value.name == dto.name
    ensures r.Ok? ==> dto.subcategoryList.Some? && |r.value.subcategoryList| == |dto.subcategoryList.value|
    ensures dto.subcategoryList.Some? ==>
      (r.Ok? <==> forall i :: 0 <= i < |dto.subcategoryList.value| ==>
                    SubcategoryService.SubcategoryFromDTO(t, dto.subcategoryList.value[i]).Ok?)
  {
    if dto.subcategoryList.None? then Err(NullPointer)
    else
      var subcategories :- ConvertSubcategories(t, dto.subcategoryList.value, To(dto.id));
      Ok(Category(dto.id, dto.name, subcategories))
  }

  /** `convertFromDTO`, with the loop over the subcategory DTOs. */
  method ConvertFromDTO(t: Tables, dto: CategoryDTO) returns (r: Result<Category>)
    ensures r == CategoryFromDTO(t, dto)
  {
    if dto.subcategoryList.None? {
      return Err(NullPointer);
    }
    var ds := dto.subcategoryList.value;
    var subcategories: seq<Subcategory> := [];
    var i := 0;
    while i < |ds|
      invariant 0 <= i <= |ds|
      invariant ConvertSubcategories(t, ds[..i], To(dto.id)) == Ok(subcategories)
    {
      assert ds[..i + 1][..i] == ds[..i];
      var s := SubcategoryService.ConvertFromDTO(t, ds[i]);
      if s.Err? {
        ConvertSubcategoriesPrefixFails(t, ds, i + 1, To(dto.id));
        return Err(s.error);
      }
      subcategories := subcategories + [Adopt(s.value, To(dto.id))];
      i := i + 1;
    }
    assert ds[..i] == ds;
    r := Ok(Category(dto.id, dto.name, subcategories));
  }

  /**
   * The adoption never happens: the subcategory converter either attaches the category its DTO
   * names or throws, so every converted child keeps the category its own DTO names, and a child
   * DTO without a category id makes the whole conversion throw.
   */
  lemma NoChildIsAdopted(t: Tables, dto: CategoryDTO)
    requires CategoryFromDTO(t, dto).Ok?
    ensures forall i :: 0 <= i < |dto.subcategoryList.value| ==>
      CategoryFromDTO(t, dto).value.subcategoryList[i].category == To(dto.subcategoryList.value[i].categoryId)
    ensures forall i :: 0 <= i < |dto.subcategoryList.value| ==> dto.subcategoryList.value[i].categoryId.Some?
  {
    var ds := dto.subcategoryList.value;
    var ss := ConvertSubcategories(t, ds, To(dto.id)).value;
    forall i | 0 <= i < |ds|
      ensures ss[i].category == To(ds[i].categoryId) && ds[i].categoryId.Some?
    {
      var s := SubcategoryService.SubcategoryFromDTO(t, ds[i]);
      assert s.Ok?;
      assert IdValidation(ds[i].categoryId, t.categories.Keys).Pass?;
    }
  }

  /** A category DTO whose children name stored categories, subcategories and products comes back unchanged. */
  lemma DTORoundTrip(t: Tables, dto: CategoryDTO)
    requires dto.subcategoryList.Some?
    requires forall i :: 0 <= i < |dto.subcategoryList.value| ==>
      var d := dto.subcategoryList.value[i];
      IdValidation(d.id, t.subcategories.Keys).Pass? && IdValidation(d.categoryId, t.categories.Keys).Pass?
      && d.productsId.Some? && SubcategoryService.AllProductsStored(t, d.productsId.value)
    ensures CategoryFromDTO(t, dto).Ok?
    ensures ConvertToDTO(CategoryFromDTO(t, dto).value) == Ok(dto)
  {
    var ds := dto.subcategoryList.value;
    forall i | 0 <= i < |ds|
      ensures SubcategoryService.SubcategoryFromDTO(t, ds[i]).Ok?
      ensures SubcategoryService.ConvertToDTO(SubcategoryService.SubcategoryFromDTO(t, ds[i]).value) == Ok(ds[i])
    {
      SubcategoryService.DTORoundTrip(t, ds[i]);
    }
    var c := CategoryFromDTO(t, dto).value;
    var back := ConvertToDTO(c).value.subcategoryList.value;
    assert back == ds;
  }

  /** `findById`: the stored category; a missing id throws NotFoundException. */
  function FindById(t: Tables, id: Option<int>): (r: Result<Category>)
    ensures r.Ok? <==> id.Some? && id.value in t.categories
    ensures r.Ok? ==> r.value == LoadCategory(t, id.value) && r.value.id == id
    ensures id.Some? && id.value !in t.categories ==> r == Err(NotFound)
  {
    var _ :- FindRow(t.categories, id);
    Ok(LoadCategory(t, id.value))
  }

  /** `create`: id 0 is refused; otherwise the DTO is converted, saved, and converted back. */
  method Create(db: Database, dto: CategoryDTO) returns (r: Result<CategoryDTO>)
    requires db.Valid()
    modifies db`tables, db`nextId
    ensures db.Valid()
    ensures !CreateAllowed(dto.id) ==>
      r == Err(IllegalArgument(NewIdZero)) && db.tables == old(db.tables) && db.nextId == old(db.nextId)
    ensures CreateAllowed(dto.id) && CategoryFromDTO(old(db.tables), dto).Err? ==>
      r == Err(CategoryFromDTO(old(db.tables), dto).error) && db.tables == old(db.tables) && db.nextId == old(db.nextId)
    ensures CreateAllowed(dto.id) && CategoryFromDTO(old(db.tables), dto).Ok? ==>
      var c := CategoryFromDTO(old(db.tables), dto).value;
      var k := NewKey(c.id, old(db.tables).categories.Keys, old(db.nextId));
      db.tables == old(db.tables).(categories := old(db.tables).categories[k := RowOf(c)])
      && r == ConvertToDTO(c.(id := Some(k)))
  {
    if !CreateAllowed(dto.id) {
      return Err(IllegalArgument(NewIdZero));
    }
    var converted := ConvertFromDTO(db.tables, dto);
    if converted.Err? {
      return Err(converted.error);
    }
    var c := converted.value;
    var k := db.SaveKey(c.id, db.tables.categories.Keys);
    db.tables := db.tables.(categories := db.tables.categories[k := RowOf(c)]);
    r := ConvertToDTO(c.(id := Some(k)));
  }

  /** `update`: the id must pass `idValidation`; the converted category then overwrites that row. */
  method Update(db: Database, dto: CategoryDTO) returns (r: Result<CategoryDTO>)
    requires db.Valid()
    modifies db`tables
    ensures db.Valid()
    ensures IdValidation(dto.id, old(db.tables).categories.Keys).Fail? ==>
      r == Err(IdValidation(dto.id, old(db.tables).categories.Keys).error) && db.tables == old(db.tables)
    ensures IdValidation(dto.id, old(db.tables).categories.Keys).Pass? && CategoryFromDTO(old(db.tables), dto).Err? ==>
      r == Err(CategoryFromDTO(old(db.tables), dto).error) && db.tables == old(db.tables)
    ensures IdValidation(dto.id, old(db.tables).categories.Keys).Pass? && CategoryFromDTO(old(db.tables), dto).Ok? ==>
      var c := CategoryFromDTO(old(db.tables), dto).value;
      db.tables == old(db.tables).(categories := old(db.tables).categories[dto.id.value := RowOf(c)])
      && r == ConvertToDTO(c)
  {
    var check := IdValidation(dto.id, db.tables.categories.Keys);
    if check.Fail? {
      return Err(check.error);
    }
    var converted := ConvertFromDTO(db.tables, dto);
    if converted.Err? {
      return Err(converted.error);
    }
    db.tables := db.tables.(categories := db.tables.categories[dto.id.value := RowOf(converted.value)]);
    r := ConvertToDTO(converted.value);
  }

  /** `deleteById`: the id must pass `idValidation`; then the row is removed. */
  method DeleteById(db: Database, id: Option<int>) returns (r: Outcome)
    requires db.Valid()
    modifies db`tables
    ensures db.Valid()
    ensures r == IdValidation(id, old(db.tables).categories.Keys)
    ensures r.Fail? ==> db.tables == old(db.tables)
    ensures r.Pass? ==> db.tables == old(db.tables).(categories := old(db.tables).categories - {id.value})
  {
    r := IdValidation(id, db.tables.categories.Keys);
    if r.Pass? {
      db.tables := db.tables.(categories := db.tables.categories - {id.value});
    }
  }
}
