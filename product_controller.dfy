/**
 * `ProductController.findProducts`: the request's sorting direction is defaulted and parsed, then
 * the category, the subcategory or neither picks which `ProductService` finder answers, always
 * ordered by name.
 */
module ProductController {
  import opened Wrappers
  import opened SortOrder
  import opened ProductQueries
  import opened Database
  import opened ProductService
  import UserService

  /**
   * The order of the search: a null or empty direction means "asc"; an unparseable one is a
   * BadRequest; the products are sorted by name.
   */
  function NameSort(sortingDirection: Option<string>): (r: Result<Sort>)
    ensures r.Err? <==> sortingDirection.Some? && sortingDirection.value != []
                        && DirectionFromString(sortingDirection.value).Err?
    ensures r.Err? ==> r.error == BadRequest
    ensures r.Ok? ==> r.value.property == "name"
    ensures r.Ok? && (sortingDirection.None? || sortingDirection.value == []) ==> r.value.direction == ASC
    ensures r.Ok? && sortingDirection.Some? && sortingDirection.value != [] ==>
      DirectionFromString(sortingDirection.value) == Ok(r.value.direction)
  {
    var direction := if sortingDirection.None? || sortingDirection.value == [] then "asc" else sortingDirection.value;
    AscParses();
    match DirectionFromString(direction)
    case Err(_) => Err(BadRequest)
    case Ok(d) => Ok(Sort(d, "name"))
  }

  /** The product listing and the user listing read their direction parameter the same way. */
  lemma NameSortAsForUsers(sortingDirection: Option<string>)
    ensures NameSort(sortingDirection) == UserService.FindAllWithSortingDirection(sortingDirection)
  {
    AscParses();
  }

  /**
   * `findProducts`: the direction is checked first; a request naming both a category and a
   * subcategory (even empty ones, since both are only compared with null) is a BadRequest; a
   * non-empty category name wins, then a non-empty subcategory name, and anything else is the
   * keyword search.
   */
  function FindProducts(categoryName: Option<string>, subcategoryName: Option<string>,
                        keyword: Option<string>, sortingDirection: Option<string>): (r: Result<Search>)
    ensures NameSort(sortingDirection).Err? ==> r == Err(BadRequest)
    ensures categoryName.Some? && subcategoryName.Some? ==> r == Err(BadRequest)
    ensures r.Err? ==> r.error == BadRequest
    ensures r.Ok? ==> NameSort(sortingDirection) == Ok(r.value.sort) && r.value.sort.property == "name"
  {
    var sort :- NameSort(sortingDirection);
    if categoryName.Some? && subcategoryName.Some? then Err(BadRequest)
    else if categoryName.Some? && categoryName.value != [] then
      Ok(FindProductsByCategoryAndByKeyword(categoryName.value, keyword, sort))
    else if subcategoryName.Some? && subcategoryName.value != [] then
      Ok(FindProductsBySubcategoryAndByKeyword(subcategoryName.value, keyword, sort))
    else Ok(FindProductsByKeyword(keyword, sort))
  }

  /** The request is refused exactly for a bad direction or for naming both a category and a subcategory. */
  lemma FindProductsRefuses(categoryName: Option<string>, subcategoryName: Option<string>,
                            keyword: Option<string>, sortingDirection: Option<string>)
    ensures FindProducts(categoryName, subcategoryName, keyword, sortingDirection).Err? <==>
      NameSort(sortingDirection).Err? || (categoryName.Some? && subcategoryName.Some?)
  {
  }

  /**
   * What the accepted request returns: the products of a named category, or of a named
   * subcategory, narrowed by a non-blank keyword as the finders do; with neither name (or an
   * empty one) the keyword search over all products.
   */
  lemma FindProductsReturns(t: Tables, categoryName: Option<string>, subcategoryName: Option<string>,
                            keyword: Option<string>, sortingDirection: Option<string>, x: int)
    requires FindProducts(categoryName, subcategoryName, keyword, sortingDirection).Ok?
    ensures var s := FindProducts(categoryName, subcategoryName, keyword, sortingDirection).value;
      (categoryName.Some? && categoryName.value != [] ==>
        (x in Results(t, s) <==> (x in t.products &&
          if Blank(keyword) then CategoryMatch(t, t.products[x], categoryName.value)
          else CategoryKeywordMatch(t, t.products[x], categoryName.value, keyword.value))))
      && (subcategoryName.Some? && subcategoryName.value != [] ==>
        (x in Results(t, s) <==> (x in t.products &&
          if Blank(keyword) then SubcategoryMatch(t, t.products[x], subcategoryName.value)
          else SubcategoryKeywordMatch(t, t.products[x], subcategoryName.value, keyword.value))))
      && ((categoryName.None? || categoryName.value == []) && (subcategoryName.None? || subcategoryName.value == []) ==>
        (x in Results(t, s) <==> x in t.products && (Blank(keyword) || KeywordMatch(t.products[x], keyword.value))))
  {
    var sort := NameSort(sortingDirection).value;
    if categoryName.Some? && categoryName.value != [] {
      CategoryFinderReturns(t, categoryName.value, keyword, sort);
    } else if subcategoryName.Some? && subcategoryName.value != [] {
      SubcategoryFinderReturns(t, subcategoryName.value, keyword, sort);
    } else {
      KeywordFinderReturns(t, keyword, sort);
    }
  }
}
