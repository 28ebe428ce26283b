/**
 * `IProductRepository`: the five product searches, as filters over the product table joined with
 * subcategories and categories. Each query also takes a `Sort`; that ordering is the database's and
 * is carried separately (see ProductService.Search), so the filters return ids in ascending order.
 */
module ProductQueries {
  import opened Wrappers
  import opened Entities
  import opened Database
  import opened Text

  /**
   * `upper(field) LIKE CONCAT('%', upper(:keyword), '%')`. The query declares no ESCAPE, so a
   * `%` or `_` in the keyword acts as a wildcard. A NULL column makes the comparison unknown,
   * which WHERE treats as false.
   */
  predicate Like(field: Option<string>, keyword: string)
  {
    field.Some? && LikeMatch(Upper(field.value), "%" + Upper(keyword) + "%")
  }

  /** For a keyword without wildcards, the test is case-insensitive substring containment. */
  lemma LikeOfLiteral(field: Option<string>, keyword: string)
    requires Literal(keyword)
    ensures Like(field, keyword) <==> field.Some? && Contains(Upper(field.value), Upper(keyword))
  {
    UpperKeepsLiteral(keyword);
    if field.Some? {
      LikeIsContains(Upper(field.value), Upper(keyword));
    }
  }

  /** The keyword `_` finds "Milk", although the name holds no underscore. */
  lemma UnderscoreMatchesAnyName()
    ensures Like(Some("Milk"), "_") && !Contains(Upper("Milk"), Upper("_"))
  {
    assert Upper("Milk") == "MILK" && Upper("_") == "_";
    WildcardIsNotLiteral();
  }

  /** `UPPER(column) = UPPER(:argument)`. */
  predicate EqualsIgnoreCase(column: string, argument: string)
  {
    Upper(column) == Upper(argument)
  }

  /** The product's subcategory row, when the inner join finds one. */
  function SubcategoryOf(t: Tables, row: ProductRow): Option<SubcategoryRow>
  {
    if row.subcategoryId in t.subcategories then Some(t.subcategories[row.subcategoryId]) else None
  }

  /** The product's category row, when both inner joins find one. */
  function CategoryOf(t: Tables, row: ProductRow): Option<CategoryRow>
  {
    match SubcategoryOf(t, row)
    case None => None
    case Some(sc) =>
      if sc.category.To? && sc.category.id.Some? && sc.category.id.value in t.categories
      then Some(t.categories[sc.category.id.value])
      else None
  }

  /** `findAllProductByKeywordContains`: the keyword occurs in the name, brand or manufacturer. */
  predicate KeywordMatch(row: ProductRow, keyword: string)
  {
    Like(row.name, keyword) || Like(row.brand, keyword) || Like(row.manufacturer, keyword)
  }

  /** `findAllProductByCategoryName`: the category's name equals the argument, ignoring case. */
  predicate CategoryMatch(t: Tables, row: ProductRow, category: string)
  {
    CategoryOf(t, row).Some? && EqualsIgnoreCase(CategoryOf(t, row).value.name, category)
  }

  /**
   * `findAllProductByKeywordContainsAndByCategoryName`. AND binds tighter than OR in the WHERE
   * clause, so only the name test is tied to the category; a brand or manufacturer match is enough
   * for any product that survives the joins.
   */
  predicate CategoryKeywordMatch(t: Tables, row: ProductRow, category: string, keyword: string)
  {
    CategoryOf(t, row).Some? &&
    ((EqualsIgnoreCase(CategoryOf(t, row).value.name, category) && Like(row.name, keyword))
     || Like(row.brand, keyword) || Like(row.manufacturer, keyword))
  }

  /** `findAllProductBySubcategoryName`: the subcategory's name equals the argument, ignoring case. */
  predicate SubcategoryMatch(t: Tables, row: ProductRow, subcategory: string)
  {
    SubcategoryOf(t, row).Some? && EqualsIgnoreCase(SubcategoryOf(t, row).value.name, subcategory)
  }

  /** `findAllProductByKeywordContainsAndBySubcategoryName`, with the same precedence. */
  predicate SubcategoryKeywordMatch(t: Tables, row: ProductRow, subcategory: string, keyword: string)
  {
    SubcategoryOf(t, row).Some? &&
    ((EqualsIgnoreCase(SubcategoryOf(t, row).value.name, subcategory) && Like(row.name, keyword))
     || Like(row.brand, keyword) || Like(row.manufacturer, keyword))
  }

  /** A product search as the repository receives it. */
  datatype Query =
    | All
    | ByKeyword(keyword: string)
    | ByCategory(category: string)
    | ByCategoryAndKeyword(category: string, keyword: string)
    | BySubcategory(subcategory: string)
    | BySubcategoryAndKeyword(subcategory: string, keyword: string)

  /** The filter each query applies to a product row. */
  predicate Selects(t: Tables, q: Query, row: ProductRow)
  {
    match q
    case All => true
    case ByKeyword(kw) => KeywordMatch(row, kw)
    case ByCategory(c) => CategoryMatch(t, row, c)
    case ByCategoryAndKeyword(c, kw) => CategoryKeywordMatch(t, row, c, kw)
    case BySubcategory(s) => SubcategoryMatch(t, row, s)
    case BySubcategoryAndKeyword(s, kw) => SubcategoryKeywordMatch(t, row, s, kw)
  }

  /** The ids of the products the query returns, ascending. */
  function Run(t: Tables, q: Query): (r: seq<int>)
    ensures forall x :: x in r <==> x in t.products && Selects(t, q, t.products[x])
    ensures Increasing(r)
  {
    IdsWhere(t.products, (row: ProductRow) => Selects(t, q, row))
  }

  /** An empty keyword occurs in every non-null column. */
  lemma EmptyKeywordMatchesEveryNamedProduct(row: ProductRow)
    requires row.name.Some?
    ensures KeywordMatch(row, "")
  {
    assert Upper("") == [];
    LikeEmptyKeyword(Upper(row.name.value));
  }

  /** The keyword search ignores case, in the column and in the keyword. */
  lemma KeywordMatchIgnoresCase(row: ProductRow, keyword: string)
    ensures KeywordMatch(row, Upper(keyword)) == KeywordMatch(row, keyword)
  {
    UpperIdempotent(keyword);
  }

  /**
   * The category search is name equality, not containment: a category named "Dairy products"
   * is not found by "Dairy".
   */
  lemma CategoryIsEquality()
    ensures !EqualsIgnoreCase("Dairy products", "Dairy")
  {
    assert |Upper("Dairy products")| != |Upper("Dairy")|;
  }

  /**
   * With a category and a keyword, a product whose brand holds the keyword is returned whatever
   * its category is called.
   */
  lemma BrandEscapesCategory(t: Tables, category: string, keyword: string, x: int)
    requires x in t.products && CategoryOf(t, t.products[x]).Some? && Like(t.products[x].brand, keyword)
    ensures x in Run(t, ByCategoryAndKeyword(category, keyword))
  {
  }

  /** Such a product exists: "Milky" apple juice, filed under "Drinks", is found in "Dairy". */
  lemma BrandEscapesCategoryExample()
    ensures var t := NoTables.(
        categories := map[1 := CategoryRow("Drinks")],
        subcategories := map[2 := SubcategoryRow("Juice", To(Some(1)))]);
      var row := ProductRow(2, Some("Apple juice"), Some("Milky"), Some(1), Some(LITRE), Some("Farm"));
      CategoryKeywordMatch(t, row, "Dairy", "milk") && !CategoryMatch(t, row, "Dairy")
  {
    assert Upper("Milky") == "MILKY" && Upper("milk") == "MILK";
    assert IsPrefix("MILK", "MILKY");
    LikeIsContains("MILKY", "MILK");
    assert |Upper("Drinks")| != |Upper("Dairy")|;
  }

  /**
   * Every product of the combined search matches the keyword search, and every product of the
   * category with the keyword in its name is found.
   */
  lemma CategoryKeywordBetweenQueries(t: Tables, category: string, keyword: string)
    ensures forall x :: x in Run(t, ByCategoryAndKeyword(category, keyword)) ==> x in Run(t, ByKeyword(keyword))
    ensures forall x ::
      (x in t.products && CategoryMatch(t, t.products[x], category) && Like(t.products[x].name, keyword))
      ==> x in Run(t, ByCategoryAndKeyword(category, keyword))
  {
  }

  /** The same two bounds for the subcategory search. */
  lemma SubcategoryKeywordBetweenQueries(t: Tables, subcategory: string, keyword: string)
    ensures forall x :: x in Run(t, BySubcategoryAndKeyword(subcategory, keyword)) ==> x in Run(t, ByKeyword(keyword))
    ensures forall x ::
      (x in t.products && SubcategoryMatch(t, t.products[x], subcategory) && Like(t.products[x].name, keyword))
      ==> x in Run(t, BySubcategoryAndKeyword(subcategory, keyword))
  {
  }
}
