# Goods and Shops: a verified model of the catalogue and price bookkeeping

Goods-And-Shops is a Spring application that keeps a catalogue (categories, subcategories,
products), the stores that sell products, one price list per product and store, and the dated
price history of every list. This project models its service layer, the repository queries it
relies on, the spreadsheet import and the three controllers that carry logic. The model states
and proves what each operation does. It covers the successful path, every exception the code
raises (as an `Error` value in a `Result` or `Outcome`) and the state each write leaves behind.

The data model:

- **Tables.** The repositories are one `Database.Database` object. Its `tables` hold one map per
  table, from id to a row that keeps only the owning-side columns.
- **Generated ids.** A single `nextId` counter plays the identity generator.
- **Re-derivation log.** A ghost log `rederived` records every call of
  `updateCurrentPriceByPriceListId`.
- **Mapped-by lists.** Lists such as a price list's history or a product's price lists are not
  stored. They are derived when an entity is loaded, in ascending id order.
- **Money.** `BigDecimal` is `Money.Decimal`, an unscaled integer with a scale.
- **Spreadsheets.** A sheet is a sequence of `Spreadsheet.SheetRow`s of optional typed cells.
- **Services.** Pure code becomes functions. Code that changes state or loops becomes methods
  proved against those functions.

Behaviours of the code that the proofs make explicit:

- **Current price.** The current price of a list is the price of the first history entry with
  the latest date, truncated to two decimals. `PriceListService.LastPrice` and the loop
  `PriceListService.FindLastPrice` compute it; a later entry with the same date never replaces
  it.
- **Create guards.** Every service creates on a null or non-zero id and refuses id 0, except
  `StoreService`, which creates only on a null or zero id (`Database.CreateGuardsDisagree`).
- **Keyword queries.** In the category- and subcategory-plus-keyword product queries AND binds
  tighter than OR. A product whose brand or manufacturer matches the keyword is returned whatever
  its category (`ProductQueries.BrandEscapesCategory`).
- **Header-only sheet.** A sheet that holds only its header row makes the row iterator fail with
  NoSuchElement (`Spreadsheet.HeaderOnlySheetFails`).
- **Deleting a last price.** Deleting the only price of a list removes it, then re-deriving the
  list's current price fails with IndexOutOfBounds (`PriceController.DeleteOnlyPriceThrows`).
- **Price-list search guard.** The guard of the price-list search never reaches its `findAll`
  branch (see Findings).

## Model

| member | source | states |
|---|---|---|
| Money.SetScale2Down | business-logic/src/main/java/com/example/service/PriceListService.java:84 | `setScale(2, RoundingMode.DOWN)`: the result has scale 2, keeps the value when it has at most two places, and otherwise truncates toward zero (bounds for positive and negative values) |
| Money.SetScale2DownIdempotent | business-logic/src/main/java/com/example/service/PriceListService.java:219-223 | truncating an already truncated price changes nothing |
| Money.IntegerPart | web-view-controller/src/main/java/com/example/utils/ExcelUtils.java:84 | `longValue()` of a decimal is its integer part truncated toward zero, with bounds for both signs |
| Money.IntegerPartOfWhole | web-view-controller/src/main/java/com/example/utils/ExcelUtils.java:84 | a whole number's integer part is the number itself |
| Text.Upper | business-logic/src/main/java/com/example/repository/IProductRepository.java:17-19 | `upper()` keeps the length and maps every character |
| Text.UpperIdempotent | business-logic/src/main/java/com/example/repository/IProductRepository.java:26 | upper-casing twice is upper-casing once |
| Text.ContainsAt | business-logic/src/main/java/com/example/repository/IProductRepository.java:17 | literal containment, the reference for a keyword without wildcards: `k` is contained in the column iff it occurs at some position of it |
| Text.PercentMatchesAll | business-logic/src/main/java/com/example/repository/IProductRepository.java:17 | the LIKE pattern `%` matches every string, the empty one included |
| Text.LikeEmptyKeyword | business-logic/src/main/java/com/example/repository/IProductRepository.java:17 | `CONCAT('%', '', '%')`, the pattern of an empty keyword, matches every string |
| Text.LiteralPrefix | business-logic/src/main/java/com/example/repository/IProductRepository.java:17 | a wildcard-free `q` followed by `%` matches exactly the strings that start with `q` |
| Text.LikeIsContains | business-logic/src/main/java/com/example/repository/IProductRepository.java:17 | for a keyword holding neither `%` nor `_`, `LIKE CONCAT('%', k, '%')` holds iff `k` is contained in the column |
| Text.WildcardIsNotLiteral | business-logic/src/main/java/com/example/repository/IProductRepository.java:17 | with no ESCAPE, `_` in the keyword matches any one character: `%_%` matches "MILK", which contains no `_` |
| SortOrder.DirectionFromString | business-logic/src/main/java/com/example/service/StoreService.java:56 | "asc" and "desc" are accepted in any case, and any other token is an IllegalArgument |
| SortOrder.AscParses | business-logic/src/main/java/com/example/service/UserService.java:72-73 | the default token "asc" parses to ascending |
| SortOrder.DirectionFromStringIgnoresCase | business-logic/src/main/java/com/example/service/StoreService.java:56 | parsing a token and parsing its upper-cased form agree |
| Database.Database.SaveKey | business-logic/src/main/java/com/example/service/PriceListService.java:106 | `save`: an existing id keeps its key; any other gets a fresh key above every stored one, and the counter advances |
| Database.NewKeyFresh | business-logic/src/main/java/com/example/service/PriceListService.java:106 | the saved key is already stored iff the given id was stored, and it is positive |
| Database.IdValidation | business-logic/src/main/java/com/example/service/PriceListService.java:240-251 | passes iff the id is non-null, non-zero and stored; null or 0 is IllegalArgument(NullOrZeroId); every failure is an IllegalArgument |
| Database.CreateGuardsDisagree | business-logic/src/main/java/com/example/service/StoreService.java:29-37 | the shared create guard admits every id but 0, the store guard only null or 0, and both together only null |
| Database.FindRow | business-logic/src/main/java/com/example/service/PriceListService.java:188-195 | `findById`: found iff the id is stored, with the stored row; a missing id is NotFound |
| Database.ValidatedIdIsFound | business-logic/src/main/java/com/example/service/PriceListService.java:240-251 | an id that passes `idValidation` is always found by `findById` |
| Database.SortedKeys | business-logic/src/main/java/com/example/service/PriceListService.java:118-123 | `findAll` lists exactly the stored keys, strictly increasing |
| Database.Where | business-logic/src/main/java/com/example/repository/IPriceListRepository.java:16-18 | a filter query keeps exactly the listed ids that are stored and match, in their order |
| Database.IdsWhere | business-logic/src/main/java/com/example/repository/IPriceListRepository.java:16-18 | a filter over a table returns exactly the matching keys, strictly increasing |
| Database.HistoryIds | business-logic/src/main/java/com/example/entity/PriceList.java:36-37 | the ids of a list's history are exactly the prices that point to it, ascending |
| Database.LoadPrices | business-logic/src/main/java/com/example/entity/PriceList.java:36-37 | loading ids gives one price per id, in order, and nothing else |
| Database.History | business-logic/src/main/java/com/example/entity/PriceList.java:36-37 | a list's history holds exactly the stored prices that point to it, as loaded |
| Database.PriceListIdsOf | business-logic/src/main/java/com/example/entity/Product.java:40-41 | a product's price lists are exactly the lists whose product is it |
| PriceQueries.Insert | business-logic/src/main/java/com/example/repository/IPriceRepository.java:20 | inserting a dated price adds exactly that price to the multiset |
| PriceQueries.InsertDescending | business-logic/src/main/java/com/example/repository/IPriceRepository.java:20 | insertion keeps a date-descending sequence date-descending |
| PriceQueries.SortByDateDesc | business-logic/src/main/java/com/example/repository/IPriceRepository.java:20 | `ORDER BY p.date DESC` gives a date-descending permutation of its input |
| PriceQueries.WindowIds | business-logic/src/main/java/com/example/repository/IPriceRepository.java:16-19 | the ids selected are exactly the prices of the given list dated within `[start, end]`, both ends inclusive |
| PriceQueries.Window | business-logic/src/main/java/com/example/repository/IPriceRepository.java:16-23 | the query result is a date-descending permutation of exactly the windowed prices |
| PriceQueries.WindowMembers | business-logic/src/main/java/com/example/repository/IPriceRepository.java:16-23 | a price is in the result iff it is a stored price of that list dated within the window |
| PriceQueries.WindowNoDuplicates | business-logic/src/main/java/com/example/repository/IPriceRepository.java:16-23 | the result has one entry per selected id |
| PriceQueries.WindowWithinHistory | business-logic/src/main/java/com/example/repository/IPriceRepository.java:16-18 | every windowed price belongs to the list's history |
| PriceQueries.EmptyWindow | business-logic/src/main/java/com/example/repository/IPriceRepository.java:19 | a missing bound or `start > end` selects nothing |
| ProductQueries.Run | business-logic/src/main/java/com/example/repository/IProductRepository.java:16-49 | each of the five queries returns exactly the stored products its WHERE clause selects, ascending by id; the keyword is a LIKE pattern whose `%` and `_` are wildcards |
| ProductQueries.LikeOfLiteral | business-logic/src/main/java/com/example/repository/IProductRepository.java:17-19 | for a keyword without `%` or `_`, the keyword test is case-insensitive containment in the column |
| ProductQueries.UnderscoreMatchesAnyName | business-logic/src/main/java/com/example/repository/IProductRepository.java:17-19 | the keyword `_` selects a product named "Milk", whose upper-cased name contains no `_` |
| ProductQueries.EmptyKeywordMatchesEveryNamedProduct | business-logic/src/main/java/com/example/repository/IProductRepository.java:16-19 | the empty keyword matches every product with a name |
| ProductQueries.KeywordMatchIgnoresCase | business-logic/src/main/java/com/example/repository/IProductRepository.java:16-19 | the keyword match does not depend on the keyword's case |
| ProductQueries.CategoryIsEquality | business-logic/src/main/java/com/example/repository/IProductRepository.java:26 | the category filter is equality ignoring case, not containment ("Dairy products" is not "Dairy") |
| ProductQueries.BrandEscapesCategory | business-logic/src/main/java/com/example/repository/IProductRepository.java:32-35 | a product with any category whose brand contains the keyword is returned by the category-plus-keyword query |
| ProductQueries.BrandEscapesCategoryExample | business-logic/src/main/java/com/example/repository/IProductRepository.java:32-35 | a juice of category "Drinks" with brand "Milky" matches category "Dairy" with keyword "milk" |
| ProductQueries.CategoryKeywordBetweenQueries | business-logic/src/main/java/com/example/repository/IProductRepository.java:29-36 | the category-plus-keyword result lies within the keyword result and contains every product of the category whose name contains the keyword |
| ProductQueries.SubcategoryKeywordBetweenQueries | business-logic/src/main/java/com/example/repository/IProductRepository.java:43-49 | the same two bounds for the subcategory-plus-keyword query |
| PriceListQueries.LoadPriceLists | business-logic/src/main/java/com/example/repository/IPriceListRepository.java:16-18 | loading ids gives one loaded list per id, in order |
| PriceListQueries.ByProductsIds | business-logic/src/main/java/com/example/repository/IPriceListRepository.java:16-18 | `product.id IN :productsId` selects exactly the lists of those products, ascending |
| PriceListQueries.ByProductsAndStoresIds | business-logic/src/main/java/com/example/repository/IPriceListRepository.java:20-24 | the product-and-store query selects exactly the lists of those products in those stores, ascending |
| PriceListQueries.InIgnoresOrderAndDuplicates | business-logic/src/main/java/com/example/repository/IPriceListRepository.java:16-24 | id lists with the same members give the same results |
| PriceListQueries.StoresNarrowProducts | business-logic/src/main/java/com/example/repository/IPriceListRepository.java:16-24 | the product-and-store result lies within the product-only result |
| PriceListQueries.ByProductsMembers | business-logic/src/main/java/com/example/repository/IPriceListRepository.java:16-18 | a list is returned iff it is a stored list, as loaded, of one of the products |
| PriceListService.FirstLatest | business-logic/src/main/java/com/example/service/PriceListService.java:216-227 | the chosen index carries the latest date, and every earlier index has a strictly earlier date |
| PriceListService.FirstLatestUnique | business-logic/src/main/java/com/example/service/PriceListService.java:216-227 | those two properties determine the index |
| PriceListService.LastPrice | business-logic/src/main/java/com/example/service/PriceListService.java:216-227 | an empty history is IndexOutOfBounds; a null date or a null record price is NullPointer; otherwise the truncated price of the first entry with the latest date |
| PriceListService.LastPriceScale | business-logic/src/main/java/com/example/service/PriceListService.java:219-223 | the current price always has scale 2 |
| PriceListService.LastPriceTieKeepsFirst | business-logic/src/main/java/com/example/service/PriceListService.java:221-224 | appending an entry dated no later than the latest does not change the current price |
| PriceListService.LastPriceLaterWins | business-logic/src/main/java/com/example/service/PriceListService.java:221-224 | appending an entry with a strictly later date makes its truncated price current |
| PriceListService.FindLastPrice | business-logic/src/main/java/com/example/service/PriceListService.java:216-227 | the loop over the history returns exactly `LastPrice`, error cases included |
| PriceListService.ConvertToDTO | business-logic/src/main/java/com/example/service/PriceListService.java:46-61 | copies id, store id and name, product id and current price, and converts the history entry by entry; a null store or an orphan price is NullPointer |
| PriceListService.ConvertAllToDTO | business-logic/src/main/java/com/example/service/PriceListService.java:92-99 | converts every list, in order and one to one, and fails iff one conversion fails |
| PriceListService.ConvertPrices | business-logic/src/main/java/com/example/service/PriceListService.java:76-81 | converts every history DTO in order and points each price at the new list |
| PriceListService.ConvertPricesPrefixFails | business-logic/src/main/java/com/example/service/PriceListService.java:76-81 | the first failing history entry decides the error |
| PriceListService.PriceListFromDTO | business-logic/src/main/java/com/example/service/PriceListService.java:64-89 | store then product id are validated; with a history the result's entries are exactly the DTO's entries converted and pointed at the new list, it succeeds iff every entry converts and `findLastPrice` of them returns, the first failing entry's error or `findLastPrice`'s error is thrown otherwise, and the DTO's current price is ignored; without one the DTO's price truncated to scale 2, or NullPointer when it is null |
| PriceListService.ConvertFromDTO | business-logic/src/main/java/com/example/service/PriceListService.java:64-89 | the method with its loop over the history computes `PriceListFromDTO` |
| PriceListService.EntityRoundTrip | business-logic/src/main/java/com/example/service/PriceListService.java:46-89 | a stored list whose current price is derived from its history converts to a DTO and back unchanged |
| PriceListService.FindById | business-logic/src/main/java/com/example/service/PriceListService.java:188-195 | found iff stored, as loaded with its history; a missing id is NotFound |
| PriceListService.FindAll | business-logic/src/main/java/com/example/service/PriceListService.java:118-123 | returns exactly the stored lists, as loaded |
| PriceListService.SetWindowedHistories | business-logic/src/main/java/com/example/service/PriceListService.java:142-152 | the loop keeps order and count and replaces each list's history by its own windowed prices |
| PriceListService.FindForComparisonByProducts | business-logic/src/main/java/com/example/service/PriceListService.java:126-134 | returns exactly the stored lists of the given products |
| PriceListService.FindForComparisonByProductsAndStores | business-logic/src/main/java/com/example/service/PriceListService.java:156-165 | every list returned is also returned for the products alone |
| PriceListService.FindDynamicsByProducts | business-logic/src/main/java/com/example/service/PriceListService.java:137-153 | a missing date is NullPointer; otherwise the product query's lists in order, each with its history windowed |
| PriceListService.FindDynamicsByProductsAndStores | business-logic/src/main/java/com/example/service/PriceListService.java:168-184 | the product-and-store query's lists in order, each with its history windowed |
| PriceListService.Create | business-logic/src/main/java/com/example/service/PriceListService.java:103-114 | id 0 is refused and nothing changes; a conversion error changes nothing; otherwise exactly one row is saved under the key `save` assigns, and the saved list is returned |
| PriceListService.Update | business-logic/src/main/java/com/example/service/PriceListService.java:199-205 | validates the id first; on success overwrites exactly that row; on any error changes nothing |
| PriceListService.DeleteById | business-logic/src/main/java/com/example/service/PriceListService.java:209-214 | validates, then removes exactly that row; a failed validation changes nothing |
| PriceListService.CurrentPriceOf | business-logic/src/main/java/com/example/service/PriceListService.java:230-236 | a missing list is NotFound; otherwise `findLastPrice` of the stored history |
| PriceListService.UpdateCurrentPriceByPriceListId | business-logic/src/main/java/com/example/service/PriceListService.java:230-236 | logs the call once; on success stores the derived price and changes no other field of any row; on failure changes nothing |
| PriceService.ConvertToDTO | business-logic/src/main/java/com/example/service/PriceService.java:39-47 | copies id, price and date, and the owning list's id; a price with no list is NullPointer |
| PriceService.ConvertFromDTO | business-logic/src/main/java/com/example/service/PriceService.java:50-65 | copies id, price and date unrounded; a null list id gives a price with no list; otherwise the id must pass `idValidation` |
| PriceService.DTORoundTrip | business-logic/src/main/java/com/example/service/PriceService.java:39-65 | a DTO naming a valid list converts to an entity and back unchanged |
| PriceService.EntityRoundTrip | business-logic/src/main/java/com/example/service/PriceService.java:39-65 | a price of a valid list converts to a DTO and back unchanged |
| PriceService.ConvertAllToDTO | business-logic/src/main/java/com/example/service/PriceService.java:68-75 | converts every price in order and fails iff one has no list |
| PriceService.FindById | business-logic/src/main/java/com/example/service/PriceService.java:111-118 | found iff stored; a missing id is NotFound |
| PriceService.FindAllPriceBetweenDateParam | business-logic/src/main/java/com/example/service/PriceService.java:100-108 | the windowed prices of a list, date descending |
| PriceService.Create | business-logic/src/main/java/com/example/service/PriceService.java:78-89 | id 0 is refused; a conversion error changes nothing; otherwise exactly one row is saved and returned with its key |
| PriceService.Update | business-logic/src/main/java/com/example/service/PriceService.java:121-127 | validates the id first; on success overwrites exactly that row |
| PriceService.DeleteById | business-logic/src/main/java/com/example/service/PriceService.java:130-135 | validates, then removes exactly that row |
| PriceService.FirstByKeySubsequence | business-logic/src/main/java/com/example/service/PriceService.java:151-154 | filtering with `distinctByKey` keeps an order-preserving subsequence |
| PriceService.FirstByKeyDistinct | business-logic/src/main/java/com/example/service/PriceService.java:151-154 | the kept elements have pairwise distinct keys, none already seen |
| PriceService.FirstByKeyCovers | business-logic/src/main/java/com/example/service/PriceService.java:151-154 | every key of the input is kept or was seen before |
| PriceService.FirstByKeySameKeys | business-logic/src/main/java/com/example/service/PriceService.java:151-154 | starting from nothing seen, the kept keys are exactly the input's keys |
| PriceService.DistinctByKey.Test | business-logic/src/main/java/com/example/service/PriceService.java:153 | the predicate answers true iff the key was not seen, and records the key |
| PriceService.FilterDistinctByKey | business-logic/src/main/java/com/example/service/PriceService.java:151-154 | a stream filtered with one predicate keeps exactly the first element of each key |
| CategoryService.SubcategoryIdsOf | business-logic/src/main/java/com/example/entity/Category.java:29-30 | a category's subcategories are exactly those pointing to it, ascending |
| CategoryService.LoadCategory | business-logic/src/main/java/com/example/entity/Category.java:29-30 | a loaded category has one subcategory per child row, each pointing back to it |
| CategoryService.ConvertToDTO | business-logic/src/main/java/com/example/service/CategoryService.java:35-46 | copies id and name and one subcategory DTO per subcategory, in order |
| CategoryService.LoadedConverts | business-logic/src/main/java/com/example/service/CategoryService.java:35-46 | a stored category always converts, its DTO listing its subcategories' ids in order |
| CategoryService.Adopt | business-logic/src/main/java/com/example/service/CategoryService.java:59-61 | a child without a category gets the new parent; a child with one keeps it |
| CategoryService.ConvertSubcategories | business-logic/src/main/java/com/example/service/CategoryService.java:57-63 | converts every child DTO in order, adopting orphans |
| CategoryService.ConvertSubcategoriesPrefixFails | business-logic/src/main/java/com/example/service/CategoryService.java:57-63 | the first failing child decides the error |
| CategoryService.CategoryFromDTO | business-logic/src/main/java/com/example/service/CategoryService.java:50-66 | copies id and name, one subcategory per DTO in order; a null list is NullPointer; fails iff a child fails |
| CategoryService.ConvertFromDTO | business-logic/src/main/java/com/example/service/CategoryService.java:50-66 | the method with its loop computes `CategoryFromDTO` |
| CategoryService.NoChildIsAdopted | business-logic/src/main/java/com/example/service/CategoryService.java:59-61 | every child converted from a DTO already has its own category, so adoption never happens |
| CategoryService.DTORoundTrip | business-logic/src/main/java/com/example/service/CategoryService.java:35-66 | a DTO of valid existing children converts to an entity and back unchanged |
| CategoryService.FindById | business-logic/src/main/java/com/example/service/CategoryService.java:104-111 | found iff stored; a missing id is NotFound |
| CategoryService.Create | business-logic/src/main/java/com/example/service/CategoryService.java:80-91 | id 0 is refused; a conversion error changes nothing; otherwise exactly one row is saved |
| CategoryService.Update | business-logic/src/main/java/com/example/service/CategoryService.java:115-121 | validates the id first; on success overwrites exactly that row |
| CategoryService.DeleteById | business-logic/src/main/java/com/example/service/CategoryService.java:125-130 | validates, then removes exactly that row |
| SubcategoryService.ProductIdsOf | business-logic/src/main/java/com/example/entity/Subcategory.java:27-28 | a subcategory's products are exactly those pointing to it, ascending |
| SubcategoryService.ConvertToDTO | business-logic/src/main/java/com/example/service/SubcategoryService.java:39-53 | copies id, name, category id and product ids; `productsId` is null iff the product list is |
| SubcategoryService.ConvertAllToDTO | business-logic/src/main/java/com/example/service/SubcategoryService.java:86-93 | converts every subcategory in order |
| SubcategoryService.SubcategoryFromDTO | business-logic/src/main/java/com/example/service/SubcategoryService.java:57-83 | an existing id is validated and the row replaced: name, category and exactly the listed products; a null or 0 id builds a new subcategory with no product list; the category id is always validated |
| SubcategoryService.ConvertFromDTO | business-logic/src/main/java/com/example/service/SubcategoryService.java:57-83 | the method computes `SubcategoryFromDTO` |
| SubcategoryService.FindProducts | business-logic/src/main/java/com/example/service/SubcategoryService.java:68-71 | the loop finds every listed product in order, or fails with NotFound |
| SubcategoryService.DTORoundTrip | business-logic/src/main/java/com/example/service/SubcategoryService.java:39-83 | a DTO of an existing subcategory converts to an entity and back unchanged |
| SubcategoryService.EntityRoundTrip | business-logic/src/main/java/com/example/service/SubcategoryService.java:39-83 | a stored subcategory converts to a DTO and back unchanged |
| SubcategoryService.FindById | business-logic/src/main/java/com/example/service/SubcategoryService.java:125-132 | found iff stored; a missing id is NotFound |
| SubcategoryService.CreateWithUnknownIdFails | business-logic/src/main/java/com/example/service/SubcategoryService.java:97-112 | creating with an unknown non-zero id fails `idValidation` |
| SubcategoryService.Create | business-logic/src/main/java/com/example/service/SubcategoryService.java:97-112 | id 0 is refused; a conversion error changes nothing; otherwise one row is saved and returned without a product list |
| SubcategoryService.Update | business-logic/src/main/java/com/example/service/SubcategoryService.java:136-143 | validates the id first; on success overwrites exactly that row |
| SubcategoryService.DeleteById | business-logic/src/main/java/com/example/service/SubcategoryService.java:147-152 | validates, then removes exactly that row |
| ProductService.ConvertToDTO | business-logic/src/main/java/com/example/service/ProductService.java:39-60 | copies the scalars and the subcategory id; `priceListsId` is null iff the association is |
| ProductService.ConvertAllToDTO | business-logic/src/main/java/com/example/service/ProductService.java:86-93 | converts every product in order |
| ProductService.ConvertFromDTO | business-logic/src/main/java/com/example/service/ProductService.java:64-83 | validates the subcategory id, copies every scalar and always leaves the price lists null |
| ProductService.DTORoundTrip | business-logic/src/main/java/com/example/service/ProductService.java:39-83 | a DTO with a valid subcategory converts back unchanged, except that its price-list ids are dropped |
| ProductService.EntityRoundTrip | business-logic/src/main/java/com/example/service/ProductService.java:39-83 | a stored product converts back unchanged, except that its price lists are dropped |
| ProductService.FindById | business-logic/src/main/java/com/example/service/ProductService.java:182-189 | found iff stored; a missing id is NotFound |
| ProductService.Create | business-logic/src/main/java/com/example/service/ProductService.java:97-108 | id 0 is refused; otherwise one row is saved and returned without price lists |
| ProductService.UpdatedProduct | business-logic/src/main/java/com/example/service/ProductService.java:193-211 | the id, then the subcategory, then every price-list id is checked; the product's price lists become exactly the listed ones |
| ProductService.UpdateEchoes | business-logic/src/main/java/com/example/service/ProductService.java:193-211 | a successful update returns exactly the DTO it was given |
| ProductService.Update | business-logic/src/main/java/com/example/service/ProductService.java:193-211 | the method with its loop over the price-list ids saves exactly `UpdatedProduct`, or changes nothing |
| ProductService.DeleteById | business-logic/src/main/java/com/example/service/ProductService.java:215-220 | validates, then removes exactly that row |
| ProductService.KeywordFinderReturns | business-logic/src/main/java/com/example/service/ProductService.java:120-134 | a blank keyword returns every product; otherwise exactly those whose name, brand or manufacturer contains it |
| ProductService.CategoryFinderReturns | business-logic/src/main/java/com/example/service/ProductService.java:137-156 | a blank keyword runs the category query, otherwise the category-plus-keyword query |
| ProductService.SubcategoryFinderReturns | business-logic/src/main/java/com/example/service/ProductService.java:159-178 | a blank keyword runs the subcategory query, otherwise the subcategory-plus-keyword query |
| StoreService.FindById | business-logic/src/main/java/com/example/service/StoreService.java:99-106 | found iff stored; a missing id is NotFound |
| StoreService.FindAll | business-logic/src/main/java/com/example/service/StoreService.java:41-46 | returns exactly the stored stores |
| StoreService.Create | business-logic/src/main/java/com/example/service/StoreService.java:27-38 | any id other than null or 0 is refused; otherwise one row is saved under a fresh key |
| StoreService.Update | business-logic/src/main/java/com/example/service/StoreService.java:109-115 | validates the id first; on success overwrites exactly that row |
| StoreService.DeleteById | business-logic/src/main/java/com/example/service/StoreService.java:118-123 | validates, then removes exactly that row |
| StoreService.Results | business-logic/src/main/java/com/example/repository/IStoreRepository.java:13-15 | each store query returns exactly the stores with equal city, name, or both |
| StoreService.GetStoresByCityOrNameEquals | business-logic/src/main/java/com/example/service/StoreService.java:49-96 | a bad direction is BadRequest in every branch; with a city the sort is on "name", otherwise on "city" |
| StoreService.SearchReturns | business-logic/src/main/java/com/example/service/StoreService.java:53-95 | city and name select on both, city alone on the city, name alone on the name; with neither, the name query on null finds nothing |
| StoreService.DefaultDirection | business-logic/src/main/java/com/example/service/StoreService.java:51 | a null direction means "asc", while an empty one is BadRequest |
| UserService.ConvertToDTO | business-logic/src/main/java/com/example/service/UserService.java:29-36 | copies name, surname, address and email |
| UserService.ConvertFromDTO | business-logic/src/main/java/com/example/service/UserService.java:38-45 | copies the same four fields, with no id, username or roles |
| UserService.DTORoundTrip | business-logic/src/main/java/com/example/service/UserService.java:29-45 | a DTO survives the round trip unchanged |
| UserService.EntityRoundTrip | business-logic/src/main/java/com/example/service/UserService.java:29-45 | a user survives the round trip except for id, username and roles |
| UserService.FindById | business-logic/src/main/java/com/example/service/UserService.java:85-92 | found iff stored; a missing id is NotFound |
| UserService.UsernameIds | business-logic/src/main/java/com/example/repository/IUserRepository.java:13 | exactly the users with that username, ascending |
| UserService.FindByUsername | business-logic/src/main/java/com/example/repository/IUserRepository.java:13 | finds the only user with that username; none is NotFound; several is IncorrectResultSize |
| UserService.FindMyProfile | business-logic/src/main/java/com/example/service/UserService.java:94-102 | the DTO of the user found by username, or its error |
| UserService.EditProfile | business-logic/src/main/java/com/example/service/UserService.java:104-118 | an unknown username changes nothing; otherwise exactly the four profile fields of that user change |
| UserService.EditProfileKeepsIdentity | business-logic/src/main/java/com/example/service/UserService.java:104-118 | after editing, the same user is found, with unchanged roles and the new profile |
| UserService.SoleUserIsFound | business-logic/src/main/java/com/example/repository/IUserRepository.java:13 | a unique username finds its user |
| UserService.FindAllWithSortingDirection | business-logic/src/main/java/com/example/service/UserService.java:68-83 | a null or empty direction is ascending, a bad one is BadRequest, and the sort is on "name" |
| UserService.Create | business-logic/src/main/java/com/example/service/UserService.java:48-59 | id 0 is refused; otherwise one row is saved |
| UserService.Update | business-logic/src/main/java/com/example/service/UserService.java:120-126 | validates the id first; on success overwrites exactly that row |
| UserService.DeleteById | business-logic/src/main/java/com/example/service/UserService.java:129-134 | validates, then removes exactly that row |
| Spreadsheet.NumericValue | web-view-controller/src/main/java/com/example/utils/ExcelUtils.java:84 | a numeric cell gives its number; a text cell is IllegalState |
| Spreadsheet.StringValue | web-view-controller/src/main/java/com/example/utils/ExcelUtils.java:95 | a text cell gives its text; a numeric cell is IllegalState |
| Spreadsheet.DateValue | web-view-controller/src/main/java/com/example/utils/ExcelUtils.java:244 | a non-negative serial gives its whole days; a negative one is no date and is NullPointer; a text cell is IllegalState |
| Spreadsheet.ParseRows | web-view-controller/src/main/java/com/example/utils/ExcelUtils.java:70-133 | the kept rows are at most the sheet's rows, all kept, each parsed from some row |
| Spreadsheet.ReadCellsStops | web-view-controller/src/main/java/com/example/utils/ExcelUtils.java:79-129 | the first cell that throws ends the row with its error |
| Spreadsheet.ReadCellsSucceeds | web-view-controller/src/main/java/com/example/utils/ExcelUtils.java:79-129 | a row reads iff every non-blank cell fits its column |
| Spreadsheet.ReadRow | web-view-controller/src/main/java/com/example/utils/ExcelUtils.java:78-129 | the column loop computes the recursive row reading |
| Spreadsheet.ParseRowsFrom | web-view-controller/src/main/java/com/example/utils/ExcelUtils.java:71-76 | one step of the row iterator: a row numbered 0 is skipped, unless it is the last, which is NoSuchElement |
| Spreadsheet.ReadSheet | web-view-controller/src/main/java/com/example/utils/ExcelUtils.java:70-133 | the row loop computes `ParseRows` |
| Spreadsheet.Parses | web-view-controller/src/main/java/com/example/utils/ExcelUtils.java:70-133 | all rows parsed, in order |
| Spreadsheet.Kept | web-view-controller/src/main/java/com/example/utils/ExcelUtils.java:130-132 | exactly the parsed rows whose key is set |
| Spreadsheet.HeaderlessRows | web-view-controller/src/main/java/com/example/utils/ExcelUtils.java:70-133 | without a header, the sheet parses iff every row does, and yields the kept rows in order |
| Spreadsheet.SheetRows | web-view-controller/src/main/java/com/example/utils/ExcelUtils.java:70-133 | the same for a sheet with a header, over the rows after it |
| Spreadsheet.SkipHeader | web-view-controller/src/main/java/com/example/utils/ExcelUtils.java:74-76 | the header row contributes nothing |
| Spreadsheet.HeaderOnlySheetFails | web-view-controller/src/main/java/com/example/utils/ExcelUtils.java:74-76 | a sheet holding only its header row is NoSuchElement |
| ExcelUtils.ReadXlsxFile | web-view-controller/src/main/java/com/example/utils/ExcelUtils.java:43-64 | a name ending exactly in ".xlsx" gives the first sheet; any other name, or an unreadable file, is BadRequest |
| ExcelUtils.XlsxNames | web-view-controller/src/main/java/com/example/utils/ExcelUtils.java:47 | the name check holds iff the name is some stem followed by ".xlsx" |
| ExcelUtils.XlsxNameExamples | web-view-controller/src/main/java/com/example/utils/ExcelUtils.java:47 | "prices.XLSX" and "xlsx" are refused; ".xlsx" is accepted |
| ExcelUtils.Saturate | web-view-controller/src/main/java/com/example/utils/ExcelUtils.java:104 | the `(int)` cast clamps a value to the int range |
| ExcelUtils.IdCell | web-view-controller/src/main/java/com/example/utils/ExcelUtils.java:84-91 | a key cell is read as a long and must pass `idValidation`; a failure names the cell |
| ExcelUtils.FindUnit | web-view-controller/src/main/java/com/example/utils/ExcelUtils.java:109-111 | finds the unit whose name is given, or none when no name matches |
| ExcelUtils.UnitCell | web-view-controller/src/main/java/com/example/utils/ExcelUtils.java:107-118 | a unit cell is accepted iff its upper-cased text names a unit; otherwise WrongUnit at the cell |
| ExcelUtils.UnitCellReads | web-view-controller/src/main/java/com/example/utils/ExcelUtils.java:107-118 | a text reads as a unit iff its upper-cased form is the unit's name |
| ExcelUtils.UnitNamesDiffer | business-logic/src/main/java/com/example/enums/Unit.java:5-9 | the unit names are distinct |
| ExcelUtils.LowerCaseUnit | web-view-controller/src/main/java/com/example/utils/ExcelUtils.java:108-110 | "gram" reads as GRAM |
| ExcelUtils.NumberedAt | web-view-controller/src/main/java/com/example/utils/ExcelUtils.java:134-138 | the k-th created DTO is the k-th kept row under key `nextId + k` |
| ExcelUtils.NewRowsAt | web-view-controller/src/main/java/com/example/utils/ExcelUtils.java:134-138 | the saved rows are exactly the keys `nextId` to `nextId + n - 1`, one per kept row |
| ExcelUtils.ProductCell | web-view-controller/src/main/java/com/example/utils/ExcelUtils.java:82-127 | columns 0 to 5 set subcategory, name, brand, quantity, unit and manufacturer; column 6 or later is NotOwnedData at the cell |
| ExcelUtils.ProductRowRead | web-view-controller/src/main/java/com/example/utils/ExcelUtils.java:79-129 | a product row reads iff every non-blank cell fits its column, and the DTO then holds each column's value |
| ExcelUtils.ProductRowHolds | web-view-controller/src/main/java/com/example/utils/ExcelUtils.java:79-129 | the DTO read from a row holds each column's value |
| ExcelUtils.ProductColumnRead | web-view-controller/src/main/java/com/example/utils/ExcelUtils.java:79-129 | reading one more column keeps that correspondence |
| ExcelUtils.ProductCellRead | web-view-controller/src/main/java/com/example/utils/ExcelUtils.java:82-127 | one cell fills its own field |
| ExcelUtils.ParseProducts | web-view-controller/src/main/java/com/example/utils/ExcelUtils.java:66-133 | every kept product row has a valid subcategory, no id and no price lists |
| ExcelUtils.CreateProducts | web-view-controller/src/main/java/com/example/utils/ExcelUtils.java:66-139 | a sheet error creates nothing; otherwise every kept row is created, in order, after all are read |
| ExcelUtils.CreateEachProduct | web-view-controller/src/main/java/com/example/utils/ExcelUtils.java:134-138 | the create loop saves one product per kept row, in order |
| ExcelUtils.PriceListCell | web-view-controller/src/main/java/com/example/utils/ExcelUtils.java:155-192 | columns 0 to 2 set store, product and current price; column 3 or later is NotOwnedData |
| ExcelUtils.PriceListRowRead | web-view-controller/src/main/java/com/example/utils/ExcelUtils.java:152-194 | a price-list row reads iff every non-blank cell fits, and the DTO holds each column's value |
| ExcelUtils.PriceListRowHolds | web-view-controller/src/main/java/com/example/utils/ExcelUtils.java:152-194 | the DTO read from a row holds each column's value |
| ExcelUtils.PriceListColumnRead | web-view-controller/src/main/java/com/example/utils/ExcelUtils.java:152-194 | reading one more column keeps that correspondence |
| ExcelUtils.ParsePriceLists | web-view-controller/src/main/java/com/example/utils/ExcelUtils.java:141-198 | every kept price-list row has a valid store and product |
| ExcelUtils.CreatablePrefix | web-view-controller/src/main/java/com/example/utils/ExcelUtils.java:199-203 | the creates run up to the first row whose conversion fails |
| ExcelUtils.CreatablePrefixEnds | web-view-controller/src/main/java/com/example/utils/ExcelUtils.java:199-203 | that point is unique |
| ExcelUtils.CreatedPriceListHolds | web-view-controller/src/main/java/com/example/utils/ExcelUtils.java:199-203 | a created list carries its store's name and its price truncated to scale 2 |
| ExcelUtils.CreatePriceLists | web-view-controller/src/main/java/com/example/utils/ExcelUtils.java:141-204 | a sheet error creates nothing; otherwise the rows before the first failing one are created, in order, and that failure is the result |
| ExcelUtils.CreateEachPriceList | web-view-controller/src/main/java/com/example/utils/ExcelUtils.java:199-203 | the create loop saves the creatable prefix and stops at the first failure |
| ExcelUtils.CreateOnePriceList | web-view-controller/src/main/java/com/example/utils/ExcelUtils.java:201 | one `create` call saves one list or fails with nothing saved |
| ExcelUtils.CreatedOrRefused | web-view-controller/src/main/java/com/example/utils/ExcelUtils.java:201 | an imported row converts iff it has a product and a current price; otherwise the error is the missing product's IllegalArgument, then NullPointer |
| ExcelUtils.SavedConverts | web-view-controller/src/main/java/com/example/utils/ExcelUtils.java:201 | the saved list converts back to the DTO the import returns |
| ExcelUtils.PriceCell | web-view-controller/src/main/java/com/example/utils/ExcelUtils.java:221-252 | columns 0 to 2 set price list, price and date; column 3 or later is NotOwnedData |
| ExcelUtils.PriceRowRead | web-view-controller/src/main/java/com/example/utils/ExcelUtils.java:218-253 | a price row reads iff every non-blank cell fits, and the DTO holds each column's value |
| ExcelUtils.PriceRowHolds | web-view-controller/src/main/java/com/example/utils/ExcelUtils.java:218-253 | the DTO read from a row holds each column's value |
| ExcelUtils.PriceColumnRead | web-view-controller/src/main/java/com/example/utils/ExcelUtils.java:218-253 | reading one more column keeps that correspondence |
| ExcelUtils.ParsePrices | web-view-controller/src/main/java/com/example/utils/ExcelUtils.java:206-257 | every kept price row has a valid price list and no id |
| ExcelUtils.CreatePrices | web-view-controller/src/main/java/com/example/utils/ExcelUtils.java:206-263 | a sheet error creates nothing; otherwise every kept row is created, in order |
| ExcelUtils.CreateEachPrice | web-view-controller/src/main/java/com/example/utils/ExcelUtils.java:258-262 | the create loop saves one price per kept row, in order |
| PriceController.RederiveOne | web-view-controller/src/main/java/com/example/controllers/PriceController.java:50 | re-deriving succeeds iff `updateCurrentPriceByPriceListId` would; it changes only that list's current price, which then equals `findLastPrice` of its history |
| PriceController.RederiveOneKeeps | web-view-controller/src/main/java/com/example/controllers/PriceController.java:50 | re-deriving one list keeps every other list's price derived |
| PriceController.RederiveAll | web-view-controller/src/main/java/com/example/controllers/PriceController.java:67-69 | the loop makes at most one call per id, all of them when none fails, and changes only price lists |
| PriceController.RederiveAllNext | web-view-controller/src/main/java/com/example/controllers/PriceController.java:67-69 | one more loop step re-derives the next id, or stops with its error |
| PriceController.RederiveAllStops | web-view-controller/src/main/java/com/example/controllers/PriceController.java:67-69 | after the first failure no later id is re-derived |
| PriceController.RederiveAllDerives | web-view-controller/src/main/java/com/example/controllers/PriceController.java:67-69 | when the loop completes, every listed price list exists and has a derived current price |
| PriceController.HistoryIdsAppend | web-view-controller/src/main/java/com/example/controllers/PriceController.java:49 | a price saved under a fresh key joins the end of its list's history ids |
| PriceController.HistoryAppend | web-view-controller/src/main/java/com/example/controllers/PriceController.java:49 | and the end of its list's history |
| PriceController.HistoryRemoveOnly | web-view-controller/src/main/java/com/example/controllers/PriceController.java:115 | deleting a list's only price leaves its history empty |
| PriceController.Create | web-view-controller/src/main/java/com/example/controllers/PriceController.java:48-52 | saves the price, then re-derives its list exactly once; a null list id is NullPointer after the save |
| PriceController.CreatedPriceRederives | web-view-controller/src/main/java/com/example/controllers/PriceController.java:48-52 | after a new price, the list's current price is the new one if strictly later, and otherwise unchanged |
| PriceController.Update | web-view-controller/src/main/java/com/example/controllers/PriceController.java:99-104 | updates the price, then re-derives the list named in the result exactly once |
| PriceController.Delete | web-view-controller/src/main/java/com/example/controllers/PriceController.java:113-117 | reads the list before deleting the price, then re-derives that list exactly once |
| PriceController.DeleteOnlyPriceThrows | web-view-controller/src/main/java/com/example/controllers/PriceController.java:113-117 | deleting a list's only price is IndexOutOfBounds, after the delete |
| PriceController.UploadRead | web-view-controller/src/main/java/com/example/controllers/PriceController.java:62-63 | the upload reads the file and parses the price rows, or fails with no write |
| PriceController.ListIds | web-view-controller/src/main/java/com/example/controllers/PriceController.java:67-68 | the loop visits the price-list ids of the DTOs, in order |
| PriceController.UploadedListsOnce | web-view-controller/src/main/java/com/example/controllers/PriceController.java:64-66 | the deduplicated list ids are distinct and are exactly the ids of the created prices |
| PriceController.Upload | web-view-controller/src/main/java/com/example/controllers/PriceController.java:61-71 | creates every row, re-derives once per distinct list in order of first appearance, and returns every created price |
| PriceController.RederiveLists | web-view-controller/src/main/java/com/example/controllers/PriceController.java:67-69 | the loop method computes `RederiveAll` and logs exactly the calls it made |
| ProductController.NameSort | web-view-controller/src/main/java/com/example/controllers/ProductController.java:70-78 | a null or empty direction is ascending; a bad one is BadRequest; the sort is on "name" |
| ProductController.NameSortAsForUsers | web-view-controller/src/main/java/com/example/controllers/ProductController.java:70-78 | the product search reads its direction exactly as the user listing does |
| ProductController.FindProducts | web-view-controller/src/main/java/com/example/controllers/ProductController.java:64-97 | a bad direction or both names given (even empty) is BadRequest; every result is sorted on "name" |
| ProductController.FindProductsRefuses | web-view-controller/src/main/java/com/example/controllers/ProductController.java:70-83 | the search is refused exactly for a bad direction or for both names given |
| ProductController.FindProductsReturns | web-view-controller/src/main/java/com/example/controllers/ProductController.java:84-96 | a non-empty category name selects the category search, then a non-empty subcategory name the subcategory search, else the keyword search, with the products each returns |
| PriceListController.Windowed | business-logic/src/main/java/com/example/service/PriceListService.java:142-152 | each list in order with its history windowed |
| PriceListController.ProductBranch | web-view-controller/src/main/java/com/example/controllers/PriceListController.java:76-93 | no stores: the product finders; stores: the product-and-store finders; no dates: the comparison, otherwise the dynamics; exactly one missing date without stores is NullPointer |
| PriceListController.SelectAsWritten | web-view-controller/src/main/java/com/example/controllers/PriceListController.java:75-97 | the guard as written: a null product list is NullPointer, any other takes the product branch |
| PriceListController.Select | web-view-controller/src/main/java/com/example/controllers/PriceListController.java:75-97 | the intended guard: no product ids means every list; the product branch otherwise |
| PriceListController.FindForProducts | web-view-controller/src/main/java/com/example/controllers/PriceListController.java:76-93 | the handler's nested dispatch computes `ProductBranch` |
| PriceListController.FindPriceListsAsWritten | web-view-controller/src/main/java/com/example/controllers/PriceListController.java:69-99 | the handler as written converts the lists `SelectAsWritten` picks |
| PriceListController.FindPriceLists | web-view-controller/src/main/java/com/example/controllers/PriceListController.java:69-99 | the corrected handler converts the lists `Select` picks, one DTO per list in order |
| PriceListController.AsWrittenMissesFindAll | web-view-controller/src/main/java/com/example/controllers/PriceListController.java:75 | with an empty product list the handler as written returns nothing, while the intended guard returns every stored list |
| PriceListController.ByProductsAndStoresMember | business-logic/src/main/java/com/example/repository/IPriceListRepository.java:20-24 | a list returned by the product-and-store query is stored and of those products and stores |
| PriceListController.SelectReturnsRequested | web-view-controller/src/main/java/com/example/controllers/PriceListController.java:75-98 | every list selected is stored, of a requested product and store, and windowed when dates are given |
| PriceListController.SelectFindsEveryProductList | web-view-controller/src/main/java/com/example/controllers/PriceListController.java:77-81 | without stores or dates every stored list of a requested product is returned |

## Left out

- Cascade, orphan removal, lazy loading and transaction boundaries are JPA mechanics. The model has
  no rollback: a write before a later exception stays, as in `PriceController.Create` and
  `ExcelUtils.CreatePriceLists`.
- `nullable = false` column constraints are not enforced. Entity fields the code may leave null are
  `Option`s.
- The `unique = true` name columns of categories and subcategories are not enforced. Saving a
  second category or subcategory under a name already stored fails in the database; in
  `CategoryService.Create`, `CategoryService.Update`, `SubcategoryService.Create` and
  `SubcategoryService.Update` it succeeds and writes the row.
- Repository finders that return `Optional<List>` always return a list here. The NotFound branches
  of the service finders behind them cannot be reached and are not modelled.
- The `Sort` of a query is carried in the query descriptor. The database ordering by name or city
  is not applied: the results are in ascending id order.
- Apache POI workbook reading and the `MultipartFile` stream are I/O. The workbook is a parameter,
  and an unreadable file is a missing workbook.
- Spreadsheet numbers are `Money.Decimal`, not `double`. The conversion of dates from the Excel
  epoch is a truncation to a day number; `BigDecimal.valueOf(double)` is the decimal itself.
- The `catch (NumberFormatException)` around the current-price and price cells is unreachable with
  typed cells.
- `toUpperCase` covers ASCII and basic Cyrillic letters, not every locale rule.
- Logging, Spring Security, the principal and the JWT plumbing are left out. The user's name is a
  parameter, and a null principal is not modelled.
- The `findAll` and `listConverterToDTO` of categories, products and users are not modelled. They
  are the same load-and-convert shape already modelled for price lists, prices and stores.
- The thin handlers of the category, subcategory, store and user controllers are not modelled.
- The column constraints and JPA mappings of the `User`, `Store` and `Price` entities are not
  modelled. Their rows hold the fields the services read and write.
- ProductService.FindProductsByKeyword: its contract only carries the sort. What it returns is
  stated by `ProductService.KeywordFinderReturns` over the query it builds.
- ProductService.FindProductsByCategoryAndByKeyword: as above, stated by
  `ProductService.CategoryFinderReturns`.
- ProductService.FindProductsBySubcategoryAndByKeyword: as above, stated by
  `ProductService.SubcategoryFinderReturns`.
- PriceListService.FindForComparisonByProductsAndStores: its contract states containment in the
  product-only result. Its exact members are stated by `PriceListController.SelectReturnsRequested`
  and `PriceListQueries.ByProductsAndStoresIds`.

## Findings

| source | as written | input that shows it | evidently intended | confidence | as-written member | corrected member |
|---|---|---|---|---|---|---|
| web-view-controller/src/main/java/com/example/controllers/PriceListController.java:75 | `productsId != null \|\| productsId.isEmpty()` selects the product branch for every non-null list, and dereferences a null one | `productsId = []` with no stores and no dates, on tables holding a price list: the handler returns no lists instead of all of them; `productsId = null` throws NullPointer | `productsId != null && !productsId.isEmpty()`, so that no product ids means every price list | not executed | PriceListController.AsWrittenMissesFindAll | PriceListController.SelectReturnsRequested |
