/**
 * The shop's entities, the rows their tables store, and the DTOs the REST layer exchanges.
 *
 * A stored row holds the entity's own columns and its foreign keys (by id). A one-to-many list
 * declared `mappedBy` on the other side is not a column: it is the set of rows that point back,
 * and it is rebuilt when the entity is loaded (see module Database).
 */
module Entities {
  import opened Wrappers
  import opened Money

  /** Units of measure, with their Java enum names. */
  datatype Unit = MILLILITER | LITRE | GRAM | KILOGRAM | PIECE

  /** `Unit.toString()`: the constant's name. */
  function UnitName(u: Unit): string
  {
    match u
    case MILLILITER => "MILLILITER"
    case LITRE => "LITRE"
    case GRAM => "GRAM"
    case KILOGRAM => "KILOGRAM"
    case PIECE => "PIECE"
  }

  /** `Unit.values()`, in declaration order. */
  const Units: seq<Unit> := [MILLILITER, LITRE, GRAM, KILOGRAM, PIECE]

  /**
   * A Java reference to another entity: `null`, or an object whose id may not be assigned yet
   * (a new object built from a DTO carrying a null id).
   */
  datatype Ref = Null | To(id: Option<int>)

  // ---- Stored rows ----

  datatype CategoryRow = CategoryRow(name: string)
  datatype SubcategoryRow = SubcategoryRow(name: string, category: Ref)
  datatype ProductRow = ProductRow(subcategoryId: int, name: Option<string>, brand: Option<string>,
                                   quantity: Option<int>, unit: Option<Unit>, manufacturer: Option<string>)
  datatype StoreRow = StoreRow(name: string, city: string)
  datatype PriceListRow = PriceListRow(storeId: int, productId: int, currentPrice: Option<Decimal>)
  datatype PriceRow = PriceRow(price: Option<Decimal>, date: Option<int>, priceList: Ref)
  datatype UserRow = UserRow(username: Option<string>, name: string, surname: string, address: string,
                             email: string, roles: set<string>)

  // ---- Entities in memory ----

  datatype Category = Category(id: Option<int>, name: string, subcategoryList: seq<Subcategory>)

  /** `productList` holds the ids of the listed products; `None` is a null list. */
  datatype Subcategory = Subcategory(id: Option<int>, name: string, category: Ref,
                                     productList: Option<seq<int>>)

  /** `priceList` holds the ids of the product's price lists; `None` is a null list. */
  datatype Product = Product(id: Option<int>, subcategoryId: int, name: Option<string>,
                             brand: Option<string>, quantity: Option<int>, unit: Option<Unit>,
                             manufacturer: Option<string>, priceList: Option<seq<int>>)

  datatype Store = Store(id: Option<int>, name: string, city: string)

  /** A store's price for one product: the current price and the dated history behind it. */
  datatype PriceList = PriceList(id: Option<int>, storeId: int, productId: int,
                                 currentPrice: Option<Decimal>, priceHistoryList: seq<Price>)

  /** One dated price; `priceList` is the back-pointer to the owning list. */
  datatype Price = Price(id: Option<int>, price: Option<Decimal>, date: Option<int>, priceList: Ref)

  /** `username` is null on a user built from a DTO, whose constructor sets only the four profile fields. */
  datatype User = User(id: Option<int>, username: Option<string>, name: string, surname: string,
                       address: string, email: string, roles: set<string>)

  // ---- DTOs ----

  datatype PriceDTO = PriceDTO(id: Option<int>, price: Option<Decimal>, date: Option<int>,
                               priceListId: Option<int>)

  datatype PriceListDTO = PriceListDTO(id: Option<int>, storeId: Option<int>, storeName: Option<string>,
                                       productId: Option<int>, currentPrice: Option<Decimal>,
                                       priceHistoryList: Option<seq<PriceDTO>>)

  datatype ProductDTO = ProductDTO(id: Option<int>, subcategoryId: Option<int>, name: Option<string>,
                                   brand: Option<string>, quantity: Option<int>, unit: Option<Unit>,
                                   manufacturer: Option<string>, priceListsId: Option<seq<int>>)

  datatype SubcategoryDTO = SubcategoryDTO(id: Option<int>, name: string, categoryId: Option<int>,
                                           productsId: Option<seq<int>>)

  datatype CategoryDTO = CategoryDTO(id: Option<int>, name: string,
                                     subcategoryList: Option<seq<SubcategoryDTO>>)

  datatype UserDTO = UserDTO(name: string, surname: string, address: string, email: string)

  /** A DTO as deserialised with every field absent. */
  const EmptyPriceDTO := PriceDTO(None, None, None, None)
  const EmptyProductDTO := ProductDTO(None, None, None, None, None, None, None, None)
  /** `new PriceListDTO()` starts with an empty, non-null history. */
  const EmptyPriceListDTO := PriceListDTO(None, None, None, None, None, Some([]))
}
