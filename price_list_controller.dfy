/**
 * `PriceListController.findPriceLists`: the optional product ids, store ids and date window pick
 * one of the `PriceListService` finders, and the lists found are converted to DTOs.
 *
 * The guard on the product ids is written `productsId != null || productsId.isEmpty()`: any
 * non-null list, even an empty one, takes the product branch, and a null one is dereferenced and
 * throws, so the `findAll` branch can never run. `SelectAsWritten` models that guard and
 * `Select` the intended `productsId != null && !productsId.isEmpty()`, which the handler uses.
 */
module PriceListController {
  import opened Wrappers
  import opened Entities
  import opened Database
  import opened PriceQueries
  import opened PriceListQueries
  import opened PriceListService

  /** `ids == null || ids.isEmpty()`. */
  predicate Blank(ids: Option<seq<int>>)
  {
    ids.None? || ids.value == []
  }

  /** The lists, in order, each with its history replaced by its prices in the date window. */
  function Windowed(t: Tables, lists: seq<PriceList>, start: Option<int>, end: Option<int>): (r: seq<PriceList>)
    ensures |r| == |lists|
    ensures forall i :: 0 <= i < |lists| ==> r[i] == lists[i].(priceHistoryList := WindowOf(t, lists[i].id, start, end))
  {
    seq(|lists|, i requires 0 <= i < |lists| => lists[i].(priceHistoryList := WindowOf(t, lists[i].id, start, end)))
  }

  /**
   * The branch taken for product ids: without store ids the product finders, with them the
   * product-and-store finders; with no date at all the lists as stored, otherwise their dynamics
   * over the window. Only the product-only dynamics finder dereferences the dates, so there a
   * single missing date throws.
   */
  function ProductBranch(t: Tables, productsId: seq<int>, storesId: Option<seq<int>>,
                         start: Option<int>, end: Option<int>): (r: Result<seq<PriceList>>)
    ensures r.Err? <==> Blank(storesId) && (start.None? != end.None?)
    ensures r.Err? ==> r.error == NullPointer
  {
    if Blank(storesId) then
      if start.None? && end.None? then Ok(FindForComparisonByProducts(t, productsId))
      else if start.None? || end.None? then Err(NullPointer)
      else Ok(Windowed(t, ByProducts(t, productsId), start, end))
    else if start.None? && end.None? then Ok(FindForComparisonByProductsAndStores(t, productsId, storesId.value))
    else Ok(Windowed(t, ByProductsAndStores(t, productsId, storesId.value), start, end))
  }

  /** The lists chosen by the guard as written: a null product list throws, any other takes the product branch. */
  function SelectAsWritten(t: Tables, productsId: Option<seq<int>>, storesId: Option<seq<int>>,
                           start: Option<int>, end: Option<int>): (r: Result<seq<PriceList>>)
    ensures productsId.None? ==> r == Err(NullPointer)
    ensures r.Err? <==> productsId.None? || (Blank(storesId) && (start.None? != end.None?))
  {
    if productsId.None? then Err(NullPointer) else ProductBranch(t, productsId.value, storesId, start, end)
  }

  /** The lists chosen by the intended guard: no product ids (null or empty) means every list. */
  function Select(t: Tables, productsId: Option<seq<int>>, storesId: Option<seq<int>>,
                  start: Option<int>, end: Option<int>): (r: Result<seq<PriceList>>)
    ensures Blank(productsId) ==> r == Ok(FindAll(t))
    ensures r.Err? <==> !Blank(productsId) && Blank(storesId) && (start.None? != end.None?)
    ensures r.Err? ==> r.error == NullPointer
  {
    if Blank(productsId) then Ok(FindAll(t)) else ProductBranch(t, productsId.value, storesId, start, end)
  }

  /** The chosen lists converted one by one; a selection that throws is the response's error. */
  function Respond(t: Tables, selected: Result<seq<PriceList>>): Result<seq<PriceListDTO>>
  {
    match selected
    case Err(e) => Err(e)
    case Ok(lists) => ConvertAllToDTO(t, lists)
  }

  /** The nested dispatch of the handler, calling the service's finders, for a non-null product list. */
  method FindForProducts(t: Tables, productsId: seq<int>, storesId: Option<seq<int>>,
                         start: Option<int>, end: Option<int>) returns (r: Result<seq<PriceList>>)
    ensures r == ProductBranch(t, productsId, storesId, start, end)
  {
    if storesId.None? || storesId.value == [] {
      if start.None? && end.None? {
        r := Ok(FindForComparisonByProducts(t, productsId));
      } else {
        r := FindDynamicsByProducts(t, productsId, start, end);
        if r.Ok? {
          assert r.value == Windowed(t, ByProducts(t, productsId), start, end);
        }
      }
    } else {
      if start.None? && end.None? {
        r := Ok(FindForComparisonByProductsAndStores(t, productsId, storesId.value));
      } else {
        var lists := FindDynamicsByProductsAndStores(t, productsId, storesId.value, start, end);
        assert lists == Windowed(t, ByProductsAndStores(t, productsId, storesId.value), start, end);
        r := Ok(lists);
      }
    }
  }

  /** `findPriceLists` as written. */
  method FindPriceListsAsWritten(t: Tables, productsId: Option<seq<int>>, storesId: Option<seq<int>>,
                                 start: Option<int>, end: Option<int>) returns (r: Result<seq<PriceListDTO>>)
    ensures r == Respond(t, SelectAsWritten(t, productsId, storesId, start, end))
  {
    if productsId.None? {
      return Err(NullPointer);
    }
    var lists := FindForProducts(t, productsId.value, storesId, start, end);
    if lists.Err? {
      return Err(lists.error);
    }
    r := ConvertAllToDTO(t, lists.value);
  }

  /** `findPriceLists` with the intended guard: without product ids, every list. */
  method FindPriceLists(t: Tables, productsId: Option<seq<int>>, storesId: Option<seq<int>>,
                        start: Option<int>, end: Option<int>) returns (r: Result<seq<PriceListDTO>>)
    ensures r == Respond(t, Select(t, productsId, storesId, start, end))
  {
    var lists: Result<seq<PriceList>>;
    if productsId.Some? && productsId.value != [] {
      lists := FindForProducts(t, productsId.value, storesId, start, end);
    } else {
      lists := Ok(FindAll(t));
    }
    if lists.Err? {
      return Err(lists.error);
    }
    r := ConvertAllToDTO(t, lists.value);
  }

  /**
   * The guard as written never lists every price list: an empty product list selects the lists of
   * no product, while the intended guard returns all stored lists, of which there is one at least.
   */
  lemma AsWrittenMissesFindAll(t: Tables, storesId: Option<seq<int>>)
    requires Blank(storesId) && t.priceLists != map[]
    ensures SelectAsWritten(t, Some([]), storesId, None, None) == Ok([])
    ensures Select(t, Some([]), storesId, None, None) == Ok(FindAll(t)) && FindAll(t) != []
  {
    var none := FindForComparisonByProducts(t, []);
    EmptyOrFirst(none);
    var k :| k in t.priceLists;
    assert LoadPriceList(t, k) in FindAll(t);
  }

  /** A list loaded from the product-and-store query is stored and belongs to one of those stores. */
  lemma ByProductsAndStoresMember(t: Tables, productsId: seq<int>, storesId: seq<int>, pl: PriceList)
    requires pl in ByProductsAndStores(t, productsId, storesId)
    ensures pl.id.Some? && pl.id.value in t.priceLists && pl == LoadPriceList(t, pl.id.value)
    ensures t.priceLists[pl.id.value].productId in productsId && t.priceLists[pl.id.value].storeId in storesId
  {
    var ids := ByProductsAndStoresIds(t, productsId, storesId);
    var i :| 0 <= i < |ids| && ByProductsAndStores(t, productsId, storesId)[i] == pl;
    assert ids[i] in ids;
  }

  /** The stored list a returned list came from: the same list, with its history replaced if windowed. */
  predicate FromStore(t: Tables, pl: PriceList, start: Option<int>, end: Option<int>)
  {
    pl.id.Some? && pl.id.value in t.priceLists
    && (if start.None? && end.None? then pl == LoadPriceList(t, pl.id.value)
        else pl == LoadPriceList(t, pl.id.value).(priceHistoryList := Window(t, pl.id.value, start, end)))
  }

  /**
   * Every list the intended handler selects is a stored list (windowed when a date is given) of
   * one of the requested products, and of one of the requested stores when stores are given;
   * without product ids the selection is every stored list as it is.
   */
  lemma SelectReturnsRequested(t: Tables, productsId: Option<seq<int>>, storesId: Option<seq<int>>,
                               start: Option<int>, end: Option<int>, pl: PriceList)
    requires Select(t, productsId, storesId, start, end).Ok?
    requires pl in Select(t, productsId, storesId, start, end).value
    ensures Blank(productsId) ==> FromStore(t, pl, None, None)
    ensures !Blank(productsId) ==>
      FromStore(t, pl, start, end) && t.priceLists[pl.id.value].productId in productsId.value
    ensures !Blank(productsId) && !Blank(storesId) ==> t.priceLists[pl.id.value].storeId in storesId.value
  {
    var r := Select(t, productsId, storesId, start, end).value;
    if !Blank(productsId) {
      var ps := productsId.value;
      if start.None? && end.None? {
        if Blank(storesId) {
          assert pl in FindForComparisonByProducts(t, ps);
        } else {
          assert pl in ByProductsAndStores(t, ps, storesId.value);
          ByProductsAndStoresMember(t, ps, storesId.value, pl);
        }
      } else {
        var i :| 0 <= i < |r| && r[i] == pl;
        if Blank(storesId) {
          var lists := ByProducts(t, ps);
          assert lists[i] in lists;
          ByProductsMembers(t, ps, lists[i]);
        } else {
          var lists := ByProductsAndStores(t, ps, storesId.value);
          assert lists[i] in lists;
          ByProductsAndStoresMember(t, ps, storesId.value, lists[i]);
        }
      }
    }
  }

  /**
   * Without stores or dates the intended handler returns every stored list of the requested
   * products, as stored.
   */
  lemma SelectFindsEveryProductList(t: Tables, productsId: seq<int>, storesId: Option<seq<int>>, k: int)
    requires productsId != [] && Blank(storesId)
    requires k in t.priceLists && t.priceLists[k].productId in productsId
    ensures Select(t, Some(productsId), storesId, None, None) == Ok(FindForComparisonByProducts(t, productsId))
    ensures LoadPriceList(t, k) in Select(t, Some(productsId), storesId, None, None).value
  {
  }
}
