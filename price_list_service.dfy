/**
 * `PriceListService`: a store's price for a product, whose current price is derived from its dated
 * history by `findLastPrice`.
 */
module PriceListService {
  import opened Wrappers
  import opened Money
  import opened Entities
  import opened Database
  import opened PriceQueries
  import opened PriceListQueries
  import PriceService

  // ---- findLastPrice ----

  /**
   * The loop of `findLastPrice` replaces its running result at index `i` exactly when the date
   * there is strictly later than every earlier date (index 0 sets the starting value).
   */
  predicate IsRecord(ps: seq<Price>, i: int)
    requires 0 <= i < |ps|
  {
    forall j :: 0 <= j < i ==> ps[j].date.Some? && ps[i].date.Some? && ps[j].date.value < ps[i].date.value
  }

  /** Every price the loop takes as its result has a price to truncate. */
  predicate RecordPricesPresent(ps: seq<Price>)
  {
    forall i :: 0 <= i < |ps| && IsRecord(ps, i) ==> ps[i].price.Some?
  }

  /** The index of the first price carrying the latest date. */
  function FirstLatest(ps: seq<Price>): (k: nat)
    requires |ps| > 0 && Dated(ps)
    ensures k < |ps|
    ensures forall j :: 0 <= j < |ps| ==> ps[j].date.value <= ps[k].date.value
    ensures forall j :: 0 <= j < k ==> ps[j].date.value < ps[k].date.value
    decreases |ps|
  {
    if |ps| == 1 then 0
    else
      var init := ps[..|ps| - 1];
      assert forall j :: 0 <= j < |init| ==> init[j] == ps[j];
      var m := FirstLatest(init);
      if ps[|ps| - 1].date.value > ps[m].date.value then |ps| - 1 else m
  }

  /** The two properties of `FirstLatest` single out one index. */
  lemma FirstLatestUnique(ps: seq<Price>, k: int)
    requires |ps| > 0 && Dated(ps) && 0 <= k < |ps|
    requires forall j :: 0 <= j < |ps| ==> ps[j].date.value <= ps[k].date.value
    requires forall j :: 0 <= j < k ==> ps[j].date.value < ps[k].date.value
    ensures k == FirstLatest(ps)
  {
    var f := FirstLatest(ps);
    assert ps[f].date.value <= ps[k].date.value && ps[k].date.value <= ps[f].date.value;
  }

  /**
   * `findLastPrice(prices)`: the price, truncated to 2 decimals, of the first entry with the latest
   * date. An empty list throws IndexOutOfBoundsException at `get(0)`; a missing date, or a missing
   * price where the loop takes one, throws NullPointerException.
   */
  function LastPrice(ps: seq<Price>): (r: Result<Decimal>)
    ensures r == Err(IndexOutOfBounds) <==> |ps| == 0
    ensures r.Ok? <==> |ps| > 0 && Dated(ps) && RecordPricesPresent(ps)
    ensures r.Err? && |ps| > 0 ==> r.error == NullPointer
    ensures r.Ok? ==> exists k :: (0 <= k < |ps| && ps[k].price.Some? && r.value == SetScale2Down(ps[k].price.value)
                                   && (forall j :: 0 <= j < |ps| ==> ps[j].date.value <= ps[k].date.value)
                                   && (forall j :: 0 <= j < k ==> ps[j].date.value < ps[k].date.value))
  {
    if |ps| == 0 then Err(IndexOutOfBounds)
    else if !Dated(ps) || !RecordPricesPresent(ps) then Err(NullPointer)
    else
      var k := FirstLatest(ps);
      assert IsRecord(ps, k);
      Ok(SetScale2Down(ps[k].price.value))
  }

  /** The result has two decimals. */
  lemma LastPriceScale(ps: seq<Price>)
    requires LastPrice(ps).Ok?
    ensures LastPrice(ps).value.scale == 2
  {
  }

  /** A later entry with the same latest date never replaces the first one, whatever its price. */
  lemma LastPriceTieKeepsFirst(ps: seq<Price>, q: Price)
    requires LastPrice(ps).Ok?
    requires q.date.Some? && q.date.value <= ps[FirstLatest(ps)].date.value
    ensures LastPrice(ps + [q]) == LastPrice(ps)
  {
    var qs := ps + [q];
    assert qs[..|qs| - 1] == ps;
    assert Dated(qs);
    assert !IsRecord(qs, |qs| - 1) by {
      assert qs[FirstLatest(ps)] == ps[FirstLatest(ps)];
    }
    assert RecordPricesPresent(qs) by {
      forall i | 0 <= i < |qs| && IsRecord(qs, i)
        ensures qs[i].price.Some?
      {
        assert i < |ps| && IsRecord(ps, i);
      }
    }
  }

  /** An entry dated strictly later than all others becomes the result. */
  lemma LastPriceLaterWins(ps: seq<Price>, q: Price)
    requires LastPrice(ps).Ok?
    requires q.date.Some? && q.date.value > ps[FirstLatest(ps)].date.value && q.price.Some?
    ensures LastPrice(ps + [q]) == Ok(SetScale2Down(q.price.value))
  {
    var qs := ps + [q];
    assert qs[..|qs| - 1] == ps;
    assert Dated(qs);
    assert RecordPricesPresent(qs) by {
      forall i | 0 <= i < |qs| && IsRecord(qs, i)
        ensures qs[i].price.Some?
      {
        if i < |ps| {
          assert IsRecord(ps, i);
        }
      }
    }
  }

  /** Whether an index is a record depends only on the entries up to it. */
  lemma RecordPrefix(ps: seq<Price>, n: int, j: int)
    requires 0 <= j < n <= |ps|
    ensures IsRecord(ps[..n], j) == IsRecord(ps, j)
  {
    var q := ps[..n];
    assert q[j] == ps[j];
    if IsRecord(ps, j) {
      forall x | 0 <= x < j
        ensures q[x].date.Some? && q[j].date.Some? && q[x].date.value < q[j].date.value
      {
        assert q[x] == ps[x];
      }
      assert IsRecord(q, j);
    }
    if IsRecord(q, j) {
      forall x | 0 <= x < j
        ensures ps[x].date.Some? && ps[j].date.Some? && ps[x].date.value < ps[j].date.value
      {
        assert q[x] == ps[x];
      }
      assert IsRecord(ps, j);
    }
  }

  /**
   * One step of the `findLastPrice` loop: with `m` the first latest entry before `i`, entry `i`
   * is a record exactly when it is strictly later than entry `m`, and then it becomes the first
   * latest entry.
   */
  lemma LoopStep(ps: seq<Price>, i: int, m: int)
    requires 0 <= i < |ps| && 0 <= m < |ps| && (m < i || m == 0)
    requires ps[i].date.Some? && ps[m].date.Some?
    requires i > 0 ==> Dated(ps[..i]) && RecordPricesPresent(ps[..i]) && m == FirstLatest(ps[..i])
    ensures Dated(ps[..i + 1])
    ensures IsRecord(ps, i) <==> (i == 0 || ps[i].date.value > ps[m].date.value)
    ensures FirstLatest(ps[..i + 1]) == if ps[i].date.value > ps[m].date.value then i else m
    ensures RecordPricesPresent(ps[..i + 1]) <==> (IsRecord(ps, i) ==> ps[i].price.Some?)
  {
    var next := ps[..i + 1];
    assert next[..i] == ps[..i];
    assert forall j :: 0 <= j <= i ==> next[j] == ps[j];
    RecordPrefix(ps, i + 1, i);
    if i > 0 && !(ps[i].date.value > ps[m].date.value) {
      assert ps[..i][m] == ps[m];
    }
    forall j | 0 <= j < i
      ensures IsRecord(next, j) == IsRecord(ps[..i], j)
    {
      RecordPrefix(ps, i + 1, j);
      RecordPrefix(ps, i, j);
    }
  }

  /** `findLastPrice`: the loop over the list, keeping the running latest date and its price. */
  method FindLastPrice(ps: seq<Price>) returns (r: Result<Decimal>)
    ensures r == LastPrice(ps)
  {
    if |ps| == 0 {
      return Err(IndexOutOfBounds);
    }
    var lastDate := ps[0].date;
    if ps[0].price.None? {
      assert Dated(ps) ==> IsRecord(ps, 0);
      return Err(NullPointer);
    }
    var lastPrice := SetScale2Down(ps[0].price.value);
    ghost var m := 0;
    var i := 0;
    while i < |ps|
      invariant 0 <= i <= |ps| && 0 <= m < |ps| && (m < i || m == 0)
      invariant lastDate == ps[m].date && ps[m].price.Some? && lastPrice == SetScale2Down(ps[m].price.value)
      invariant i > 0 ==> Dated(ps[..i]) && RecordPricesPresent(ps[..i]) && m == FirstLatest(ps[..i])
    {
      if ps[i].date.None? {
        assert !Dated(ps);
        return Err(NullPointer);
      }
      LoopStep(ps, i, m);
      if ps[i].date.value > lastDate.value {
        if ps[i].price.None? {
          assert !RecordPricesPresent(ps);
          return Err(NullPointer);
        }
        lastDate := ps[i].date;
        lastPrice := SetScale2Down(ps[i].price.value);
        m := i;
      }
      i := i + 1;
    }
    assert ps[..i] == ps;
    r := Ok(lastPrice);
  }

  // ---- Converters ----

  /** The row `save` stores for a price list; its history lives in the price table. */
  function RowOf(pl: PriceList): PriceListRow
  {
    PriceListRow(pl.storeId, pl.productId, pl.currentPrice)
  }

  /**
   * `convertToDTO`: id, store id and name, product id and current price are copied and each
   * history price becomes a price DTO. A list whose store row is missing is a null store, so
   * `getStore().getName()` throws; so does a history price without a list.
   */
  function ConvertToDTO(t: Tables, pl: PriceList): (r: Result<PriceListDTO>)
    ensures r.Ok? <==> pl.storeId in t.stores && PriceService.ConvertAllToDTO(pl.priceHistoryList).Ok?
    ensures r.Err? ==> r.error == NullPointer
    ensures r.Ok? ==> (r.value.id == pl.id && r.value.storeId == Some(pl.storeId)
                       && r.value.storeName == Some(t.stores[pl.storeId].name) && r.value.productId == Some(pl.productId)
                       && r.value.currentPrice == pl.currentPrice)
    ensures r.Ok? ==> (r.value.priceHistoryList.Some? && |r.value.priceHistoryList.value| == |pl.priceHistoryList|
                       && forall i :: 0 <= i < |pl.priceHistoryList| ==>
                            Ok(r.value.priceHistoryList.value[i]) == PriceService.ConvertToDTO(pl.priceHistoryList[i]))
  {
    if pl.storeId !in t.stores then Err(NullPointer)
    else
      var history :- PriceService.ConvertAllToDTO(pl.priceHistoryList);
      Ok(PriceListDTO(pl.id, Some(pl.storeId), Some(t.stores[pl.storeId].name), Some(pl.productId),
                      pl.currentPrice, Some(history)))
  }

  /** `listConverterToDTO`: one DTO per list, in order; the first failure is thrown. */
  function ConvertAllToDTO(t: Tables, pls: seq<PriceList>): (r: Result<seq<PriceListDTO>>)
    ensures r.Ok? <==> forall i :: 0 <= i < |pls| ==> ConvertToDTO(t, pls[i]).Ok?
    ensures r.Ok? ==> |r.value| == |pls| && forall i :: 0 <= i < |pls| ==> Ok(r.value[i]) == ConvertToDTO(t, pls[i])
  {
    if pls == [] then Ok([])
    else
      match ConvertToDTO(t, pls[0])
      case Err(e) => Err(e)
      case Ok(d) =>
        match ConvertAllToDTO(t, pls[1..])
        case Err(e) => Err(e)
        case Ok(ds) =>
          assert forall i :: 1 <= i < |pls| ==> pls[i] == pls[1..][i - 1];
          Ok([d] + ds)
  }

  /**
   * The history entries of `convertFromDTO`: each DTO converted in turn, then owned by the new
   * list; the first entry that fails to convert decides the error.
   */
  function ConvertPrices(t: Tables, ds: seq<PriceDTO>, owner: Ref): (r: Result<seq<Price>>)
    ensures r.Ok? <==> forall i :: 0 <= i < |ds| ==> PriceService.ConvertFromDTO(t, ds[i]).Ok?
    ensures r.Ok? ==> |r.value| == |ds| && forall i :: 0 <= i < |ds| ==>
      r.value[i] == PriceService.ConvertFromDTO(t, ds[i]).value.(priceList := owner)
    decreases |ds|
  {
    if ds == [] then Ok([])
    else
      var init := ds[..|ds| - 1];
      assert forall i :: 0 <= i < |init| ==> init[i] == ds[i];
      var ps :- ConvertPrices(t, init, owner);
      var p :- PriceService.ConvertFromDTO(t, ds[|ds| - 1]);
      Ok(ps + [p.(priceList := owner)])
  }

  /** Once a prefix of the history fails to convert, the whole history fails with its error. */
  lemma {:induction false} ConvertPricesPrefixFails(t: Tables, ds: seq<PriceDTO>, n: nat, owner: Ref)
    requires n <= |ds| && ConvertPrices(t, ds[..n], owner).Err?
    ensures ConvertPrices(t, ds, owner) == ConvertPrices(t, ds[..n], owner)
    decreases |ds|
  {
    if n < |ds| {
      var init := ds[..|ds| - 1];
      assert init[..n] == ds[..n];
      ConvertPricesPrefixFails(t, init, n, owner);
    } else {
      assert ds[..n] == ds;
    }
  }

  /** The DTO carries a non-null, non-empty history. */
  predicate HasHistory(dto: PriceListDTO)
  {
    dto.priceHistoryList.Some? && |dto.priceHistoryList.value| > 0
  }

  /**
   * `convertFromDTO`: the store id and then the product id must pass their services'
   * `idValidation`. With a non-empty history the entries are converted and pointed at the new
   * list, and the current price is `findLastPrice` of them; the DTO's own current price is ignored.
   * Without one the DTO's current price, truncated to 2 decimals, is taken (a null one throws)
   * and the history is empty.
   */
  function PriceListFromDTO(t: Tables, dto: PriceListDTO): (r: Result<PriceList>)
    ensures IdValidation(dto.storeId, t.stores.Keys).Fail? ==> r == Err(IdValidation(dto.storeId, t.stores.Keys).error)
    ensures IdValidation(dto.storeId, t.stores.Keys).Pass? && IdValidation(dto.productId, t.products.Keys).Fail? ==>
      r == Err(IdValidation(dto.productId, t.products.Keys).error)
    ensures r.Ok? ==> (r.value.id == dto.id && Some(r.value.storeId) == dto.storeId && Some(r.value.productId) == dto.productId
                       && r.value.storeId in t.stores && r.value.productId in t.products)
    ensures r.Ok? && HasHistory(dto) ==>
      |r.value.priceHistoryList| == |dto.priceHistoryList.value|
      && (forall i :: 0 <= i < |r.value.priceHistoryList| ==> r.value.priceHistoryList[i].priceList == To(dto.id))
      && LastPrice(r.value.priceHistoryList).Ok?
      && r.value.currentPrice == Some(LastPrice(r.value.priceHistoryList).value)
    ensures r.Ok? && !HasHistory(dto) ==>
      r.value.priceHistoryList == [] && dto.currentPrice.Some?
      && r.value.currentPrice == Some(SetScale2Down(dto.currentPrice.value))
    ensures (IdValidation(dto.storeId, t.stores.Keys).Pass? && IdValidation(dto.productId, t.products.Keys).Pass?
             && !HasHistory(dto)) ==> (r.Ok? <==> dto.currentPrice.Some?) && (r.Err? ==> r.error == NullPointer)
    ensures (IdValidation(dto.storeId, t.stores.Keys).Pass? && IdValidation(dto.productId, t.products.Keys).Pass?
             && HasHistory(dto)) ==>
      var c := ConvertPrices(t, dto.priceHistoryList.value, To(dto.id));
      && (r.Ok? <==> c.Ok? && LastPrice(c.value).Ok?)
      && (r.Ok? ==> r.value.priceHistoryList == c.value)
      && (c.Err? ==> r == Err(c.error))
      && (c.Ok? && LastPrice(c.value).Err? ==> r == Err(LastPrice(c.value).error))
  {
    var storeCheck := IdValidation(dto.storeId, t.stores.Keys);
    if storeCheck.Fail? then Err(storeCheck.error)
    else
      var productCheck := IdValidation(dto.productId, t.products.Keys);
      if productCheck.Fail? then Err(productCheck.error)
      else if HasHistory(dto) then
        var prices :- ConvertPrices(t, dto.priceHistoryList.value, To(dto.id));
        var current :- LastPrice(prices);
        Ok(PriceList(dto.id, dto.storeId.value, dto.productId.value, Some(current), prices))
      else if dto.currentPrice.None? then Err(NullPointer)
      else Ok(PriceList(dto.id, dto.storeId.value, dto.productId.value,
                        Some(SetScale2Down(dto.currentPrice.value)), []))
  }

  /** `convertFromDTO`, with the loop that converts the history entries one at a time. */
  method ConvertFromDTO(t: Tables, dto: PriceListDTO) returns (r: Result<PriceList>)
    ensures r == PriceListFromDTO(t, dto)
  {
    var storeCheck := IdValidation(dto.storeId, t.stores.Keys);
    if storeCheck.Fail? {
      return Err(storeCheck.error);
    }
    var productCheck := IdValidation(dto.productId, t.products.Keys);
    if productCheck.Fail? {
      return Err(productCheck.error);
    }
    var prices: seq<Price> := [];
    if HasHistory(dto) {
      var ds := dto.priceHistoryList.value;
      var i := 0;
      while i < |ds|
        invariant 0 <= i <= |ds|
        invariant ConvertPrices(t, ds[..i], To(dto.id)) == Ok(prices)
      {
        assert ds[..i + 1][..i] == ds[..i];
        var price := PriceService.ConvertFromDTO(t, ds[i]);
        if price.Err? {
          ConvertPricesPrefixFails(t, ds, i + 1, To(dto.id));
          return Err(price.error);
        }
        prices := prices + [price.value.(priceList := To(dto.id))];
        i := i + 1;
      }
      assert ds[..i] == ds;
      var current := FindLastPrice(prices);
      if current.Err? {
        return Err(current.error);
      }
      r := Ok(PriceList(dto.id, dto.storeId.value, dto.productId.value, Some(current.value), prices));
    } else {
      if dto.currentPrice.None? {
        return Err(NullPointer);
      }
      r := Ok(PriceList(dto.id, dto.storeId.value, dto.productId.value,
                        Some(SetScale2Down(dto.currentPrice.value)), prices));
    }
  }

  /** The list is consistent: its current price is `findLastPrice` of its history. */
  predicate Derived(pl: PriceList)
  {
    LastPrice(pl.priceHistoryList).Ok? && pl.currentPrice == Some(LastPrice(pl.priceHistoryList).value)
  }

  /**
   * A consistent list whose store and product exist and whose history points back at it
   * survives the trip to a DTO and back unchanged.
   */
  lemma EntityRoundTrip(t: Tables, pl: PriceList)
    requires Derived(pl)
    requires IdValidation(Some(pl.storeId), t.stores.Keys).Pass? && IdValidation(Some(pl.productId), t.products.Keys).Pass?
    requires forall i :: 0 <= i < |pl.priceHistoryList| ==> pl.priceHistoryList[i].priceList == To(pl.id)
    requires pl.id.Some? ==> IdValidation(pl.id, t.priceLists.Keys).Pass?
    ensures ConvertToDTO(t, pl).Ok?
    ensures PriceListFromDTO(t, ConvertToDTO(t, pl).value) == Ok(pl)
  {
    var ps := pl.priceHistoryList;
    var dto := ConvertToDTO(t, pl).value;
    var ds := dto.priceHistoryList.value;
    forall i | 0 <= i < |ps|
      ensures PriceService.ConvertFromDTO(t, ds[i]).Ok?
      ensures PriceService.ConvertFromDTO(t, ds[i]).value.(priceList := To(pl.id)) == ps[i]
    {
      if pl.id.Some? {
        PriceService.EntityRoundTrip(t, ps[i]);
      }
    }
    var converted := ConvertPrices(t, ds, To(dto.id));
    assert converted.Ok?;
    assert converted.value == ps;
  }

  // ---- Queries ----

  /** `findById`: the stored list with its history; a missing id throws NotFoundException. */
  function FindById(t: Tables, id: Option<int>): (r: Result<PriceList>)
    ensures r.Ok? <==> id.Some? && id.value in t.priceLists
    ensures r.Ok? ==> r.value == LoadPriceList(t, id.value) && r.value.id == id
    ensures id.Some? && id.value !in t.priceLists ==> r == Err(NotFound)
  {
    var _ :- FindRow(t.priceLists, id);
    Ok(LoadPriceList(t, id.value))
  }

  /** `findAll`: every stored list, in id order. */
  function FindAll(t: Tables): (r: seq<PriceList>)
    ensures forall pl :: pl in r <==> pl.id.Some? && pl.id.value in t.priceLists && pl == LoadPriceList(t, pl.id.value)
  {
    var ids := SortedKeys(t.priceLists.Keys);
    var r := LoadPriceLists(t, ids);
    forall pl | pl in r
      ensures pl.id.Some? && pl.id.value in t.priceLists && pl == LoadPriceList(t, pl.id.value)
    {
      var i :| 0 <= i < |r| && r[i] == pl;
    }
    forall pl: PriceList | pl.id.Some? && pl.id.value in t.priceLists && pl == LoadPriceList(t, pl.id.value)
      ensures pl in r
    {
      var i :| 0 <= i < |ids| && ids[i] == pl.id.value;
      assert r[i] == pl;
    }
    r
  }

  /** The prices of list `id` in the window; a list without an id matches no price. */
  function WindowOf(t: Tables, id: Option<int>, start: Option<int>, end: Option<int>): seq<Price>
  {
    if id.None? then [] else Window(t, id.value, start, end)
  }

  /**
   * The loop the two dynamics finders share: each list's history is overwritten, in place, with
   * its windowed prices.
   */
  method SetWindowedHistories(t: Tables, lists: seq<PriceList>, start: Option<int>, end: Option<int>)
    returns (r: seq<PriceList>)
    ensures |r| == |lists|
    ensures forall i :: 0 <= i < |lists| ==>
      r[i] == lists[i].(priceHistoryList := WindowOf(t, lists[i].id, start, end))
  {
    r := lists;
    var i := 0;
    while i < |r|
      invariant 0 <= i <= |r| && |r| == |lists|
      invariant forall j :: 0 <= j < i ==> r[j] == lists[j].(priceHistoryList := WindowOf(t, lists[j].id, start, end))
      invariant forall j :: i <= j < |r| ==> r[j] == lists[j]
    {
      var prices := WindowOf(t, r[i].id, start, end);
      r := r[i := r[i].(priceHistoryList := prices)];
      i := i + 1;
    }
  }

  /** `findPriceListsForPriceComparisonByProductId`. */
  function FindForComparisonByProducts(t: Tables, productsId: seq<int>): (r: seq<PriceList>)
    ensures forall pl :: pl in r <==>
      pl.id.Some? && pl.id.value in t.priceLists && pl == LoadPriceList(t, pl.id.value)
      && t.priceLists[pl.id.value].productId in productsId
  {
    ByProductsMembersAll(t, productsId);
    ByProducts(t, productsId)
  }

  lemma ByProductsMembersAll(t: Tables, productsId: seq<int>)
    ensures forall pl :: pl in ByProducts(t, productsId) <==>
      pl.id.Some? && pl.id.value in t.priceLists && pl == LoadPriceList(t, pl.id.value)
      && t.priceLists[pl.id.value].productId in productsId
  {
    forall pl
      ensures pl in ByProducts(t, productsId) <==>
        pl.id.Some? && pl.id.value in t.priceLists && pl == LoadPriceList(t, pl.id.value)
        && t.priceLists[pl.id.value].productId in productsId
    {
      ByProductsMembers(t, productsId, pl);
    }
  }

  /** `findPriceListsForPriceComparisonByProductsIdAndStoresId`. */
  function FindForComparisonByProductsAndStores(t: Tables, productsId: seq<int>, storesId: seq<int>): (r: seq<PriceList>)
    ensures forall pl :: pl in r ==> pl in FindForComparisonByProducts(t, productsId)
  {
    StoresNarrowProducts(t, productsId, storesId);
    ByProductsAndStores(t, productsId, storesId)
  }

  /**
   * `findPriceListsForComparisonOfPriceDynamicsByProductIdAndBetweenDate`: the product query's
   * lists, in its order, each with its history replaced by its windowed prices. The method logs
   * `startDate.toString()` and `endDate.toString()` first, so a null date throws.
   */
  method FindDynamicsByProducts(t: Tables, productsId: seq<int>, start: Option<int>, end: Option<int>)
    returns (r: Result<seq<PriceList>>)
    ensures start.None? || end.None? <==> r == Err(NullPointer)
    ensures r.Ok? <==> start.Some? && end.Some?
    ensures r.Ok? ==> var lists := ByProducts(t, productsId);
      |r.value| == |lists| && forall i :: 0 <= i < |lists| ==>
        r.value[i] == lists[i].(priceHistoryList := Window(t, lists[i].id.value, start, end))
  {
    var lists := ByProducts(t, productsId);
    if start.None? || end.None? {
      return Err(NullPointer);
    }
    var windowed := SetWindowedHistories(t, lists, start, end);
    r := Ok(windowed);
  }

  /**
   * `findPriceListsForComparisonOfPriceDynamicsByProductIdAndStoresIdAndBetweenDate`: the same over
   * the product-and-store query. Nothing here dereferences the dates, so a null date only makes
   * every window empty.
   */
  method FindDynamicsByProductsAndStores(t: Tables, productsId: seq<int>, storesId: seq<int>,
                                         start: Option<int>, end: Option<int>)
    returns (r: seq<PriceList>)
    ensures var lists := ByProductsAndStores(t, productsId, storesId);
      |r| == |lists| && forall i :: 0 <= i < |lists| ==>
        r[i] == lists[i].(priceHistoryList := Window(t, lists[i].id.value, start, end))
  {
    var lists := ByProductsAndStores(t, productsId, storesId);
    r := SetWindowedHistories(t, lists, start, end);
  }

  // ---- Updates ----

  /** The list as `save` returns it: its id set, and its history pointing at that id. */
  function Saved(pl: PriceList, k: int): PriceList
  {
    pl.(id := Some(k),
        priceHistoryList := seq(|pl.priceHistoryList|, i requires 0 <= i < |pl.priceHistoryList| =>
                                  pl.priceHistoryList[i].(priceList := To(Some(k)))))
  }

  /**
   * `create`: id 0 is refused; otherwise the DTO is converted, the list's row is saved, and the
   * saved list is converted back.
   */
  method Create(db: Database, dto: PriceListDTO) returns (r: Result<PriceListDTO>)
    requires db.Valid()
    modifies db`tables, db`nextId
    ensures db.Valid()
    ensures !CreateAllowed(dto.id) ==>
      r == Err(IllegalArgument(NewIdZero)) && db.tables == old(db.tables) && db.nextId == old(db.nextId)
    ensures CreateAllowed(dto.id) && PriceListFromDTO(old(db.tables), dto).Err? ==>
      r == Err(PriceListFromDTO(old(db.tables), dto).error) && db.tables == old(db.tables) && db.nextId == old(db.nextId)
    ensures CreateAllowed(dto.id) && PriceListFromDTO(old(db.tables), dto).Ok? ==>
      var pl := PriceListFromDTO(old(db.tables), dto).value;
      var k := NewKey(pl.id, old(db.tables).priceLists.Keys, old(db.nextId));
      db.tables == old(db.tables).(priceLists := old(db.tables).priceLists[k := RowOf(pl)])
      && db.nextId == (if pl.id.Some? && pl.id.value in old(db.tables).priceLists then old(db.nextId) else old(db.nextId) + 1)
      && r == ConvertToDTO(db.tables, Saved(pl, k))
  {
    if !CreateAllowed(dto.id) {
      return Err(IllegalArgument(NewIdZero));
    }
    var converted := ConvertFromDTO(db.tables, dto);
    if converted.Err? {
      return Err(converted.error);
    }
    var pl := converted.value;
    var k := db.SaveKey(pl.id, db.tables.priceLists.Keys);
    db.tables := db.tables.(priceLists := db.tables.priceLists[k := RowOf(pl)]);
    r := ConvertToDTO(db.tables, Saved(pl, k));
  }

  /** `update`: the id must pass `idValidation`; the converted list then overwrites that row. */
  method Update(db: Database, dto: PriceListDTO) returns (r: Result<PriceListDTO>)
    requires db.Valid()
    modifies db`tables
    ensures db.Valid()
    ensures IdValidation(dto.id, old(db.tables).priceLists.Keys).Fail? ==>
      r == Err(IdValidation(dto.id, old(db.tables).priceLists.Keys).error) && db.tables == old(db.tables)
    ensures IdValidation(dto.id, old(db.tables).priceLists.Keys).Pass? && PriceListFromDTO(old(db.tables), dto).Err? ==>
      r == Err(PriceListFromDTO(old(db.tables), dto).error) && db.tables == old(db.tables)
    ensures IdValidation(dto.id, old(db.tables).priceLists.Keys).Pass? && PriceListFromDTO(old(db.tables), dto).Ok? ==>
      var pl := PriceListFromDTO(old(db.tables), dto).value;
      db.tables == old(db.tables).(priceLists := old(db.tables).priceLists[dto.id.value := RowOf(pl)])
      && r == ConvertToDTO(db.tables, Saved(pl, dto.id.value))
  {
    var check := IdValidation(dto.id, db.tables.priceLists.Keys);
    if check.Fail? {
      return Err(check.error);
    }
    var converted := ConvertFromDTO(db.tables, dto);
    if converted.Err? {
      return Err(converted.error);
    }
    db.tables := db.tables.(priceLists := db.tables.priceLists[dto.id.value := RowOf(converted.value)]);
    r := ConvertToDTO(db.tables, Saved(converted.value, dto.id.value));
  }

  /** `deleteById`: the id must pass `idValidation`; then the row is removed. */
  method DeleteById(db: Database, id: Option<int>) returns (r: Outcome)
    requires db.Valid()
    modifies db`tables
    ensures db.Valid()
    ensures r == IdValidation(id, old(db.tables).priceLists.Keys)
    ensures r.Fail? ==> db.tables == old(db.tables)
    ensures r.Pass? ==> db.tables == old(db.tables).(priceLists := old(db.tables).priceLists - {id.value})
  {
    r := IdValidation(id, db.tables.priceLists.Keys);
    if r.Pass? {
      db.tables := db.tables.(priceLists := db.tables.priceLists - {id.value});
    }
  }

  /** The current price `updateCurrentPriceByPriceListId(id)` derives from the stored history. */
  function CurrentPriceOf(t: Tables, id: Option<int>): (r: Result<Decimal>)
    ensures id.Some? && id.value !in t.priceLists ==> r == Err(NotFound)
    ensures id.Some? && id.value in t.priceLists ==> r == LastPrice(History(t, id.value))
  {
    var pl :- FindById(t, id);
    LastPrice(pl.priceHistoryList)
  }

  /**
   * `updateCurrentPriceByPriceListId`: loads the list, takes `findLastPrice` of its stored history
   * as its current price and saves it; no other column and no other row changes. Every call is
   * recorded in `rederived`.
   */
  method UpdateCurrentPriceByPriceListId(db: Database, id: Option<int>) returns (r: Outcome)
    requires db.Valid()
    modifies db`tables, db`rederived
    ensures db.Valid()
    ensures db.rederived == old(db.rederived) + [id]
    ensures r.Pass? <==> CurrentPriceOf(old(db.tables), id).Ok?
    ensures r.Fail? ==> Err(r.error) == CurrentPriceOf(old(db.tables), id) && db.tables == old(db.tables)
    ensures r.Pass? ==> var k := id.value;
      db.tables == old(db.tables).(priceLists := old(db.tables).priceLists[k :=
        old(db.tables).priceLists[k].(currentPrice := Some(CurrentPriceOf(old(db.tables), id).value))])
      && Derived(LoadPriceList(db.tables, k))
  {
    db.rederived := db.rederived + [id];
    var found := FindById(db.tables, id);
    if found.Err? {
      return Fail(found.error);
    }
    var pl := found.value;
    var current := FindLastPrice(pl.priceHistoryList);
    if current.Err? {
      return Fail(current.error);
    }
    var k := id.value;
    db.tables := db.tables.(priceLists := db.tables.priceLists[k := RowOf(pl.(currentPrice := Some(current.value)))]);
    assert History(db.tables, k) == History(old(db.tables), k);
    r := Pass;
  }
}
