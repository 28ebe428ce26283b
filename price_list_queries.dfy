/**
 * `IPriceListRepository`: the price lists of some products, optionally restricted to some stores.
 * Rows come back in id order; the query has no ORDER BY.
 */
module PriceListQueries {
  import opened Wrappers
  import opened Entities
  import opened Database

  /** `pl.product.id IN :productsId`. */
  predicate OfProducts(row: PriceListRow, productsId: seq<int>)
  {
    row.productId in productsId
  }

  /** `pl.product.id IN :productsId AND pl.store.id IN :storesId`. */
  predicate OfProductsAndStores(row: PriceListRow, productsId: seq<int>, storesId: seq<int>)
  {
    row.productId in productsId && row.storeId in storesId
  }

  /** The stored lists with ids `ids`, loaded, in the order of `ids`. */
  function LoadPriceLists(t: Tables, ids: seq<int>): (r: seq<PriceList>)
    requires forall x :: x in ids ==> x in t.priceLists
    ensures |r| == |ids| && forall i :: 0 <= i < |r| ==> r[i] == LoadPriceList(t, ids[i])
  {
    seq(|ids|, i requires 0 <= i < |ids| => LoadPriceList(t, ids[i]))
  }

  /** `findAllPriceListsByProductsId`: the ids of the lists it returns, ascending. */
  function ByProductsIds(t: Tables, productsId: seq<int>): (r: seq<int>)
    ensures forall x :: x in r <==> x in t.priceLists && t.priceLists[x].productId in productsId
    ensures Increasing(r)
  {
    IdsWhere(t.priceLists, (row: PriceListRow) => OfProducts(row, productsId))
  }

  /** `findAllPriceListsByProductsIdAndStoresId`: the ids of the lists it returns, ascending. */
  function ByProductsAndStoresIds(t: Tables, productsId: seq<int>, storesId: seq<int>): (r: seq<int>)
    ensures forall x :: x in r <==>
      x in t.priceLists && t.priceLists[x].productId in productsId && t.priceLists[x].storeId in storesId
    ensures Increasing(r)
  {
    IdsWhere(t.priceLists, (row: PriceListRow) => OfProductsAndStores(row, productsId, storesId))
  }

  /** `findAllPriceListsByProductsId(productsId)`, the lists loaded. */
  function ByProducts(t: Tables, productsId: seq<int>): (r: seq<PriceList>)
  {
    LoadPriceLists(t, ByProductsIds(t, productsId))
  }

  /** `findAllPriceListsByProductsIdAndStoresId(productsId, storesId)`, the lists loaded. */
  function ByProductsAndStores(t: Tables, productsId: seq<int>, storesId: seq<int>): (r: seq<PriceList>)
  {
    LoadPriceLists(t, ByProductsAndStoresIds(t, productsId, storesId))
  }

  /**
   * `IN` is membership: id lists with the same elements, whatever their order or repetitions,
   * select the same price lists.
   */
  lemma InIgnoresOrderAndDuplicates(t: Tables, p1: seq<int>, p2: seq<int>, s1: seq<int>, s2: seq<int>)
    requires forall x :: x in p1 <==> x in p2
    requires forall x :: x in s1 <==> x in s2
    ensures ByProducts(t, p1) == ByProducts(t, p2)
    ensures ByProductsAndStores(t, p1, s1) == ByProductsAndStores(t, p2, s2)
  {
    IncreasingUnique(ByProductsIds(t, p1), ByProductsIds(t, p2));
    IncreasingUnique(ByProductsAndStoresIds(t, p1, s1), ByProductsAndStoresIds(t, p2, s2));
  }

  /** Restricting to stores only narrows the product query, and keeps its order. */
  lemma StoresNarrowProducts(t: Tables, productsId: seq<int>, storesId: seq<int>)
    ensures forall x :: x in ByProductsAndStoresIds(t, productsId, storesId) ==> x in ByProductsIds(t, productsId)
    ensures forall pl :: pl in ByProductsAndStores(t, productsId, storesId) ==> pl in ByProducts(t, productsId)
  {
    var narrow := ByProductsAndStoresIds(t, productsId, storesId);
    var wide := ByProductsIds(t, productsId);
    forall pl | pl in ByProductsAndStores(t, productsId, storesId)
      ensures pl in ByProducts(t, productsId)
    {
      var i :| 0 <= i < |narrow| && ByProductsAndStores(t, productsId, storesId)[i] == pl;
      assert narrow[i] in wide;
      var j :| 0 <= j < |wide| && wide[j] == narrow[i];
      assert ByProducts(t, productsId)[j] == pl;
    }
  }

  /** A loaded list returned by the product query is a stored list of one of the products. */
  lemma ByProductsMembers(t: Tables, productsId: seq<int>, pl: PriceList)
    ensures pl in ByProducts(t, productsId) <==>
      pl.id.Some? && pl.id.value in t.priceLists && pl == LoadPriceList(t, pl.id.value)
      && t.priceLists[pl.id.value].productId in productsId
  {
    var ids := ByProductsIds(t, productsId);
    var r := ByProducts(t, productsId);
    if pl in r {
      var i :| 0 <= i < |r| && r[i] == pl;
      assert ids[i] in ids;
    }
    if pl.id.Some? && pl.id.value in t.priceLists && pl == LoadPriceList(t, pl.id.value)
      && t.priceLists[pl.id.value].productId in productsId {
      var i :| 0 <= i < |ids| && ids[i] == pl.id.value;
      assert r[i] == pl;
    }
  }
}
