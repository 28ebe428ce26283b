/**
 * The JPA repositories as finite maps from id to row, and the generic parts every service shares:
 * `idValidation`, `findById`, `save`'s choice of id, and loading a row back into an entity.
 */
module Database {
  import opened Wrappers
  import opened Entities

  /** Every table of the schema. */
  datatype Tables = Tables(
    categories: map<int, CategoryRow>,
    subcategories: map<int, SubcategoryRow>,
    products: map<int, ProductRow>,
    stores: map<int, StoreRow>,
    priceLists: map<int, PriceListRow>,
    prices: map<int, PriceRow>,
    users: map<int, UserRow>)

  const NoTables := Tables(map[], map[], map[], map[], map[], map[], map[])

  /** Every key is an id the generator has already handed out. */
  predicate KeysBelow(keys: set<int>, next: int)
  {
    forall k :: k in keys ==> 0 < k < next
  }

  predicate IdsBelow(t: Tables, next: int)
  {
    && KeysBelow(t.categories.Keys, next)
    && KeysBelow(t.subcategories.Keys, next)
    && KeysBelow(t.products.Keys, next)
    && KeysBelow(t.stores.Keys, next)
    && KeysBelow(t.priceLists.Keys, next)
    && KeysBelow(t.prices.Keys, next)
    && KeysBelow(t.users.Keys, next)
  }

  /**
   * The database: its tables, the IDENTITY generator, and (ghost) the argument of every
   * `updateCurrentPriceByPriceListId` call so far, in call order.
   */
  class Database {
    var tables: Tables
    var nextId: int
    ghost var rederived: seq<Option<int>>

    ghost predicate Valid()
      reads this
    {
      nextId > 0 && IdsBelow(tables, nextId)
    }

    constructor ()
      ensures Valid() && tables == NoTables && rederived == []
    {
      tables := NoTables;
      nextId := 1;
      rederived := [];
    }

    /**
     * The id `save` gives a row: the entity's own id when a row with that id exists (the row is
     * overwritten), otherwise a newly generated one (a null id, or an id with no row).
     */
    method SaveKey(id: Option<int>, keys: set<int>) returns (k: int)
      requires Valid()
      modifies this`nextId
      ensures Valid()
      ensures k == NewKey(id, keys, old(nextId))
      ensures KeysBelow(keys, old(nextId)) ==> 0 < k < nextId
      ensures nextId == if id.Some? && id.value in keys then old(nextId) else old(nextId) + 1
    {
      if id.Some? && id.value in keys {
        k := id.value;
      } else {
        k := nextId;
        nextId := nextId + 1;
      }
    }
  }

  /** The id `save` assigns when the generator stands at `next`. */
  function NewKey(id: Option<int>, keys: set<int>, next: int): int
  {
    if id.Some? && id.value in keys then id.value else next
  }

  /** A generated key is fresh: saving under it never overwrites a row. */
  lemma NewKeyFresh(id: Option<int>, keys: set<int>, next: int)
    requires KeysBelow(keys, next)
    ensures NewKey(id, keys, next) in keys <==> (id.Some? && id.value in keys)
    ensures 0 < next ==> 0 < NewKey(id, keys, next)
  {
  }

  /**
   * `idValidation`, identical in all seven services: a null id or 0 is refused first, then an id
   * with no row; any other id passes and nothing changes.
   */
  function IdValidation(id: Option<int>, keys: set<int>): (r: Outcome)
    ensures r.Pass? <==> id.Some? && id.value != 0 && id.value in keys
    ensures r == Fail(IllegalArgument(NullOrZeroId)) <==> id.None? || id.value == 0
    ensures r.Fail? ==> r.error.IllegalArgument?
  {
    if id.None? || id.value == 0 then Fail(IllegalArgument(NullOrZeroId))
    else if id.value !in keys then Fail(IllegalArgument(NoSuchId))
    else Pass
  }

  /**
   * The create guard `id == null || id != 0L` that six of the seven services share: only id 0 is
   * refused, so any other id, stored or not, goes on to `save`.
   */
  predicate CreateAllowed(id: Option<int>)
  {
    id.None? || id.value != 0
  }

  /** `StoreService.create`'s guard `id == null || id == 0L`: the reverse. */
  predicate StoreCreateAllowed(id: Option<int>)
  {
    id.None? || id.value == 0
  }

  /** The two guards agree only on a null id. */
  lemma CreateGuardsDisagree(id: Option<int>)
    ensures CreateAllowed(id) <==> id != Some(0)
    ensures StoreCreateAllowed(id) <==> id.None? || id == Some(0)
    ensures CreateAllowed(id) && StoreCreateAllowed(id) <==> id.None?
  {
  }

  /** `repository.findById(id)` followed by `orElseThrow(NotFoundException)`. */
  function FindRow<R>(rows: map<int, R>, id: Option<int>): (r: Result<R>)
    ensures r.Ok? <==> id.Some? && id.value in rows
    ensures r.Ok? ==> r.value == rows[id.value]
    ensures id.Some? && id.value !in rows ==> r == Err(NotFound)
  {
    if id.None? then Err(IllegalArgument(NullIdLookup))
    else if id.value !in rows then Err(NotFound)
    else Ok(rows[id.value])
  }

  /** An id that passed `idValidation` is found by `findById`. */
  lemma ValidatedIdIsFound<R>(rows: map<int, R>, id: Option<int>)
    requires IdValidation(id, rows.Keys).Pass?
    ensures FindRow(rows, id) == Ok(rows[id.value])
  {
  }

  /** The least element of a non-empty set of ids. */
  function Min(s: set<int>): (m: int)
    requires s != {}
    ensures m in s && forall x :: x in s ==> m <= x
  {
    MinExists(s);
    var m :| m in s && forall x :: x in s ==> m <= x;
    m
  }

  lemma {:induction false} MinExists(s: set<int>)
    requires s != {}
    ensures exists m :: m in s && forall x :: x in s ==> m <= x
    decreases |s|
  {
    EmptyOrHasElement(s);
    var y :| y in s;
    if s != {y} {
      MinExists(s - {y});
      var m :| m in s - {y} && forall x :: x in s - {y} ==> m <= x;
      var least := if y < m then y else m;
      forall x | x in s
        ensures least <= x
      {
        if x != y {
          assert x in s - {y};
        }
      }
      assert least in s;
    } else {
      assert forall x :: x in s ==> y <= x;
    }
  }

  /** A set with no element is the empty set. */
  lemma EmptyOrHasElement(s: set<int>)
    ensures s == {} || exists y :: y in s
  {
    if forall y :: y !in s {
      assert s == {};
    }
  }

  /** The keys of a table in ascending order: the order rows come back from an unordered query. */
  function SortedKeys(s: set<int>): (r: seq<int>)
    ensures Increasing(r)
    ensures forall x :: x in r <==> x in s
    decreases |s|
  {
    if s == {} then []
    else
      var m := Min(s);
      [m] + SortedKeys(s - {m})
  }

  /** The ids ascend strictly. */
  predicate Increasing(s: seq<int>)
  {
    forall i, j :: 0 <= i < j < |s| ==> s[i] < s[j]
  }

  /** Two ascending sequences with the same elements are the same sequence. */
  lemma {:induction false} IncreasingUnique(a: seq<int>, b: seq<int>)
    requires Increasing(a) && Increasing(b)
    requires forall x :: x in a <==> x in b
    ensures a == b
    decreases |a|
  {
    assert a == [] <==> b == [] by {
      if a != [] {
        assert a[0] in a;
      }
      if b != [] {
        assert b[0] in b;
      }
    }
    if a != [] {
      assert a[0] in b && b[0] in a;
      assert a[0] == b[0] by {
        var i :| 0 <= i < |b| && b[i] == a[0];
        var j :| 0 <= j < |a| && a[j] == b[0];
        assert b[0] <= a[0] && a[0] <= b[0];
      }
      forall x
        ensures x in a[1..] <==> x in b[1..]
      {
        if x in a[1..] {
          var i :| 1 <= i < |a| && a[i] == x;
          assert x in b && x != b[0];
        }
        if x in b[1..] {
          var j :| 1 <= j < |b| && b[j] == x;
          assert x in a && x != a[0];
        }
      }
      IncreasingUnique(a[1..], b[1..]);
    }
  }

  /** A sequence is empty or holds its first element. */
  lemma EmptyOrFirst<T>(s: seq<T>)
    ensures s == [] || s[0] in s
  {
  }

  /** Keeps, in order, the ids of `ids` whose row satisfies `keep`. */
  function Where<R>(rows: map<int, R>, ids: seq<int>, keep: R -> bool): (r: seq<int>)
    ensures forall x :: x in r <==> x in ids && x in rows && keep(rows[x])
    ensures Increasing(ids) ==> Increasing(r)
  {
    if ids == [] then []
    else
      var rest := Where(rows, ids[1..], keep);
      if ids[0] in rows && keep(rows[ids[0]]) then
        var r := [ids[0]] + rest;
        assert Increasing(ids) ==> Increasing(r) by {
          if Increasing(ids) {
            assert Increasing(ids[1..]);
            forall i, j | 0 <= i < j < |r|
              ensures r[i] < r[j]
            {
              assert r[j] == rest[j - 1] && rest[j - 1] in ids[1..];
              var m :| 0 <= m < |ids[1..]| && ids[1..][m] == r[j];
              assert ids[m + 1] == r[j];
              if i > 0 {
                assert r[i] == rest[i - 1];
              }
            }
          }
        }
        r
      else rest
  }

  /** The ids of the rows that satisfy `keep`, ascending. */
  function IdsWhere<R>(rows: map<int, R>, keep: R -> bool): (r: seq<int>)
    ensures forall x :: x in r <==> x in rows && keep(rows[x])
    ensures Increasing(r)
  {
    Where(rows, SortedKeys(rows.Keys), keep)
  }

  /** A stored price, loaded. */
  function LoadPrice(id: int, row: PriceRow): Price
  {
    Price(Some(id), row.price, row.date, row.priceList)
  }

  /** The ids of the prices that point at price list `k`, ascending. */
  function HistoryIds(t: Tables, k: int): (r: seq<int>)
    ensures forall x :: x in r <==> x in t.prices && t.prices[x].priceList == To(Some(k))
    ensures Increasing(r)
  {
    IdsWhere(t.prices, (p: PriceRow) => p.priceList == To(Some(k)))
  }

  /** The rows with ids `ids`, loaded as prices, in the order of `ids`. */
  function LoadPrices(rows: map<int, PriceRow>, ids: seq<int>): (ps: seq<Price>)
    requires forall x :: x in ids ==> x in rows
    ensures |ps| == |ids| && forall i :: 0 <= i < |ps| ==> ps[i] == LoadPrice(ids[i], rows[ids[i]])
    ensures forall p :: p in ps <==>
      p.id.Some? && p.id.value in ids && p == LoadPrice(p.id.value, rows[p.id.value])
  {
    var ps := seq(|ids|, i requires 0 <= i < |ids| => LoadPrice(ids[i], rows[ids[i]]));
    forall p | p in ps
      ensures p.id.Some? && p.id.value in ids
    {
      var i :| 0 <= i < |ps| && ps[i] == p;
    }
    forall x | x in ids
      ensures LoadPrice(x, rows[x]) in ps
    {
      var i :| 0 <= i < |ids| && ids[i] == x;
      assert ps[i] == LoadPrice(x, rows[x]);
    }
    ps
  }

  /**
   * `priceList.getPriceHistoryList()` of a loaded list: the prices whose back-pointer names it
   * (the list is `mappedBy = "priceList"`), in id order.
   */
  function History(t: Tables, k: int): (h: seq<Price>)
    ensures forall p :: p in h <==>
      p.id.Some? && p.id.value in t.prices && p == LoadPrice(p.id.value, t.prices[p.id.value])
      && t.prices[p.id.value].priceList == To(Some(k))
  {
    LoadPrices(t.prices, HistoryIds(t, k))
  }

  /** A stored price list, loaded with its history. */
  function LoadPriceList(t: Tables, k: int): (pl: PriceList)
    requires k in t.priceLists
  {
    var row := t.priceLists[k];
    PriceList(Some(k), row.storeId, row.productId, row.currentPrice, History(t, k))
  }

  /** The ids of the price lists of product `k` (`mappedBy = "product"`), ascending. */
  function PriceListIdsOf(t: Tables, k: int): (r: seq<int>)
    ensures forall x :: x in r <==> x in t.priceLists && t.priceLists[x].productId == k
  {
    IdsWhere(t.priceLists, (pl: PriceListRow) => pl.productId == k)
  }

  /** A stored product, loaded with the ids of its price lists. */
  function LoadProduct(t: Tables, k: int): Product
    requires k in t.products
  {
    var row := t.products[k];
    Product(Some(k), row.subcategoryId, row.name, row.brand, row.quantity, row.unit,
            row.manufacturer, Some(PriceListIdsOf(t, k)))
  }
}
