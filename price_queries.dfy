/**
 * `IPriceRepository.findAllPriceBetweenDateParam`: the prices of one price list dated inside an
 * inclusive window, latest first.
 */
module PriceQueries {
  import opened Wrappers
  import opened Entities
  import opened Database

  /**
   * `p.date BETWEEN :startDate AND :endDate`. Both ends are inclusive; a comparison with SQL NULL
   * is unknown, so a price without a date, or a null bound, matches nothing.
   */
  predicate Between(date: Option<int>, start: Option<int>, end: Option<int>)
  {
    date.Some? && start.Some? && end.Some? && start.value <= date.value <= end.value
  }

  /** The row belongs to price list `k` and its date lies in the window. */
  predicate InWindow(row: PriceRow, k: int, start: Option<int>, end: Option<int>)
  {
    row.priceList == To(Some(k)) && Between(row.date, start, end)
  }

  /** Every price carries a date. */
  predicate Dated(ps: seq<Price>)
  {
    forall i :: 0 <= i < |ps| ==> ps[i].date.Some?
  }

  /** `ORDER BY p.date DESC`: dates never increase along the sequence. */
  predicate DateDescending(ps: seq<Price>)
  {
    Dated(ps) && forall i, j :: 0 <= i < j < |ps| ==> ps[j].date.value <= ps[i].date.value
  }

  /** Puts `p` in front of the first price that is not later than it. */
  function Insert(p: Price, ps: seq<Price>): (r: seq<Price>)
    requires p.date.Some? && Dated(ps)
    ensures multiset(r) == multiset(ps) + multiset{p}
  {
    if ps == [] || ps[0].date.value <= p.date.value then [p] + ps
    else
      assert ps == [ps[0]] + ps[1..];
      [ps[0]] + Insert(p, ps[1..])
  }

  /** Inserting a dated price keeps a latest-first sequence latest first. */
  lemma {:induction false} InsertDescending(p: Price, ps: seq<Price>)
    requires p.date.Some? && DateDescending(ps)
    ensures DateDescending(Insert(p, ps))
    decreases |ps|
  {
    var r := Insert(p, ps);
    if ps == [] || ps[0].date.value <= p.date.value {
      assert forall j :: 1 <= j < |r| ==> r[j] == ps[j - 1];
    } else {
      var rest := Insert(p, ps[1..]);
      InsertDescending(p, ps[1..]);
      assert r == [ps[0]] + rest;
      forall j | 0 <= j < |rest|
        ensures rest[j].date.Some? && rest[j].date.value <= ps[0].date.value
      {
        assert rest[j] in multiset(ps[1..]) + multiset{p};
        if rest[j] != p {
          assert rest[j] in ps[1..];
        }
      }
      assert forall j :: 1 <= j < |r| ==> r[j] == rest[j - 1];
    }
  }

  /** Orders dated prices latest first; prices with equal dates keep their relative order. */
  function SortByDateDesc(ps: seq<Price>): (r: seq<Price>)
    requires Dated(ps)
    ensures multiset(r) == multiset(ps)
    ensures DateDescending(r)
  {
    if ps == [] then []
    else
      assert ps == [ps[0]] + ps[1..];
      var rest := SortByDateDesc(ps[1..]);
      InsertDescending(ps[0], rest);
      Insert(ps[0], rest)
  }

  /** The ids of the prices the query selects, ascending. */
  function WindowIds(t: Tables, k: int, start: Option<int>, end: Option<int>): (r: seq<int>)
    ensures forall x :: x in r <==> x in t.prices && InWindow(t.prices[x], k, start, end)
  {
    IdsWhere(t.prices, (row: PriceRow) => InWindow(row, k, start, end))
  }

  /**
   * `findAllPriceBetweenDateParam(k, start, end)`: the query's rows, latest first. The order of
   * prices sharing a date is left to the database; here they stay in id order.
   */
  function Window(t: Tables, k: int, start: Option<int>, end: Option<int>): (r: seq<Price>)
    ensures multiset(r) == multiset(LoadPrices(t.prices, WindowIds(t, k, start, end)))
    ensures DateDescending(r)
  {
    var loaded := LoadPrices(t.prices, WindowIds(t, k, start, end));
    assert Dated(loaded) by {
      forall i | 0 <= i < |loaded|
        ensures loaded[i].date.Some?
      {
        assert loaded[i] in loaded;
      }
    }
    SortByDateDesc(loaded)
  }

  /** A price is returned iff it is a stored price of list `k` dated inside the window. */
  lemma WindowMembers(t: Tables, k: int, start: Option<int>, end: Option<int>, p: Price)
    ensures p in Window(t, k, start, end) <==>
      p.id.Some? && p.id.value in t.prices && p == LoadPrice(p.id.value, t.prices[p.id.value])
      && InWindow(t.prices[p.id.value], k, start, end)
  {
    var loaded := LoadPrices(t.prices, WindowIds(t, k, start, end));
    assert p in Window(t, k, start, end) <==> p in multiset(loaded);
  }

  /** Each price is returned at most once. */
  lemma WindowNoDuplicates(t: Tables, k: int, start: Option<int>, end: Option<int>)
    ensures |Window(t, k, start, end)| == |WindowIds(t, k, start, end)|
  {
    var loaded := LoadPrices(t.prices, WindowIds(t, k, start, end));
    assert |multiset(Window(t, k, start, end))| == |multiset(loaded)|;
  }

  /** The window only narrows the list's history. */
  lemma WindowWithinHistory(t: Tables, k: int, start: Option<int>, end: Option<int>)
    ensures forall p :: p in Window(t, k, start, end) ==> p in History(t, k)
  {
    forall p | p in Window(t, k, start, end)
      ensures p in History(t, k)
    {
      WindowMembers(t, k, start, end, p);
    }
  }

  /** A window whose start lies after its end, or that has a null bound, selects nothing. */
  lemma EmptyWindow(t: Tables, k: int, start: Option<int>, end: Option<int>)
    requires start.None? || end.None? || start.value > end.value
    ensures Window(t, k, start, end) == []
  {
    WindowNoDuplicates(t, k, start, end);
  }
}
