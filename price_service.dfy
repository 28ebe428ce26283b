/**
 * `PriceService`: dated prices, their DTOs, the guarded create/update/delete, the window query,
 * and the stateful `distinctByKey` filter.
 */
module PriceService {
  import opened Wrappers
  import opened Entities
  import opened Database
  import opened PriceQueries

  /** The row `save` stores for a price. */
  function RowOf(p: Price): PriceRow
  {
    PriceRow(p.price, p.date, p.priceList)
  }

  /**
   * `convertToDTO`: id, price and date are copied and `priceListId` is the owning list's id;
   * a price without a list throws NullPointerException at `getPriceList().getId()`.
   */
  function ConvertToDTO(p: Price): (r: Result<PriceDTO>)
    ensures r.Ok? <==> p.priceList.To?
    ensures r.Err? ==> r.error == NullPointer
    ensures r.Ok? ==> r.value.id == p.id && r.value.price == p.price && r.value.date == p.date
    ensures r.Ok? ==> r.value.priceListId == p.priceList.id
  {
    match p.priceList
    case Null => Err(NullPointer)
    case To(listId) => Ok(PriceDTO(p.id, p.price, p.date, listId))
  }

  /**
   * `convertFromDTO`: id, price and date are copied, the price as it is (no rounding). A null
   * `priceListId` gives a price with no list; any other id must pass the price-list service's
   * `idValidation`, and the loaded list (which carries that id) becomes the owner.
   */
  function ConvertFromDTO(t: Tables, dto: PriceDTO): (r: Result<Price>)
    ensures r.Ok? ==> r.value.id == dto.id && r.value.price == dto.price && r.value.date == dto.date
    ensures dto.priceListId.None? ==> r == Ok(Price(dto.id, dto.price, dto.date, Null))
    ensures dto.priceListId.Some? ==>
      (r.Ok? <==> IdValidation(dto.priceListId, t.priceLists.Keys).Pass?)
    ensures dto.priceListId.Some? && r.Ok? ==> r.value.priceList == To(dto.priceListId)
    ensures r.Err? ==> IdValidation(dto.priceListId, t.priceLists.Keys) == Fail(r.error)
  {
    if dto.priceListId.None? then Ok(Price(dto.id, dto.price, dto.date, Null))
    else
      var check := IdValidation(dto.priceListId, t.priceLists.Keys);
      if check.Fail? then Err(check.error)
      else Ok(Price(dto.id, dto.price, dto.date, To(dto.priceListId)))
  }

  /** A DTO that names a stored list survives the trip to an entity and back unchanged. */
  lemma DTORoundTrip(t: Tables, dto: PriceDTO)
    requires IdValidation(dto.priceListId, t.priceLists.Keys).Pass?
    ensures ConvertFromDTO(t, dto).Ok?
    ensures ConvertToDTO(ConvertFromDTO(t, dto).value) == Ok(dto)
  {
  }

  /** A price owned by a stored list survives the trip to a DTO and back unchanged. */
  lemma EntityRoundTrip(t: Tables, p: Price)
    requires p.priceList.To? && IdValidation(p.priceList.id, t.priceLists.Keys).Pass?
    ensures ConvertToDTO(p).Ok?
    ensures ConvertFromDTO(t, ConvertToDTO(p).value) == Ok(p)
  {
  }

  /**
   * `listConverterToDTO`, and the history loop of the price-list converter: one DTO per price,
   * in order; the first price without a list throws.
   */
  function ConvertAllToDTO(ps: seq<Price>): (r: Result<seq<PriceDTO>>)
    ensures r.Ok? <==> forall i :: 0 <= i < |ps| ==> ps[i].priceList.To?
    ensures r.Ok? ==> |r.value| == |ps| && forall i :: 0 <= i < |ps| ==> Ok(r.value[i]) == ConvertToDTO(ps[i])
    ensures r.Err? ==> r.error == NullPointer
  {
    if ps == [] then Ok([])
    else
      match ConvertToDTO(ps[0])
      case Err(e) => Err(e)
      case Ok(d) =>
        match ConvertAllToDTO(ps[1..])
        case Err(e) => Err(e)
        case Ok(ds) =>
          assert forall i :: 1 <= i < |ps| ==> ps[i] == ps[1..][i - 1];
          Ok([d] + ds)
  }

  /** `findById`: the stored price, loaded; a missing id throws NotFoundException. */
  function FindById(t: Tables, id: Option<int>): (r: Result<Price>)
    ensures r.Ok? <==> id.Some? && id.value in t.prices
    ensures r.Ok? ==> r.value == LoadPrice(id.value, t.prices[id.value])
    ensures id.Some? && id.value !in t.prices ==> r == Err(NotFound)
  {
    var row :- FindRow(t.prices, id);
    Ok(LoadPrice(id.value, row))
  }

  /** `findAllPriceBetweenDateParam`: the repository's list; the query always yields one. */
  function FindAllPriceBetweenDateParam(t: Tables, priceListId: int, start: Option<int>, end: Option<int>): (r: seq<Price>)
    ensures multiset(r) == multiset(LoadPrices(t.prices, WindowIds(t, priceListId, start, end)))
    ensures DateDescending(r)
  {
    Window(t, priceListId, start, end)
  }

  /**
   * `create`: id 0 is refused; otherwise the DTO is converted, saved, and the saved price is
   * converted back. A price without a list is saved before its conversion back throws.
   */
  method Create(db: Database, dto: PriceDTO) returns (r: Result<PriceDTO>)
    requires db.Valid()
    modifies db`tables, db`nextId
    ensures db.Valid()
    ensures !CreateAllowed(dto.id) ==>
      r == Err(IllegalArgument(NewIdZero)) && db.tables == old(db.tables) && db.nextId == old(db.nextId)
    ensures CreateAllowed(dto.id) && ConvertFromDTO(old(db.tables), dto).Err? ==>
      r == Err(ConvertFromDTO(old(db.tables), dto).error) && db.tables == old(db.tables) && db.nextId == old(db.nextId)
    ensures CreateAllowed(dto.id) && ConvertFromDTO(old(db.tables), dto).Ok? ==>
      var p := ConvertFromDTO(old(db.tables), dto).value;
      var k := NewKey(p.id, old(db.tables).prices.Keys, old(db.nextId));
      db.tables == old(db.tables).(prices := old(db.tables).prices[k := RowOf(p)])
      && db.nextId == (if p.id.Some? && p.id.value in old(db.tables).prices then old(db.nextId) else old(db.nextId) + 1)
      && r == ConvertToDTO(p.(id := Some(k)))
  {
    if !CreateAllowed(dto.id) {
      return Err(IllegalArgument(NewIdZero));
    }
    var converted := ConvertFromDTO(db.tables, dto);
    if converted.Err? {
      return Err(converted.error);
    }
    var p := converted.value;
    var k := db.SaveKey(p.id, db.tables.prices.Keys);
    db.tables := db.tables.(prices := db.tables.prices[k := RowOf(p)]);
    r := ConvertToDTO(p.(id := Some(k)));
  }

  /** `update`: the id must pass `idValidation`; the converted price then overwrites that row. */
  method Update(db: Database, dto: PriceDTO) returns (r: Result<PriceDTO>)
    requires db.Valid()
    modifies db`tables
    ensures db.Valid()
    ensures IdValidation(dto.id, old(db.tables).prices.Keys).Fail? ==>
      r == Err(IdValidation(dto.id, old(db.tables).prices.Keys).error) && db.tables == old(db.tables)
    ensures IdValidation(dto.id, old(db.tables).prices.Keys).Pass? && ConvertFromDTO(old(db.tables), dto).Err? ==>
      r == Err(ConvertFromDTO(old(db.tables), dto).error) && db.tables == old(db.tables)
    ensures IdValidation(dto.id, old(db.tables).prices.Keys).Pass? && ConvertFromDTO(old(db.tables), dto).Ok? ==>
      var p := ConvertFromDTO(old(db.tables), dto).value;
      db.tables == old(db.tables).(prices := old(db.tables).prices[dto.id.value := RowOf(p)])
      && r == ConvertToDTO(p)
  {
    var check := IdValidation(dto.id, db.tables.prices.Keys);
    if check.Fail? {
      return Err(check.error);
    }
    var converted := ConvertFromDTO(db.tables, dto);
    if converted.Err? {
      return Err(converted.error);
    }
    db.tables := db.tables.(prices := db.tables.prices[dto.id.value := RowOf(converted.value)]);
    r := ConvertToDTO(converted.value);
  }

  /** `deleteById`: the id must pass `idValidation`; then the row is removed. */
  method DeleteById(db: Database, id: Option<int>) returns (r: Outcome)
    requires db.Valid()
    modifies db`tables
    ensures db.Valid()
    ensures r == IdValidation(id, old(db.tables).prices.Keys)
    ensures r.Fail? ==> db.tables == old(db.tables)
    ensures r.Pass? ==> db.tables == old(db.tables).(prices := old(db.tables).prices - {id.value})
  {
    r := IdValidation(id, db.tables.prices.Keys);
    if r.Pass? {
      db.tables := db.tables.(prices := db.tables.prices - {id.value});
    }
  }

  // ---- distinctByKey ----

  /** Some element of `xs` has key `k`. */
  ghost predicate HasKey<T, K>(xs: seq<T>, key: T -> K, k: K)
  {
    exists j :: 0 <= j < |xs| && key(xs[j]) == k
  }

  /**
   * The elements of `xs` a fresh `distinctByKey(key)` predicate lets through once the keys in
   * `seen` have been recorded: those whose key has not occurred before, in order.
   */
  function FirstByKey<T, K>(xs: seq<T>, key: T -> K, seen: set<K>): seq<T>
  {
    if xs == [] then []
    else if key(xs[0]) in seen then FirstByKey(xs[1..], key, seen)
    else [xs[0]] + FirstByKey(xs[1..], key, seen + {key(xs[0])})
  }

  /** `a` is `b` with some elements left out, the rest in their order. */
  predicate Subsequence<T(==)>(a: seq<T>, b: seq<T>)
    decreases |b|
  {
    a == [] || (b != [] && ((a[0] == b[0] && Subsequence(a[1..], b[1..])) || Subsequence(a, b[1..])))
  }

  /** What filtering keeps is an order-preserving subsequence of the input. */
  lemma {:induction false} FirstByKeySubsequence<T, K>(xs: seq<T>, key: T -> K, seen: set<K>)
    ensures Subsequence(FirstByKey(xs, key, seen), xs)
    decreases |xs|
  {
    if xs != [] {
      if key(xs[0]) in seen {
        FirstByKeySubsequence(xs[1..], key, seen);
      } else {
        var rest := FirstByKey(xs[1..], key, seen + {key(xs[0])});
        FirstByKeySubsequence(xs[1..], key, seen + {key(xs[0])});
        assert ([xs[0]] + rest)[1..] == rest;
      }
    }
  }

  /** The kept elements have pairwise distinct keys, none of them already seen. */
  lemma {:induction false} FirstByKeyDistinct<T, K>(xs: seq<T>, key: T -> K, seen: set<K>)
    ensures forall i :: 0 <= i < |FirstByKey(xs, key, seen)| ==> key(FirstByKey(xs, key, seen)[i]) !in seen
    ensures forall i, j :: 0 <= i < j < |FirstByKey(xs, key, seen)| ==>
      key(FirstByKey(xs, key, seen)[i]) != key(FirstByKey(xs, key, seen)[j])
    decreases |xs|
  {
    if xs != [] {
      if key(xs[0]) in seen {
        FirstByKeyDistinct(xs[1..], key, seen);
      } else {
        var k0 := key(xs[0]);
        FirstByKeyDistinct(xs[1..], key, seen + {k0});
        var rest := FirstByKey(xs[1..], key, seen + {k0});
        var r := [xs[0]] + rest;
        assert FirstByKey(xs, key, seen) == r;
        forall i | 1 <= i < |r|
          ensures key(r[i]) !in seen + {k0}
        {
          assert r[i] == rest[i - 1];
          assert key(rest[i - 1]) !in seen + {k0};
        }
      }
    }
  }

  /** Every key of the input is either already seen or the key of a kept element. */
  lemma {:induction false} FirstByKeyCovers<T, K>(xs: seq<T>, key: T -> K, seen: set<K>)
    ensures forall i :: 0 <= i < |xs| ==>
      key(xs[i]) in seen || HasKey(FirstByKey(xs, key, seen), key, key(xs[i]))
    decreases |xs|
  {
    if xs != [] {
      var k0 := key(xs[0]);
      var seen' := if k0 in seen then seen else seen + {k0};
      FirstByKeyCovers(xs[1..], key, seen');
      var r := FirstByKey(xs, key, seen);
      var rest := FirstByKey(xs[1..], key, seen');
      assert r == if k0 in seen then rest else [xs[0]] + rest;
      forall i | 0 <= i < |xs|
        ensures key(xs[i]) in seen || HasKey(r, key, key(xs[i]))
      {
        if k0 !in seen {
          assert key(r[0]) == k0;
        }
        if i > 0 && key(xs[i]) !in seen && key(xs[i]) != k0 {
          assert xs[1..][i - 1] == xs[i];
          assert HasKey(rest, key, key(xs[i]));
          var j :| 0 <= j < |rest| && key(rest[j]) == key(xs[i]);
          if k0 !in seen {
            assert r[j + 1] == rest[j];
          }
        }
      }
    }
  }

  /** Every key of a subsequence is a key of the whole. */
  lemma {:induction false} SubsequenceKeys<T, K>(a: seq<T>, b: seq<T>, key: T -> K)
    requires Subsequence(a, b)
    ensures forall k :: HasKey(a, key, k) ==> HasKey(b, key, k)
    decreases |b|
  {
    if a != [] {
      if a[0] == b[0] && Subsequence(a[1..], b[1..]) {
        SubsequenceKeys(a[1..], b[1..], key);
        forall k | HasKey(a, key, k)
          ensures HasKey(b, key, k)
        {
          var i :| 0 <= i < |a| && key(a[i]) == k;
          if i > 0 {
            assert key(a[1..][i - 1]) == k;
            assert HasKey(a[1..], key, k);
            var j :| 0 <= j < |b[1..]| && key(b[1..][j]) == k;
            assert key(b[j + 1]) == k;
          } else {
            assert key(b[0]) == k;
          }
        }
      } else {
        SubsequenceKeys(a, b[1..], key);
        forall k | HasKey(a, key, k)
          ensures HasKey(b, key, k)
        {
          var j :| 0 <= j < |b[1..]| && key(b[1..][j]) == k;
          assert key(b[j + 1]) == k;
        }
      }
    }
  }

  /** Filtering with a fresh predicate keeps exactly the keys of the input. */
  lemma FirstByKeySameKeys<T, K>(xs: seq<T>, key: T -> K, k: K)
    ensures HasKey(FirstByKey(xs, key, {}), key, k) <==> HasKey(xs, key, k)
  {
    FirstByKeyCovers(xs, key, {});
    FirstByKeySubsequence(xs, key, {});
    SubsequenceKeys(FirstByKey(xs, key, {}), xs, key);
  }

  /**
   * The predicate `distinctByKey(keyExtractor)` returns: it owns the map of keys met so far and
   * answers true exactly when `putIfAbsent` finds the element's key new.
   */
  class DistinctByKey<T, K(==)> {
    const key: T -> K
    var seen: set<K>

    constructor (keyExtractor: T -> K)
      ensures key == keyExtractor && seen == {}
    {
      key := keyExtractor;
      seen := {};
    }

    /** One call of the predicate: records the key, and says whether it was new. */
    method Test(x: T) returns (isNew: bool)
      modifies this
      ensures isNew <==> key(x) !in old(seen)
      ensures seen == old(seen) + {key(x)}
    {
      isNew := key(x) !in seen;
      seen := seen + {key(x)};
    }
  }

  /** `xs.stream().filter(distinctByKey(key)).collect(toList())`. */
  method FilterDistinctByKey<T, K(==)>(xs: seq<T>, key: T -> K) returns (r: seq<T>)
    ensures r == FirstByKey(xs, key, {})
  {
    var predicate' := new DistinctByKey(key);
    r := [];
    var i := 0;
    while i < |xs|
      invariant 0 <= i <= |xs|
      invariant predicate'.key == key
      invariant r + FirstByKey(xs[i..], key, predicate'.seen) == FirstByKey(xs, key, {})
    {
      assert xs[i..] == [xs[i]] + xs[i + 1..];
      ghost var seen := predicate'.seen;
      var isNew := predicate'.Test(xs[i]);
      if isNew {
        assert FirstByKey(xs[i..], key, seen) == [xs[i]] + FirstByKey(xs[i + 1..], key, predicate'.seen);
        r := r + [xs[i]];
      } else {
        assert predicate'.seen == seen;
      }
      i := i + 1;
    }
  }
}
