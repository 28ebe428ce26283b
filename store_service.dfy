/**
 * `StoreService`: stores are handled as entities (no DTO). Its create guard is the reverse of the
 * other services', and its search picks one of three derived equality queries.
 */
module StoreService {
  import opened Wrappers
  import opened Entities
  import opened Database
  import opened SortOrder
  import opened Text

  /** A stored store. */
  function LoadStore(t: Tables, k: int): Store
    requires k in t.stores
  {
    Store(Some(k), t.stores[k].name, t.stores[k].city)
  }

  function RowOf(s: Store): StoreRow
  {
    StoreRow(s.name, s.city)
  }

  /** `findById`: the stored store; a missing id throws NotFoundException. */
  function FindById(t: Tables, id: Option<int>): (r: Result<Store>)
    ensures r.Ok? <==> id.Some? && id.value in t.stores
    ensures r.Ok? ==> r.value == LoadStore(t, id.value) && r.value.id == id
    ensures id.Some? && id.value !in t.stores ==> r == Err(NotFound)
  {
    var _ :- FindRow(t.stores, id);
    Ok(LoadStore(t, id.value))
  }

  /** `findAll`: every stored store (in ascending id order; the database sorts them by name). */
  function FindAll(t: Tables): (r: seq<Store>)
    ensures forall s: Store :: s in r <==> s.id.Some? && s.id.value in t.stores && s == LoadStore(t, s.id.value)
  {
    var ids := SortedKeys(t.stores.Keys);
    var r := seq(|ids|, i requires 0 <= i < |ids| => LoadStore(t, ids[i]));
    assert forall s: Store :: s in r ==> s.id.Some? && s.id.value in t.stores && s == LoadStore(t, s.id.value);
    assert forall s: Store :: s.id.Some? && s.id.value in t.stores && s == LoadStore(t, s.id.value) ==> s in r by {
      forall s: Store | s.id.Some? && s.id.value in t.stores && s == LoadStore(t, s.id.value)
        ensures s in r
      {
        var i :| 0 <= i < |ids| && ids[i] == s.id.value;
        assert r[i] == s;
      }
    }
    r
  }

  /**
   * `create`: only a null or 0 id is accepted (the other services accept everything but 0); the
   * store is saved under a fresh id and returned.
   */
  method Create(db: Database, s: Store) returns (r: Result<Store>)
    requires db.Valid()
    modifies db`tables, db`nextId
    ensures db.Valid()
    ensures !StoreCreateAllowed(s.id) ==>
      r == Err(IllegalArgument(NewIdNotZero)) && db.tables == old(db.tables) && db.nextId == old(db.nextId)
    ensures StoreCreateAllowed(s.id) ==>
      var k := NewKey(s.id, old(db.tables).stores.Keys, old(db.nextId));
      k !in old(db.tables).stores && 0 < k
      && db.tables == old(db.tables).(stores := old(db.tables).stores[k := RowOf(s)])
      && r == Ok(s.(id := Some(k)))
  {
    if !StoreCreateAllowed(s.id) {
      return Err(IllegalArgument(NewIdNotZero));
    }
    NewKeyFresh(s.id, db.tables.stores.Keys, db.nextId);
    var k := db.SaveKey(s.id, db.tables.stores.Keys);
    db.tables := db.tables.(stores := db.tables.stores[k := RowOf(s)]);
    r := Ok(s.(id := Some(k)));
  }

  /** `update`: the id must pass `idValidation`; the store then overwrites its row and is returned. */
  method Update(db: Database, s: Store) returns (r: Result<Store>)
    requires db.Valid()
    modifies db`tables
    ensures db.Valid()
    ensures IdValidation(s.id, old(db.tables).stores.Keys).Fail? ==>
      r == Err(IdValidation(s.id, old(db.tables).stores.Keys).error) && db.tables == old(db.tables)
    ensures IdValidation(s.id, old(db.tables).stores.Keys).Pass? ==>
      db.tables == old(db.tables).(stores := old(db.tables).stores[s.id.value := RowOf(s)]) && r == Ok(s)
  {
    var check := IdValidation(s.id, db.tables.stores.Keys);
    if check.Fail? {
      return Err(check.error);
    }
    db.tables := db.tables.(stores := db.tables.stores[s.id.value := RowOf(s)]);
    r := Ok(s);
  }

  /** `deleteById`: the id must pass `idValidation`; then the row is removed. */
  method DeleteById(db: Database, id: Option<int>) returns (r: Outcome)
    requires db.Valid()
    modifies db`tables
    ensures db.Valid()
    ensures r == IdValidation(id, old(db.tables).stores.Keys)
    ensures r.Fail? ==> db.tables == old(db.tables)
    ensures r.Pass? ==> db.tables == old(db.tables).(stores := old(db.tables).stores - {id.value})
  {
    r := IdValidation(id, db.tables.stores.Keys);
    if r.Pass? {
      db.tables := db.tables.(stores := db.tables.stores - {id.value});
    }
  }

  // ---- Search ----

  /**
   * The derived queries of `IStoreRepository`. `ByName` may receive a null name, which Spring Data
   * binds as `name IS NULL`; a store's name is never null here, so that query finds no row.
   */
  datatype StoreQuery =
    | ByCityAndName(city: string, name: string)
    | ByCity(city: string)
    | ByName(storeName: Option<string>)

  datatype StoreSearch = StoreSearch(query: StoreQuery, sort: Sort)

  predicate StoreSelects(q: StoreQuery, row: StoreRow)
  {
    match q
    case ByCityAndName(city, name) => row.city == city && row.name == name
    case ByCity(city) => row.city == city
    case ByName(storeName) => storeName.Some? && row.name == storeName.value
  }

  /** The ids of the stores the search returns (ascending; the sort is the database's). */
  function Results(t: Tables, s: StoreSearch): (r: seq<int>)
    ensures forall x :: x in r <==> x in t.stores && StoreSelects(s.query, t.stores[x])
  {
    IdsWhere(t.stores, (row: StoreRow) => StoreSelects(s.query, row))
  }

  /**
   * `getStoresByCityOrNameEquals`: a null direction means "asc". City and name together sort by
   * name, a city alone sorts by name, anything else is the name query sorted by city. An
   * unparseable direction is a BadRequest in every branch.
   */
  function GetStoresByCityOrNameEquals(cityName: Option<string>, storeName: Option<string>,
                                      sortingDirection: Option<string>): (r: Result<StoreSearch>)
    ensures r.Err? <==> DirectionFromString(sortingDirection.GetOr("asc")).Err?
    ensures r.Err? ==> r.error == BadRequest
    ensures r.Ok? ==> r.value.sort.direction == DirectionFromString(sortingDirection.GetOr("asc")).value
    ensures r.Ok? ==> r.value.sort.property == (if cityName.Some? then "name" else "city")
  {
    var direction := sortingDirection.GetOr("asc");
    var parsed := DirectionFromString(direction);
    if parsed.Err? then Err(BadRequest)
    else if cityName.Some? && storeName.Some? then
      Ok(StoreSearch(ByCityAndName(cityName.value, storeName.value), Sort(parsed.value, "name")))
    else if cityName.Some? then
      Ok(StoreSearch(ByCity(cityName.value), Sort(parsed.value, "name")))
    else
      Ok(StoreSearch(ByName(storeName), Sort(parsed.value, "city")))
  }

  /**
   * The search returns exactly the stores that match every criterion given, and nothing when
   * neither city nor name is given.
   */
  lemma SearchReturns(t: Tables, cityName: Option<string>, storeName: Option<string>, sortingDirection: Option<string>)
    requires GetStoresByCityOrNameEquals(cityName, storeName, sortingDirection).Ok?
    ensures forall x :: x in Results(t, GetStoresByCityOrNameEquals(cityName, storeName, sortingDirection).value) <==>
      x in t.stores && (cityName.Some? || storeName.Some?)
      && (cityName.Some? ==> t.stores[x].city == cityName.value)
      && (storeName.Some? ==> t.stores[x].name == storeName.value)
  {
  }

  /** A null direction is "asc", and it parses; an empty one is a BadRequest. */
  lemma DefaultDirection(cityName: Option<string>, storeName: Option<string>)
    ensures GetStoresByCityOrNameEquals(cityName, storeName, None) ==
      GetStoresByCityOrNameEquals(cityName, storeName, Some("asc"))
    ensures GetStoresByCityOrNameEquals(cityName, storeName, None).Ok?
    ensures GetStoresByCityOrNameEquals(cityName, storeName, None).value.sort.direction == ASC
    ensures GetStoresByCityOrNameEquals(cityName, storeName, Some("")) == Err(BadRequest)
  {
    AscParses();
    assert Upper("") == "";
  }
}
