/**
 * `PriceController`: the handlers that write prices. After each write the controller calls
 * `updateCurrentPriceByPriceListId` for the list the price belongs to, so that the list's current
 * price follows its history again.
 */
module PriceController {
  import opened Wrappers
  import opened Entities
  import opened Database
  import opened Spreadsheet
  import opened ExcelUtils
  import PriceService
  import PriceListService

  // ---- Re-deriving current prices ----

  /** The tables after `updateCurrentPriceByPriceListId(id)`, or the exception it throws. */
  function RederiveOne(t: Tables, id: Option<int>): (r: Result<Tables>)
    ensures r.Ok? <==> PriceListService.CurrentPriceOf(t, id).Ok?
    ensures r.Err? ==> r.error == PriceListService.CurrentPriceOf(t, id).error
    ensures r.Ok? ==> (
      && id.Some? && id.value in t.priceLists
      && r.value == t.(priceLists := r.value.priceLists)
      && r.value.priceLists.Keys == t.priceLists.Keys
      && (forall k :: k in t.priceLists && k != id.value ==> r.value.priceLists[k] == t.priceLists[k])
      && PriceListService.Derived(LoadPriceList(r.value, id.value)))
  {
    var current :- PriceListService.CurrentPriceOf(t, id);
    var k := id.value;
    var t' := t.(priceLists := t.priceLists[k := t.priceLists[k].(currentPrice := Some(current))]);
    assert History(t', k) == History(t, k);
    Ok(t')
  }

  /** Re-deriving another list leaves a consistent list consistent. */
  lemma RederiveOneKeeps(t: Tables, id: Option<int>, k: int)
    requires k in t.priceLists && PriceListService.Derived(LoadPriceList(t, k))
    requires RederiveOne(t, id).Ok?
    ensures PriceListService.Derived(LoadPriceList(RederiveOne(t, id).value, k))
  {
    var t' := RederiveOne(t, id).value;
    assert History(t', k) == History(t, k);
  }

  /** What re-deriving several lists in turn did: the tables, the calls made, how the last ended. */
  datatype Rederivation = Rederivation(tables: Tables, calls: nat, outcome: Outcome)

  /** `updateCurrentPriceByPriceListId` on each id in turn, until one throws. */
  function RederiveAll(t: Tables, ids: seq<Option<int>>): (r: Rederivation)
    ensures r.calls <= |ids|
    ensures r.outcome.Pass? ==> r.calls == |ids|
    ensures r.tables == t.(priceLists := r.tables.priceLists) && r.tables.priceLists.Keys == t.priceLists.Keys
    decreases |ids|
  {
    if ids == [] then Rederivation(t, 0, Pass)
    else
      var before := RederiveAll(t, ids[..|ids| - 1]);
      if before.outcome.Fail? then before
      else match RederiveOne(before.tables, ids[|ids| - 1])
        case Ok(t') => Rederivation(t', |ids|, Pass)
        case Err(e) => Rederivation(before.tables, |ids|, Fail(e))
  }

  /** One more id: its call runs on the tables the earlier calls left. */
  lemma RederiveAllNext(t: Tables, ids: seq<Option<int>>, i: nat)
    requires i < |ids| && RederiveAll(t, ids[..i]).outcome.Pass?
    ensures var before := RederiveAll(t, ids[..i]).tables;
      RederiveAll(t, ids[..i + 1]) == match RederiveOne(before, ids[i])
        case Ok(t') => Rederivation(t', i + 1, Pass)
        case Err(e) => Rederivation(before, i + 1, Fail(e))
  {
    assert ids[..i + 1][..i] == ids[..i];
  }

  /** Once a call has thrown, the later ids are never reached. */
  lemma {:induction false} RederiveAllStops(t: Tables, ids: seq<Option<int>>, n: nat)
    requires n <= |ids| && RederiveAll(t, ids[..n]).outcome.Fail?
    ensures RederiveAll(t, ids) == RederiveAll(t, ids[..n])
    decreases |ids| - n
  {
    if n < |ids| {
      var init := ids[..|ids| - 1];
      assert init[..n] == ids[..n];
      RederiveAllStops(t, init, n);
      assert RederiveAll(t, init).outcome.Fail?;
      assert RederiveAll(t, ids) == RederiveAll(t, init);
    } else {
      assert ids[..n] == ids;
    }
  }

  /** When every call returns, every list named is consistent afterwards. */
  lemma {:induction false} RederiveAllDerives(t: Tables, ids: seq<Option<int>>)
    requires RederiveAll(t, ids).outcome.Pass?
    ensures forall i :: 0 <= i < |ids| ==> (
      && ids[i].Some? && ids[i].value in t.priceLists
      && PriceListService.Derived(LoadPriceList(RederiveAll(t, ids).tables, ids[i].value)))
    decreases |ids|
  {
    if ids != [] {
      var init := ids[..|ids| - 1];
      RederiveAllDerives(t, init);
      var before := RederiveAll(t, init);
      var last := ids[|ids| - 1];
      forall i | 0 <= i < |ids| - 1
        ensures ids[i].Some? && ids[i].value in t.priceLists
          && PriceListService.Derived(LoadPriceList(RederiveAll(t, ids).tables, ids[i].value))
      {
        assert ids[i] == init[i];
        RederiveOneKeeps(before.tables, last, ids[i].value);
      }
    }
  }

  // ---- Histories ----

  /** An id above every id of an ascending sequence extends it ascending. */
  lemma IncreasingAppend(s: seq<int>, k: int)
    requires Increasing(s) && forall x :: x in s ==> x < k
    ensures Increasing(s + [k])
  {
    assert forall i :: 0 <= i < |s| ==> (s + [k])[i] == s[i] && s[i] in s;
  }

  /** A price saved under an id above every stored one comes last among its list's price ids. */
  lemma HistoryIdsAppend(t: Tables, k: int, row: PriceRow, l: int)
    requires forall x :: x in t.prices ==> x < k
    ensures HistoryIds(t.(prices := t.prices[k := row]), l) ==
      HistoryIds(t, l) + (if row.priceList == To(Some(l)) then [k] else [])
  {
    var t' := t.(prices := t.prices[k := row]);
    var before := HistoryIds(t, l);
    var after := HistoryIds(t', l);
    var ids := before + (if row.priceList == To(Some(l)) then [k] else []);
    forall x
      ensures x in after <==> x in ids
    {
      assert x in after <==> x in t'.prices && t'.prices[x].priceList == To(Some(l));
      assert x in before <==> x in t.prices && t.prices[x].priceList == To(Some(l));
    }
    if row.priceList == To(Some(l)) {
      IncreasingAppend(before, k);
    } else {
      assert ids == before;
    }
    IncreasingUnique(after, ids);
  }

  /** A price saved under an id above every stored one joins the end of its list's history. */
  lemma HistoryAppend(t: Tables, k: int, row: PriceRow, l: int)
    requires forall x :: x in t.prices ==> x < k
    ensures History(t.(prices := t.prices[k := row]), l) ==
      History(t, l) + (if row.priceList == To(Some(l)) then [LoadPrice(k, row)] else [])
  {
    var t' := t.(prices := t.prices[k := row]);
    var before := HistoryIds(t, l);
    HistoryIdsAppend(t, k, row, l);
    var h := History(t', l);
    var expected := History(t, l) + (if row.priceList == To(Some(l)) then [LoadPrice(k, row)] else []);
    assert |h| == |expected|;
    forall i | 0 <= i < |h|
      ensures h[i] == expected[i]
    {
      if i < |before| {
        assert before[i] in t.prices;
      }
    }
  }

  lemma LogOneMore<T>(log: seq<T>, s: seq<T>, i: nat)
    requires i < |s|
    ensures log + s[..i + 1] == (log + s[..i]) + [s[i]]
  {
    assert s[..i + 1] == s[..i] + [s[i]];
  }

  /** Deleting the only price of a list leaves it an empty history. */
  lemma HistoryRemoveOnly(t: Tables, id: int, l: int)
    requires id in t.prices && t.prices[id].priceList == To(Some(l))
    requires forall x :: x in t.prices && t.prices[x].priceList == To(Some(l)) ==> x == id
    ensures History(t.(prices := t.prices - {id}), l) == []
  {
    var h := History(t.(prices := t.prices - {id}), l);
    EmptyOrFirst(h);
  }

  // ---- Handlers ----

  /**
   * `create`: `priceService.create`, then the saved price's list is re-derived exactly once. The
   * price stays saved when the re-derivation throws.
   */
  method Create(db: Database, dto: PriceDTO) returns (r: Result<PriceDTO>)
    requires db.Valid()
    modifies db`tables, db`nextId, db`rederived
    ensures db.Valid()
    ensures !CreateAllowed(dto.id) ==>
      r == Err(IllegalArgument(NewIdZero))
      && db.tables == old(db.tables) && db.nextId == old(db.nextId) && db.rederived == old(db.rederived)
    ensures CreateAllowed(dto.id) && PriceService.ConvertFromDTO(old(db.tables), dto).Err? ==>
      r == Err(PriceService.ConvertFromDTO(old(db.tables), dto).error)
      && db.tables == old(db.tables) && db.nextId == old(db.nextId) && db.rederived == old(db.rederived)
    ensures CreateAllowed(dto.id) && PriceService.ConvertFromDTO(old(db.tables), dto).Ok? ==>
      var k := NewKey(dto.id, old(db.tables).prices.Keys, old(db.nextId));
      var saved := old(db.tables).(prices := old(db.tables).prices[k :=
        PriceService.RowOf(PriceService.ConvertFromDTO(old(db.tables), dto).value)]);
      db.nextId == (if dto.id.Some? && dto.id.value in old(db.tables).prices then old(db.nextId) else old(db.nextId) + 1)
      && (dto.priceListId.None? ==> r == Err(NullPointer) && db.tables == saved && db.rederived == old(db.rederived))
      && (dto.priceListId.Some? ==>
        db.rederived == old(db.rederived) + [dto.priceListId]
        && (RederiveOne(saved, dto.priceListId).Ok? ==>
              r == Ok(dto.(id := Some(k))) && db.tables == RederiveOne(saved, dto.priceListId).value)
        && (RederiveOne(saved, dto.priceListId).Err? ==>
              r == Err(RederiveOne(saved, dto.priceListId).error) && db.tables == saved))
  {
    r := PriceService.Create(db, dto);
    if r.Err? {
      return;
    }
    var o := PriceListService.UpdateCurrentPriceByPriceListId(db, r.value.priceListId);
    if o.Fail? {
      r := Err(o.error);
    }
  }

  /**
   * Creating a new, dated price in a list whose current price can be derived: the list's current
   * price becomes the new price when it is dated strictly later than every earlier one, and stays
   * what it was otherwise (a tie keeps the earlier entry).
   */
  lemma CreatedPriceRederives(t: Tables, next: int, dto: PriceDTO, l: int)
    requires KeysBelow(t.prices.Keys, next)
    requires dto.priceListId == Some(l) && l in t.priceLists
    requires dto.date.Some? && dto.price.Some?
    requires PriceListService.LastPrice(History(t, l)).Ok?
    ensures var saved := t.(prices := t.prices[next := PriceRow(dto.price, dto.date, To(Some(l)))]);
      var h := History(t, l);
      RederiveOne(saved, Some(l)).Ok?
      && RederiveOne(saved, Some(l)).value.priceLists[l].currentPrice == Some(
           if dto.date.value > h[PriceListService.FirstLatest(h)].date.value then Money.SetScale2Down(dto.price.value)
           else PriceListService.LastPrice(h).value)
  {
    var row := PriceRow(dto.price, dto.date, To(Some(l)));
    var h := History(t, l);
    HistoryAppend(t, next, row, l);
    if dto.date.value > h[PriceListService.FirstLatest(h)].date.value {
      PriceListService.LastPriceLaterWins(h, LoadPrice(next, row));
    } else {
      PriceListService.LastPriceTieKeepsFirst(h, LoadPrice(next, row));
    }
  }

  /**
   * `update`: `priceService.update`, then the list named in the saved result (the DTO's own
   * `priceListId`) is re-derived exactly once.
   */
  method Update(db: Database, dto: PriceDTO) returns (r: Result<PriceDTO>)
    requires db.Valid()
    modifies db`tables, db`rederived
    ensures db.Valid()
    ensures IdValidation(dto.id, old(db.tables).prices.Keys).Fail? ==>
      r == Err(IdValidation(dto.id, old(db.tables).prices.Keys).error)
      && db.tables == old(db.tables) && db.rederived == old(db.rederived)
    ensures IdValidation(dto.id, old(db.tables).prices.Keys).Pass? && PriceService.ConvertFromDTO(old(db.tables), dto).Err? ==>
      r == Err(PriceService.ConvertFromDTO(old(db.tables), dto).error)
      && db.tables == old(db.tables) && db.rederived == old(db.rederived)
    ensures IdValidation(dto.id, old(db.tables).prices.Keys).Pass? && PriceService.ConvertFromDTO(old(db.tables), dto).Ok? ==>
      var saved := old(db.tables).(prices := old(db.tables).prices[dto.id.value :=
        PriceService.RowOf(PriceService.ConvertFromDTO(old(db.tables), dto).value)]);
      (dto.priceListId.None? ==> r == Err(NullPointer) && db.tables == saved && db.rederived == old(db.rederived))
      && (dto.priceListId.Some? ==>
        db.rederived == old(db.rederived) + [dto.priceListId]
        && (RederiveOne(saved, dto.priceListId).Ok? ==>
              r == Ok(dto) && db.tables == RederiveOne(saved, dto.priceListId).value)
        && (RederiveOne(saved, dto.priceListId).Err? ==>
              r == Err(RederiveOne(saved, dto.priceListId).error) && db.tables == saved))
  {
    r := PriceService.Update(db, dto);
    if r.Err? {
      return;
    }
    var o := PriceListService.UpdateCurrentPriceByPriceListId(db, r.value.priceListId);
    if o.Fail? {
      r := Err(o.error);
    }
  }

  /**
   * `delete`: the price's list id is read before the price is deleted, and that list is then
   * re-derived from the history without it.
   */
  method Delete(db: Database, id: Option<int>) returns (r: Outcome)
    requires db.Valid()
    modifies db`tables, db`rederived
    ensures db.Valid()
    ensures PriceService.FindById(old(db.tables), id).Err? ==>
      r == Fail(PriceService.FindById(old(db.tables), id).error)
      && db.tables == old(db.tables) && db.rederived == old(db.rederived)
    ensures PriceService.FindById(old(db.tables), id).Ok? && old(db.tables).prices[id.value].priceList.Null? ==>
      r == Fail(NullPointer) && db.tables == old(db.tables) && db.rederived == old(db.rederived)
    ensures PriceService.FindById(old(db.tables), id).Ok? && old(db.tables).prices[id.value].priceList.To? ==>
      var l := old(db.tables).prices[id.value].priceList.id;
      var deleted := old(db.tables).(prices := old(db.tables).prices - {id.value});
      db.rederived == old(db.rederived) + [l]
      && (RederiveOne(deleted, l).Ok? ==> r == Pass && db.tables == RederiveOne(deleted, l).value)
      && (RederiveOne(deleted, l).Err? ==> r == Fail(RederiveOne(deleted, l).error) && db.tables == deleted)
  {
    var found := PriceService.FindById(db.tables, id);
    if found.Err? {
      return Fail(found.error);
    }
    if found.value.priceList.Null? {
      return Fail(NullPointer);
    }
    var priceListId := found.value.priceList.id;
    var deleted := PriceService.DeleteById(db, id);
    // The price was just found, so its id is stored and, being stored, not 0.
    assert deleted.Pass?;
    r := PriceListService.UpdateCurrentPriceByPriceListId(db, priceListId);
  }

  /**
   * Deleting the only price of a list deletes it and then throws IndexOutOfBoundsException:
   * `findLastPrice` reads the first entry of the now empty history. The list keeps its old current
   * price.
   */
  lemma DeleteOnlyPriceThrows(t: Tables, id: int, l: int)
    requires id in t.prices && t.prices[id].priceList == To(Some(l)) && l in t.priceLists
    requires forall x :: x in t.prices && t.prices[x].priceList == To(Some(l)) ==> x == id
    ensures RederiveOne(t.(prices := t.prices - {id}), Some(l)) == Err(IndexOutOfBounds)
  {
    HistoryRemoveOnly(t, id, l);
  }

  // ---- Upload ----

  /** The prices the upload reads: the file must be an `.xlsx` workbook, then its sheet is parsed. */
  function UploadRead(t: Tables, fileName: Option<string>, workbook: Option<seq<SheetRow>>): (r: Result<seq<PriceDTO>>)
    ensures ReadXlsxFile(fileName, workbook).Err? ==> r == Err(ReadXlsxFile(fileName, workbook).error)
    ensures ReadXlsxFile(fileName, workbook).Ok? ==> r == ParsePrices(t, ReadXlsxFile(fileName, workbook).value)
  {
    var sheet :- ReadXlsxFile(fileName, workbook);
    ParsePrices(t, sheet)
  }

  /** `PriceDTO::getPriceListId`, the key the upload deduplicates by. */
  function PriceListIdOf(dto: PriceDTO): Option<int>
  {
    dto.priceListId
  }

  /** The list ids of some prices, in order. */
  function ListIds(ds: seq<PriceDTO>): (r: seq<Option<int>>)
    ensures |r| == |ds| && forall i :: 0 <= i < |ds| ==> r[i] == ds[i].priceListId
  {
    if ds == [] then [] else [ds[0].priceListId] + ListIds(ds[1..])
  }

  /** The lists the upload re-derives: the list ids of the created prices, each at its first appearance. */
  function UploadedLists(created: seq<PriceDTO>): seq<Option<int>>
  {
    ListIds(PriceService.FirstByKey(created, PriceListIdOf, {}))
  }

  /**
   * The upload re-derives each list exactly once: the ids it re-derives are pairwise distinct,
   * and they are exactly the list ids of the created prices.
   */
  lemma UploadedListsOnce(created: seq<PriceDTO>)
    ensures forall i, j :: 0 <= i < j < |UploadedLists(created)| ==> UploadedLists(created)[i] != UploadedLists(created)[j]
    ensures forall l :: l in UploadedLists(created) <==> exists i :: 0 <= i < |created| && created[i].priceListId == l
  {
    var kept := PriceService.FirstByKey(created, PriceListIdOf, {});
    PriceService.FirstByKeyDistinct(created, PriceListIdOf, {});
    forall l
      ensures l in UploadedLists(created) <==> exists i :: 0 <= i < |created| && created[i].priceListId == l
    {
      PriceService.FirstByKeySameKeys(created, PriceListIdOf, l);
      if l in UploadedLists(created) {
        var j :| 0 <= j < |kept| && kept[j].priceListId == l;
        assert PriceListIdOf(kept[j]) == l;
      }
      if exists i :: 0 <= i < |created| && created[i].priceListId == l {
        var i :| 0 <= i < |created| && created[i].priceListId == l;
        assert PriceListIdOf(created[i]) == l;
        var j :| 0 <= j < |kept| && PriceListIdOf(kept[j]) == l;
        assert UploadedLists(created)[j] == l;
      }
    }
  }

  /**
   * The upload (`POST /prices/upload`): the workbook's prices are created, then each list they
   * name is re-derived once, in order of first appearance. It returns every created price,
   * several for one list included, not the deduplicated ones.
   */
  method Upload(db: Database, fileName: Option<string>, workbook: Option<seq<SheetRow>>) returns (r: Result<seq<PriceDTO>>)
    requires db.Valid()
    modifies db`tables, db`nextId, db`rederived
    ensures db.Valid()
    ensures UploadRead(old(db.tables), fileName, workbook).Err? ==>
      r == Err(UploadRead(old(db.tables), fileName, workbook).error)
      && db.tables == old(db.tables) && db.nextId == old(db.nextId) && db.rederived == old(db.rederived)
    ensures UploadRead(old(db.tables), fileName, workbook).Ok? ==>
      var kept := UploadRead(old(db.tables), fileName, workbook).value;
      var created := Numbered(CreatedPrice, kept, old(db.nextId));
      var saved := old(db.tables).(prices := old(db.tables).prices + NewRows(PriceRowOf, kept, old(db.nextId)));
      var done := RederiveAll(saved, UploadedLists(created));
      db.nextId == old(db.nextId) + |kept| && db.tables == done.tables
      && db.rederived == old(db.rederived) + UploadedLists(created)[..done.calls]
      && r == (if done.outcome.Pass? then Ok(created) else Err(done.outcome.error))
  {
    var sheet := ReadXlsxFile(fileName, workbook);
    if sheet.Err? {
      return Err(sheet.error);
    }
    var prices := CreatePrices(db, sheet.value);
    if prices.Err? {
      return Err(prices.error);
    }
    var pricesFiltered := PriceService.FilterDistinctByKey(prices.value, PriceListIdOf);
    var done := RederiveLists(db, pricesFiltered);
    if done.Fail? {
      return Err(done.error);
    }
    r := Ok(prices.value);
  }

  /** The loop of the upload: `updateCurrentPriceByPriceListId` on each price's list, in order. */
  method RederiveLists(db: Database, ds: seq<PriceDTO>) returns (r: Outcome)
    requires db.Valid()
    modifies db`tables, db`rederived
    ensures db.Valid()
    ensures var done := RederiveAll(old(db.tables), ListIds(ds));
      db.tables == done.tables && r == done.outcome
      && db.rederived == old(db.rederived) + ListIds(ds)[..done.calls]
  {
    ghost var ids := ListIds(ds);
    for i := 0 to |ds|
      invariant db.Valid()
      invariant RederiveAll(old(db.tables), ids[..i]) == Rederivation(db.tables, i, Pass)
      invariant db.rederived == old(db.rederived) + ids[..i]
    {
      RederiveAllNext(old(db.tables), ids, i);
      LogOneMore(old(db.rederived), ids, i);
      var o := PriceListService.UpdateCurrentPriceByPriceListId(db, ds[i].priceListId);
      if o.Fail? {
        RederiveAllStops(old(db.tables), ids, i + 1);
        return o;
      }
    }
    assert ids[..|ds|] == ids;
    r := Pass;
  }
}
