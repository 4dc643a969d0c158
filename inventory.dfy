/** The feed-inventory hook (src/hooks/useInventory.js): stocking a new feed,
    consuming from one item while logging the usage, and patching an item. */
module Inventory {
  import opened Store
  import opened JsNumbers

  // ----- addStock -----

  /** The row `addStock` inserts. `amount` is None when it does not parse. */
  function NewStockItem(name: string, cost: real, amount: Option<real>, batch: string, now: int): (t: Tracked<FeedItem>)
    ensures t.syncStatus == Pending
    ensures amount.Some? ==> t.row.currentStockKg == Kg(amount.value)
    ensures amount.None? ==> t.row.currentStockKg == NotANumber
    ensures t.row.name == name && t.row.costPerKg == cost && t.row.batchNumber == batch
  {
    var stock := if amount.Some? then Kg(amount.value) else NotANumber;
    Tracked(FeedItem(name, cost, stock, None, batch, Some(now)), Pending)
  }

  /** `addStock`: one new pending item under a fresh id; nothing else changes. */
  method AddStock(db: LocalDb, name: string, cost: real, amount: Option<real>, batch: string, newId: Id, now: int)
    requires newId !in db.feedInventory
    modifies db`feedInventory
    ensures db.feedInventory == old(db.feedInventory)[newId := NewStockItem(name, cost, amount, batch, now)]
  {
    db.feedInventory := db.feedInventory[newId := NewStockItem(name, cost, amount, batch, now)];
  }

  // ----- recordConsumption -----

  datatype ConsumptionError = FeedItemNotFound | NotEnoughStock

  /** `recordConsumption` resolves, or throws one of the two errors. */
  datatype ConsumptionResult = Consumed | Thrown(error: ConsumptionError)

  /** `current_stock_kg ?? current_stock`: the legacy field is read only when
      the new one is missing; None stands for a value that is not a number. */
  function StockOf(item: FeedItem): (s: Option<real>)
    ensures item.currentStockKg.Kg? ==> s == Some(item.currentStockKg.kg)
    ensures item.currentStockKg.NotANumber? ==> s.None?
    ensures item.currentStockKg.Missing? ==> s == item.currentStock
  {
    match item.currentStockKg
    case Kg(s) => Some(s)
    case NotANumber => None
    case Missing => item.currentStock
  }

  /** The checks: an unknown item, or a stock that would go below zero (a
      stock that is not a number fails no comparison, so it passes). */
  function Consumption(inventory: Table<FeedItem>, feedId: Id, amount: real): ConsumptionResult
  {
    if feedId !in inventory then Thrown(FeedItemNotFound)
    else match StockOf(inventory[feedId].row)
      case Some(s) => if s - amount < 0.0 then Thrown(NotEnoughStock) else Consumed
      case None => Consumed
  }

  /** The stock written back: the old stock less `amount`. */
  function StockAfterConsumption(item: FeedItem, amount: real): Stock
  {
    match StockOf(item)
    case Some(s) => Kg(s - amount)
    case None => NotANumber
  }

  /** The usage row logged by one consumption. */
  function ConsumptionUsage(feedId: Id, amount: real, pigId: Option<Id>, penId: Option<Id>, today: int): Tracked<FeedUsage>
  {
    Tracked(FeedUsage(feedId, pigId, penId, amount, today, None, None), Pending)
  }

  /** Both tables after one call. */
  function ConsumptionEffect(inventory: Table<FeedItem>, usage: Table<FeedUsage>, feedId: Id, amount: real,
                             pigId: Option<Id>, penId: Option<Id>, usageId: Id, today: int, now: int)
    : (Table<FeedItem>, Table<FeedUsage>)
  {
    if Consumption(inventory, feedId, amount) != Consumed then (inventory, usage)
    else
      var item := inventory[feedId].row;
      var item' := item.(currentStockKg := StockAfterConsumption(item, amount), updatedAt := Some(now));
      (inventory[feedId := Tracked(item', Pending)],
       usage[usageId := ConsumptionUsage(feedId, amount, pigId, penId, today)])
  }

  /** `recordConsumption`: check, update the stock and mark the item pending,
      then log the usage under a fresh id. */
  method RecordConsumption(db: LocalDb, feedId: Id, amount: real, pigId: Option<Id>, penId: Option<Id>,
                           usageId: Id, today: int, now: int)
    returns (result: ConsumptionResult)
    requires usageId !in db.feedUsage
    modifies db`feedInventory, db`feedUsage
    ensures result == Consumption(old(db.feedInventory), feedId, amount)
    ensures (db.feedInventory, db.feedUsage)
            == ConsumptionEffect(old(db.feedInventory), old(db.feedUsage), feedId, amount, pigId, penId, usageId, today, now)
  {
    if feedId !in db.feedInventory {
      return Thrown(FeedItemNotFound);
    }
    var item := db.feedInventory[feedId].row;
    var current := StockOf(item);
    var newStock: Stock;
    if current.Some? {
      if current.value - amount < 0.0 {
        return Thrown(NotEnoughStock);
      }
      newStock := Kg(current.value - amount);
    } else {
      newStock := NotANumber;
    }
    db.feedInventory := db.feedInventory[feedId := Tracked(item.(currentStockKg := newStock, updatedAt := Some(now)), Pending)];
    db.feedUsage := db.feedUsage[usageId := ConsumptionUsage(feedId, amount, pigId, penId, today)];
    result := Consumed;
  }

  // ----- updateItem -----

  /** The fields a caller may pass to `updateItem`; None leaves a field as it
      is. A `syncStatus` in the patch is accepted and then overridden. */
  datatype ItemPatch = ItemPatch(
    name: Option<string>,
    costPerKg: Option<real>,
    currentStockKg: Option<Stock>,
    batchNumber: Option<string>,
    syncStatus: Option<SyncStatus>)

  function Merge<T>(patch: Option<T>, old_: T): T
  {
    if patch.Some? then patch.value else old_
  }

  /** The table after `updateItem`; updating an absent id changes nothing. */
  function Updated(inventory: Table<FeedItem>, id: Id, patch: ItemPatch, now: int): Table<FeedItem>
  {
    if id !in inventory then inventory
    else
      var r := inventory[id].row;
      var r' := r.(name := Merge(patch.name, r.name),
                   costPerKg := Merge(patch.costPerKg, r.costPerKg),
                   currentStockKg := Merge(patch.currentStockKg, r.currentStockKg),
                   batchNumber := Merge(patch.batchNumber, r.batchNumber),
                   updatedAt := Some(now));
      inventory[id := Tracked(r', Pending)]
  }

  /** `updateItem`. */
  method UpdateItem(db: LocalDb, id: Id, patch: ItemPatch, now: int)
    modifies db`feedInventory
    ensures db.feedInventory == Updated(old(db.feedInventory), id, patch, now)
  {
    if id in db.feedInventory {
      var r := db.feedInventory[id].row;
      var r' := r.(name := Merge(patch.name, r.name),
                   costPerKg := Merge(patch.costPerKg, r.costPerKg),
                   currentStockKg := Merge(patch.currentStockKg, r.currentStockKg),
                   batchNumber := Merge(patch.batchNumber, r.batchNumber),
                   updatedAt := Some(now));
      db.feedInventory := db.feedInventory[id := Tracked(r', Pending)];
    }
  }

  // ----- Properties -----

  /** An unknown item or a stock that would go negative: nothing is written. */
  lemma ThrownWritesNothing(inventory: Table<FeedItem>, usage: Table<FeedUsage>, feedId: Id, amount: real,
                            pigId: Option<Id>, penId: Option<Id>, usageId: Id, today: int, now: int)
    requires Consumption(inventory, feedId, amount).Thrown?
    ensures ConsumptionEffect(inventory, usage, feedId, amount, pigId, penId, usageId, today, now) == (inventory, usage)
  {
  }

  /** The call throws `Not enough stock` exactly when a numeric stock is below `amount`. */
  lemma NotEnoughStockExactly(inventory: Table<FeedItem>, feedId: Id, amount: real)
    requires feedId in inventory
    ensures Consumption(inventory, feedId, amount) == Thrown(NotEnoughStock)
            <==> StockOf(inventory[feedId].row).Some? && StockOf(inventory[feedId].row).value < amount
  {
  }

  /** A successful consumption lowers a numeric stock by exactly `amount`,
      leaves it at zero or above, marks the item pending and logs one pending
      usage row for that item under the new id; every other row is kept. */
  lemma ConsumedStockAndUsage(inventory: Table<FeedItem>, usage: Table<FeedUsage>, feedId: Id, amount: real,
                              pigId: Option<Id>, penId: Option<Id>, usageId: Id, today: int, now: int)
    requires usageId !in usage
    requires Consumption(inventory, feedId, amount) == Consumed
    ensures var (inv', use') := ConsumptionEffect(inventory, usage, feedId, amount, pigId, penId, usageId, today, now);
            && feedId in inv' && inv'.Keys == inventory.Keys
            && inv'[feedId].syncStatus == Pending
            && (StockOf(inventory[feedId].row).Some? ==>
                  && inv'[feedId].row.currentStockKg == Kg(StockOf(inventory[feedId].row).value - amount)
                  && inv'[feedId].row.currentStockKg.kg >= 0.0)
            && (forall id :: id in inventory && id != feedId ==> inv'[id] == inventory[id])
            && use'.Keys == usage.Keys + {usageId}
            && use'[usageId].row.feedId == feedId && use'[usageId].row.amountKg == amount
            && use'[usageId].row.pigId == pigId && use'[usageId].row.penId == penId
            && use'[usageId].syncStatus == Pending
            && (forall id :: id in usage ==> use'[id] == usage[id])
  {
  }

  /** An item that predates `current_stock_kg` is checked against its legacy
      `current_stock`, and the result is written to `current_stock_kg`. */
  lemma LegacyStockIsRead(item: Tracked<FeedItem>, amount: real, feedId: Id)
    requires item.row.currentStockKg.Missing? && item.row.currentStock.Some?
    ensures Consumption(map[feedId := item], feedId, amount) == Consumed
            <==> item.row.currentStock.value >= amount
    ensures StockAfterConsumption(item.row, amount) == Kg(item.row.currentStock.value - amount)
  {
  }

  /** `updateItem` always leaves the row pending, whatever status the patch
      carried, and touches no other row. */
  lemma UpdateAlwaysPending(inventory: Table<FeedItem>, id: Id, patch: ItemPatch, now: int)
    ensures var inv' := Updated(inventory, id, patch, now);
            && inv'.Keys == inventory.Keys
            && (id in inventory ==> inv'[id].syncStatus == Pending && inv'[id].row.updatedAt == Some(now))
            && (forall k :: k in inventory && k != id ==> inv'[k] == inventory[k])
  {
  }

  /** The fields the patch names take its values; the others keep theirs. */
  lemma UpdateMergesPatch(inventory: Table<FeedItem>, id: Id, patch: ItemPatch, now: int)
    requires id in inventory
    ensures var r := Updated(inventory, id, patch, now)[id].row;
            && (patch.name.Some? ==> r.name == patch.name.value)
            && (patch.name.None? ==> r.name == inventory[id].row.name)
            && (patch.currentStockKg.Some? ==> r.currentStockKg == patch.currentStockKg.value)
            && (patch.currentStockKg.None? ==> r.currentStockKg == inventory[id].row.currentStockKg)
            && (patch.costPerKg.Some? ==> r.costPerKg == patch.costPerKg.value)
            && (patch.costPerKg.None? ==> r.costPerKg == inventory[id].row.costPerKg)
            && (patch.batchNumber.Some? ==> r.batchNumber == patch.batchNumber.value)
            && (patch.batchNumber.None? ==> r.batchNumber == inventory[id].row.batchNumber)
            && r.currentStock == inventory[id].row.currentStock
  {
  }

  /** An item that exists is always found: only the stock check can refuse it. */
  lemma ExistingItemIsFound(inventory: Table<FeedItem>, feedId: Id, amount: real)
    requires feedId in inventory
    ensures Consumption(inventory, feedId, amount) != Thrown(FeedItemNotFound)
    ensures StockOf(inventory[feedId].row).Some? && StockOf(inventory[feedId].row).value >= amount
            ==> Consumption(inventory, feedId, amount) == Consumed
  {
  }

  // ----- The item lookup as the code writes it -----

  /** `parseInt(feedId) || feedId`: a parsed 0 or NaN is falsy, so the text
      id is used then; any other parsed number replaces the id. */
  function AsWrittenLookupKey(feedId: Id): LookupKey
  {
    match ParseInt(feedId)
    case Number(n) => if n == 0 then TextKey(feedId) else NumericKey(n)
    case NaN => TextKey(feedId)
  }

  /** `recordConsumption`'s decision with that lookup. Items are stored under
      text ids (random UUIDs), so a numeric key finds nothing. */
  function AsWrittenConsumption(inventory: Table<FeedItem>, feedId: Id, amount: real): ConsumptionResult
  {
    match AsWrittenLookupKey(feedId)
    case NumericKey(_) => Thrown(FeedItemNotFound)
    case TextKey(id) => Consumption(inventory, id, amount)
  }

  /** An item whose UUID starts with "3f" is in stock, yet the lookup by
      `parseInt` reports it missing; an id starting with a letter is found. */
  lemma DigitLedFeedIdIsNotFound(item: Tracked<FeedItem>)
    requires item.row.currentStockKg == Kg(10.0)
    ensures var id := "3f0c9a1e-7d42-4b8e-9a61-2c5d8e4f7a10";
            && AsWrittenConsumption(map[id := item], id, 1.0) == Thrown(FeedItemNotFound)
            && Consumption(map[id := item], id, 1.0) == Consumed
    ensures var id := "a1b2c3d4-0000-4000-8000-000000000000";
            AsWrittenConsumption(map[id := item], id, 1.0) == Consumption(map[id := item], id, 1.0) == Consumed
  {
    var id := "3f0c9a1e-7d42-4b8e-9a61-2c5d8e4f7a10";
    assert id[0] == '3' && id[1..][0] == 'f';
    assert LeadingDigits(id[1..]) == [];
    assert LeadingDigits(id) == "3";
    assert DigitsValue("3") == 3 by {
      assert "3"[..0] == [];
    }
    assert AsWrittenLookupKey(id) == NumericKey(3);
  }
}
