/** `registerFeeding` (src/hooks/useFeeding.js): split a total quantity of one
    feed across target pigs, log one usage row per target and take the total
    off the stock, all in one transaction over `feed_inventory` and `feed_usage`. */
module Feeding {
  import opened Store
  import opened Quantities

  datatype FeedingMode = Individual | Batch

  /** The call's parameters; `amount` is None when the amount field is empty. */
  datatype FeedingRequest = FeedingRequest(mode: FeedingMode, foodId: Id, amount: Option<real>, targetIds: seq<Id>)

  datatype FeedingError = MissingParameters | FeedNotFound | InsufficientStock(available: real)

  datatype FeedingResult = Registered | Rejected(error: FeedingError)

  /** The quantity logged for each target: the total divided evenly, to the hundredth. */
  function PerTarget(total: real, n: nat): real
    requires n > 0
  {
    Round2(total / n as real)
  }

  /** The early-return checks, in the order the code makes them. */
  function Decide(inventory: Table<FeedItem>, req: FeedingRequest): FeedingResult
  {
    if req.foodId == "" || req.amount.None? || req.targetIds == [] then Rejected(MissingParameters)
    else if req.foodId !in inventory then Rejected(FeedNotFound)
    else match inventory[req.foodId].row.currentStockKg
      // `undefined < total` and `NaN < total` are both false: no check happens.
      case Kg(s) => if s < req.amount.value then Rejected(InsufficientStock(s)) else Registered
      case _ => Registered
  }

  /** The stock written back: `parseFloat((stock - total).toFixed(2))`. */
  function StockAfter(stock: Stock, total: real): Stock
  {
    match stock
    case Kg(s) => Kg(Round2(s - total))
    case _ => NotANumber
  }

  /** The usage row logged for one target. */
  function UsageFor(foodId: Id, pigId: Id, amount: real, today: int, now: int): Tracked<FeedUsage>
  {
    Tracked(FeedUsage(foodId, Some(pigId), None, amount, today, Some(now), Some(now)), Pending)
  }

  /** `feed_usage` after the bulk add: one new row per target, under the new ids. */
  function WithUsages(usage: Table<FeedUsage>, foodId: Id, targets: seq<Id>, newIds: seq<Id>,
                      amount: real, today: int, now: int): Table<FeedUsage>
    requires |newIds| == |targets|
    decreases |newIds|
  {
    if newIds == [] then usage
    else
      var n := |newIds| - 1;
      WithUsages(usage, foodId, targets[..n], newIds[..n], amount, today, now)[newIds[n] := UsageFor(foodId, targets[n], amount, today, now)]
  }

  /** Both tables after the call: untouched unless the call registers. */
  function Effect(inventory: Table<FeedItem>, usage: Table<FeedUsage>, req: FeedingRequest,
                  newIds: seq<Id>, today: int, now: int): (Table<FeedItem>, Table<FeedUsage>)
    requires |newIds| == |req.targetIds| && Distinct(newIds)
  {
    if Decide(inventory, req) != Registered then (inventory, usage)
    else
      var item := inventory[req.foodId];
      var total := req.amount.value;
      var item' := item.(row := item.row.(currentStockKg := StockAfter(item.row.currentStockKg, total), updatedAt := Some(now)));
      (inventory[req.foodId := item'],
       WithUsages(usage, req.foodId, req.targetIds, newIds, PerTarget(total, |req.targetIds|), today, now))
  }

  /** `registerFeeding`. The new usage ids are fresh UUIDs. */
  method RegisterFeeding(db: LocalDb, req: FeedingRequest, newIds: seq<Id>, today: int, now: int)
    returns (result: FeedingResult)
    requires |newIds| == |req.targetIds| && Distinct(newIds)
    requires forall j :: 0 <= j < |newIds| ==> newIds[j] !in db.feedUsage
    modifies db`feedInventory, db`feedUsage
    ensures result == Decide(old(db.feedInventory), req)
    ensures (db.feedInventory, db.feedUsage) == Effect(old(db.feedInventory), old(db.feedUsage), req, newIds, today, now)
  {
    result := Decide(db.feedInventory, req);
    if result != Registered {
      return;
    }
    var total := req.amount.value;
    var perPig := PerTarget(total, |req.targetIds|);
    var item := db.feedInventory[req.foodId];
    // The transaction: the usage rows, then the stock update.
    var usage := db.feedUsage;
    var i := 0;
    while i < |req.targetIds|
      invariant 0 <= i <= |req.targetIds|
      invariant usage == WithUsages(db.feedUsage, req.foodId, req.targetIds[..i], newIds[..i], perPig, today, now)
    {
      assert req.targetIds[..i + 1][..i] == req.targetIds[..i] && newIds[..i + 1][..i] == newIds[..i];
      usage := usage[newIds[i] := UsageFor(req.foodId, req.targetIds[i], perPig, today, now)];
      i := i + 1;
    }
    assert req.targetIds[..i] == req.targetIds && newIds[..i] == newIds;
    var item' := item.(row := item.row.(currentStockKg := StockAfter(item.row.currentStockKg, total), updatedAt := Some(now)));
    db.feedUsage := usage;
    db.feedInventory := db.feedInventory[req.foodId := item'];
  }

  // ----- Properties -----

  /** A missing feed id, amount or target list, or an unknown feed: nothing is written. */
  lemma RejectedWritesNothing(inventory: Table<FeedItem>, usage: Table<FeedUsage>, req: FeedingRequest,
                              newIds: seq<Id>, today: int, now: int)
    requires |newIds| == |req.targetIds| && Distinct(newIds)
    requires Decide(inventory, req).Rejected?
    ensures Effect(inventory, usage, req, newIds, today, now) == (inventory, usage)
  {
  }

  /** Stock below the total is refused, so no usage row is logged for it. */
  lemma ShortStockIsRefused(inventory: Table<FeedItem>, req: FeedingRequest)
    requires req.foodId != "" && req.amount.Some? && req.targetIds != []
    requires req.foodId in inventory && inventory[req.foodId].row.currentStockKg.Kg?
    ensures Decide(inventory, req) == Rejected(InsufficientStock(inventory[req.foodId].row.currentStockKg.kg))
            <==> inventory[req.foodId].row.currentStockKg.kg < req.amount.value
  {
  }

  /** After a registration the stock is the old stock less the total (to the
      hundredth) and never negative; the inventory row keeps its sync marker. */
  lemma StockAfterRegistration(inventory: Table<FeedItem>, usage: Table<FeedUsage>, req: FeedingRequest,
                               newIds: seq<Id>, today: int, now: int)
    requires |newIds| == |req.targetIds| && Distinct(newIds)
    requires Decide(inventory, req) == Registered
    requires inventory[req.foodId].row.currentStockKg.Kg?
    ensures var inv' := Effect(inventory, usage, req, newIds, today, now).0;
            && req.foodId in inv'
            && inv'[req.foodId].row.currentStockKg == Kg(Round2(inventory[req.foodId].row.currentStockKg.kg - req.amount.value))
            && inv'[req.foodId].row.currentStockKg.kg >= 0.0
            && inv'[req.foodId].syncStatus == inventory[req.foodId].syncStatus
            && (forall id :: id != req.foodId ==> (id in inv' <==> id in inventory) && (id in inv' ==> inv'[id] == inventory[id]))
  {
  }

  /** The bulk add: the old rows stay, and each new id holds its target's row. */
  lemma {:induction false} WithUsagesContents(usage: Table<FeedUsage>, foodId: Id, targets: seq<Id>, newIds: seq<Id>,
                                              amount: real, today: int, now: int)
    requires |newIds| == |targets| && Distinct(newIds)
    requires forall j :: 0 <= j < |newIds| ==> newIds[j] !in usage
    ensures var u' := WithUsages(usage, foodId, targets, newIds, amount, today, now);
            && u'.Keys == usage.Keys + Members(newIds)
            && (forall id :: id in usage ==> u'[id] == usage[id])
            && (forall j :: 0 <= j < |newIds| ==> u'[newIds[j]] == UsageFor(foodId, targets[j], amount, today, now))
    decreases |newIds|
  {
    if newIds != [] {
      var n := |newIds| - 1;
      WithUsagesContents(usage, foodId, targets[..n], newIds[..n], amount, today, now);
      var u := WithUsages(usage, foodId, targets[..n], newIds[..n], amount, today, now);
      assert Members(newIds) == Members(newIds[..n]) + {newIds[n]} by {
        assert newIds == newIds[..n] + [newIds[n]];
      }
      forall j | 0 <= j < |newIds| ensures WithUsages(usage, foodId, targets, newIds, amount, today, now)[newIds[j]] == UsageFor(foodId, targets[j], amount, today, now) {
        if j < n {
          assert newIds[..n][j] == newIds[j] && targets[..n][j] == targets[j];
        }
      }
    }
  }

  /** A registration logs exactly one pending row per target, under that
      target's new id, each with the rounded even share and the same feed. */
  lemma OneUsagePerTarget(inventory: Table<FeedItem>, usage: Table<FeedUsage>, req: FeedingRequest,
                          newIds: seq<Id>, today: int, now: int)
    requires |newIds| == |req.targetIds| && Distinct(newIds)
    requires forall j :: 0 <= j < |newIds| ==> newIds[j] !in usage
    requires Decide(inventory, req) == Registered
    ensures var u' := Effect(inventory, usage, req, newIds, today, now).1;
            && u'.Keys == usage.Keys + Members(newIds)
            && |u'| == |usage| + |req.targetIds|
            && (forall id :: id in usage ==> u'[id] == usage[id])
            && (forall j :: 0 <= j < |newIds| ==>
                  && u'[newIds[j]].row.pigId == Some(req.targetIds[j])
                  && u'[newIds[j]].row.feedId == req.foodId
                  && u'[newIds[j]].row.amountKg == PerTarget(req.amount.value, |req.targetIds|)
                  && u'[newIds[j]].syncStatus == Pending)
  {
    var amount := PerTarget(req.amount.value, |req.targetIds|);
    WithUsagesContents(usage, req.foodId, req.targetIds, newIds, amount, today, now);
    var added := Members(newIds);
    MembersCard(newIds);
    assert usage.Keys !! added;
    assert |usage.Keys + added| == |usage.Keys| + |added|;
  }

  /** The share differs from the exact quotient by at most half a hundredth. */
  lemma PerTargetIsEvenShare(total: real, n: nat)
    requires n > 0
    ensures total / n as real - 0.005 <= PerTarget(total, n) <= total / n as real + 0.005
  {
  }

  /** 50 kg over five pigs: five rows of 10 kg, and the stock drops by exactly 50 kg. */
  lemma FiftyKgOverFivePigs()
    ensures PerTarget(50.0, 5) == 10.0
    ensures StockAfter(Kg(120.0), 50.0) == Kg(70.0)
  {
    Round2Exact(1000);
    Round2Exact(7000);
  }

  /** 10 kg over three pigs logs 3.33 kg each (9.99 kg in all), yet the stock drops by 10 kg. */
  lemma RoundedSharesNeedNotAddUp()
    ensures PerTarget(10.0, 3) == 3.33
    ensures 3.0 * PerTarget(10.0, 3) != 10.0
    ensures StockAfter(Kg(10.0), 10.0) == Kg(0.0)
  {
    assert (10.0 / 3.0) * 100.0 + 0.5 == 1000.0 / 3.0 + 0.5;
    assert ((10.0 / 3.0) * 100.0 + 0.5).Floor == 333;
    Round2Exact(0);
  }
}
