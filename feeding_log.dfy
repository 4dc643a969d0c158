/** The mass-feeding page (src/pages/FeedingLog.jsx): pick a pen, split a total
    evenly over its active pigs and record one consumption per pig, one call
    after another, with no transaction around the loop. */
module FeedingLog {
  import opened Store
  import opened Inventory
  import opened JsNumbers
  import MovePigsModal

  /** The pigs of the chosen pen that are `Activo`; none while no pen is chosen.
      A soft-deleted pig that still reads `Activo` is included. */
  function ActivePigIds(pigs: Table<Pig>, penId: Id): (ids: set<Id>)
    ensures ids <= pigs.Keys
    ensures forall id :: id in pigs ==>
              (id in ids <==> penId != "" && pigs[id].row.penId == Some(penId) && pigs[id].row.status == Active)
  {
    if penId == "" then {}
    else set id | id in pigs && pigs[id].row.penId == Some(penId) && pigs[id].row.status == Active
  }

  /** The same query as the code writes it: the pen's id goes through
      `parseInt` before the store is asked, and `storedPen` is the key each
      pig's `pen_id` is indexed under (a pig absent from it is not indexed).
      Only pigs indexed under the number parsed from the id are found; an id
      that parses to NaN finds none. */
  function AsWrittenActivePigIds(pigs: Table<Pig>, storedPen: map<Id, LookupKey>, penId: Id): (ids: set<Id>)
    ensures ids <= pigs.Keys
    ensures forall id :: id in pigs ==>
              (id in ids <==> && penId != "" && ParseInt(penId).Number?
                              && id in storedPen && storedPen[id] == NumericKey(ParseInt(penId).n)
                              && pigs[id].row.status == Active)
  {
    if penId == "" then {}
    else match ParseInt(penId)
      case NaN => {}
      case Number(n) => set id | id in pigs && id in storedPen && storedPen[id] == NumericKey(n) && pigs[id].row.status == Active
  }

  /** The keys the pigs' `pen_id` values are indexed under when every pen id
      is stored as the text the pen carries, as the move dialog writes it. */
  function TextKeys(pigs: Table<Pig>): (keys: map<Id, LookupKey>)
    ensures forall id :: id in pigs ==>
              (id in keys <==> pigs[id].row.penId.Some?) && (id in keys ==> keys[id] == TextKey(pigs[id].row.penId.value))
  {
    map id | id in pigs && pigs[id].row.penId.Some? :: TextKey(pigs[id].row.penId.value)
  }

  /** The pens of the chosen section, deleted ones included (the pig
      registration page offers the same list). */
  function FilteredPens(pens: Table<Pen>, sectionId: Id): (ids: set<Id>)
    ensures ids <= pens.Keys
    ensures forall id :: id in pens ==> (id in ids <==> pens[id].row.sectionId == sectionId)
  {
    set id | id in pens && pens[id].row.sectionId == sectionId
  }

  /** Where a run of consumptions ends: how many committed, the error that
      stopped it (None when every pig was fed), and the two tables. */
  datatype Run = Run(committed: nat, stoppedBy: Option<ConsumptionError>,
                     inventory: Table<FeedItem>, usage: Table<FeedUsage>)

  /** One `recordConsumption` per pig, in order, stopping at the first throw. */
  function ConsumeAll(inventory: Table<FeedItem>, usage: Table<FeedUsage>, feedId: Id, amount: real,
                      pigs: seq<Id>, penId: Id, usageIds: seq<Id>, today: int, now: int): Run
    requires |usageIds| == |pigs|
    decreases |pigs|
  {
    if pigs == [] then Run(0, None, inventory, usage)
    else match Consumption(inventory, feedId, amount)
      case Thrown(e) => Run(0, Some(e), inventory, usage)
      case Consumed =>
        var (inv', use') := ConsumptionEffect(inventory, usage, feedId, amount, Some(pigs[0]), Some(penId), usageIds[0], today, now);
        var r := ConsumeAll(inv', use', feedId, amount, pigs[1..], penId, usageIds[1..], today, now);
        r.(committed := r.committed + 1)
  }

  datatype MassFeedOutcome =
    | NoActivePigs
    | IncompleteData
    | Declined
    | Fed(count: nat)
    | Stopped(committed: nat, error: ConsumptionError)

  /** `handleMassFeed`. `order` is the order in which the store lists the
      active pigs, `confirmed` the user's answer to the confirmation dialog,
      `usageIds` the fresh ids the consumptions draw. The total-amount field
      is cleared after a completed run and keeps its value otherwise. */
  method HandleMassFeed(db: LocalDb, penId: Id, feedId: Id, totalAmount: Option<real>, confirmed: bool,
                        order: seq<Id>, usageIds: seq<Id>, today: int, now: int)
    returns (outcome: MassFeedOutcome, totalAmount': Option<real>)
    requires Enumerates(order, ActivePigIds(db.pigs, penId))
    requires |usageIds| == |order| && Distinct(usageIds)
    requires forall j :: 0 <= j < |usageIds| ==> usageIds[j] !in db.feedUsage
    modifies db`feedInventory, db`feedUsage
    ensures totalAmount' == if outcome.Fed? then None else totalAmount
    ensures order == [] ==> outcome == NoActivePigs
    ensures order != [] && (feedId == "" || totalAmount.None?) ==> outcome == IncompleteData
    ensures order != [] && feedId != "" && totalAmount.Some? && !confirmed ==> outcome == Declined
    ensures outcome in {NoActivePigs, IncompleteData, Declined} ==>
              db.feedInventory == old(db.feedInventory) && db.feedUsage == old(db.feedUsage)
    ensures order != [] && feedId != "" && totalAmount.Some? && confirmed ==>
              var r := ConsumeAll(old(db.feedInventory), old(db.feedUsage), feedId, totalAmount.value / |order| as real,
                                  order, penId, usageIds, today, now);
              && db.feedInventory == r.inventory && db.feedUsage == r.usage
              && outcome == (if r.stoppedBy.None? then Fed(r.committed) else Stopped(r.committed, r.stoppedBy.value))
  {
    if order == [] {
      return NoActivePigs, totalAmount;
    }
    if feedId == "" || totalAmount.None? {
      return IncompleteData, totalAmount;
    }
    var amountPerPig := totalAmount.value / |order| as real;
    if !confirmed {
      return Declined, totalAmount;
    }
    ghost var goal := ConsumeAll(db.feedInventory, db.feedUsage, feedId, amountPerPig, order, penId, usageIds, today, now);
    var i := 0;
    while i < |order|
      invariant 0 <= i <= |order|
      invariant forall j :: i <= j < |usageIds| ==> usageIds[j] !in db.feedUsage
      invariant ConsumeAll(db.feedInventory, db.feedUsage, feedId, amountPerPig, order[i..], penId, usageIds[i..], today, now)
                  .(committed := ConsumeAll(db.feedInventory, db.feedUsage, feedId, amountPerPig, order[i..], penId, usageIds[i..], today, now).committed + i)
                == goal
    {
      var result := RecordConsumption(db, feedId, amountPerPig, Some(order[i]), Some(penId), usageIds[i], today, now);
      if result.Thrown? {
        return Stopped(i, result.error), totalAmount;
      }
      assert order[i..][1..] == order[i + 1..] && usageIds[i..][1..] == usageIds[i + 1..];
      i := i + 1;
    }
    return Fed(i), None;
  }

  // ----- Properties -----

  /** The run stops early exactly when some consumption threw; every pig
      before that point was fed, and one usage row per fed pig was logged,
      under its own id, with the even share, for that pig and pen. */
  lemma {:induction false} CommittedPrefix(inventory: Table<FeedItem>, usage: Table<FeedUsage>, feedId: Id, amount: real,
                                           pigs: seq<Id>, penId: Id, usageIds: seq<Id>, today: int, now: int)
    requires |usageIds| == |pigs| && Distinct(usageIds)
    requires forall j :: 0 <= j < |usageIds| ==> usageIds[j] !in usage
    ensures var r := ConsumeAll(inventory, usage, feedId, amount, pigs, penId, usageIds, today, now);
            && r.committed <= |pigs|
            && (r.stoppedBy.None? <==> r.committed == |pigs|)
            && r.usage.Keys == usage.Keys + (set j | 0 <= j < r.committed :: usageIds[j])
            && (forall id :: id in usage ==> r.usage[id] == usage[id])
            && (forall j :: 0 <= j < r.committed ==>
                  r.usage[usageIds[j]] == ConsumptionUsage(feedId, amount, Some(pigs[j]), Some(penId), today))
    decreases |pigs|
  {
    if pigs != [] && Consumption(inventory, feedId, amount) == Consumed {
      var (inv', use') := ConsumptionEffect(inventory, usage, feedId, amount, Some(pigs[0]), Some(penId), usageIds[0], today, now);
      assert use' == usage[usageIds[0] := ConsumptionUsage(feedId, amount, Some(pigs[0]), Some(penId), today)];
      forall j | 0 <= j < |usageIds[1..]| ensures usageIds[1..][j] !in use' {
        assert usageIds[1..][j] == usageIds[j + 1];
      }
      CommittedPrefix(inv', use', feedId, amount, pigs[1..], penId, usageIds[1..], today, now);
      var r := ConsumeAll(inventory, usage, feedId, amount, pigs, penId, usageIds, today, now);
      var rest := ConsumeAll(inv', use', feedId, amount, pigs[1..], penId, usageIds[1..], today, now);
      assert r == rest.(committed := rest.committed + 1);
      assert (set j | 0 <= j < r.committed :: usageIds[j]) == {usageIds[0]} + (set j | 0 <= j < rest.committed :: usageIds[1..][j]) by {
        forall j | 0 <= j < rest.committed ensures usageIds[1..][j] == usageIds[j + 1] {
        }
        forall j | 0 <= j < r.committed ensures usageIds[j] in {usageIds[0]} + (set j | 0 <= j < rest.committed :: usageIds[1..][j]) {
          if j > 0 { assert usageIds[j] == usageIds[1..][j - 1]; }
        }
      }
      forall j | 0 <= j < r.committed
        ensures r.usage[usageIds[j]] == ConsumptionUsage(feedId, amount, Some(pigs[j]), Some(penId), today)
      {
        if j > 0 {
          assert usageIds[j] == usageIds[1..][j - 1] && pigs[j] == pigs[1..][j - 1];
        } else {
          assert usageIds[0] !in (set j | 0 <= j < rest.committed :: usageIds[1..][j]) by {
            forall k | 0 <= k < rest.committed ensures usageIds[1..][k] != usageIds[0] {
              assert usageIds[1..][k] == usageIds[k + 1];
            }
          }
        }
      }
    }
  }

  /** A numeric stock ends lowered by exactly one share per committed pig, and
      below zero only if it already was and no pig was fed; the item's other
      fields are left alone. */
  lemma {:induction false} StockAfterRun(inventory: Table<FeedItem>, usage: Table<FeedUsage>, feedId: Id, amount: real,
                                         pigs: seq<Id>, penId: Id, usageIds: seq<Id>, today: int, now: int)
    requires |usageIds| == |pigs|
    requires feedId in inventory && StockOf(inventory[feedId].row).Some?
    ensures var r := ConsumeAll(inventory, usage, feedId, amount, pigs, penId, usageIds, today, now);
            var s := StockOf(inventory[feedId].row).value;
            && feedId in r.inventory
            && StockOf(r.inventory[feedId].row) == Some(s - r.committed as real * amount)
            && (r.committed > 0 ==> s - r.committed as real * amount >= 0.0)
            && r.inventory.Keys == inventory.Keys
            && r.inventory[feedId].row.name == inventory[feedId].row.name
    decreases |pigs|
  {
    var s := StockOf(inventory[feedId].row).value;
    if pigs != [] && Consumption(inventory, feedId, amount) == Consumed {
      var (inv', use') := ConsumptionEffect(inventory, usage, feedId, amount, Some(pigs[0]), Some(penId), usageIds[0], today, now);
      assert StockOf(inv'[feedId].row) == Some(s - amount);
      StockAfterRun(inv', use', feedId, amount, pigs[1..], penId, usageIds[1..], today, now);
      var rest := ConsumeAll(inv', use', feedId, amount, pigs[1..], penId, usageIds[1..], today, now);
      assert (s - amount) - rest.committed as real * amount == s - (rest.committed + 1) as real * amount;
    }
  }

  /** Not all-or-nothing: 25 kg in stock and 30 kg over three pigs feeds two
      pigs (logging their rows and leaving 5 kg), then stops on the third. */
  lemma PartialRunStaysCommitted(feedId: Id, item: FeedItem, pigs: seq<Id>, penId: Id, usageIds: seq<Id>, today: int, now: int)
    requires item.currentStockKg == Kg(25.0)
    requires |pigs| == 3 && |usageIds| == 3
    ensures var r := ConsumeAll(map[feedId := Tracked(item, Synced)], map[], feedId, 30.0 / 3.0, pigs, penId, usageIds, today, now);
            && r.committed == 2 && r.stoppedBy == Some(NotEnoughStock)
            && feedId in r.inventory && r.inventory[feedId].row.currentStockKg == Kg(5.0)
            && usageIds[0] in r.usage && usageIds[1] in r.usage
  {
    var inv0 := map[feedId := Tracked(item, Synced)];
    var (inv1, use1) := ConsumptionEffect(inv0, map[], feedId, 10.0, Some(pigs[0]), Some(penId), usageIds[0], today, now);
    assert inv1[feedId].row.currentStockKg == Kg(15.0);
    var (inv2, use2) := ConsumptionEffect(inv1, use1, feedId, 10.0, Some(pigs[1]), Some(penId), usageIds[1], today, now);
    assert inv2[feedId].row.currentStockKg == Kg(5.0);
    assert Consumption(inv2, feedId, 10.0) == Thrown(NotEnoughStock);
    assert pigs[1..][1..] == pigs[2..] && usageIds[1..][1..] == usageIds[2..];
    assert ConsumeAll(inv2, use2, feedId, 10.0, pigs[2..], penId, usageIds[2..], today, now) == Run(0, Some(NotEnoughStock), inv2, use2);
    assert ConsumeAll(inv1, use1, feedId, 10.0, pigs[1..], penId, usageIds[1..], today, now) == Run(1, Some(NotEnoughStock), inv2, use2);
    assert 30.0 / 3.0 == 10.0;
    assert ConsumeAll(inv0, map[], feedId, 10.0, pigs, penId, usageIds, today, now) == Run(2, Some(NotEnoughStock), inv2, use2);
  }

  /** With the query as written, a pig moved into a pen is never fed with
      it: the move stores the pen's text id, and the query asks for a
      number, so no pig stored by the move is found, while the query by the
      pen's own id finds every moved pig that is `Activo`. */
  lemma MovedPigIsNotFed(pigs: Table<Pig>, selected: set<Id>, penId: Id, now: int, id: Id)
    requires penId != "" && id in pigs && id in selected && pigs[id].row.status == Active
    ensures var moved := MovePigsModal.Moved(pigs, selected, penId, now);
            && id in ActivePigIds(moved, penId)
            && AsWrittenActivePigIds(moved, TextKeys(moved), penId) == {}
  {
  }

  /** A pig moved into a pen, and still `Activo`, is among that pen's pigs
      to feed by the pen's own id; pigs not moved keep whatever membership
      they had. */
  lemma MovedPigsAreFed(pigs: Table<Pig>, selected: set<Id>, penId: Id, now: int, id: Id)
    requires penId != "" && id in pigs
    ensures id in selected && pigs[id].row.status == Active ==>
              id in ActivePigIds(MovePigsModal.Moved(pigs, selected, penId, now), penId)
    ensures id !in selected ==>
              (id in ActivePigIds(MovePigsModal.Moved(pigs, selected, penId, now), penId) <==> id in ActivePigIds(pigs, penId))
  {
  }
}
