/** A pig's estimated profitability (src/hooks/useProfitability.js): market
    value from the current weight, feed and health costs from the pig's
    records, and the profit and return derived from them. */
module Profitability {
  import opened Store
  import opened Quantities

  /** Market price per kilogram, in pesos. */
  const MarketPricePerKg: real := 8000.0

  /** What the hook returns. */
  datatype Stats = Stats(
    currentWeight: real,
    marketValue: real,
    feedCost: real,
    healthCost: real,
    totalCost: real,
    netProfit: real,
    roi: real,
    isProfitable: bool,
    isLoading: bool)

  /** The result while loading, and when there is no pig id or no pig.
      The fields it does not set read as 0 and false. */
  const Placeholder: Stats := Stats(0.0, 0.0, 0.0, 0.0, 0.0, 0.0, 0.0, false, true)

  /** The feed usage rows recorded against a pig. */
  function UsagesOf(usage: Table<FeedUsage>, pigId: Id): (ids: set<Id>)
    ensures forall id :: id in ids <==> id in usage && usage[id].row.pigId == Some(pigId)
  {
    set id | id in usage && usage[id].row.pigId == Some(pigId)
  }

  /** The health events recorded against a pig. */
  function EventsOf(events: Table<HealthEvent>, pigId: Id): (ids: set<Id>)
    ensures forall id :: id in ids <==> id in events && events[id].row.pigId == pigId
  {
    set id | id in events && events[id].row.pigId == pigId
  }

  /** One usage at the feed's current price; nothing when the feed is gone. */
  function UsageCost(usage: Table<FeedUsage>, inventory: Table<FeedItem>, id: Id): real
    requires id in usage
  {
    var u := usage[id].row;
    if u.feedId in inventory then u.amountKg * inventory[u.feedId].row.costPerKg else 0.0
  }

  /** The cost of the listed usages. */
  function FeedCost(usage: Table<FeedUsage>, inventory: Table<FeedItem>, ids: seq<Id>): real
    requires forall i :: 0 <= i < |ids| ==> ids[i] in usage
  {
    if ids == [] then 0.0
    else FeedCost(usage, inventory, ids[..|ids| - 1]) + UsageCost(usage, inventory, ids[|ids| - 1])
  }

  /** The loop over the pig's usages, one feed lookup each. */
  method SumFeedCost(usage: Table<FeedUsage>, inventory: Table<FeedItem>, ids: seq<Id>) returns (feedCost: real)
    requires forall i :: 0 <= i < |ids| ==> ids[i] in usage
    ensures feedCost == FeedCost(usage, inventory, ids)
  {
    feedCost := 0.0;
    var i := 0;
    while i < |ids|
      invariant 0 <= i <= |ids|
      invariant feedCost == FeedCost(usage, inventory, ids[..i])
    {
      var u := usage[ids[i]].row;
      if u.feedId in inventory {
        feedCost := feedCost + u.amountKg * inventory[u.feedId].row.costPerKg;
      }
      assert ids[..i + 1][..i] == ids[..i];
      i := i + 1;
    }
    assert ids[..i] == ids;
  }

  /** The health cost: the listed events' costs added up. */
  function HealthCost(events: Table<HealthEvent>, ids: seq<Id>): real
    requires forall i :: 0 <= i < |ids| ==> ids[i] in events
  {
    if ids == [] then 0.0 else HealthCost(events, ids[..|ids| - 1]) + events[ids[|ids| - 1]].row.cost
  }

  /** `pig.weight || 0`. */
  function CurrentWeight(pig: Pig): real
  {
    if pig.weight.Some? then pig.weight.value else 0.0
  }

  /** The figures for a pig, given its two cost totals. */
  function StatsOf(pigId: Id, pig: Option<Pig>, feedCost: real, healthCost: real): Stats
  {
    if pigId == "" || pig.None? then Placeholder
    else
      var weight := CurrentWeight(pig.value);
      var value := weight * MarketPricePerKg;
      var total := feedCost + healthCost;
      var profit := value - total;
      Stats(weight, value, feedCost, healthCost, total, profit,
            if total > 0.0 then Round1(profit / total * 100.0) else 0.0,
            profit > 0.0, false)
  }

  /** The hook: look the pig up, add its feed and health costs, derive the rest.
      `usageIds` and `eventIds` are the pig's rows as the queries list them. */
  method ComputeStats(db: LocalDb, pigId: Id, usageIds: seq<Id>, eventIds: seq<Id>) returns (stats: Stats)
    requires Enumerates(usageIds, UsagesOf(db.feedUsage, pigId))
    requires Enumerates(eventIds, EventsOf(db.healthEvents, pigId))
    ensures stats == StatsOf(pigId, if pigId in db.pigs then Some(db.pigs[pigId].row) else None,
                             FeedCost(db.feedUsage, db.feedInventory, usageIds),
                             HealthCost(db.healthEvents, eventIds))
  {
    if pigId == "" || pigId !in db.pigs {
      return Placeholder;
    }
    var feedCost := SumFeedCost(db.feedUsage, db.feedInventory, usageIds);
    stats := StatsOf(pigId, Some(db.pigs[pigId].row), feedCost, HealthCost(db.healthEvents, eventIds));
  }

  // ----- Properties -----

  /** Without a pig id or a pig the placeholder shows: zeros, still loading. */
  lemma NoPigShowsPlaceholder(pigId: Id, pig: Option<Pig>, feedCost: real, healthCost: real)
    requires pigId == "" || pig.None?
    ensures var s := StatsOf(pigId, pig, feedCost, healthCost);
            s.isLoading && s.totalCost == 0.0 && s.netProfit == 0.0 && s.roi == 0.0 && s.marketValue == 0.0
  {
  }

  /** For a pig: value is weight (0 when unknown) times the price, the total
      is feed plus health, profit is value less total, and the pig is
      profitable exactly when its value exceeds its costs. */
  lemma ProfitFigures(pigId: Id, pig: Pig, feedCost: real, healthCost: real)
    requires pigId != ""
    ensures var s := StatsOf(pigId, Some(pig), feedCost, healthCost);
            && !s.isLoading
            && (pig.weight.None? ==> s.marketValue == 0.0)
            && (pig.weight.Some? ==> s.marketValue == pig.weight.value * 8000.0)
            && s.totalCost == feedCost + healthCost
            && s.netProfit == s.marketValue - s.totalCost
            && (s.isProfitable <==> s.marketValue > feedCost + healthCost)
  {
  }

  /** The return is 0 without positive costs; otherwise it is the profit as
      a percentage of the costs to one decimal, with the profit's sign. */
  lemma ReturnOnCost(pigId: Id, pig: Pig, feedCost: real, healthCost: real)
    requires pigId != ""
    ensures var s := StatsOf(pigId, Some(pig), feedCost, healthCost);
            && (s.totalCost <= 0.0 ==> s.roi == 0.0)
            && (s.totalCost > 0.0 ==> s.netProfit / s.totalCost * 100.0 - 0.05 <= s.roi <= s.netProfit / s.totalCost * 100.0 + 0.05)
            && (s.totalCost > 0.0 && s.isProfitable ==> s.roi >= 0.0)
            && (s.totalCost > 0.0 && s.netProfit < 0.0 ==> s.roi <= 0.0)
  {
    var s := StatsOf(pigId, Some(pig), feedCost, healthCost);
    if s.totalCost > 0.0 {
      var q := s.netProfit / s.totalCost;
      assert s.netProfit > 0.0 ==> q > 0.0;
      assert s.netProfit < 0.0 ==> q < 0.0;
    }
  }

  /** A usage whose feed no longer exists adds nothing; any other adds its
      quantity at the feed's current price. */
  lemma FeedCostOfOneMore(usage: Table<FeedUsage>, inventory: Table<FeedItem>, ids: seq<Id>, id: Id)
    requires forall i :: 0 <= i < |ids| ==> ids[i] in usage
    requires id in usage
    ensures usage[id].row.feedId !in inventory ==> FeedCost(usage, inventory, ids + [id]) == FeedCost(usage, inventory, ids)
    ensures usage[id].row.feedId in inventory ==>
              FeedCost(usage, inventory, ids + [id]) == FeedCost(usage, inventory, ids) + usage[id].row.amountKg * inventory[usage[id].row.feedId].row.costPerKg
  {
    assert (ids + [id])[..|ids|] == ids;
  }

  /** Non-negative quantities at non-negative prices cost nothing negative. */
  lemma {:induction false} FeedCostNonNegative(usage: Table<FeedUsage>, inventory: Table<FeedItem>, ids: seq<Id>)
    requires forall i :: 0 <= i < |ids| ==> ids[i] in usage && usage[ids[i]].row.amountKg >= 0.0
    requires forall f :: f in inventory ==> inventory[f].row.costPerKg >= 0.0
    ensures FeedCost(usage, inventory, ids) >= 0.0
  {
    if ids != [] {
      FeedCostNonNegative(usage, inventory, ids[..|ids| - 1]);
      var u := usage[ids[|ids| - 1]].row;
      if u.feedId in inventory {
        assert u.amountKg * inventory[u.feedId].row.costPerKg >= 0.0;
      }
    }
  }

  /** When no listed usage has a feed left, the feed cost is 0. */
  lemma {:induction false} FeedCostWithoutFeeds(usage: Table<FeedUsage>, inventory: Table<FeedItem>, ids: seq<Id>)
    requires forall i :: 0 <= i < |ids| ==> ids[i] in usage && usage[ids[i]].row.feedId !in inventory
    ensures FeedCost(usage, inventory, ids) == 0.0
  {
    if ids != [] {
      FeedCostWithoutFeeds(usage, inventory, ids[..|ids| - 1]);
    }
  }

  /** Adding an event raises the health cost by that event's cost. */
  lemma HealthCostOfOneMore(events: Table<HealthEvent>, ids: seq<Id>, id: Id)
    requires forall i :: 0 <= i < |ids| ==> ids[i] in events
    requires id in events
    ensures HealthCost(events, ids + [id]) == HealthCost(events, ids) + events[id].row.cost
  {
    assert (ids + [id])[..|ids|] == ids;
  }
}
