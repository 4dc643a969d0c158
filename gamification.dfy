/** Points for the current user (src/hooks/useGamification.js): rows added by
    `addPoints` and the running total `weeklyPoints`. */
module Gamification {
  import opened Store

  /** Every row is credited to this fixed user. */
  const CurrentUser: string := "current-user"

  /** The row `addPoints` stores. */
  function PointsEntry(points: int, reason: string, today: int, now: int): Tracked<PointsRow>
  {
    Tracked(PointsRow(CurrentUser, points, reason, today, now, now), Pending)
  }

  /** `addPoints`, 10 points unless told otherwise. When the store refuses
      the row (`storageFails`) nothing is written and the failure does not
      reach the caller. */
  method AddPoints(db: LocalDb, reason: string, newId: Id, today: int, now: int, storageFails: bool, points: int := 10)
    requires newId !in db.userPoints
    modifies db`userPoints
    ensures storageFails ==> db.userPoints == old(db.userPoints)
    ensures !storageFails ==> db.userPoints == old(db.userPoints)[newId := PointsEntry(points, reason, today, now)]
  {
    if !storageFails {
      db.userPoints := db.userPoints[newId := PointsEntry(points, reason, today, now)];
    }
  }

  /** The rows of the current user. */
  function CurrentUserRows(t: Table<PointsRow>): (ids: set<Id>)
    ensures forall id :: id in ids <==> id in t && t[id].row.userId == CurrentUser
  {
    set id | id in t && t[id].row.userId == CurrentUser
  }

  /** The points of the listed rows, added left to right. */
  function Total(t: Table<PointsRow>, ids: seq<Id>): int
    requires forall i :: 0 <= i < |ids| ==> ids[i] in t
  {
    if ids == [] then 0 else Total(t, ids[..|ids| - 1]) + t[ids[|ids| - 1]].row.points
  }

  /** `weeklyPoints`: the total over the current user's rows as the query
      lists them (every date counts). */
  function WeeklyPoints(t: Table<PointsRow>, order: seq<Id>): int
    requires Enumerates(order, CurrentUserRows(t))
  {
    Total(t, order)
  }

  // ----- Properties -----

  /** Taking one row out of the list lowers the total by its points. */
  lemma {:induction false} TotalWithout(t: Table<PointsRow>, ids: seq<Id>, k: int, rest: seq<Id>)
    requires forall i :: 0 <= i < |ids| ==> ids[i] in t
    requires 0 <= k < |ids| && rest == ids[..k] + ids[k + 1..]
    ensures forall i :: 0 <= i < |rest| ==> rest[i] in t
    ensures Total(t, ids) == Total(t, rest) + t[ids[k]].row.points
  {
    var n := |ids| - 1;
    assert forall i :: 0 <= i < |rest| ==> rest[i] == (if i < k then ids[i] else ids[i + 1]);
    if k == n {
      assert rest == ids[..n];
    } else {
      var init := ids[..n];
      TotalWithout(t, init, k, init[..k] + init[k + 1..]);
      assert rest[..|rest| - 1] == init[..k] + init[k + 1..];
      assert rest[|rest| - 1] == ids[n];
    }
  }

  /** Lists holding the same rows have the same total. */
  lemma {:induction false} TotalIgnoresOrder(t: Table<PointsRow>, a: seq<Id>, b: seq<Id>)
    requires forall i :: 0 <= i < |a| ==> a[i] in t
    requires forall i :: 0 <= i < |b| ==> b[i] in t
    requires multiset(a) == multiset(b)
    ensures Total(t, a) == Total(t, b)
  {
    if a == [] {
      assert |b| == |multiset(b)| == 0;
    } else {
      var n := |a| - 1;
      var x := a[n];
      assert a == a[..n] + [x];
      assert x in multiset(b);
      var k :| 0 <= k < |b| && b[k] == x;
      var rest := b[..k] + b[k + 1..];
      assert b == b[..k] + [x] + b[k + 1..];
      assert multiset(rest) == multiset(b) - multiset{x};
      TotalWithout(t, b, k, rest);
      TotalIgnoresOrder(t, a[..n], rest);
    }
  }

  /** A list without repeats holds each of its ids once. */
  lemma {:induction false} DistinctMultiset(ids: seq<Id>)
    requires Distinct(ids)
    ensures forall x :: multiset(ids)[x] == (if x in ids then 1 else 0)
  {
    if ids != [] {
      var n := |ids| - 1;
      assert ids == ids[..n] + [ids[n]];
      DistinctMultiset(ids[..n]);
      assert ids[n] !in ids[..n];
    }
  }

  /** The points do not depend on the order the query returns the rows in. */
  lemma WeeklyPointsIgnoresOrder(t: Table<PointsRow>, o1: seq<Id>, o2: seq<Id>)
    requires Enumerates(o1, CurrentUserRows(t)) && Enumerates(o2, CurrentUserRows(t))
    ensures WeeklyPoints(t, o1) == WeeklyPoints(t, o2)
  {
    DistinctMultiset(o1);
    DistinctMultiset(o2);
    assert multiset(o1) == multiset(o2);
    TotalIgnoresOrder(t, o1, o2);
  }

  /** Without rows the total is 0. */
  lemma NoRowsNoPoints(t: Table<PointsRow>, order: seq<Id>)
    requires CurrentUserRows(t) == {}
    requires Enumerates(order, CurrentUserRows(t))
    ensures WeeklyPoints(t, order) == 0
  {
  }

  /** The total over rows other than `newId` is the same once `newId` is stored. */
  lemma {:induction false} TotalIgnoresOtherRows(t: Table<PointsRow>, ids: seq<Id>, newId: Id, row: Tracked<PointsRow>)
    requires forall i :: 0 <= i < |ids| ==> ids[i] in t && ids[i] != newId
    ensures Total(t[newId := row], ids) == Total(t, ids)
  {
    if ids != [] {
      TotalIgnoresOtherRows(t, ids[..|ids| - 1], newId, row);
    }
  }

  /** Adding k points raises the total by exactly k, however the rows come back. */
  lemma AddingRaisesTotal(t: Table<PointsRow>, order: seq<Id>, order': seq<Id>, newId: Id,
                          points: int, reason: string, today: int, now: int)
    requires newId !in t
    requires Enumerates(order, CurrentUserRows(t))
    requires Enumerates(order', CurrentUserRows(t[newId := PointsEntry(points, reason, today, now)]))
    ensures WeeklyPoints(t[newId := PointsEntry(points, reason, today, now)], order') == WeeklyPoints(t, order) + points
  {
    var t' := t[newId := PointsEntry(points, reason, today, now)];
    var o := order + [newId];
    assert o[..|o| - 1] == order;
    forall i | 0 <= i < |order| ensures order[i] != newId {
      assert order[i] in t;
    }
    TotalIgnoresOtherRows(t, order, newId, PointsEntry(points, reason, today, now));
    assert Total(t', o) == Total(t, order) + points;
    assert Enumerates(o, CurrentUserRows(t'));
    WeeklyPointsIgnoresOrder(t', o, order');
  }
}
