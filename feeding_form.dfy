/** The feeding form (src/components/FeedingForm.jsx): choose the pigs to feed
    (a whole stage, or one pig) among the active ones, and hand them with the
    entered total to `registerFeeding`. */
module FeedingForm {
  import opened Store
  import opened Quantities
  import opened Feeding

  /** The pigs the form lists: those whose status is `Activo`. */
  function ActiveIds(pigs: Table<Pig>): (ids: set<Id>)
    ensures ids <= pigs.Keys
    ensures forall id :: id in pigs ==> (id in ids <==> pigs[id].row.status == Active)
  {
    set id | id in pigs && pigs[id].row.status == Active
  }

  /** Whether one listed pig is a target: in batch mode its `etapa` is the
      chosen stage (a pig recorded with only `stage` never matches), in
      individual mode its id is the chosen one. */
  predicate IsTarget(p: Pig, id: Id, mode: FeedingMode, stage: string, pigId: Id)
  {
    if mode == Batch then p.etapa == Some(stage) else id == pigId
  }

  /** `targetPigs.map(p => p.id)`: the listed pigs that are targets, in list order. */
  function TargetIds(pigs: Table<Pig>, listed: seq<Id>, mode: FeedingMode, stage: string, pigId: Id): seq<Id>
    requires forall i :: 0 <= i < |listed| ==> listed[i] in pigs
    decreases |listed|
  {
    if listed == [] then []
    else
      var rest := TargetIds(pigs, listed[1..], mode, stage, pigId);
      if IsTarget(pigs[listed[0]].row, listed[0], mode, stage, pigId) then [listed[0]] + rest else rest
  }

  /** The form's own state. The amount is None while its field is empty. */
  class FeedingFormState {
    var mode: FeedingMode
    var selectedStage: string
    var selectedPigId: Id
    var selectedFeedId: Id
    var amount: Option<real>

    constructor ()
      ensures mode == Batch && selectedStage == "Levante" && selectedPigId == "" && selectedFeedId == "" && amount == None
    {
      mode, selectedStage, selectedPigId, selectedFeedId, amount := Batch, "Levante", "", "", None;
    }

    /** The average shown under the amount: only in batch mode, with an
        amount entered and at least one target. */
    function AverageShown(targets: nat): (avg: Option<real>)
      reads this
      ensures avg.Some? <==> mode == Batch && amount.Some? && targets > 0
      ensures avg.Some? ==> avg.value == PerTarget(amount.value, targets)
    {
      if mode == Batch && amount.Some? && targets > 0 then Some(Round2(amount.value / targets as real)) else None
    }

    /** `handleSubmit`: register the feeding for the current targets; the
        amount is cleared on success and kept on failure. `listed` is the
        store's listing of the active pigs, `newIds` the fresh usage ids. */
    method HandleSubmit(db: LocalDb, listed: seq<Id>, newIds: seq<Id>, today: int, now: int)
      returns (result: FeedingResult)
      requires Enumerates(listed, ActiveIds(db.pigs))
      requires |newIds| == |TargetIds(db.pigs, listed, mode, selectedStage, selectedPigId)| && Distinct(newIds)
      requires forall j :: 0 <= j < |newIds| ==> newIds[j] !in db.feedUsage
      modifies this`amount, db`feedInventory, db`feedUsage
      ensures var req := FeedingRequest(mode, selectedFeedId, old(amount), TargetIds(db.pigs, listed, mode, selectedStage, selectedPigId));
              && result == Decide(old(db.feedInventory), req)
              && (db.feedInventory, db.feedUsage) == Effect(old(db.feedInventory), old(db.feedUsage), req, newIds, today, now)
      ensures amount == if result == Registered then None else old(amount)
    {
      var targetIds := TargetIds(db.pigs, listed, mode, selectedStage, selectedPigId);
      result := RegisterFeeding(db, FeedingRequest(mode, selectedFeedId, amount, targetIds), newIds, today, now);
      if result == Registered {
        amount := None;
      }
    }
  }

  // ----- Properties -----

  /** The targets are exactly the listed pigs that pass the mode's test, and
      a list without repeats gives targets without repeats. */
  lemma {:induction false} TargetIdsExactly(pigs: Table<Pig>, listed: seq<Id>, mode: FeedingMode, stage: string, pigId: Id)
    requires forall i :: 0 <= i < |listed| ==> listed[i] in pigs
    ensures var ts := TargetIds(pigs, listed, mode, stage, pigId);
            && |ts| <= |listed|
            && (forall id :: id in ts <==> id in listed && IsTarget(pigs[id].row, id, mode, stage, pigId))
            && (Distinct(listed) ==> Distinct(ts))
    decreases |listed|
  {
    if listed != [] {
      var tail := listed[1..];
      assert forall i :: 0 <= i < |tail| ==> tail[i] == listed[i + 1];
      TargetIdsExactly(pigs, tail, mode, stage, pigId);
      forall id ensures id in listed <==> id == listed[0] || id in tail {
        assert listed == [listed[0]] + tail;
      }
      var ts := TargetIds(pigs, listed, mode, stage, pigId);
      var rest := TargetIds(pigs, tail, mode, stage, pigId);
      if Distinct(listed) {
        assert Distinct(tail);
        if IsTarget(pigs[listed[0]].row, listed[0], mode, stage, pigId) {
          assert listed[0] !in tail by {
            forall i | 0 <= i < |tail| ensures tail[i] != listed[0] {
              assert tail[i] == listed[i + 1];
            }
          }
          assert listed[0] !in rest;
          forall i, j | 0 <= i < j < |ts| ensures ts[i] != ts[j] {
            if i == 0 {
              assert ts[j] == rest[j - 1];
            } else {
              assert ts[i] == rest[i - 1] && ts[j] == rest[j - 1];
            }
          }
        }
      }
    }
  }

  /** Where each target sits in the listing, position by position. */
  ghost function TargetPositions(pigs: Table<Pig>, listed: seq<Id>, mode: FeedingMode, stage: string, pigId: Id): seq<nat>
    requires forall i :: 0 <= i < |listed| ==> listed[i] in pigs
    decreases |listed|
  {
    if listed == [] then []
    else
      var rest := TargetPositions(pigs, listed[1..], mode, stage, pigId);
      var shifted := seq(|rest|, k requires 0 <= k < |rest| => rest[k] + 1);
      if IsTarget(pigs[listed[0]].row, listed[0], mode, stage, pigId) then [0] + shifted else shifted
  }

  /** The targets keep the listing's order: the k-th target sits at the k-th
      of a strictly increasing run of positions in the listing. */
  lemma {:induction false} TargetsKeepListOrder(pigs: Table<Pig>, listed: seq<Id>, mode: FeedingMode, stage: string, pigId: Id)
    requires forall i :: 0 <= i < |listed| ==> listed[i] in pigs
    ensures var ts := TargetIds(pigs, listed, mode, stage, pigId);
            var ps := TargetPositions(pigs, listed, mode, stage, pigId);
            && |ps| == |ts|
            && (forall k :: 0 <= k < |ps| ==> ps[k] < |listed| && listed[ps[k]] == ts[k])
            && (forall k, l :: 0 <= k < l < |ps| ==> ps[k] < ps[l])
    decreases |listed|
  {
    if listed != [] {
      var tail := listed[1..];
      assert forall i :: 0 <= i < |tail| ==> tail[i] == listed[i + 1];
      TargetsKeepListOrder(pigs, tail, mode, stage, pigId);
      var rts := TargetIds(pigs, tail, mode, stage, pigId);
      var rest := TargetPositions(pigs, tail, mode, stage, pigId);
      var shifted := seq(|rest|, k requires 0 <= k < |rest| => rest[k] + 1);
      assert forall k :: 0 <= k < |shifted| ==> shifted[k] < |listed| && listed[shifted[k]] == rts[k] by {
        forall k | 0 <= k < |shifted| ensures shifted[k] < |listed| && listed[shifted[k]] == rts[k] {
          assert listed[shifted[k]] == tail[rest[k]];
        }
      }
    }
  }

  /** Over the active pigs, batch mode targets exactly the active pigs of
      the chosen stage. */
  lemma BatchTargetsTheStage(pigs: Table<Pig>, listed: seq<Id>, stage: string, id: Id)
    requires Enumerates(listed, ActiveIds(pigs))
    ensures id in TargetIds(pigs, listed, Batch, stage, "")
            <==> id in pigs && pigs[id].row.status == Active && pigs[id].row.etapa == Some(stage)
  {
    TargetIdsExactly(pigs, listed, Batch, stage, "");
  }

  /** Individual mode feeds the chosen pig alone when it is active, and
      nobody otherwise. */
  lemma IndividualTargetsOnePig(pigs: Table<Pig>, listed: seq<Id>, pigId: Id)
    requires Enumerates(listed, ActiveIds(pigs))
    ensures pigId in ActiveIds(pigs) ==> TargetIds(pigs, listed, Individual, "", pigId) == [pigId]
    ensures pigId !in ActiveIds(pigs) ==> TargetIds(pigs, listed, Individual, "", pigId) == []
  {
    var ts := TargetIds(pigs, listed, Individual, "", pigId);
    TargetIdsExactly(pigs, listed, Individual, "", pigId);
    assert Distinct(listed);
    MembersCard(ts);
    assert Members(ts) == {} || Members(ts) == {pigId};
    assert |ts| <= 1;
    if pigId in ActiveIds(pigs) {
      assert pigId in ts;
    }
  }
}
