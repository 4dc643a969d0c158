/** Moving pigs between pens (src/components/MovePigsModal.jsx): the pens a
    section offers, the target pen's occupancy and capacity, the capacity gate,
    and the bulk `pen_id` update done in one transaction. */
module MovePigsModal {
  import opened Store

  /** The pens offered: not deleted, and in the chosen section (none until a
      section is chosen). */
  function AvailablePens(pens: Table<Pen>, sectionId: Id): (ids: set<Id>)
    ensures ids <= pens.Keys
    ensures sectionId == "" ==> ids == {}
    ensures forall id :: id in pens ==>
              (id in ids <==> sectionId != "" && pens[id].row.deletedAt.None? && pens[id].row.sectionId == sectionId)
  {
    if sectionId == "" then {}
    else set id | id in pens && pens[id].row.deletedAt.None? && pens[id].row.sectionId == sectionId
  }

  /** The pigs counted in a pen: not deleted, whatever their status. */
  function Occupants(pigs: Table<Pig>, penId: Id): (ids: set<Id>)
    ensures ids <= pigs.Keys
    ensures forall id :: id in pigs ==> (id in ids <==> pigs[id].row.deletedAt.None? && pigs[id].row.penId == Some(penId))
  {
    set id | id in pigs && pigs[id].row.deletedAt.None? && pigs[id].row.penId == Some(penId)
  }

  /** The occupancy shown: 0 while no pen is chosen. */
  function Occupancy(pigs: Table<Pig>, penId: Id): (n: nat)
    ensures penId == "" ==> n == 0
    ensures penId != "" ==> n == |Occupants(pigs, penId)|
  {
    if penId == "" then 0 else |Occupants(pigs, penId)|
  }

  /** `targetPen?.capacity || 0`: a pen that is not offered, or whose capacity
      is missing or zero, counts as capacity 0. */
  function Capacity(pens: Table<Pen>, sectionId: Id, penId: Id): int
  {
    if penId in AvailablePens(pens, sectionId) && pens[penId].row.capacity.Some? then pens[penId].row.capacity.value
    else 0
  }

  /** The gate: a pen is chosen and the move would take it past capacity. */
  predicate IsOverCapacity(pigs: Table<Pig>, pens: Table<Pen>, sectionId: Id, penId: Id, moveCount: nat)
  {
    penId != "" && Occupancy(pigs, penId) + moveCount > Capacity(pens, sectionId, penId)
  }

  /** The pig table after the move: each selected pig that exists is put in
      the target pen, stamped and marked pending. */
  function Moved(pigs: Table<Pig>, selected: set<Id>, penId: Id, now: int): (t: Table<Pig>)
    ensures t.Keys == pigs.Keys
  {
    map id | id in pigs ::
      if id in selected then Tracked(pigs[id].row.(penId := Some(penId), updatedAt := Some(now)), Pending)
      else pigs[id]
  }

  /** `handleSubmit`. Nothing happens without a pen or over capacity;
      otherwise every selected pig is updated. */
  method HandleSubmit(db: LocalDb, sectionId: Id, penId: Id, selectedPigIds: seq<Id>, now: int)
    returns (moved: bool)
    modifies db`pigs
    ensures moved <==> penId != "" && !IsOverCapacity(old(db.pigs), db.pens, sectionId, penId, |selectedPigIds|)
    ensures db.pigs == if moved then Moved(old(db.pigs), Members(selectedPigIds), penId, now) else old(db.pigs)
  {
    if penId == "" || IsOverCapacity(db.pigs, db.pens, sectionId, penId, |selectedPigIds|) {
      return false;
    }
    ghost var before := db.pigs;
    var i := 0;
    while i < |selectedPigIds|
      invariant 0 <= i <= |selectedPigIds|
      invariant db.pigs == Moved(before, Members(selectedPigIds[..i]), penId, now)
    {
      var id := selectedPigIds[i];
      if id in db.pigs {
        db.pigs := db.pigs[id := Tracked(db.pigs[id].row.(penId := Some(penId), updatedAt := Some(now)), Pending)];
      }
      assert Members(selectedPigIds[..i + 1]) == Members(selectedPigIds[..i]) + {id} by {
        assert selectedPigIds[..i + 1] == selectedPigIds[..i] + [id];
      }
      i := i + 1;
    }
    assert selectedPigIds[..i] == selectedPigIds;
    return true;
  }

  // ----- Properties -----

  /** The move touches exactly the selected pigs that exist. */
  lemma MoveChangesOnlySelected(pigs: Table<Pig>, selected: set<Id>, penId: Id, now: int, id: Id)
    requires id in pigs
    ensures id in selected ==> Moved(pigs, selected, penId, now)[id].row.penId == Some(penId)
                               && Moved(pigs, selected, penId, now)[id].row.updatedAt == Some(now)
                               && Moved(pigs, selected, penId, now)[id].syncStatus == Pending
                               && Moved(pigs, selected, penId, now)[id].row.deletedAt == pigs[id].row.deletedAt
                               && Moved(pigs, selected, penId, now)[id].row == pigs[id].row.(penId := Some(penId), updatedAt := Some(now))
    ensures id !in selected ==> Moved(pigs, selected, penId, now)[id] == pigs[id]
  {
  }

  /** A move the gate lets through leaves the target pen at or under its
      capacity (pigs already in it that were selected count twice before). */
  lemma MoveRespectsCapacity(pigs: Table<Pig>, pens: Table<Pen>, sectionId: Id, penId: Id, selectedPigIds: seq<Id>, now: int)
    requires penId != ""
    requires !IsOverCapacity(pigs, pens, sectionId, penId, |selectedPigIds|)
    ensures Occupancy(Moved(pigs, Members(selectedPigIds), penId, now), penId) <= Capacity(pens, sectionId, penId)
  {
    var after := Occupants(Moved(pigs, Members(selectedPigIds), penId, now), penId);
    var before := Occupants(pigs, penId);
    var sel := Members(selectedPigIds);
    assert after <= before + sel;
    SubsetCard(after, before + sel);
    MembersCard(selectedPigIds);
  }

  /** Occupancy never decreases in the target pen by a move into it. */
  lemma MoveKeepsOccupants(pigs: Table<Pig>, selected: set<Id>, penId: Id, now: int)
    ensures Occupants(pigs, penId) <= Occupants(Moved(pigs, selected, penId, now), penId)
  {
  }

  lemma SubsetCard(a: set<Id>, b: set<Id>)
    requires a <= b
    ensures |a| <= |b|
  {
    assert b == a + (b - a);
  }
}
