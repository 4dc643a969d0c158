/** One pig's page (src/components/PigDetail.jsx): logging a weight, the
    health-event form with its medication withdrawal date, and soft deletion. */
module PigDetail {
  import opened Store

  /** The weight form; `weight` is None while its field is empty. */
  datatype WeightForm = WeightForm(weight: Option<real>, date: int)

  /** The health form. `medicationId` is "" for "none", `cost` None when the
      field is empty or does not parse. The form has no input for
      `withdrawalEnd`: only picking a medication or changing the date sets
      it, and it is None while no end has been computed. */
  datatype HealthForm = HealthForm(
    kind: string,
    description: string,
    date: int,
    cost: Option<real>,
    medicationId: Id,
    withdrawalEnd: Option<int>)

  /** The health form as it starts and as it is reset. */
  function EmptyHealthForm(today: int): HealthForm
  {
    HealthForm("Vacunación", "", today, None, "", None)
  }

  /** The medications offered in the form: the ones not deleted. */
  function OfferedMedications(medications: map<Id, Medication>): (ids: set<Id>)
    ensures ids <= medications.Keys
    ensures forall id :: id in medications ==> (id in ids <==> medications[id].deletedAt.None?)
  {
    set id | id in medications && medications[id].deletedAt.None?
  }

  /** The withdrawal period a medication imposes, when it imposes one. */
  predicate HasWithdrawal(medications: map<Id, Medication>, medId: Id)
  {
    medId != "" && medId in medications && medications[medId].withdrawalDays.Some? && medications[medId].withdrawalDays.value > 0
  }

  /** The end of withdrawal for an event on `date`: that many days later,
      or none. */
  function WithdrawalEnd(medications: map<Id, Medication>, medId: Id, date: int): Option<int>
  {
    if HasWithdrawal(medications, medId) then Some(date + medications[medId].withdrawalDays.value) else None
  }

  /** `handleMedicationChange`: a new medication recomputes the end from the
      event date, and clears it when the medication imposes none. */
  function MedicationChanged(form: HealthForm, medications: map<Id, Medication>, medId: Id): HealthForm
  {
    form.(medicationId := medId, withdrawalEnd := WithdrawalEnd(medications, medId, form.date))
  }

  /** `handleDateChange`: a new date recomputes the end only for a medication
      that imposes a withdrawal; otherwise the end is kept as it was. */
  function DateChanged(form: HealthForm, medications: map<Id, Medication>, newDate: int): HealthForm
  {
    var end := if HasWithdrawal(medications, form.medicationId) then WithdrawalEnd(medications, form.medicationId, newDate)
               else form.withdrawalEnd;
    form.(date := newDate, withdrawalEnd := end)
  }

  /** The form's withdrawal end is the one its medication and date call for. */
  predicate WithdrawalConsistent(form: HealthForm, medications: map<Id, Medication>)
  {
    form.withdrawalEnd == WithdrawalEnd(medications, form.medicationId, form.date)
  }

  /** The event `handleAddHealth` stores. */
  function HealthEventOf(pigId: Id, form: HealthForm): (e: Tracked<HealthEvent>)
  {
    var med := if form.medicationId == "" then None else Some(form.medicationId);
    var cost := if form.cost.Some? then form.cost.value else 0.0;
    Tracked(HealthEvent(pigId, form.kind, form.description, form.date, cost, med, form.withdrawalEnd), Pending)
  }

  /** `handleAddWeight`: with a weight entered, log it and make it the pig's
      current weight, whatever the log's date; then reset the form. */
  method HandleAddWeight(db: LocalDb, pigId: Id, form: WeightForm, newId: Id, today: int, now: int)
    returns (form': WeightForm)
    requires newId !in db.weightLogs
    modifies db`weightLogs, db`pigs
    ensures form.weight.None? ==> db.weightLogs == old(db.weightLogs) && db.pigs == old(db.pigs) && form' == form
    ensures form.weight.Some? ==>
              && db.weightLogs == old(db.weightLogs)[newId := Tracked(WeightLog(pigId, form.weight, Some(form.date), None, None), Pending)]
              && db.pigs == (if pigId in old(db.pigs)
                             then old(db.pigs)[pigId := Tracked(old(db.pigs)[pigId].row.(weight := form.weight, updatedAt := Some(now)), Pending)]
                             else old(db.pigs))
              && form' == WeightForm(None, today)
  {
    if form.weight.None? {
      return form;
    }
    db.weightLogs := db.weightLogs[newId := Tracked(WeightLog(pigId, form.weight, Some(form.date), None, None), Pending)];
    if pigId in db.pigs {
      db.pigs := db.pigs[pigId := Tracked(db.pigs[pigId].row.(weight := form.weight, updatedAt := Some(now)), Pending)];
    }
    form' := WeightForm(None, today);
  }

  /** `handleAddHealth`: store the event, then reset the form. */
  method HandleAddHealth(db: LocalDb, pigId: Id, form: HealthForm, newId: Id, today: int)
    returns (form': HealthForm)
    requires newId !in db.healthEvents
    modifies db`healthEvents
    ensures db.healthEvents == old(db.healthEvents)[newId := HealthEventOf(pigId, form)]
    ensures form' == EmptyHealthForm(today)
  {
    db.healthEvents := db.healthEvents[newId := HealthEventOf(pigId, form)];
    form' := EmptyHealthForm(today);
  }

  /** `handleDeletePig`: once confirmed, stamp the pig deleted and mark it pending. */
  method HandleDeletePig(db: LocalDb, pigId: Id, confirmed: bool, now: int)
    modifies db`pigs
    ensures db.pigs.Keys == old(db.pigs).Keys
    ensures confirmed && pigId in db.pigs ==>
              db.pigs == old(db.pigs)[pigId := Tracked(old(db.pigs)[pigId].row.(deletedAt := Some(now)), Pending)]
    ensures !confirmed || pigId !in old(db.pigs) ==> db.pigs == old(db.pigs)
  {
    if confirmed && pigId in db.pigs {
      db.pigs := db.pigs[pigId := Tracked(db.pigs[pigId].row.(deletedAt := Some(now)), Pending)];
    }
  }

  // ----- Properties -----

  /** The end of withdrawal lies exactly the medication's days after the
      event, and exists only for a medication with a positive period. */
  lemma WithdrawalEndIsDatePlusDays(medications: map<Id, Medication>, medId: Id, date: int)
    ensures WithdrawalEnd(medications, medId, date).Some? <==>
              medId != "" && medId in medications && medications[medId].withdrawalDays.Some? && medications[medId].withdrawalDays.value > 0
    ensures WithdrawalEnd(medications, medId, date).Some? ==>
              WithdrawalEnd(medications, medId, date).value - date == medications[medId].withdrawalDays.value > 0
  {
  }

  /** Picking a medication leaves the form consistent, and changing the date
      keeps it so: the end shown always matches the medication and date. */
  lemma FormStaysConsistent(form: HealthForm, medications: map<Id, Medication>, medId: Id, newDate: int, today: int)
    ensures WithdrawalConsistent(EmptyHealthForm(today), medications)
    ensures WithdrawalConsistent(MedicationChanged(form, medications, medId), medications)
    ensures WithdrawalConsistent(form, medications) ==> WithdrawalConsistent(DateChanged(form, medications, newDate), medications)
  {
  }

  /** A date change for a medication without a withdrawal period keeps the
      end the form already holds: the one computed when the medication was
      picked. That end is none, unless the medication's period has changed
      since it was picked. */
  lemma DateChangeKeepsPickedEnd(form: HealthForm, medications: map<Id, Medication>, newDate: int)
    requires !HasWithdrawal(medications, form.medicationId)
    ensures DateChanged(form, medications, newDate).withdrawalEnd == form.withdrawalEnd
    ensures DateChanged(form, medications, newDate).date == newDate
    ensures DateChanged(MedicationChanged(form, medications, form.medicationId), medications, newDate).withdrawalEnd.None?
  {
  }

  /** The stored event: cost 0 when none parsed, no medication when none was
      chosen, the end the form holds, pending, for this pig. */
  lemma HealthEventFields(pigId: Id, form: HealthForm)
    ensures var e := HealthEventOf(pigId, form);
            && e.syncStatus == Pending && e.row.pigId == pigId && e.row.date == form.date
            && (form.cost.None? ==> e.row.cost == 0.0)
            && (form.cost.Some? ==> e.row.cost == form.cost.value)
            && (e.row.medicationId.None? <==> form.medicationId == "")
            && e.row.withdrawalEndDate == form.withdrawalEnd
  {
  }
}
