/** The pig registration page (src/pages/PigForm.jsx): choose a section and a
    pen, then add the pig together with its first weight log. Only users
    granted `pig.create` (or `admin.manage`) see the form. */
module PigFormPage {
  import opened Store
  import opened AuthProvider
  import opened JsNumbers
  import MovePigsModal
  import FeedingLog

  const PigCreate: string := "pig.create"

  // The pens offered for the chosen section are `FeedingLog.FilteredPens`:
  // the page filters them the same way.

  /** The form; `penId` is "" until a pen is chosen, `birthDate` and
      `weight` None while empty. */
  datatype PageForm = PageForm(
    tagNumber: string,
    sex: string,
    stage: string,
    sectionId: Id,
    penId: Id,
    birthDate: Option<int>,
    weight: Option<real>)

  /** The pig the page creates, stored under the chosen pen's id. */
  function NewPig(form: PageForm, now: int): Tracked<Pig>
  {
    Tracked(Pig(None, None, Some(form.tagNumber), None, Some(form.sex), None, Some(form.stage), Some(form.penId),
                None, form.birthDate, None, form.weight, Active, None, None, Some(now)),
            Pending)
  }

  /** Its first weight log, dated today. */
  function InitialLog(pigId: Id, form: PageForm, today: int): Tracked<WeightLog>
  {
    Tracked(WeightLog(pigId, form.weight, Some(today), None, None), Pending)
  }

  /** `handleSubmit`. Without permission the form is not shown, so nothing
      can be submitted; without a pen nothing is written. Otherwise the pig
      and its log are added and only the tag and weight are cleared. */
  method HandleSubmit(db: LocalDb, permissions: seq<string>, form: PageForm, pigId: Id, logId: Id, today: int, now: int)
    returns (saved: bool, form': PageForm)
    requires pigId !in db.pigs && logId !in db.weightLogs
    modifies db`pigs, db`weightLogs
    ensures saved <==> HasPermission(permissions, PigCreate) && form.penId != ""
    ensures !saved ==> db.pigs == old(db.pigs) && db.weightLogs == old(db.weightLogs) && form' == form
    ensures saved ==> db.pigs == old(db.pigs)[pigId := NewPig(form, now)]
                      && db.weightLogs == old(db.weightLogs)[logId := InitialLog(pigId, form, today)]
                      && form' == form.(tagNumber := "", weight := None)
  {
    if !HasPermission(permissions, PigCreate) || form.penId == "" {
      return false, form;
    }
    db.pigs := db.pigs[pigId := NewPig(form, now)];
    db.weightLogs := db.weightLogs[logId := InitialLog(pigId, form, today)];
    return true, form.(tagNumber := "", weight := None);
  }

  // ----- Properties -----

  /** The new pig is active, pending, in the chosen pen, and its one log
      points back to it with the same weight. */
  lemma PigAndLogAgree(form: PageForm, pigId: Id, today: int, now: int)
    requires form.penId != ""
    ensures var p := NewPig(form, now); var l := InitialLog(pigId, form, today);
            && p.row.status == Active && p.syncStatus == Pending && p.row.penId == Some(form.penId)
            && l.row.pigId == pigId && l.row.weight == p.row.weight && l.syncStatus == Pending
  {
  }

  /** The page's row carries its own field names (`tag_number`, `sex`,
      `stage`, `birth_date`, `weight`) and none of the names the
      registration component writes. */
  lemma RowUsesPageNames(form: PageForm, now: int)
    ensures var r := NewPig(form, now).row;
            && r.tagNumber == Some(form.tagNumber) && r.numeroArete.None?
            && r.sex == Some(form.sex) && r.sexo.None?
            && r.stage == Some(form.stage) && r.etapa.None?
            && r.birthDate == form.birthDate && r.fechaNacimiento.None?
            && r.weight == form.weight && r.peso.None?
            && r.nombre.None?
  {
  }

  /** The form is open to `pig.create` holders and to administrators only. */
  lemma FormNeedsPigCreate(permissions: seq<string>)
    ensures HasPermission(permissions, PigCreate) <==> PigCreate in permissions || AdminManage in permissions
  {
  }

  /** Clearing after a save keeps the section and pen for the next pig. */
  lemma NextPigKeepsPen(form: PageForm)
    ensures var f := form.(tagNumber := "", weight := None);
            f.sectionId == form.sectionId && f.penId == form.penId && f.stage == form.stage && f.tagNumber == "" && f.weight.None?
  {
  }

  // ----- The pen id as the page writes it -----

  /** The `pen_id` the code stores: the chosen pen's id passed through
      `parseInt`. Pen ids are random UUIDs, so this is the number formed by
      the id's leading digits, or NaN. The model stores the id itself
      (`NewPig`); this is the as-written value. */
  function AsWrittenPenKey(form: PageForm): NumberKey
  {
    ParseInt(form.penId)
  }

  /** A pen whose UUID starts with "3f" gets pigs stored with `pen_id` 3,
      which does not equal the pen's id under the loose comparison the
      occupancy count uses; a UUID starting with a letter gives NaN. */
  lemma ParsedPenIdMissesItsPen(form: PageForm)
    requires form.penId == "3f0c9a1e-7d42-4b8e-9a61-2c5d8e4f7a10"
    ensures AsWrittenPenKey(form) == Number(3)
    ensures !LooseEquals(AsWrittenPenKey(form), form.penId)
    ensures AsWrittenPenKey(form.(penId := "a1b2c3d4-0000-4000-8000-000000000000")) == NaN
  {
    ThreeLedUuidMissesItsPen(form.penId);
    var other := "a1b2c3d4-0000-4000-8000-000000000000";
    assert !IsDigit(other[0]);
  }

  /** A UUID led by the digit 3 and then a letter parses to 3, which never
      loosely equals the UUID. */
  lemma ThreeLedUuidMissesItsPen(id: string)
    requires |id| >= 2 && id[0] == '3' && !IsDigit(id[1]) && IsUuidShaped(id)
    ensures ParseInt(id) == Number(3) && !LooseEquals(Number(3), id)
  {
    ParsesToThree(id);
    UuidsNeverEqualNumbers(Number(3), id);
  }

  /** An id whose first character is 3 and whose second is not a digit
      parses to 3. */
  lemma ParsesToThree(id: string)
    requires |id| >= 2 && id[0] == '3' && !IsDigit(id[1])
    ensures ParseInt(id) == Number(3)
  {
    assert id[1..][0] == id[1];
    assert LeadingDigits(id[1..]) == [];
    assert LeadingDigits(id) == "3";
    assert DigitsValue("3") == 3 by {
      assert "3"[..0] == [];
    }
  }

  /** The parsed key does reach the feeding page, which parses the same way:
      a pig added to pen "3f0c…" is indexed under 3 and is among that pen's
      pigs to feed, and also among those of pen "3b7d…", a different pen
      whose id starts with the same digit. */
  lemma ParsedPenIdIsFedInTwoPens(pigs: Table<Pig>, form: PageForm, pigId: Id, now: int)
    requires form.penId == "3f0c9a1e-7d42-4b8e-9a61-2c5d8e4f7a10"
    ensures KeyOf(AsWrittenPenKey(form)) == Some(NumericKey(3))
    ensures var t := pigs[pigId := NewPig(form, now)];
            var stored := map[pigId := NumericKey(3)];
            && pigId in FeedingLog.AsWrittenActivePigIds(t, stored, form.penId)
            && pigId in FeedingLog.AsWrittenActivePigIds(t, stored, "3b7d2e10-5c4a-4f19-8d2b-6a0e9c1f4b22")
  {
    ParsesToThree(form.penId);
    ParsesToThree("3b7d2e10-5c4a-4f19-8d2b-6a0e9c1f4b22");
  }

  /** Stored under the pen's own id, the new pig is counted in that pen's
      occupancy and is among the pen's pigs to feed by the pen's own id. */
  lemma NewPigCountsInItsPen(pigs: Table<Pig>, form: PageForm, pigId: Id, now: int)
    requires form.penId != ""
    ensures pigId in MovePigsModal.Occupants(pigs[pigId := NewPig(form, now)], form.penId)
    ensures pigId in FeedingLog.ActivePigIds(pigs[pigId := NewPig(form, now)], form.penId)
  {
  }
}
