/** The pig registration component (src/components/PigForm.jsx): a chain of
    checks (weight, birth date, active ear tag), then one pending pig. */
module PigFormComponent {
  import opened Store

  /** The form. Text fields are stored as typed; `peso` is None while empty. */
  datatype PigFormData = PigFormData(
    nombre: string,
    numeroArete: string,
    sexo: string,
    etapa: string,
    peso: Option<real>,
    fechaNacimiento: int)

  datatype SubmitOutcome = NegativeWeight | FutureBirthDate | DuplicateActiveTag | Saved

  /** Some active pig already carries this ear tag. */
  predicate TagInUse(pigs: Table<Pig>, tag: string)
  {
    exists id :: id in pigs && pigs[id].row.numeroArete == Some(tag) && pigs[id].row.status == Active
  }

  /** The checks, in the order the code makes them. The birth date is the
      start of its day, compared with the current instant. */
  function Validate(pigs: Table<Pig>, form: PigFormData, nowMs: int): SubmitOutcome
  {
    if form.peso.Some? && form.peso.value < 0.0 then NegativeWeight
    else if form.fechaNacimiento * DayMs > nowMs then FutureBirthDate
    else if TagInUse(pigs, form.numeroArete) then DuplicateActiveTag
    else Saved
  }

  /** The pig the form creates. */
  function NewPig(form: PigFormData, now: int): Tracked<Pig>
  {
    Tracked(Pig(Some(form.nombre), Some(form.numeroArete), None, Some(form.sexo), None, Some(form.etapa), None, None,
                Some(form.fechaNacimiento), None, form.peso, None, Active, None, Some(now), Some(now)),
            Pending)
  }

  /** `handleSubmit`: on success the pig is added under a fresh id and only
      the name and ear tag are cleared; on a failed check nothing changes. */
  method HandleSubmit(db: LocalDb, form: PigFormData, newId: Id, nowMs: int)
    returns (outcome: SubmitOutcome, form': PigFormData)
    requires newId !in db.pigs
    modifies db`pigs
    ensures outcome == Validate(old(db.pigs), form, nowMs)
    ensures outcome != Saved ==> db.pigs == old(db.pigs) && form' == form
    ensures outcome == Saved ==> db.pigs == old(db.pigs)[newId := NewPig(form, nowMs)]
                                 && form' == form.(nombre := "", numeroArete := "")
  {
    if form.peso.Some? && form.peso.value < 0.0 {
      return NegativeWeight, form;
    }
    if form.fechaNacimiento * DayMs > nowMs {
      return FutureBirthDate, form;
    }
    var inUse := exists id :: id in db.pigs && db.pigs[id].row.numeroArete == Some(form.numeroArete) && db.pigs[id].row.status == Active;
    if inUse {
      return DuplicateActiveTag, form;
    }
    db.pigs := db.pigs[newId := NewPig(form, nowMs)];
    return Saved, form.(nombre := "", numeroArete := "");
  }

  /** No two active pigs share an ear tag. */
  ghost predicate ActiveTagsUnique(pigs: Table<Pig>)
  {
    forall a, b :: a in pigs && b in pigs && a != b
                   && pigs[a].row.status == Active && pigs[b].row.status == Active
                   && pigs[a].row.numeroArete.Some?
                   ==> pigs[a].row.numeroArete != pigs[b].row.numeroArete
  }

  // ----- Properties -----

  /** A negative weight is refused first, whatever else the form holds. */
  lemma NegativeWeightComesFirst(pigs: Table<Pig>, form: PigFormData, nowMs: int)
    requires form.peso.Some? && form.peso.value < 0.0
    ensures Validate(pigs, form, nowMs) == NegativeWeight
  {
  }

  /** A birth day that starts after now is refused; today's date is accepted. */
  lemma FutureBirthIsRefused(pigs: Table<Pig>, form: PigFormData, nowMs: int)
    requires form.peso.None? || form.peso.value >= 0.0
    ensures Validate(pigs, form, nowMs) == FutureBirthDate <==> form.fechaNacimiento * DayMs > nowMs
    ensures form.fechaNacimiento == nowMs / DayMs ==> Validate(pigs, form, nowMs) != FutureBirthDate
  {
  }

  /** Only an active pig blocks a tag: the same tag on an inactive pig does not. */
  lemma OnlyActivePigsBlockTheTag(pigs: Table<Pig>, form: PigFormData, nowMs: int, id: Id)
    requires form.peso.None? || form.peso.value >= 0.0
    requires form.fechaNacimiento * DayMs <= nowMs
    requires id in pigs && pigs[id].row.numeroArete == Some(form.numeroArete)
    ensures pigs[id].row.status == Active ==> Validate(pigs, form, nowMs) == DuplicateActiveTag
    ensures (forall k :: k in pigs && k != id ==> pigs[k].row.numeroArete != Some(form.numeroArete)) && pigs[id].row.status != Active
            ==> Validate(pigs, form, nowMs) == Saved
  {
  }

  /** The component's row carries the form's own field names (`numero_arete`,
      `sexo`, `etapa`, `fecha_nacimiento`, `peso`) and none of the names the
      registration page writes. */
  lemma RowUsesFormNames(form: PigFormData, now: int)
    ensures var r := NewPig(form, now).row;
            && r.nombre == Some(form.nombre)
            && r.numeroArete == Some(form.numeroArete) && r.tagNumber.None?
            && r.sexo == Some(form.sexo) && r.sex.None?
            && r.etapa == Some(form.etapa) && r.stage.None?
            && r.fechaNacimiento == Some(form.fechaNacimiento) && r.birthDate.None?
            && r.peso == form.peso && r.weight.None?
            && r.penId.None?
  {
  }

  /** Saving through the form keeps the active ear tags unique, and the new
      pig is active and pending. */
  lemma SavingKeepsTagsUnique(pigs: Table<Pig>, form: PigFormData, nowMs: int, newId: Id)
    requires newId !in pigs
    requires ActiveTagsUnique(pigs)
    requires Validate(pigs, form, nowMs) == Saved
    ensures ActiveTagsUnique(pigs[newId := NewPig(form, nowMs)])
    ensures NewPig(form, nowMs).row.status == Active && NewPig(form, nowMs).syncStatus == Pending
  {
    var p' := pigs[newId := NewPig(form, nowMs)];
    forall a, b | a in p' && b in p' && a != b
                  && p'[a].row.status == Active && p'[b].row.status == Active
                  && p'[a].row.numeroArete.Some?
      ensures p'[a].row.numeroArete != p'[b].row.numeroArete
    {
      if a == newId {
        assert p'[b] == pigs[b];
      } else if b == newId {
        assert p'[a] == pigs[a];
      }
    }
  }
}
