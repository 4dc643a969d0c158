/** Farm layout administration (src/pages/FarmSettings.jsx): adding sections
    and pens. The page is open to `admin.manage` holders only. */
module FarmSettings {
  import opened Store
  import opened AuthProvider

  /** The pen form; `capacity` is None when it does not parse as an integer. */
  datatype PenForm = PenForm(name: string, sectionId: Id, capacity: Option<int>)

  /** The section `handleAddSection` stores. */
  function NewSection(name: string): Tracked<Section>
  {
    Tracked(Section(name, None), Pending)
  }

  /** The pen `handleAddPen` stores. */
  function NewPen(form: PenForm): Tracked<Pen>
  {
    Tracked(Pen(form.name, form.sectionId, form.capacity, None), Pending)
  }

  /** `handleAddSection`: a named section under a fresh id; the name field is
      then emptied. An empty name, or a user without `admin.manage`, adds nothing. */
  method HandleAddSection(db: LocalDb, permissions: seq<string>, name: string, newId: Id)
    returns (name': string)
    requires newId !in db.sections
    modifies db`sections
    ensures HasPermission(permissions, AdminManage) && name != "" ==>
              db.sections == old(db.sections)[newId := NewSection(name)] && name' == ""
    ensures !(HasPermission(permissions, AdminManage) && name != "") ==> db.sections == old(db.sections) && name' == name
  {
    if !HasPermission(permissions, AdminManage) || name == "" {
      return name;
    }
    db.sections := db.sections[newId := NewSection(name)];
    return "";
  }

  /** `handleAddPen`: a pen needs a name and a section; afterwards only the
      name is reset, so the next pen goes to the same section. */
  method HandleAddPen(db: LocalDb, permissions: seq<string>, form: PenForm, newId: Id)
    returns (form': PenForm)
    requires newId !in db.pens
    modifies db`pens
    ensures HasPermission(permissions, AdminManage) && form.name != "" && form.sectionId != "" ==>
              db.pens == old(db.pens)[newId := NewPen(form)] && form' == form.(name := "")
    ensures !(HasPermission(permissions, AdminManage) && form.name != "" && form.sectionId != "") ==>
              db.pens == old(db.pens) && form' == form
  {
    if !HasPermission(permissions, AdminManage) || form.name == "" || form.sectionId == "" {
      return form;
    }
    db.pens := db.pens[newId := NewPen(form)];
    return form.(name := "");
  }

  // ----- Properties -----

  /** A new section is pending and not deleted. */
  lemma NewSectionIsPending(name: string)
    ensures NewSection(name).syncStatus == Pending && NewSection(name).row.deletedAt.None? && NewSection(name).row.name == name
  {
  }

  /** A new pen is pending, not deleted, and belongs to the chosen section
      with the parsed capacity. */
  lemma NewPenIsPending(form: PenForm)
    ensures var p := NewPen(form);
            p.syncStatus == Pending && p.row.deletedAt.None? && p.row.sectionId == form.sectionId && p.row.capacity == form.capacity
  {
  }
}
