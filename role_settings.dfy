/** Role administration (src/pages/RoleSettings.jsx): the role list, the
    permission catalogue grouped by category, the permission checkboxes, and
    saving a role with a full replacement of its `role_permissions` pairs. */
module RoleSettings {
  import opened Store

  /** The roles listed: those not soft-deleted. */
  function ListedRoles(roles: Table<Role>): (ids: set<Id>)
    ensures ids <= roles.Keys
    ensures forall id :: id in roles ==> (id in ids <==> roles[id].row.deletedAt.None?)
  {
    set id | id in roles && roles[id].row.deletedAt.None?
  }

  // ----- Grouping by category -----

  /** `slug.split('.')[0]`: the slug up to its first dot. */
  function Category(slug: string): (c: string)
    ensures |c| <= |slug| && c == slug[..|c|]
    ensures '.' !in c
    ensures |c| < |slug| ==> slug[|c|] == '.'
  {
    if slug == [] || slug[0] == '.' then [] else [slug[0]] + Category(slug[1..])
  }

  /** The `reduce` over the catalogue: each permission appended to the group
      of its category, the group created on first use. */
  function Groups(perms: seq<Permission>): map<string, seq<Permission>>
  {
    if perms == [] then map[]
    else
      var g := Groups(perms[..|perms| - 1]);
      var p := perms[|perms| - 1];
      var c := Category(p.slug);
      g[c := (if c in g then g[c] else []) + [p]]
  }

  /** The permissions of one category, in catalogue order. */
  function InCategory(perms: seq<Permission>, c: string): (r: seq<Permission>)
    ensures |r| <= |perms|
  {
    if perms == [] then []
    else
      var init := InCategory(perms[..|perms| - 1], c);
      if Category(perms[|perms| - 1].slug) == c then init + [perms[|perms| - 1]] else init
  }

  /** A category has a group exactly when some permission falls in it, and
      the group holds, in catalogue order, exactly that category's permissions. */
  lemma {:induction false} GroupIsCategoryFilter(perms: seq<Permission>, c: string)
    ensures c in Groups(perms) <==> InCategory(perms, c) != []
    ensures c in Groups(perms) ==> Groups(perms)[c] == InCategory(perms, c)
  {
    if perms != [] {
      GroupIsCategoryFilter(perms[..|perms| - 1], c);
    }
  }

  /** Every permission of the catalogue lies in the group of its own category
      and in no other group. */
  lemma EachPermissionInOneGroup(perms: seq<Permission>, i: nat, c: string)
    requires i < |perms| && c in Groups(perms)
    ensures perms[i] in Groups(perms)[c] ==> c == Category(perms[i].slug)
    ensures Category(perms[i].slug) in Groups(perms) && perms[i] in Groups(perms)[Category(perms[i].slug)]
  {
    GroupIsCategoryFilter(perms, c);
    GroupIsCategoryFilter(perms, Category(perms[i].slug));
    InCategoryMembers(perms, c);
    InCategoryMembers(perms, Category(perms[i].slug));
  }

  lemma {:induction false} InCategoryMembers(perms: seq<Permission>, c: string)
    ensures forall p :: p in InCategory(perms, c) <==> p in perms && Category(p.slug) == c
  {
    if perms != [] {
      var init := perms[..|perms| - 1];
      InCategoryMembers(init, c);
      assert perms == init + [perms[|perms| - 1]];
    }
  }

  // ----- The permission checkboxes -----

  /** `prev.filter(id => id !== permId)`. */
  function Without(ids: seq<Id>, x: Id): (r: seq<Id>)
    ensures x !in r
    ensures forall y :: y != x ==> (y in r <==> y in ids)
    ensures x !in ids ==> r == ids
  {
    if ids == [] then []
    else if ids[0] == x then Without(ids[1..], x)
    else [ids[0]] + Without(ids[1..], x)
  }

  lemma {:induction false} WithoutKeepsDistinct(ids: seq<Id>, x: Id)
    requires Distinct(ids)
    ensures Distinct(Without(ids, x))
  {
    if ids != [] {
      var tail := ids[1..];
      assert Distinct(tail);
      WithoutKeepsDistinct(tail, x);
      if ids[0] != x {
        assert ids[0] !in tail;
        var r := Without(ids, x);
        var rest := Without(tail, x);
        forall i, j | 0 <= i < j < |r| ensures r[i] != r[j] {
          assert r[j] == rest[j - 1];
          if i > 0 { assert r[i] == rest[i - 1]; }
        }
      }
    }
  }

  /** `togglePermission`: remove the id when it is selected, append it otherwise. */
  function Toggle(selected: seq<Id>, permId: Id): seq<Id>
  {
    if permId in selected then Without(selected, permId) else selected + [permId]
  }

  /** Toggling flips the one id's membership and leaves every other id as it was. */
  lemma ToggleFlips(selected: seq<Id>, permId: Id)
    ensures permId in Toggle(selected, permId) <==> permId !in selected
    ensures forall y :: y != permId ==> (y in Toggle(selected, permId) <==> y in selected)
  {
  }

  /** A selection without repeats keeps none after a toggle. */
  lemma ToggleKeepsDistinct(selected: seq<Id>, permId: Id)
    requires Distinct(selected)
    ensures Distinct(Toggle(selected, permId))
  {
    if permId in selected {
      WithoutKeepsDistinct(selected, permId);
    } else {
      var r := selected + [permId];
      forall i, j | 0 <= i < j < |r| ensures r[i] != r[j] {
        if j == |selected| { assert r[i] == selected[i]; }
      }
    }
  }

  /** Toggling twice restores the selected set, and the very list when the
      id was not selected. */
  lemma ToggleTwice(selected: seq<Id>, permId: Id)
    ensures Members(Toggle(Toggle(selected, permId), permId)) == Members(selected)
    ensures permId !in selected ==> Toggle(Toggle(selected, permId), permId) == selected
  {
    if permId !in selected {
      WithoutAppended(selected, permId);
    }
  }

  lemma {:induction false} WithoutAppended(ids: seq<Id>, x: Id)
    requires x !in ids
    ensures Without(ids + [x], x) == ids
  {
    if ids != [] {
      assert (ids + [x])[1..] == ids[1..] + [x];
      WithoutAppended(ids[1..], x);
    } else {
      assert Without([x], x) == Without([], x);
    }
  }

  // ----- Saving and deleting -----

  /** `role_permissions` after a save: an existing role's pairs are dropped,
      then one pending pair per selected permission is added. */
  function ReplacedPermissions(rp: map<(Id, Id), SyncStatus>, roleId: Id, selected: seq<Id>, existing: bool)
    : map<(Id, Id), SyncStatus>
  {
    var kept := if existing then map k | k in rp && k.0 != roleId :: rp[k] else rp;
    kept + map p | p in Members(selected) :: (roleId, p) := Pending
  }

  /** The permissions granted to a role: the `permission_id` of every pair
      whose `role_id` is the role's. */
  function GrantedIds(rp: map<(Id, Id), SyncStatus>, roleId: Id): (ids: set<Id>)
    ensures forall p :: p in ids <==> (roleId, p) in rp
  {
    set k | k in rp && k.0 == roleId :: k.1
  }

  /** The page's editing state. `currentRole` is the role being edited, None
      while creating one. */
  class RoleEditor {
    var isEditing: bool
    var currentRole: Option<Id>
    var roleName: string
    var selectedPermissions: seq<Id>

    constructor ()
      ensures !isEditing && currentRole == None && roleName == "" && selectedPermissions == []
    {
      isEditing, currentRole, roleName, selectedPermissions := false, None, "", [];
    }

    /** `handleCreate`: an empty form for a new role. */
    method HandleCreate()
      modifies this
      ensures isEditing && currentRole == None && roleName == "" && selectedPermissions == []
    {
      isEditing, currentRole, roleName, selectedPermissions := true, None, "", [];
    }

    /** `handleEdit` on a listed role: load its name and the ids of the
        permissions its `role_permissions` pairs grant, which the store
        lists as `granted`. */
    method HandleEdit(db: LocalDb, roleId: Id, granted: seq<Id>)
      requires roleId in db.roles
      requires Enumerates(granted, GrantedIds(db.rolePermissions, roleId))
      modifies this
      ensures isEditing && currentRole == Some(roleId) && roleName == db.roles[roleId].row.name
      ensures selectedPermissions == granted
      ensures Members(selectedPermissions) == GrantedIds(db.rolePermissions, roleId) && Distinct(selectedPermissions)
    {
      isEditing, currentRole, roleName, selectedPermissions := true, Some(roleId), db.roles[roleId].row.name, granted;
    }

    /** `togglePermission`. */
    method TogglePermission(permId: Id)
      modifies this`selectedPermissions
      ensures selectedPermissions == Toggle(old(selectedPermissions), permId)
    {
      if permId in selectedPermissions {
        selectedPermissions := Without(selectedPermissions, permId);
      } else {
        selectedPermissions := selectedPermissions + [permId];
      }
    }

    /** `handleSave`: update or create the role, then replace its permission
        pairs. `newId` is the fresh id a new role gets. */
    method HandleSave(db: LocalDb, newId: Id, now: int) returns (roleId: Id)
      requires Distinct(selectedPermissions)
      requires currentRole.None? ==> newId !in db.roles && forall k :: k in db.rolePermissions ==> k.0 != newId
      modifies db`roles, db`rolePermissions, this`isEditing
      ensures roleId == if old(currentRole).Some? then old(currentRole).value else newId
      ensures old(currentRole).None? ==>
                db.roles == old(db.roles)[newId := Tracked(Role(roleName, Some(now), None, None), Pending)]
      ensures old(currentRole).Some? ==>
                db.roles == if roleId in old(db.roles)
                            then old(db.roles)[roleId := Tracked(old(db.roles)[roleId].row.(name := roleName, updatedAt := Some(now)), Pending)]
                            else old(db.roles)
      ensures db.rolePermissions == ReplacedPermissions(old(db.rolePermissions), roleId, selectedPermissions, old(currentRole).Some?)
      ensures !isEditing
    {
      if currentRole.Some? {
        roleId := currentRole.value;
        if roleId in db.roles {
          db.roles := db.roles[roleId := Tracked(db.roles[roleId].row.(name := roleName, updatedAt := Some(now)), Pending)];
        }
        db.rolePermissions := map k | k in db.rolePermissions && k.0 != roleId :: db.rolePermissions[k];
      } else {
        roleId := newId;
        db.roles := db.roles[roleId := Tracked(Role(roleName, Some(now), None, None), Pending)];
      }
      db.rolePermissions := db.rolePermissions + map p | p in Members(selectedPermissions) :: (roleId, p) := Pending;
      isEditing := false;
    }
  }

  /** `handleDelete`: with confirmation, the role is stamped deleted and
      marked pending; the row stays. */
  function Deleted(roles: Table<Role>, roleId: Id, confirmed: bool, now: int): Table<Role>
  {
    if confirmed && roleId in roles
    then roles[roleId := Tracked(roles[roleId].row.(deletedAt := Some(now)), Pending)]
    else roles
  }

  method HandleDelete(db: LocalDb, roleId: Id, confirmed: bool, now: int)
    modifies db`roles
    ensures db.roles == Deleted(old(db.roles), roleId, confirmed, now)
  {
    if confirmed && roleId in db.roles {
      db.roles := db.roles[roleId := Tracked(db.roles[roleId].row.(deletedAt := Some(now)), Pending)];
    }
  }

  // ----- Properties -----

  /** After a save the role's permissions are exactly the selected ones, all
      pending, and the pairs of every other role are untouched. */
  lemma SavedPermissionsAreTheSelection(rp: map<(Id, Id), SyncStatus>, roleId: Id, selected: seq<Id>, existing: bool)
    requires !existing ==> forall k :: k in rp ==> k.0 != roleId
    ensures var rp' := ReplacedPermissions(rp, roleId, selected, existing);
            && (forall p :: (roleId, p) in rp' <==> p in selected)
            && (forall p :: (roleId, p) in rp' ==> rp'[(roleId, p)] == Pending)
            && (forall k: (Id, Id) :: k.0 != roleId ==> (k in rp' <==> k in rp) && (k in rp ==> rp'[k] == rp[k]))
  {
  }

  /** Editing a role right after saving it shows exactly the permissions
      that were selected when it was saved. */
  lemma EditAfterSaveShowsSelection(rp: map<(Id, Id), SyncStatus>, roleId: Id, selected: seq<Id>, existing: bool)
    requires !existing ==> forall k :: k in rp ==> k.0 != roleId
    ensures GrantedIds(ReplacedPermissions(rp, roleId, selected, existing), roleId) == Members(selected)
  {
    SavedPermissionsAreTheSelection(rp, roleId, selected, existing);
  }

  /** A deleted role is still stored, now stamped and pending, and leaves the list. */
  lemma DeleteIsSoft(roles: Table<Role>, roleId: Id, now: int)
    requires roleId in roles
    ensures var r' := Deleted(roles, roleId, true, now);
            && r'.Keys == roles.Keys
            && r'[roleId].row.deletedAt == Some(now) && r'[roleId].syncStatus == Pending
            && r'[roleId].row.name == roles[roleId].row.name
            && roleId !in ListedRoles(r')
  {
  }
}
