/** The session (src/auth/AuthProvider.jsx): permission checks, login,
    logout, and restoring the session from the browser's key-value storage. */
module AuthProvider {
  import opened Store

  /** `hasPermission`: the slug is granted, or `admin.manage` is. */
  predicate HasPermission(permissions: seq<string>, slug: string)
  {
    slug in permissions || AdminManage in permissions
  }

  /** What the login endpoint answered: an error status (with the message the
      code throws), or the session. Network failures are the first case too. */
  datatype LoginResponse =
    | Refused(message: string)
    | Accepted(token: string, user: User, permissions: seq<string>)

  /** The user and permissions the restore step leaves: taken from storage
      only when the token is truthy and a user is stored; the permissions only
      when they are stored as well. */
  function Restored(token: Option<string>, storedUser: Option<User>, storedPermissions: Option<seq<string>>,
                    user: Option<User>, permissions: seq<string>): (Option<User>, seq<string>)
  {
    if Truthy(token) && storedUser.Some? then
      (storedUser, if storedPermissions.Some? then storedPermissions.value else permissions)
    else (user, permissions)
  }

  /** The provider's state. */
  class Session {
    var user: Option<User>
    var token: Option<string>
    var permissions: seq<string>
    var loading: bool

    /** Mounting: the token is read from storage, nothing else yet. */
    constructor (storage: KeyValueStorage)
      ensures user == None && token == storage.token && permissions == [] && loading
    {
      user, token, permissions, loading := None, storage.token, [], true;
    }

    /** The effect that runs whenever the token changes. */
    method Restore(storage: KeyValueStorage)
      modifies this`user, this`permissions, this`loading
      ensures (user, permissions) == Restored(token, storage.user, storage.permissions, old(user), old(permissions))
      ensures !loading
    {
      if Truthy(token) && storage.user.Some? {
        user := storage.user;
        if storage.permissions.Some? {
          permissions := storage.permissions.value;
        }
      }
      loading := false;
    }

    /** `login`: a refusal throws and changes nothing; an accepted login sets
        the three values and persists them. */
    method Login(storage: KeyValueStorage, response: LoginResponse) returns (ok: bool)
      modifies this`user, this`token, this`permissions, storage`token, storage`user, storage`permissions
      ensures ok <==> response.Accepted?
      ensures !ok ==> user == old(user) && token == old(token) && permissions == old(permissions)
                      && storage.token == old(storage.token) && storage.user == old(storage.user)
                      && storage.permissions == old(storage.permissions)
      ensures ok ==> token == Some(response.token) && user == Some(response.user) && permissions == response.permissions
                     && storage.token == token && storage.user == user && storage.permissions == Some(permissions)
    {
      if response.Refused? {
        return false;
      }
      token, user, permissions := Some(response.token), Some(response.user), response.permissions;
      storage.token, storage.user, storage.permissions := Some(response.token), Some(response.user), Some(response.permissions);
      return true;
    }

    /** `logout`: the state is emptied and the whole storage cleared, the
        sync watermark included. */
    method Logout(storage: KeyValueStorage)
      modifies this`user, this`token, this`permissions, storage
      ensures user == None && token == None && permissions == []
      ensures storage.token == None && storage.user == None && storage.permissions == None && storage.lastPulledAt == None
    {
      user, token, permissions := None, None, [];
      storage.token, storage.user, storage.permissions, storage.lastPulledAt := None, None, None, None;
    }
  }

  // ----- Properties -----

  /** `admin.manage` grants every slug. */
  lemma AdminGrantsEverything(permissions: seq<string>, slug: string)
    requires AdminManage in permissions
    ensures HasPermission(permissions, slug)
  {
  }

  /** Without `admin.manage`, exactly the listed slugs are granted. */
  lemma OnlyListedWithoutAdmin(permissions: seq<string>, slug: string)
    requires AdminManage !in permissions
    ensures HasPermission(permissions, slug) <==> slug in permissions
  {
  }

  /** After logout nothing is granted. */
  lemma LoggedOutHasNothing(slug: string)
    ensures !HasPermission([], slug)
  {
  }

  /** A persisted login comes back whole on the next start: with a non-empty
      token, restoring from what login stored yields the login's user and
      permissions, whatever the state held before. */
  lemma PersistedLoginRestores(token: string, user: User, permissions: seq<string>,
                               before: Option<User>, beforePermissions: seq<string>)
    requires token != ""
    ensures Restored(Some(token), Some(user), Some(permissions), before, beforePermissions) == (Some(user), permissions)
  {
  }

  /** Without a token, or with nothing stored, the state is left as it was. */
  lemma NoRestoreWithoutTokenAndUser(token: Option<string>, storedUser: Option<User>, storedPermissions: Option<seq<string>>,
                                     user: Option<User>, permissions: seq<string>)
    requires !Truthy(token) || storedUser.None?
    ensures Restored(token, storedUser, storedPermissions, user, permissions) == (user, permissions)
  {
  }

  /** After logout a restart restores nothing: the stored user is gone. */
  lemma ClearedStorageRestoresNothing(token: Option<string>, permissions: Option<seq<string>>)
    ensures Restored(token, None, permissions, None, []) == (None, [])
  {
  }
}
