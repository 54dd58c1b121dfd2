/**
 * Session rules (src/utils/authService.js): one optional stored session, the
 * decisions read from it (authenticated, current user, permission), and the
 * operations that write it (log in, log out) or redirect to the login page.
 */
module AuthService {
  import opened Common

  /** The role that is granted every permission. */
  const AdminRole := "admin"

  /** The hash `requireAuth` redirects to. */
  const LoginHash := "#login"

  /**
   * The user object handed to `setCurrentUser`. A `userId` of 0 stands for
   * every falsy id; `None` for a property that is absent.
   */
  datatype User = User(
    userId: int,
    username: Option<string>,
    firstName: Option<string>,
    lastName: Option<string>,
    email: Option<string>,
    role: Option<string>,
    permissions: Option<seq<string>>)

  /** The stored session object. */
  datatype Session = Session(
    userId: int,
    username: Option<string>,
    firstName: string,
    lastName: string,
    email: string,
    role: Option<string>,
    permissions: Option<seq<string>>,
    loggedInAt: string)

  /** `value || ""` for an optional string. */
  function OrEmpty(value: Option<string>): (r: string)
    ensures value.Some? && value.value != "" ==> r == value.value
    ensures value.None? || value.value == "" ==> r == ""
  {
    match value
    case Some(s) => s
    case None => ""
  }

  /** `isAuthenticated()`: a session is stored and its `userId` is truthy. */
  predicate IsAuthenticated(slot: Option<Session>)
  {
    slot.Some? && slot.value.userId != 0
  }

  /** `getCurrentUser()`: the stored session when authenticated, otherwise null. */
  function GetCurrentUser(slot: Option<Session>): (r: Option<Session>)
    ensures r.Some? <==> IsAuthenticated(slot)
    ensures r.Some? ==> slot == r
  {
    if !IsAuthenticated(slot) then None else slot
  }

  /**
   * `hasPermission(permission)`: denied without a current user or without a
   * permissions list; granted to the admin role; otherwise granted when the
   * list includes the permission.
   */
  predicate HasPermission(slot: Option<Session>, permission: string)
  {
    var user := GetCurrentUser(slot);
    if user.None? || user.value.permissions.None? then false
    else if user.value.role == Some(AdminRole) then true
    else permission in user.value.permissions.value
  }

  /** The session object `setCurrentUser(user)` stores, `loggedInAt` being the clock's reading. */
  function SessionOf(user: User, now: string): Session
  {
    Session(user.userId, user.username, OrEmpty(user.firstName), OrEmpty(user.lastName),
            OrEmpty(user.email), user.role, user.permissions, now)
  }

  /** A permission is only ever granted to an authenticated user. */
  lemma PermissionNeedsLogin(slot: Option<Session>, permission: string)
    ensures HasPermission(slot, permission) ==> IsAuthenticated(slot)
  {
  }

  /**
   * The permission decision, stated on the stored session: granted exactly
   * when logged in with a permissions list and either the admin role or the
   * permission in the list.
   */
  lemma HasPermissionSpec(slot: Option<Session>, permission: string)
    ensures HasPermission(slot, permission) <==>
      && IsAuthenticated(slot)
      && slot.value.permissions.Some?
      && (slot.value.role == Some(AdminRole) || permission in slot.value.permissions.value)
  {
  }

  /**
   * Reading back a session that `setCurrentUser` stored for a user with a
   * truthy id: the user is authenticated, the current user is that session,
   * and each permission is decided by the user's own role and list.
   */
  lemma SetThenRead(user: User, now: string, permission: string)
    requires user.userId != 0
    ensures IsAuthenticated(Some(SessionOf(user, now)))
    ensures GetCurrentUser(Some(SessionOf(user, now))) == Some(SessionOf(user, now))
    ensures HasPermission(Some(SessionOf(user, now)), permission) <==>
      user.permissions.Some? && (user.role == Some(AdminRole) || permission in user.permissions.value)
  {
  }

  /** An admin is granted every permission, provided the session carries a permissions list. */
  lemma AdminHasEveryPermission(slot: Option<Session>, permission: string)
    requires IsAuthenticated(slot) && slot.value.role == Some(AdminRole) && slot.value.permissions.Some?
    ensures HasPermission(slot, permission)
  {
  }

  /** The list check comes before the role check: an admin session without a permissions list is denied. */
  lemma AdminWithoutListIsDenied(id: int, permission: string)
    requires id != 0
    ensures !HasPermission(Some(Session(id, None, "", "", "", Some(AdminRole), None, "")), permission)
  {
  }

  /** An empty permissions list is still a list: an admin holding one is granted everything. */
  lemma AdminWithEmptyListIsGranted(id: int, permission: string)
    requires id != 0
    ensures HasPermission(Some(Session(id, None, "", "", "", Some(AdminRole), Some([]), "")), permission)
  {
  }

  /** The `localStorage` entry under `SESSION_KEY` and the window's location hash. */
  class SessionStore {
    /** The stored session, if any. */
    var slot: Option<Session>
    var locationHash: string

    constructor (slot: Option<Session>, locationHash: string)
      ensures this.slot == slot && this.locationHash == locationHash
    {
      this.slot := slot;
      this.locationHash := locationHash;
    }

    /**
     * `setCurrentUser(user)`: nothing is stored for a missing user or a falsy
     * id; otherwise the user's session replaces the stored one, and the user
     * is then authenticated.
     */
    method SetCurrentUser(user: Option<User>, now: string)
      modifies this
      ensures user.None? || user.value.userId == 0 ==> slot == old(slot)
      ensures user.Some? && user.value.userId != 0 ==>
        slot == Some(SessionOf(user.value, now)) && IsAuthenticated(slot)
      ensures locationHash == old(locationHash)
    {
      if user.None? || user.value.userId == 0 {
        return;
      }
      slot := Some(SessionOf(user.value, now));
    }

    /** `logout()`: the session is removed, so no one is authenticated and nothing is permitted. */
    method Logout()
      modifies this
      ensures slot == None && !IsAuthenticated(slot)
      ensures forall permission :: !HasPermission(slot, permission)
      ensures locationHash == old(locationHash)
    {
      slot := None;
    }

    /** `requireAuth()`: whether the user is authenticated; if not, the location moves to the login page. */
    method RequireAuth() returns (ok: bool)
      modifies this
      ensures ok == IsAuthenticated(slot)
      ensures slot == old(slot)
      ensures locationHash == if ok then old(locationHash) else LoginHash
    {
      if !IsAuthenticated(slot) {
        locationHash := LoginHash;
        return false;
      }
      return true;
    }
  }
}
