/** The account-directory handlers: create, list, update, disable, enable, delete. */
module UserController {
  import opened Wrappers
  import opened Roles
  import opened Crypto
  import opened Tokens
  import opened UserModel
  import opened Http
  import opened Seqs

  /* ---------------- create ---------------- */

  /** The body of a create request; each field may be absent. */
  datatype CreateBody = CreateBody(username: Option<string>, password: Option<string>, role: Option<string>, profile: Profile)

  /** Username, password and role are all present and non-empty. */
  predicate Complete(b: CreateBody) {
    Truthy(b.username) && Truthy(b.password) && Truthy(b.role)
  }

  /**
   * POST /users. `newId` is the id the store assigns to a new record. The new
   * record is answered whole, password digest included.
   */
  function CreateUser(users: Directory, b: CreateBody, newId: UserId): (r: (Response, Directory))
    requires newId !in users
    ensures r.0 == Fail(BadRequest, "All fields required") <==> !Complete(b)
    ensures r.0 == Fail(BadRequest, "User exists") <==> Complete(b) && UsernameTaken(users, b.username.value)
    ensures r.0.Thrown? <==> Complete(b) && !UsernameTaken(users, b.username.value) && Parse(b.role.value).None?
    ensures (r.0.Response? && r.0.status == OK)
            <==> Complete(b) && !UsernameTaken(users, b.username.value) && Parse(b.role.value).Some?
    ensures !(r.0.Response? && r.0.status == OK) ==> r.1 == users
    ensures r.0.Response? && r.0.status == OK ==>
              && newId in r.1 && r.1 == users[newId := r.1[newId]]
              && r.0.body == Record(newId, r.1[newId])
              && r.1[newId].username == b.username.value
              && r.1[newId].password == Hash(b.password.value)
              && Name(r.1[newId].role) == b.role.value
              && r.1[newId].isActive
              && r.1[newId].profile == b.profile
    ensures UniqueUsernames(users) ==> UniqueUsernames(r.1)
  {
    if !Truthy(b.username) || !Truthy(b.password) || !Truthy(b.role) then
      (Fail(BadRequest, "All fields required"), users)
    else if UsernameTaken(users, b.username.value) then
      (Fail(BadRequest, "User exists"), users)
    else
      match Materialize(Draft(b.username.value, Hash(b.password.value), b.role, None, b.profile))
      case None => (Thrown, users)
      case Some(u) => (Ok(Record(newId, u)), users[newId := u])
  }

  /* ---------------- list ---------------- */

  /** GET /users leaves super-admins out of the listing. */
  predicate Listed(users: Directory, id: UserId) {
    id in users && users[id].role != SuperAdmin
  }

  /** The records of `ids`, in that order, each without its digest. */
  function StripAll(users: Directory, ids: seq<UserId>): (r: seq<PublicUser>)
    requires forall i :: 0 <= i < |ids| ==> ids[i] in users
    ensures |r| == |ids|
    ensures forall i :: 0 <= i < |ids| ==> r[i] == Strip(ids[i], users[ids[i]])
    decreases |ids|
  {
    if ids == [] then [] else [Strip(ids[0], users[ids[0]])] + StripAll(users, ids[1..])
  }

  /**
   * GET /users: every account except super-admins, without password digests,
   * as a list in the collection's natural order `order`.
   */
  function GetUsers(users: Directory, order: seq<UserId>): (r: Response)
    requires Enumerates(order, users)
    ensures r.Response? && r.status == OK && r.body.Accounts?
    ensures forall i :: 0 <= i < |r.body.accounts| ==>
              r.body.accounts[i].id in users && r.body.accounts[i] == Strip(r.body.accounts[i].id, users[r.body.accounts[i].id])
    ensures forall id :: multiset(Ids(r.body.accounts))[id] == if Listed(users, id) then 1 else 0
    ensures IsSubsequence(Ids(r.body.accounts), order)
  {
    var listed := Filter(order, id => Listed(users, id));
    var accounts := StripAll(users, listed);
    assert Ids(accounts) == listed;
    Ok(Accounts(accounts))
  }

  /* ---------------- update ---------------- */

  /** The body of an update request; absent fields are left as stored. */
  datatype UpdateBody = UpdateBody(
    password: Option<string>,
    username: Option<string>,
    role: Option<Role>,
    isActive: Option<bool>,
    profile: Profile)

  /** `after` takes each field `patch` supplies and keeps the rest of `before`. */
  ghost predicate Overlaid(before: Profile, patch: Profile, after: Profile) {
    && after.name == (if patch.name.Some? then patch.name else before.name)
    && after.employeeId == (if patch.employeeId.Some? then patch.employeeId else before.employeeId)
    && after.designation == (if patch.designation.Some? then patch.designation else before.designation)
    && after.department == (if patch.department.Some? then patch.department else before.department)
    && after.photo == (if patch.photo.Some? then patch.photo else before.photo)
    && after.phone == (if patch.phone.Some? then patch.phone else before.phone)
  }

  function Overlay(before: Profile, patch: Profile): (after: Profile)
    ensures Overlaid(before, patch, after)
  {
    Profile(
      if patch.name.Some? then patch.name else before.name,
      if patch.employeeId.Some? then patch.employeeId else before.employeeId,
      if patch.designation.Some? then patch.designation else before.designation,
      if patch.department.Some? then patch.department else before.department,
      if patch.photo.Some? then patch.photo else before.photo,
      if patch.phone.Some? then patch.phone else before.phone)
  }

  /** Another record than `id` already holds `username`. */
  predicate HeldByOther(users: Directory, id: UserId, username: string) {
    exists o :: o in users && o != id && users[o].username == username
  }

  /**
   * The update handler. An empty or absent password keeps the stored digest; a
   * username another record holds violates the unique index and throws.
   */
  function UpdateUser(users: Directory, id: UserId, b: UpdateBody): (r: (Response, Directory))
    ensures id !in users ==> r == (Fail(NotFound, "User not found"), users)
    ensures r.0.Thrown? <==> id in users && b.username.Some? && HeldByOther(users, id, b.username.value)
    ensures (r.0.Response? && r.0.status == OK) <==> id in users && !(b.username.Some? && HeldByOther(users, id, b.username.value))
    ensures !(r.0.Response? && r.0.status == OK) ==> r.1 == users
    ensures r.0.Response? && r.0.status == OK ==>
              && id in users && id in r.1 && r.1 == users[id := r.1[id]]
              && r.0.body == Account(Strip(id, r.1[id]))
              && (Truthy(b.password) ==> r.1[id].password == Hash(b.password.value))
              && (!Truthy(b.password) ==> r.1[id].password == users[id].password)
              && r.1[id].username == b.username.GetOr(users[id].username)
              && r.1[id].role == b.role.GetOr(users[id].role)
              && r.1[id].isActive == b.isActive.GetOr(users[id].isActive)
              && Overlaid(users[id].profile, b.profile, r.1[id].profile)
    ensures UniqueUsernames(users) ==> UniqueUsernames(r.1)
  {
    if id !in users then
      (Fail(NotFound, "User not found"), users)
    else if b.username.Some? && HeldByOther(users, id, b.username.value) then
      (Thrown, users)
    else
      var prev := users[id];
      var u := User(
        b.username.GetOr(prev.username),
        if Truthy(b.password) then Hash(b.password.value) else prev.password,
        b.role.GetOr(prev.role),
        b.isActive.GetOr(prev.isActive),
        Overlay(prev.profile, b.profile));
      (Ok(Account(Strip(id, u))), users[id := u])
  }

  /* ---------------- enable / disable / delete ---------------- */

  /** Sets the activation flag of `id`, if it exists; nothing else changes. */
  function SetActive(users: Directory, id: UserId, active: bool): (r: Directory)
    ensures r.Keys == users.Keys
    ensures forall o :: o in users && o != id ==> r[o] == users[o]
    ensures id in users ==> r[id] == users[id].(isActive := active)
  {
    if id in users then users[id := users[id].(isActive := active)] else users
  }

  /** PATCH /users/:id/disable; answers success even when `id` is unknown. */
  function DisableUser(users: Directory, id: UserId): (r: (Response, Directory))
    ensures r.0 == Ok(Msg("User disabled"))
    ensures r.1.Keys == users.Keys
    ensures forall o :: o in users && o != id ==> r.1[o] == users[o]
    ensures id in users ==> !r.1[id].isActive && r.1[id].(isActive := true) == users[id].(isActive := true)
    ensures UniqueUsernames(users) ==> UniqueUsernames(r.1)
  {
    (Ok(Msg("User disabled")), SetActive(users, id, false))
  }

  /** PATCH /users/:id/enable; answers success even when `id` is unknown. */
  function EnableUser(users: Directory, id: UserId): (r: (Response, Directory))
    ensures r.0 == Ok(Msg("User enabled"))
    ensures r.1.Keys == users.Keys
    ensures forall o :: o in users && o != id ==> r.1[o] == users[o]
    ensures id in users ==> r.1[id].isActive && r.1[id].(isActive := false) == users[id].(isActive := false)
    ensures UniqueUsernames(users) ==> UniqueUsernames(r.1)
  {
    (Ok(Msg("User enabled")), SetActive(users, id, true))
  }

  /** DELETE /users/:id; answers success even when `id` is unknown. */
  function DeleteUser(users: Directory, id: UserId): (r: (Response, Directory))
    ensures r.0 == Ok(Msg("User deleted"))
    ensures r.1.Keys == users.Keys - {id}
    ensures forall o :: o in r.1 ==> r.1[o] == users[o]
    ensures UniqueUsernames(users) ==> UniqueUsernames(r.1)
  {
    (Ok(Msg("User deleted")), users - {id})
  }

  /* ---------------- relations between the handlers ---------------- */

  /** Deleting a freshly created account gives back the directory as it was. */
  lemma DeleteUndoesCreate(users: Directory, b: CreateBody, newId: UserId)
    requires newId !in users
    requires CreateUser(users, b, newId).0.Response? && CreateUser(users, b, newId).0.status == OK
    ensures DeleteUser(CreateUser(users, b, newId).1, newId).1 == users
  {
    var after := CreateUser(users, b, newId).1;
    assert after.Keys - {newId} == users.Keys;
  }

  /** Enabling after disabling restores an account that was active, and vice versa. */
  lemma EnableUndoesDisable(users: Directory, id: UserId)
    ensures id in users && users[id].isActive ==> EnableUser(DisableUser(users, id).1, id).1 == users
    ensures id in users && !users[id].isActive ==> DisableUser(EnableUser(users, id).1, id).1 == users
    ensures id !in users ==> EnableUser(users, id).1 == users && DisableUser(users, id).1 == users
  {
  }

  /** A new account shows up in the listing, once, exactly when it is not a super-admin. */
  lemma CreatedAccountListed(users: Directory, b: CreateBody, newId: UserId, order: seq<UserId>)
    requires newId !in users
    requires CreateUser(users, b, newId).0.Response? && CreateUser(users, b, newId).0.status == OK
    requires Enumerates(order, CreateUser(users, b, newId).1)
    ensures var listing := Ids(GetUsers(CreateUser(users, b, newId).1, order).body.accounts);
            && (newId in listing <==> b.role.value != "SUPER_ADMIN")
            && multiset(listing)[newId] <= 1
  {
    var u := CreateUser(users, b, newId).1[newId];
    assert Name(u.role) == b.role.value;
  }
}
