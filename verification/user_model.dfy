/** The account record, its schema defaults and the directory it lives in. */
module UserModel {
  import opened Wrappers
  import opened Roles
  import opened Crypto
  import opened Tokens

  /** The optional profile strings an account carries; none of them takes part in access control. */
  datatype Profile = Profile(
    name: Option<string>,
    employeeId: Option<string>,
    designation: Option<string>,
    department: Option<string>,
    photo: Option<string>,
    phone: Option<string>)

  const EmptyProfile: Profile := Profile(None, None, None, None, None, None)

  /** A stored account. */
  datatype User = User(username: string, password: Digest, role: Role, isActive: bool, profile: Profile)

  /** An account as it is listed or returned after an update: the password field is left out. */
  datatype PublicUser = PublicUser(id: UserId, username: string, role: Role, isActive: bool, profile: Profile)

  /** The account directory: one record per id. */
  type Directory = map<UserId, User>

  /**
   * `order` is the collection's natural order over the directory: every stored
   * id exactly once, and nothing else.
   */
  ghost predicate Enumerates(order: seq<UserId>, users: Directory) {
    forall id :: multiset(order)[id] == if id in users then 1 else 0
  }

  /** The unique index on `username`: no two records share a username. */
  ghost predicate UniqueUsernames(users: Directory) {
    forall a, b :: a in users && b in users && a != b ==> users[a].username != users[b].username
  }

  predicate UsernameTaken(users: Directory, username: string) {
    exists id :: id in users && users[id].username == username
  }

  /** What a create call hands to the schema: role and activation flag may be absent. */
  datatype Draft = Draft(username: string, password: Digest, role: Option<string>, isActive: Option<bool>, profile: Profile)

  /**
   * Applies the schema to a draft: an absent role becomes VIEWER, an absent
   * activation flag becomes true, and a role outside the enumeration fails
   * validation.
   */
  function Materialize(d: Draft): (r: Option<User>)
    ensures r.Some? <==> d.role.None? || Parse(d.role.value).Some?
    ensures r.Some? ==> r.value.username == d.username && r.value.password == d.password && r.value.profile == d.profile
    ensures r.Some? && d.role.None? ==> r.value.role == DefaultRole
    ensures r.Some? && d.role.Some? ==> Name(r.value.role) == d.role.value
    ensures r.Some? ==> (r.value.isActive <==> d.isActive != Some(false))
  {
    var role := if d.role.None? then Some(DefaultRole) else Parse(d.role.value);
    match role
    case None => None
    case Some(rl) => Some(User(d.username, d.password, rl, d.isActive.GetOr(true), d.profile))
  }

  /** The record without its password digest. */
  function Strip(id: UserId, u: User): (p: PublicUser)
    ensures p.id == id && p.username == u.username && p.role == u.role
    ensures p.isActive == u.isActive && p.profile == u.profile
  {
    PublicUser(id, u.username, u.role, u.isActive, u.profile)
  }

  /** The ids of a listing, position by position. */
  function Ids(accounts: seq<PublicUser>): (r: seq<UserId>)
    ensures |r| == |accounts|
    ensures forall i :: 0 <= i < |accounts| ==> r[i] == accounts[i].id
  {
    seq(|accounts|, i requires 0 <= i < |accounts| => accounts[i].id)
  }
}
