/** The account list page: its filters, the department choices it offers, and the per-row actions. */
module UsersPage {
  import opened Wrappers
  import opened Roles
  import opened Tokens
  import opened UserModel
  import opened Seqs
  import opened Text
  import Routes
  import UserController

  /** The filter value that matches everything. */
  const All: string := "ALL"

  /** The role filter's choices: everything, or one of the roles the listing can contain. */
  const RoleFilterOptions: seq<string> := [All, "ADMIN", "STAFF", "VIEWER"]

  /** A row passes when each filter is ALL or equals the row's value. */
  predicate Kept(u: PublicUser, roleFilter: string, deptFilter: string) {
    && (roleFilter == All || Name(u.role) == roleFilter)
    && (deptFilter == All || u.profile.department == Some(deptFilter))
  }

  function FilteredUsers(users: seq<PublicUser>, roleFilter: string, deptFilter: string): (r: seq<PublicUser>)
    ensures forall u :: u in r <==> u in users && Kept(u, roleFilter, deptFilter)
    ensures IsSubsequence(r, users)
    ensures forall u :: multiset(r)[u] == if Kept(u, roleFilter, deptFilter) then multiset(users)[u] else 0
    ensures roleFilter == All && deptFilter == All ==> r == users
  {
    Filter(users, u => Kept(u, roleFilter, deptFilter))
  }

  /** One account, against a listing shaped as the account listing answers it. */
  lemma ShownId(users: Directory, listing: seq<PublicUser>, roleFilter: string, deptFilter: string, id: UserId)
    requires forall i :: 0 <= i < |listing| ==> listing[i].id in users && listing[i] == Strip(listing[i].id, users[listing[i].id])
    requires forall x :: multiset(Ids(listing))[x] == if UserController.Listed(users, x) then 1 else 0
    ensures id in Ids(FilteredUsers(listing, roleFilter, deptFilter))
            <==> UserController.Listed(users, id) && Kept(Strip(id, users[id]), roleFilter, deptFilter)
  {
    var shown := FilteredUsers(listing, roleFilter, deptFilter);
    if id in Ids(shown) {
      var i :| 0 <= i < |shown| && Ids(shown)[i] == id;
      assert shown[i] in listing;
      var j :| 0 <= j < |listing| && listing[j] == shown[i];
      assert Ids(listing)[j] == id;
      assert id in Ids(listing);
    }
    if UserController.Listed(users, id) && Kept(Strip(id, users[id]), roleFilter, deptFilter) {
      assert multiset(Ids(listing))[id] == 1;
      var j :| 0 <= j < |listing| && Ids(listing)[j] == id;
      assert listing[j] in shown;
      var i :| 0 <= i < |shown| && shown[i] == listing[j];
      assert Ids(shown)[i] == id;
    }
  }

  /**
   * The page over the server's listing: a row appears for an account exactly
   * when the listing includes it and it passes both filters, in the
   * collection's order.
   */
  lemma ShowsListing(users: Directory, order: seq<UserId>, roleFilter: string, deptFilter: string)
    requires Enumerates(order, users)
    ensures var listing := UserController.GetUsers(users, order).body.accounts;
            var shown := FilteredUsers(listing, roleFilter, deptFilter);
            && IsSubsequence(shown, listing)
            && forall id :: id in Ids(shown)
                            <==> UserController.Listed(users, id) && Kept(Strip(id, users[id]), roleFilter, deptFilter)
  {
    var listing := UserController.GetUsers(users, order).body.accounts;
    forall id ensures id in Ids(FilteredUsers(listing, roleFilter, deptFilter))
                      <==> UserController.Listed(users, id) && Kept(Strip(id, users[id]), roleFilter, deptFilter)
    {
      ShownId(users, listing, roleFilter, deptFilter, id);
    }
  }

  /** The role filter never offers SUPER_ADMIN, which the listing leaves out anyway. */
  lemma RoleFilterOmitsSuperAdmin()
    ensures Name(SuperAdmin) !in RoleFilterOptions
  {
  }

  /** Puts `x` into a strictly sorted sequence, once. */
  function Insert(x: string, s: seq<string>): (r: seq<string>)
    requires StrictlySorted(s)
    ensures StrictlySorted(r)
    ensures forall y :: y in r <==> y == x || y in s
    decreases |s|
  {
    if s == [] then [x]
    else if x == s[0] then s
    else if Less(x, s[0]) then
      forall j | 0 < j < |s| ensures Less(x, s[j]) {
        LessTransitive(x, s[0], s[j]);
      }
      [x] + s
    else
      LessTotal(x, s[0]);
      var rest := Insert(x, s[1..]);
      assert forall j :: 0 <= j < |rest| ==> rest[j] == x || rest[j] in s[1..];
      [s[0]] + rest
  }

  /** The department choices: every non-empty department some listed user has, each once, in ascending order. */
  function DepartmentOptions(users: seq<PublicUser>): (r: seq<string>)
    ensures StrictlySorted(r)
    ensures forall d :: d in r <==> d != "" && exists u :: u in users && u.profile.department == Some(d)
    decreases |users|
  {
    if users == [] then []
    else
      var rest := DepartmentOptions(users[1..]);
      var dept := users[0].profile.department;
      if Truthy(dept) then Insert(dept.value, rest) else rest
  }

  /** Sorted without repeats means no value appears twice. */
  lemma OptionsDistinct(users: seq<PublicUser>, i: int, j: int)
    requires 0 <= i < j < |DepartmentOptions(users)|
    ensures DepartmentOptions(users)[i] != DepartmentOptions(users)[j]
  {
    LessIrreflexive(DepartmentOptions(users)[i]);
  }

  datatype RowAction = Enable | Disable | Delete

  /** The buttons of one row: Enable for a disabled account or Disable for an active one, and Delete. */
  function RowActions(u: PublicUser): (a: seq<RowAction>)
    ensures (Enable in a) != (Disable in a)
    ensures Enable in a <==> !u.isActive
    ensures Delete in a
  {
    (if u.isActive then [] else [Enable]) + (if u.isActive then [Disable] else []) + [Delete]
  }

  /** The request each button sends. */
  function ActionRequest(u: PublicUser, a: RowAction): (Routes.Verb, seq<string>) {
    match a
    case Enable => (Routes.Patch, [u.id, "enable"])
    case Disable => (Routes.Patch, [u.id, "disable"])
    case Delete => (Routes.Delete, [u.id])
  }

  /** Each button's request lands on the matching account route. */
  lemma ActionsHitRoutes(u: PublicUser, a: RowAction)
    requires u.id != ""
    ensures var (v, p) := ActionRequest(u, a);
            Routes.MatchUserRoute(v, p) == Some(match a
                                                case Enable => Routes.EnableUser(u.id)
                                                case Disable => Routes.DisableUser(u.id)
                                                case Delete => Routes.DeleteUser(u.id))
  {
  }
}
