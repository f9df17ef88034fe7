/** The navigation menu: which entries each role sees, which one is active, and logging out. */
module Sidebar {
  import opened Wrappers
  import opened Roles
  import opened AuthContext
  import App

  datatype MenuItem = MenuItem(name: string, path: string)

  const DashboardItem: MenuItem := MenuItem("Dashboard", "/")
  const ProductsItem: MenuItem := MenuItem("Products", "/products")
  const StockItem: MenuItem := MenuItem("Stock In/Out", "/stock")
  const SuppliersItem: MenuItem := MenuItem("Suppliers", "/suppliers")
  const ReportsItem: MenuItem := MenuItem("Reports", "/reports")
  const UsersItem: MenuItem := MenuItem("Users", "/users")

  /** The per-role menu table. */
  function MenuConfig(r: Role): seq<MenuItem> {
    match r
    case SuperAdmin => [DashboardItem, ProductsItem, StockItem, SuppliersItem, ReportsItem, UsersItem]
    case Admin => [DashboardItem, ProductsItem, StockItem, SuppliersItem, ReportsItem]
    case Staff => [DashboardItem, ProductsItem, StockItem]
    case Viewer => [DashboardItem, ReportsItem]
  }

  /** The menu shown: the table's entry for the role, or nothing without one. */
  function Menu(role: Option<Role>): (m: seq<MenuItem>)
    ensures role.None? <==> m == []
    ensures role.Some? ==> m[0] == DashboardItem
    ensures (exists i :: 0 <= i < |m| && m[i].path == "/users") <==> role == Some(SuperAdmin)
  {
    match role
    case None => []
    case Some(r) =>
      var m := MenuConfig(r);
      assert r != SuperAdmin ==> forall i :: 0 <= i < |m| ==> m[i].path != "/users";
      assert r == SuperAdmin ==> m[5].path == "/users";
      m
  }

  /** A menu entry is highlighted exactly when the current path equals its path. */
  predicate Active(pathname: string, item: MenuItem) {
    pathname == item.path
  }

  /** The menus nest: STAFF within ADMIN within SUPER_ADMIN, as prefixes; VIEWER is Dashboard and Reports only. */
  lemma MenusNest()
    ensures Menu(Some(Staff)) <= Menu(Some(Admin)) <= Menu(Some(SuperAdmin))
    ensures Menu(Some(Viewer)) == [DashboardItem, ReportsItem]
  {
  }

  /** Within one menu, at most one entry is active at a time. */
  lemma AtMostOneActive(role: Option<Role>, pathname: string, i: int, j: int)
    requires 0 <= i < |Menu(role)| && 0 <= j < |Menu(role)|
    requires Active(pathname, Menu(role)[i]) && Active(pathname, Menu(role)[j])
    ensures i == j
  {
  }

  /** Every entry a role's menu offers opens a page in the route table for a session of that role. */
  lemma MenuEntriesOpen(s: AuthState, i: int)
    requires s.token.Some? && 0 <= i < |Menu(s.role)|
    ensures App.View(s, Menu(s.role)[i].path) !in {App.LoginPage, App.AccessDenied, App.RedirectToLogin, App.NoMatch}
  {
  }

  /** The logout entry: ends the session, then navigates to the login page. */
  function HandleLogout(st: Storage): (r: (AuthState, Storage, string))
    ensures (r.0, r.1) == Logout(st)
    ensures r.1.auth.None? && r.2 == "/login"
  {
    var (s, st') := Logout(st);
    (s, st', "/login")
  }
}
