/** The settings page: what each role loads and sees, and how it takes in the server's answers. */
module SettingsPage {
  import opened Wrappers
  import opened Roles
  import opened UserModel
  import Tokens
  import opened Seqs
  import Http
  import Routes
  import Uploads
  import UserForm
  import SettingsController
  import AuthController
  import UserController
  import Crypto
  import ApiClient

  /** The requests and state updates the first render triggers. */
  datatype Load = LoadProfile | LoadDepartmentUsers | LoadSessionTimeout

  /**
   * Nothing without a role; the profile when the context supplies a user; the
   * department list for ADMIN; the session timeout for SUPER_ADMIN.
   */
  function InitialLoads(role: Option<Role>, userPresent: bool): (l: seq<Load>)
    ensures role.None? ==> l == []
    ensures LoadProfile in l <==> role.Some? && userPresent
    ensures LoadDepartmentUsers in l <==> role == Some(Admin)
    ensures LoadSessionTimeout in l <==> role == Some(SuperAdmin)
  {
    if role.None? then []
    else
      (if userPresent then [LoadProfile] else [])
      + (if role == Some(Admin) then [LoadDepartmentUsers] else [])
      + (if role == Some(SuperAdmin) then [LoadSessionTimeout] else [])
  }

  /** A JSON value as far as a `typeof ... === "number"` test distinguishes it. */
  datatype JsValue = JsNumber(n: int) | JsString(s: string) | JsOther

  /** The timeout state after a response: the answered `timeout` when it is a number, otherwise unchanged. */
  function AcceptTimeout(current: int, timeout: Option<JsValue>): (t: int)
    ensures timeout.Some? && timeout.value.JsNumber? ==> t == timeout.value.n
    ensures !(timeout.Some? && timeout.value.JsNumber?) ==> t == current
  {
    match timeout
    case Some(JsNumber(n)) => n
    case _ => current
  }

  /** After an update: the state and the message shown. A failed request keeps the state. */
  function AfterTimeoutUpdate(current: int, o: ApiClient.Outcome<Option<JsValue>>): (r: (int, string))
    ensures o.Fulfilled? ==> r == (AcceptTimeout(current, o.value), "Session timeout updated")
    ensures !o.Fulfilled? ==> r == (current, "Failed to update session timeout")
  {
    match o
    case Fulfilled(t) => (AcceptTimeout(current, t), "Session timeout updated")
    case _ => (current, "Failed to update session timeout")
  }

  /** How a controller answer reaches the page: a 2xx body's `timeout`, or a rejection with the status. */
  function Transport(r: Http.Response): ApiClient.Outcome<Option<JsValue>> {
    match r
    case Thrown => ApiClient.ErrorStatus(500)
    case Response(status, body) =>
      if status == Http.OK then
        ApiClient.Fulfilled(if body.Timeout? then Some(JsNumber(body.minutes)) else None)
      else ApiClient.ErrorStatus(status)
  }

  /**
   * Page and server together: an accepted update shows the stored value; a
   * refused one keeps what the page showed and reports failure.
   */
  lemma UpdateRoundTrip(s: SettingsController.Store, current: int, t: Option<int>)
    ensures var (resp, s') := SettingsController.UpdateSessionTimeout(s, t);
            var (shown, msg) := AfterTimeoutUpdate(current, Transport(resp));
            && (t.Some? && t.value >= 1 ==> shown == t.value && msg == "Session timeout updated"
                                            && s'[SettingsController.SessionTimeoutKey] == shown)
            && (t.None? || t.value < 1 ==> shown == current && msg == "Failed to update session timeout" && s' == s)
  {
  }

  /** The department list after loading: the answered list, or empty when the answer is null or the request failed. */
  datatype DepartmentLoad = LoadFailed | Loaded(data: Option<seq<PublicUser>>)

  function DepartmentUsers(l: DepartmentLoad): (r: seq<PublicUser>)
    ensures l.Loaded? && l.data.Some? ==> r == l.data.value
    ensures !(l.Loaded? && l.data.Some?) ==> r == []
  {
    match l
    case Loaded(Some(users)) => users
    case _ => []
  }

  /**
   * How the department request settles. The account router's `getUsers`
   * answers the listing; a refusal and an unmatched route reject the request,
   * which the page's catch turns into a failed load. No other handler matches
   * this request.
   */
  function DepartmentAnswer(d: Routes.Dispatch<Routes.UserHandler>, users: Directory, order: seq<Tokens.UserId>): (l: DepartmentLoad)
    requires Enumerates(order, users)
    ensures d.Refused? || d.NoRoute? ==> l == LoadFailed
    ensures d.Handle? && d.handler == Routes.GetUsers ==> l == Loaded(Some(UserController.GetUsers(users, order).body.accounts))
  {
    if d.Handle? && d.handler == Routes.GetUsers then Loaded(Some(UserController.GetUsers(users, order).body.accounts))
    else LoadFailed
  }

  /**
   * An ADMIN's department load goes to the account listing, which admits only
   * SUPER_ADMIN: it is refused with 403, the load fails, and so the staff panel
   * starts and stays empty.
   */
  lemma AdminDepartmentLoadRefused(t: Tokens.Token, nowMs: nat, users: Directory, order: seq<Tokens.UserId>)
    requires t.role == Admin && Tokens.Live(t, nowMs) && Enumerates(order, users)
    ensures var d := Routes.DispatchUsers(Routes.Request(Routes.Get, [], Some(t)), nowMs);
            && d == Routes.Refused(Http.Forbidden)
            && DepartmentAnswer(d, users, order) == LoadFailed
            && StaffListed(DepartmentUsers(DepartmentAnswer(d, users, order))) == []
  {
  }

  /** The ADMIN panel lists only the STAFF accounts of the loaded list, in order. */
  function StaffListed(users: seq<PublicUser>): (r: seq<PublicUser>)
    ensures forall u :: u in r <==> u in users && u.role == Staff
    ensures IsSubsequence(r, users)
    ensures forall u :: multiset(r)[u] == if u.role == Staff then multiset(users)[u] else 0
  {
    Filter(users, (u: PublicUser) => u.role == Staff)
  }

  datatype Panel = Logs | SessionTimeoutPanel | AccessControl | DepartmentStaff | PersonalSettings

  /** The role-specific panels; VIEWER and a missing role get none. */
  function Panels(role: Option<Role>): (p: seq<Panel>)
    ensures role.None? || role == Some(Viewer) ==> p == []
    ensures SessionTimeoutPanel in p <==> role == Some(SuperAdmin)
    ensures DepartmentStaff in p <==> role == Some(Admin)
    ensures PersonalSettings in p <==> role == Some(Admin) || role == Some(Staff)
  {
    match role
    case Some(SuperAdmin) => [Logs, SessionTimeoutPanel, AccessControl]
    case Some(Admin) => [DepartmentStaff, PersonalSettings]
    case Some(Staff) => [PersonalSettings]
    case _ => []
  }

  /** A role loads the timeout exactly when it sees the timeout panel, and the department list exactly when it sees the staff panel. */
  lemma LoadsMatchPanels(role: Option<Role>, userPresent: bool)
    ensures LoadSessionTimeout in InitialLoads(role, userPresent) <==> SessionTimeoutPanel in Panels(role)
    ensures LoadDepartmentUsers in InitialLoads(role, userPresent) <==> DepartmentStaff in Panels(role)
  {
  }

  /** The timeout requests the page sends match the settings routes. */
  lemma TimeoutRequestsRouted()
    ensures Routes.MatchSettingsRoute(Routes.Get, ["session-timeout"]) == Some(Routes.GetSessionTimeout)
    ensures Routes.MatchSettingsRoute(Routes.Post, ["session-timeout"]) == Some(Routes.UpdateSessionTimeout)
  {
  }

  /** The message the page's photo picker shows for a file that is not JPEG or PNG. */
  const PhotoRefusal: string := "Only JPG and PNG allowed"

  /** The page's photo picker takes exactly the files the account form takes; only the refusal text differs. */
  lemma PhotoCheckMatchesForm(mime: Option<string>)
    ensures Uploads.HandlePhoto(mime, PhotoRefusal).ReadAsDataUrl? == Uploads.HandlePhoto(mime, UserForm.PhotoRefusal).ReadAsDataUrl?
    ensures Uploads.HandlePhoto(mime, PhotoRefusal).Refused? ==> Uploads.HandlePhoto(mime, PhotoRefusal).msg != UserForm.PhotoRefusal
  {
  }

  /* ---------------- personal settings ---------------- */

  /** The profile update: without a user in the context reading its id throws before any request is sent. */
  function ProfileRequest(userId: Option<Tokens.UserId>): (r: Option<Routes.Request>)
    ensures r.None? <==> userId.None?
    ensures r.Some? ==> r.value.verb == Routes.Patch && r.value.path == [userId.value]
  {
    match userId
    case None => None
    case Some(id) => Some(Routes.Request(Routes.Patch, [id], None))
  }

  /** How a router's decision reaches the page: a refusal keeps its status and an unmatched path is a 404. */
  function Delivered<H>(d: Routes.Dispatch<H>): ApiClient.Outcome<()> {
    match d
    case Refused(status) => ApiClient.ErrorStatus(status)
    case NoRoute => ApiClient.ErrorStatus(Http.NotFound)
    case Handle(_, _) => ApiClient.Fulfilled(())
  }

  /** The profile message: success only for a fulfilled request; a throw before sending or a rejection is a failure. */
  function ProfileMessage(o: Option<ApiClient.Outcome<()>>): (msg: string)
    ensures msg == "Profile updated successfully" <==> o == Some(ApiClient.Fulfilled(()))
    ensures msg != "Profile updated successfully" ==> msg == "Failed to update profile"
  {
    if o == Some(ApiClient.Fulfilled(())) then "Profile updated successfully" else "Failed to update profile"
  }

  /**
   * A profile update never succeeds: with no user it throws, and with one the
   * account router has no PATCH on a bare id, whoever's token is attached.
   */
  lemma ProfileUpdateAlwaysFails(userId: Option<Tokens.UserId>, bearer: Option<Tokens.Token>, nowMs: nat)
    ensures var o := match ProfileRequest(userId)
                     case None => None
                     case Some(req) => Some(Delivered(Routes.DispatchUsers(req.(bearer := bearer), nowMs)));
            ProfileMessage(o) == "Failed to update profile"
  {
  }

  /** The password form's two fields. */
  datatype Passwords = Passwords(current: string, next: string)

  const NoPasswords: Passwords := Passwords("", "")

  /** After a change-password request: success clears the form; failure keeps it. */
  function AfterPasswordChange(p: Passwords, o: ApiClient.Outcome<()>): (r: (Passwords, string))
    ensures o.Fulfilled? ==> r == (NoPasswords, "Password changed successfully")
    ensures !o.Fulfilled? ==> r == (p, "Password change failed")
  {
    if o.Fulfilled? then (NoPasswords, "Password changed successfully") else (p, "Password change failed")
  }

  /** Any 2xx answer fulfils the request; other statuses and a thrown handler reject it. */
  function Settled(r: Http.Response): ApiClient.Outcome<()> {
    match r
    case Thrown => ApiClient.ErrorStatus(500)
    case Response(status, _) => if status == Http.OK then ApiClient.Fulfilled(()) else ApiClient.ErrorStatus(status)
  }

  /**
   * Page and server together: the page reports success (and clears the form)
   * exactly when both fields are filled, the caller exists and the current
   * password matches; otherwise the form and the directory are as they were.
   */
  lemma PasswordChangeRoundTrip(users: Directory, caller: Tokens.UserId, p: Passwords)
    ensures var (resp, users') := AuthController.ChangePassword(users, caller, Some(p.current), Some(p.next));
            var (form, msg) := AfterPasswordChange(p, Settled(resp));
            && (msg == "Password changed successfully" <==>
                  p.current != "" && p.next != "" && caller in users && Crypto.Matches(p.current, users[caller].password))
            && (msg == "Password changed successfully" ==> form == NoPasswords && users'[caller].password == Crypto.Hash(p.next))
            && (msg != "Password changed successfully" ==> form == p && users' == users)
  {
  }
}
