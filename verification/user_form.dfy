/** The create/edit account form: its starting values, submit checks, the request it sends and the messages it shows. */
module UserForm {
  import opened Wrappers
  import opened Roles
  import opened Tokens
  import opened Text
  import Routes

  /** The form's fields, all strings; `role` holds the wire name. */
  datatype Form = Form(
    username: string, password: string, role: string,
    name: string, employeeId: string, designation: string,
    department: string, phone: string, photo: string)

  const EmptyForm: Form := Form("", "", "STAFF", "", "", "", "", "", "")

  /** The roles the role selector offers. */
  const SelectableRoles: seq<Role> := [Staff, Admin, Viewer]

  /** The account being edited, if any: its id (possibly missing) and its current fields. */
  datatype InitialData = InitialData(id: Option<UserId>, fields: Form)

  /** Edit mode starts from the account with an empty password; create mode from the empty form. */
  function InitialForm(init: Option<InitialData>): (f: Form)
    ensures init.None? ==> f == EmptyForm && Parse(f.role) == Some(Staff)
    ensures init.Some? ==> f.password == "" && f.(password := init.value.fields.password) == init.value.fields
  {
    match init
    case None => EmptyForm
    case Some(d) => d.fields.(password := "")
  }

  /** The selector never offers SUPER_ADMIN, and the empty form's role is one it offers. */
  lemma SelectableRolesOmitSuperAdmin()
    ensures SuperAdmin !in SelectableRoles
    ensures Parse(EmptyForm.role).value in SelectableRoles
  {
  }

  /** What pressing submit leads to: a refusal before any request, or one of the two requests. */
  datatype Plan = Reject(msg: string) | SendPatch(id: UserId, form: Form) | SendPost(form: Form)

  /**
   * A blank username is always refused; a blank password only when there is no
   * initial data. An account with an id is patched; otherwise a new one is posted.
   */
  function PlanSubmit(form: Form, init: Option<InitialData>): (p: Plan)
    ensures p == Reject("Username is required") <==> Blank(form.username)
    ensures p == Reject("Password is required") <==> !Blank(form.username) && init.None? && Blank(form.password)
    ensures p.SendPatch? <==> !Blank(form.username) && init.Some? && Truthy(init.value.id)
    ensures p.SendPatch? ==> p.id == init.value.id.value && p.form == form
    ensures p.SendPost? ==> p.form == form
  {
    TrimEmptyIffBlank(form.username);
    TrimEmptyIffBlank(form.password);
    if Trim(form.username) == "" then Reject("Username is required")
    else if init.None? && Trim(form.password) == "" then Reject("Password is required")
    else if init.Some? && Truthy(init.value.id) then SendPatch(init.value.id.value, form)
    else SendPost(form)
  }

  /** The request a plan sends, as a verb and a path below `/users`. */
  function PlanRequest(p: Plan): (Routes.Verb, seq<string>)
    requires !p.Reject?
  {
    match p
    case SendPatch(id, _) => (Routes.Patch, [id])
    case SendPost(_) => (Routes.Post, [])
  }

  /** A new account is posted to the create route; an edit is sent to a path the account router does not serve. */
  lemma PlanRequestRouting(form: Form, init: Option<InitialData>)
    ensures var p := PlanSubmit(form, init);
            && (p.SendPost? ==> Routes.MatchUserRoute(PlanRequest(p).0, PlanRequest(p).1) == Some(Routes.CreateUser))
            && (p.SendPatch? ==> Routes.MatchUserRoute(PlanRequest(p).0, PlanRequest(p).1) == None)
  {
  }

  /** The error body of a failed request: it may carry `msg` and `message`. */
  datatype ErrorData = ErrorData(msg: Option<string>, message: Option<string>)

  /** The text shown after a failed save: `msg`, else `message`, else a fixed fallback. */
  function ErrorText(data: Option<ErrorData>): (t: string)
    ensures t != ""
    ensures data.Some? && Truthy(data.value.msg) ==> t == data.value.msg.value
    ensures data.Some? && !Truthy(data.value.msg) && Truthy(data.value.message) ==> t == data.value.message.value
    ensures (data.None? || (!Truthy(data.value.msg) && !Truthy(data.value.message))) ==> t == "Failed to save user"
  {
    if data.Some? && Truthy(data.value.msg) then data.value.msg.value
    else if data.Some? && Truthy(data.value.message) then data.value.message.value
    else "Failed to save user"
  }

  datatype SaveResult = Saved | SaveFailed(data: Option<ErrorData>)

  /** The form after a submit: fields, messages, and the request sent if any. */
  datatype Submitted = Submitted(sent: Option<Plan>, form: Form, errorMsg: string, successMsg: string, loading: bool)

  /** The whole submit: checks, request, then the messages and (after a create) the reset. */
  function Submit(form: Form, init: Option<InitialData>, result: SaveResult): (s: Submitted)
    ensures !s.loading
    ensures s.sent.None? <==> PlanSubmit(form, init).Reject?
    ensures s.sent.None? ==> s.form == form && s.errorMsg == PlanSubmit(form, init).msg && s.successMsg == ""
    ensures s.sent.Some? ==> s.sent.value == PlanSubmit(form, init)
    ensures s.sent.Some? && result.SaveFailed? ==> s.form == form && s.errorMsg == ErrorText(result.data) && s.successMsg == ""
    ensures s.sent.Some? && result == Saved && s.sent.value.SendPost? ==>
              s.form == EmptyForm && s.errorMsg == "" && s.successMsg == "User created successfully"
    ensures s.sent.Some? && result == Saved && s.sent.value.SendPatch? ==>
              s.form == form && s.errorMsg == "" && s.successMsg == "User updated successfully"
  {
    var p := PlanSubmit(form, init);
    match p
    case Reject(msg) => Submitted(None, form, msg, "", false)
    case SendPatch(_, _) =>
      if result.SaveFailed? then Submitted(Some(p), form, ErrorText(result.data), "", false)
      else Submitted(Some(p), form, "", "User updated successfully", false)
    case SendPost(_) =>
      if result.SaveFailed? then Submitted(Some(p), form, ErrorText(result.data), "", false)
      else Submitted(Some(p), EmptyForm, "", "User created successfully", false)
  }

  /** The message the form's photo picker shows for a file that is not JPEG or PNG. */
  const PhotoRefusal: string := "Only JPG and PNG images allowed"
}
