/** The closed set of account roles and their wire names. */
module Roles {
  import opened Wrappers

  /** SUPER_ADMIN, ADMIN, STAFF and VIEWER; authorization is by allow-list, not by rank. */
  datatype Role = SuperAdmin | Admin | Staff | Viewer

  /** The role a new account gets when none is supplied. */
  const DefaultRole: Role := Viewer

  /** The string under which a role is stored and sent over the wire. */
  function Name(r: Role): string {
    match r
    case SuperAdmin => "SUPER_ADMIN"
    case Admin => "ADMIN"
    case Staff => "STAFF"
    case Viewer => "VIEWER"
  }

  /** The enumeration check the account schema applies to a role string. */
  function Parse(s: string): (r: Option<Role>)
    ensures r.Some? <==> s in {"SUPER_ADMIN", "ADMIN", "STAFF", "VIEWER"}
    ensures r.Some? ==> Name(r.value) == s
  {
    if s == "SUPER_ADMIN" then Some(SuperAdmin)
    else if s == "ADMIN" then Some(Admin)
    else if s == "STAFF" then Some(Staff)
    else if s == "VIEWER" then Some(Viewer)
    else None
  }

  /** Every role survives the trip to its wire name and back, so names are distinct. */
  lemma ParseName(r: Role)
    ensures Parse(Name(r)) == Some(r)
  {
  }
}
