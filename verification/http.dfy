/** The shapes of the JSON responses the controllers send. */
module Http {
  import opened Roles
  import opened Tokens
  import opened UserModel

  datatype Body =
    | Msg(text: string)
    | Timeout(minutes: int)
    | Credentials(token: Token, role: Role)
    | Record(id: UserId, user: User)
    | Account(account: PublicUser)
    | Accounts(accounts: seq<PublicUser>)

  /**
   * A controller either answers with a status and a body, or throws (a schema
   * validation error or a unique-index violation it does not catch), leaving
   * the answer to the transport's error handling.
   */
  datatype Response = Response(status: int, body: Body) | Thrown

  const OK := 200
  const BadRequest := 400
  const Unauthorized := 401
  const Forbidden := 403
  const NotFound := 404

  function Ok(b: Body): Response {
    Response(OK, b)
  }

  function Fail(status: int, msg: string): Response {
    Response(status, Msg(msg))
  }
}
