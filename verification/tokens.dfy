/** The signed credential a login mints, as the claims it carries. */
module Tokens {
  import opened Roles

  /** Account identifiers are the store's opaque id strings. */
  type UserId = string

  /** Claims of a signed token; `expiresAt` is in whole seconds since the epoch. */
  datatype Token = Token(subject: UserId, role: Role, expiresAt: int)

  const MsPerSecond: nat := 1000
  const SecondsPerMinute: nat := 60
  const MsPerMinute: nat := 60_000

  /**
   * The lifetime reaches the signing library as the text `<minutes>m`. Number
   * formatting switches to exponent notation (`1e+21`) at this magnitude, and
   * the library's duration parser accepts only plain digits, so from here on
   * signing throws.
   */
  const ExponentThreshold: nat := 1_000_000_000_000_000_000_000

  /** The signing library can read a lifetime of `minutes` written as `<minutes>m`. */
  predicate SpanParses(minutes: int) {
    -(ExponentThreshold as int) < minutes < ExponentThreshold
  }

  /**
   * Signs claims `{subject, role}` valid for `minutes` from `nowMs`: the
   * signing library stamps the issue time in whole seconds (rounded down) and
   * adds the lifetime to it.
   */
  function Issue(subject: UserId, role: Role, nowMs: nat, minutes: int): (t: Token)
    ensures t.subject == subject && t.role == role
    ensures t.expiresAt * MsPerSecond <= nowMs + minutes * MsPerMinute < t.expiresAt * MsPerSecond + MsPerSecond
  {
    Token(subject, role, nowMs / MsPerSecond + minutes * SecondsPerMinute)
  }

  /** The signature check accepts a token while the current whole second is before its expiry. */
  predicate Live(t: Token, nowMs: nat) {
    nowMs / MsPerSecond < t.expiresAt
  }

  /** A token issued for `minutes` is live for exactly that many minutes, counted from the second it was stamped. */
  lemma IssueLifetime(subject: UserId, role: Role, nowMs: nat, minutes: int, at: nat)
    ensures Live(Issue(subject, role, nowMs, minutes), at)
        <==> at / MsPerSecond < nowMs / MsPerSecond + minutes * SecondsPerMinute
  {
  }
}
