/** The persisted settings collection and the two session-timeout handlers over it. */
module SettingsController {
  import opened Wrappers
  import opened Http

  /** The settings collection, keyed by name; the unique index on `key` makes it a map. */
  type Store = map<string, int>

  const SessionTimeoutKey: string := "sessionTimeout"

  /** Minutes used when no session-timeout record exists. */
  const DefaultTimeout: int := 15

  /** Every stored session timeout is at least one minute. */
  ghost predicate Valid(s: Store) {
    SessionTimeoutKey in s ==> s[SessionTimeoutKey] >= 1
  }

  /** No entry other than the session timeout differs between `s` and `s'`. */
  ghost predicate OthersUnchanged(s: Store, s': Store) {
    forall k :: k != SessionTimeoutKey ==> (k in s <==> k in s') && (k in s ==> s[k] == s'[k])
  }

  /** The lifetime, in minutes, that a login reads: the stored value, or the default. */
  function SessionMinutes(s: Store): (m: int)
    ensures Valid(s) ==> m >= 1
  {
    if SessionTimeoutKey in s then s[SessionTimeoutKey] else DefaultTimeout
  }

  /**
   * GET /session-timeout: answers the stored value, first creating the record
   * with the default when it is missing. It never answers "not found".
   */
  function GetSessionTimeout(s: Store): (r: (Response, Store))
    ensures SessionTimeoutKey in r.1 && r.0 == Ok(Timeout(r.1[SessionTimeoutKey]))
    ensures r.0 == Ok(Timeout(SessionMinutes(s)))
    ensures SessionTimeoutKey in s ==> r.1 == s
    ensures SessionTimeoutKey !in s ==> r.1[SessionTimeoutKey] == DefaultTimeout
    ensures OthersUnchanged(s, r.1)
    ensures Valid(s) ==> Valid(r.1)
  {
    var s' := if SessionTimeoutKey in s then s else s[SessionTimeoutKey := DefaultTimeout];
    (Ok(Timeout(s'[SessionTimeoutKey])), s')
  }

  /**
   * POST /session-timeout. `timeout` is the body's value after numeric
   * coercion: None when it is missing or not a number. Zero, negatives and
   * non-numbers are refused; anything else is upserted and echoed.
   */
  function UpdateSessionTimeout(s: Store, timeout: Option<int>): (r: (Response, Store))
    ensures r.0 == Fail(BadRequest, "Invalid timeout value") <==> timeout.None? || timeout.value < 1
    ensures r.0.Response? && (r.0.status == OK || r.0.status == BadRequest)
    ensures r.0.status == OK <==> timeout.Some? && timeout.value >= 1
    ensures r.0.status == BadRequest ==> r.1 == s
    ensures r.0.status == OK ==> SessionTimeoutKey in r.1 && r.0.body == Timeout(r.1[SessionTimeoutKey])
                                 && r.1[SessionTimeoutKey] == timeout.value
    ensures OthersUnchanged(s, r.1)
    ensures Valid(s) ==> Valid(r.1)
  {
    if timeout.None? || timeout.value < 1 then
      (Fail(BadRequest, "Invalid timeout value"), s)
    else
      var s' := s[SessionTimeoutKey := timeout.value];
      (Ok(Timeout(s'[SessionTimeoutKey])), s')
  }

  /** Two reads in a row agree, and the second writes nothing. */
  lemma GetTwiceAgrees(s: Store)
    ensures GetSessionTimeout(GetSessionTimeout(s).1) == (GetSessionTimeout(s).0, GetSessionTimeout(s).1)
  {
  }

  /** After a successful update to `t`, a read answers `t` and writes nothing. */
  lemma UpdateThenGet(s: Store, t: int)
    requires t >= 1
    ensures var s1 := UpdateSessionTimeout(s, Some(t)).1;
            GetSessionTimeout(s1) == (Ok(Timeout(t)), s1)
  {
  }
}
