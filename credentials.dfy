/**
 * The password and reset-token rules shared by `Technician` and `User`.
 *
 * Time is an integer count of seconds on the `datetime.utcnow()` clock, a
 * token is an opaque string (the output of `secrets.token_urlsafe(32)`), and
 * bcrypt's `hashpw` and `checkpw` are function parameters about which nothing
 * is assumed.
 */
module Credentials {
  import opened Models

  /** `timedelta(hours=24)`, in seconds. */
  const TokenLifetime: int := 24 * 60 * 60

  /** The `password_reset_token` and `token_expiration` columns. */
  datatype ResetToken = ResetToken(token: Option<string>, expiration: Option<int>) {
    /** Both columns are written together, so an expiry is stored whenever a token is. */
    predicate Consistent()
    {
      token.Some? ==> expiration.Some?
    }
  }

  /**
   * `check_password_token`: a token is stored, the candidate is not empty,
   * it equals the stored token, and the expiry is strictly after now.
   */
  predicate Accepts(state: ResetToken, candidate: Option<string>, now: int)
    requires state.Consistent()
  {
    Truthy(state.token) && Truthy(candidate) && state.token == candidate && state.expiration.value > now
  }

  /** The state `generate_password_token` leaves: the issued token, valid for 24 hours. */
  function Issued(issued: string, now: int): (r: ResetToken)
    ensures r.Consistent()
    ensures issued != "" ==> forall later :: Accepts(r, Some(issued), later) <==> later < now + TokenLifetime
    ensures forall other, later :: other != Some(issued) ==> !Accepts(r, other, later)
  {
    ResetToken(Some(issued), Some(now + TokenLifetime))
  }

  /** The state `clear_password_token` leaves. */
  function Cleared(): (r: ResetToken)
    ensures r.Consistent()
    ensures forall candidate, now :: !Accepts(r, candidate, now)
  {
    ResetToken(None, None)
  }

  /** Issuing a new token revokes the previous one. */
  lemma ReissueRevokes(first: string, second: string, issuedAt: int, now: int)
    requires first != second
    ensures !Accepts(Issued(second, issuedAt), Some(first), now)
  {
  }

  /** `password_hash` after `set_password`: an empty or missing password leaves it as it was. */
  function HashAfterSet(current: Option<string>, password: Option<string>, salt: string,
                        hashpw: (string, string) -> string): Option<string>
  {
    if Truthy(password) then Some(hashpw(password.value, salt)) else current
  }

  /** `check_password`: false without a stored hash or without a password, otherwise bcrypt decides. */
  predicate PasswordAccepted(hash: Option<string>, password: Option<string>,
                             checkpw: (string, string) -> bool)
    ensures PasswordAccepted(hash, password, checkpw) ==> Truthy(hash) && Truthy(password)
  {
    Truthy(hash) && Truthy(password) && checkpw(password.value, hash.value)
  }

  /**
   * Setting a password and then checking the same password succeeds whenever
   * bcrypt verifies its own (non-empty) hash.
   */
  lemma SetThenCheck(current: Option<string>, password: string, salt: string,
                     hashpw: (string, string) -> string, checkpw: (string, string) -> bool)
    requires password != ""
    requires hashpw(password, salt) != "" && checkpw(password, hashpw(password, salt))
    ensures PasswordAccepted(HashAfterSet(current, Some(password), salt, hashpw), Some(password), checkpw)
  {
  }
}
