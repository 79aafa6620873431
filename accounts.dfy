/**
 * The credential methods of the `Technician` model class, which assign the
 * row's `password_hash`, `password_reset_token` and `token_expiration` in
 * place. The other columns of a technician are in Models.TechnicianRow.
 */
module TechnicianAccount {
  import opened Models
  import opened Credentials

  class Technician {
    var passwordHash: Option<string>
    var passwordResetToken: Option<string>
    var tokenExpiration: Option<int>

    /** The reset-token columns as one value. */
    function ResetState(): ResetToken
      reads this
    {
      ResetToken(passwordResetToken, tokenExpiration)
    }

    ghost predicate Valid()
      reads this
    {
      ResetState().Consistent()
    }

    /** A new row: no password and no token. */
    constructor ()
      ensures Valid()
      ensures passwordHash == None && ResetState() == Cleared()
    {
      passwordHash := None;
      passwordResetToken := None;
      tokenExpiration := None;
    }

    /** `set_password`: hashes a non-empty password with a new salt; ignores an empty one. */
    method SetPassword(password: Option<string>, salt: string, hashpw: (string, string) -> string)
      modifies this`passwordHash
      ensures passwordHash == HashAfterSet(old(passwordHash), password, salt, hashpw)
      ensures !Truthy(password) ==> passwordHash == old(passwordHash)
    {
      if Truthy(password) {
        passwordHash := Some(hashpw(password.value, salt));
      }
    }

    /** `check_password`. */
    predicate CheckPassword(password: Option<string>, checkpw: (string, string) -> bool)
      reads this
      ensures CheckPassword(password, checkpw) ==> Truthy(passwordHash) && Truthy(password)
    {
      PasswordAccepted(passwordHash, password, checkpw)
    }

    /** `generate_password_token`: stores and returns `issued`, expiring 24 hours after `now`. */
    method GeneratePasswordToken(issued: string, now: int) returns (token: string)
      modifies this`passwordResetToken, this`tokenExpiration
      ensures Valid()
      ensures token == issued && ResetState() == Issued(issued, now)
      ensures forall other, later :: other != Some(issued) ==> !CheckPasswordToken(other, later)
    {
      passwordResetToken := Some(issued);
      tokenExpiration := Some(now + TokenLifetime);
      token := passwordResetToken.value;
    }

    /** `check_password_token`. */
    predicate CheckPasswordToken(token: Option<string>, now: int)
      reads this
      requires Valid()
      ensures CheckPasswordToken(token, now) ==>
                passwordResetToken == token && Truthy(token) && tokenExpiration.value > now
    {
      Accepts(ResetState(), token, now)
    }

    /** `clear_password_token`: afterwards no token is accepted. */
    method ClearPasswordToken()
      modifies this`passwordResetToken, this`tokenExpiration
      ensures Valid()
      ensures ResetState() == Cleared()
      ensures forall token, now :: !CheckPasswordToken(token, now)
    {
      passwordResetToken := None;
      tokenExpiration := None;
    }
  }
}

/**
 * The credential methods of the `User` model class: the same five methods as
 * on `Technician`, over the `users` row's own columns.
 */
module UserAccount {
  import opened Models
  import opened Credentials

  class User {
    var passwordHash: Option<string>
    var passwordResetToken: Option<string>
    var tokenExpiration: Option<int>

    function ResetState(): ResetToken
      reads this
    {
      ResetToken(passwordResetToken, tokenExpiration)
    }

    ghost predicate Valid()
      reads this
    {
      ResetState().Consistent()
    }

    constructor ()
      ensures Valid()
      ensures passwordHash == None && ResetState() == Cleared()
    {
      passwordHash := None;
      passwordResetToken := None;
      tokenExpiration := None;
    }

    method SetPassword(password: Option<string>, salt: string, hashpw: (string, string) -> string)
      modifies this`passwordHash
      ensures passwordHash == HashAfterSet(old(passwordHash), password, salt, hashpw)
      ensures !Truthy(password) ==> passwordHash == old(passwordHash)
    {
      if Truthy(password) {
        passwordHash := Some(hashpw(password.value, salt));
      }
    }

    predicate CheckPassword(password: Option<string>, checkpw: (string, string) -> bool)
      reads this
      ensures CheckPassword(password, checkpw) ==> Truthy(passwordHash) && Truthy(password)
    {
      PasswordAccepted(passwordHash, password, checkpw)
    }

    method GeneratePasswordToken(issued: string, now: int) returns (token: string)
      modifies this`passwordResetToken, this`tokenExpiration
      ensures Valid()
      ensures token == issued && ResetState() == Issued(issued, now)
      ensures forall other, later :: other != Some(issued) ==> !CheckPasswordToken(other, later)
    {
      passwordResetToken := Some(issued);
      tokenExpiration := Some(now + TokenLifetime);
      token := passwordResetToken.value;
    }

    predicate CheckPasswordToken(token: Option<string>, now: int)
      reads this
      requires Valid()
      ensures CheckPasswordToken(token, now) ==>
                passwordResetToken == token && Truthy(token) && tokenExpiration.value > now
    {
      Accepts(ResetState(), token, now)
    }

    method ClearPasswordToken()
      modifies this`passwordResetToken, this`tokenExpiration
      ensures Valid()
      ensures ResetState() == Cleared()
      ensures forall token, now :: !CheckPasswordToken(token, now)
    {
      passwordResetToken := None;
      tokenExpiration := None;
    }
  }
}
