/** Access tokens, their two expiry thresholds, and where a refresh credential comes from. */
module Tokens {
  import opened Prelude

  /** How long before its expiry a token counts as expired. */
  const EXPIRY_LEEWAY_SECS := 90

  datatype Token = Token(
    access: string,
    expiresAt: U64,
    refresh: Option<string>,
    federatedFrom: Option<string>)
  {
    /** Within the leeway of expiry; the addition saturates at the largest `u64`. */
    predicate IsExpiredAt(now: U64) {
      (if now + EXPIRY_LEEWAY_SECS > U64_MAX then U64_MAX else now + EXPIRY_LEEWAY_SECS) >= expiresAt
    }

    predicate IsUsableAt(now: U64) { now < expiresAt }

    /** The token with its refresh credential moved out. */
    function Drained(): (t: Token) { this.(refresh := None) }
  }

  /**
    The two families of `Refresher`: a device session moves its refresh token out
    of the cached token and back; an access key or a provider JWT is always at hand.
   */
  datatype Refresher = DeviceSession | SelfAuthenticating

  /** A credential in the hands of a refresh task. */
  datatype Credential = RefreshToken(value: string) | HeldByRefresher

  /** `try_credential`: the token as it is left, and the credential taken, if any. */
  function TryCredential(kind: Refresher, token: Option<Token>): (r: (Option<Token>, Option<Credential>))
    ensures r.0.Some? <==> token.Some?
  {
    match kind
    case SelfAuthenticating => (token, Some(HeldByRefresher))
    case DeviceSession =>
      if token.Some? && token.value.refresh.Some?
      then (Some(token.value.Drained()), Some(RefreshToken(token.value.refresh.value)))
      else (token, None)
  }

  /** `restore`: undoes `try_credential` on the token it left behind. */
  function Restore(token: Token, credential: Credential): (t: Token) {
    match credential
    case RefreshToken(value) => token.(refresh := Some(value))
    case HeldByRefresher => token
  }

  lemma RestoreUndoesTake(kind: Refresher, token: Token)
    ensures var (left, taken) := TryCredential(kind, Some(token));
            taken.Some? ==> Restore(left.value, taken.value) == token
  {
  }
}
