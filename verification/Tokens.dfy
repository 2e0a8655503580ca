/**
  Bearer tokens. Encryption is ideal: a token the service made is its payload under seal,
  and any other text does not decrypt.
 */
module Tokens {
  import opened Wrappers

  type UserId = nat
  type TokenId = nat

  datatype Role = Admin | User

  datatype TokenType = Access | Refresh

  datatype Payload = Payload(id: TokenId, userId: UserId, wallet: string, role: Role, tokenType: TokenType,
                             issuedAt: int, expiresAt: int)

  datatype Token = Sealed(payload: Payload) | Foreign(text: string)

  /** payload.go, Valid */
  predicate Valid(p: Payload, now: int) { now <= p.expiresAt }

  /** paseto_maker.go, VerifyToken */
  function VerifyToken(token: Token, now: int): Option<Payload> {
    if token.Sealed? && Valid(token.payload, now) then Some(token.payload) else None
  }

  /** token_authorization.go, AuthorizeToken, from the token on; None stands for any of its errors. */
  function AuthorizeToken(token: Token, now: int, userId: UserId, tokenType: TokenType,
                          authorizedRoles: Option<seq<Role>>): Option<Payload>
  {
    match VerifyToken(token, now)
    case None => None
    case Some(p) =>
      if p.tokenType != tokenType then None
      else if authorizedRoles.Some? && p.role !in authorizedRoles.value then None
      else if userId != p.userId then None
      else Some(p)
  }

  /** A token is authorised exactly when it is sealed, unexpired, of the type, for the user and of an allowed role. */
  lemma AuthorizeTokenExact(token: Token, now: int, userId: UserId, tokenType: TokenType, roles: Option<seq<Role>>,
                            p: Payload)
    ensures AuthorizeToken(token, now, userId, tokenType, roles) == Some(p) <==>
      && token == Sealed(p) && now <= p.expiresAt && p.tokenType == tokenType && p.userId == userId
      && (roles.Some? ==> exists i | 0 <= i < |roles.value| :: roles.value[i] == p.role)
  {
  }
}
