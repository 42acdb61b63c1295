/** The session token minted by `jwt.sign({customer_id, phone}, JWT_SECRET, {expiresIn: "7d"})`.
    Only the payload is modelled; the HMAC signature over it is not. */
module Session {

  /** "7d" read as seconds, the unit of the `iat` and `exp` claims. */
  const SevenDaysSeconds: int := 7 * 24 * 60 * 60

  /** The claims of the signed token: `customer_id`, `phone`, and the `iat`/`exp`
      pair that the signing library adds, both in whole seconds. */
  datatype Token = Token(customerId: int, phone: string, issuedAt: int, expiresAt: int)

  /** The payload signed at `nowMs` milliseconds: `iat` is the current time in whole
      seconds, rounded down, and the token lives exactly seven days from it. */
  function Mint(customerId: int, phone: string, nowMs: int): (t: Token)
    ensures t.customerId == customerId && t.phone == phone
    ensures t.issuedAt * 1000 <= nowMs < t.issuedAt * 1000 + 1000
    ensures t.expiresAt - t.issuedAt == 604800
  {
    var iat := nowMs / 1000;
    Token(customerId, phone, iat, iat + SevenDaysSeconds)
  }
}
