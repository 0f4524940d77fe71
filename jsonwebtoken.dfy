/**
 * A stand-in for the `jsonwebtoken` library: HMAC signing is idealised as
 * "the payload signed under key k", and no one can produce a token signed
 * under a key they do not hold. Compact serialisation (base64, JSON) is
 * abstracted away: a token is either a signed payload or text the library
 * cannot read at all.
 */
module JsonWebToken {
  import opened Wrappers

  /** Symmetric HMAC key bytes. */
  type Key = seq<bv8>

  datatype Token<P> = Signed(payload: P, key: Key) | Unreadable(text: string)

  /** The signature of `t` verifies under key `k`. */
  predicate SignedUnder<P>(t: Token<P>, k: Key) {
    t.Signed? && t.key == k
  }

  /** The `ErrorKind`s of the library that the server can meet. */
  datatype ErrorKind = InvalidToken | InvalidSignature | ExpiredSignature

  /** The `Debug` text of an error kind. */
  function ErrorText(e: ErrorKind): string {
    match e
    case InvalidToken => "InvalidToken"
    case InvalidSignature => "InvalidSignature"
    case ExpiredSignature => "ExpiredSignature"
  }

  /** `jsonwebtoken::encode` with an HMAC key. */
  function Encode<P>(payload: P, k: Key): (t: Token<P>)
    ensures SignedUnder(t, k) && t.payload == payload
  {
    Signed(payload, k)
  }

  /**
   * `jsonwebtoken::decode`: the signature first, then (when `validateExp`) the `exp`
   * claim, rejected when it lies more than `leeway` seconds before `now`.
   */
  function Decode<P>(t: Token<P>, k: Key, validateExp: bool, leeway: nat, now: int, exp: P -> int): (r: Result<P, ErrorKind>)
    ensures r.Ok? <==> SignedUnder(t, k) && (validateExp ==> now - leeway <= exp(t.payload))
    ensures r.Ok? ==> r.value == t.payload
    ensures r == Err(ExpiredSignature) <==> SignedUnder(t, k) && validateExp && exp(t.payload) < now - leeway
  {
    match t
    case Unreadable(_) => Err(InvalidToken)
    case Signed(payload, key) =>
      if key != k then Err(InvalidSignature)
      else if validateExp && exp(payload) < now - leeway then Err(ExpiredSignature)
      else Ok(payload)
  }
}
