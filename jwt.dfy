/**
 * The per-purpose signed-token codec (utils/jwt.rs): a codec is bound to an
 * audience, a validity duration and its own 32-byte key. Encoding wraps a
 * subject with `aud`, `iat` and `exp` (sections 4.1.3, 4.1.6 and 4.1.4 of
 * RFC 7519); decoding checks the signature, then the audience, then expiry.
 */
module Jwt {
  import opened Wrappers
  import Lib = JsonWebToken

  /** `JWTValidationError`. */
  datatype ValidationError = InvalidSignature | InvalidAudience | Expired

  /** The `Debug` text of a validation error. */
  function ErrorText(e: ValidationError): string {
    match e
    case InvalidSignature => "InvalidSignature"
    case InvalidAudience => "InvalidAudience"
    case Expired => "Expired"
  }

  /** The `Claims` wrapper around a purpose-specific subject `W` (its serialised form). */
  datatype Claims<W> = Claims(subject: W, audience: string, issuedAt: int, expiration: int)

  type Token<W> = Lib.Token<Claims<W>>

  /** A `JWT` instance: fixed once built. `duration` is in seconds. */
  datatype Codec = Codec(audience: string, duration: int, key: Lib.Key)

  /** `JWT::new`: `gen` is the 32 random bytes drawn from the OS generator. */
  function New(audience: string, duration: int, gen: Lib.Key): (c: Codec)
    requires |gen| == 32
    ensures c.audience == audience && c.duration == duration && c.key == gen
  {
    Codec(audience, duration, gen)
  }

  /** `JWT::encode` at time `now`. */
  function Encode<W>(c: Codec, subject: W, now: int): (t: Token<W>)
    ensures Lib.SignedUnder(t, c.key)
    ensures t.payload.subject == subject && t.payload.audience == c.audience
    ensures t.payload.issuedAt == now && t.payload.expiration == now + c.duration
  {
    Lib.Encode(Claims(subject, c.audience, now, now + c.duration), c.key)
  }

  /**
   * `JWT::decode` at time `now`. The library decodes with its default validation,
   * which already checks `exp` with the library's `leeway`; `deserialize` turns the
   * subject into the decoded type and fails like the library's JSON step. Every
   * library failure is `InvalidSignature`.
   */
  function Decode<W, S>(c: Codec, t: Token<W>, now: int, leeway: nat, deserialize: W -> Option<S>): (r: Result<S, ValidationError>)
    ensures !Lib.SignedUnder(t, c.key) ==> r == Err(InvalidSignature)
    ensures r.Ok? <==>
      && Lib.SignedUnder(t, c.key)
      && deserialize(t.payload.subject).Some?
      && t.payload.audience == c.audience
      && now <= t.payload.expiration
    ensures r.Ok? ==> deserialize(t.payload.subject) == Some(r.value)
    ensures r == Err(InvalidAudience) <==>
      && Lib.SignedUnder(t, c.key)
      && deserialize(t.payload.subject).Some?
      && now - leeway <= t.payload.expiration
      && t.payload.audience != c.audience
    ensures r == Err(Expired) <==>
      && Lib.SignedUnder(t, c.key)
      && deserialize(t.payload.subject).Some?
      && t.payload.audience == c.audience
      && now - leeway <= t.payload.expiration < now
  {
    match Lib.Decode(t, c.key, true, leeway, now, (cl: Claims<W>) => cl.expiration)
    case Err(_) => Err(InvalidSignature)
    case Ok(claims) =>
      match deserialize(claims.subject)
      case None => Err(InvalidSignature)
      case Some(subject) =>
        if claims.audience != c.audience then Err(InvalidAudience)
        else if now > claims.expiration then Err(Expired)
        else Ok(subject)
  }

  /** Decoding what the same codec encoded, no later than its expiry, gives the subject back. */
  lemma RoundTrip<W, S>(c: Codec, w: W, s: S, issued: int, now: int, leeway: nat, deserialize: W -> Option<S>)
    requires deserialize(w) == Some(s)
    requires now <= issued + c.duration
    ensures Decode(c, Encode(c, w, issued), now, leeway, deserialize) == Ok(s)
  {
  }

  /** A token of one codec never decodes on a codec holding another key. */
  lemma ForeignKeyRejected<W, S>(c1: Codec, c2: Codec, w: W, issued: int, now: int, leeway: nat, deserialize: W -> Option<S>)
    requires c1.key != c2.key
    ensures Decode(c2, Encode(c1, w, issued), now, leeway, deserialize) == Err(InvalidSignature)
  {
  }

  /**
   * The expiry check passes at the expiry second itself; past it, the token is
   * `Expired` within the library's leeway and `InvalidSignature` beyond it.
   */
  lemma ExpiryBoundary<W, S>(c: Codec, w: W, s: S, issued: int, leeway: nat, deserialize: W -> Option<S>)
    requires deserialize(w) == Some(s)
    ensures Decode(c, Encode(c, w, issued), issued + c.duration, leeway, deserialize) == Ok(s)
    ensures leeway > 0 ==> Decode(c, Encode(c, w, issued), issued + c.duration + 1, leeway, deserialize) == Err(Expired)
    ensures Decode(c, Encode(c, w, issued), issued + c.duration + leeway + 1, leeway, deserialize) == Err(InvalidSignature)
  {
  }

  /** With no library leeway, the library rejects first and `Expired` is never returned. */
  lemma NoLeewayNeverExpired<W, S>(c: Codec, t: Token<W>, now: int, deserialize: W -> Option<S>)
    ensures Decode(c, t, now, 0, deserialize) != Err(Expired)
  {
  }
}
