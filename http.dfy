/**
 * Request headers, bearer credentials and the process configuration the routes read.
 */
module Http {
  import opened Values
  import opened Text

  /** Request headers keyed by lower-case name (Starlette looks names up case-insensitively). */
  type Headers = map<string, string>

  /** A JWT claim set: the payload dict. */
  type Claims = map<string, Value>

  /**
   * `jwt.decode(token, SECRET_KEY, algorithms=["HS256"])`: the verified payload, or None
   * where python-jose raises JWTError (malformed token, bad signature, expired `exp`).
   * Signature checking and expiry are not modelled; the decoder is a parameter.
   */
  type Decoder = string -> Option<Claims>

  /**
   * The configuration loaded once at start-up: the service key `API_KEY` (None when the
   * variable is unset) and the decoder bound to `SECRET_KEY`.
   */
  datatype Config = Config(apiKey: Option<string>, decode: Decoder)

  /** `request.headers.get(name)`. */
  function Header(h: Headers, name: string): Option<string> {
    if name in h then Some(h[name]) else None
  }

  const BearerPrefix := "Bearer "

  lemma SplitAfterBearer(v: string)
    requires StartsWith(v, BearerPrefix)
    ensures Split(v, ' ') == ["Bearer"] + Split(v[7..], ' ')
  {
    assert v == "Bearer" + [' '] + v[7..];
    SplitAt("Bearer", v[7..], ' ');
  }

  /**
   * The credential of an `Authorization: Bearer <token>` header (section 2.1 of RFC 6750)
   * as the routes extract it, `header.split(" ")[1]`; None when the header is absent,
   * empty, or does not start with "Bearer ".
   */
  function BearerToken(h: Headers): (r: Option<string>)
    ensures r.Some? <==> "authorization" in h && StartsWith(h["authorization"], BearerPrefix)
    ensures r.Some? ==> r.value == Split(h["authorization"][|BearerPrefix|..], ' ')[0]
  {
    if "authorization" in h && StartsWith(h["authorization"], BearerPrefix) then
      var v := h["authorization"];
      SplitAfterBearer(v);
      Some(Split(v, ' ')[1])
    else None
  }

  /** The header built from a token without spaces yields that token back. */
  lemma BearerRoundTrip(h: Headers, token: string)
    requires ' ' !in token
    requires "authorization" in h && h["authorization"] == BearerPrefix + token
    ensures BearerToken(h) == Some(token)
  {
    var v := h["authorization"];
    assert StartsWith(v, BearerPrefix);
    SplitAfterBearer(v);
    assert v[7..] == token;
    SplitNoSep(token, ' ');
  }

  /** The credential ends at the first space after the prefix: it never contains a space. */
  lemma BearerTokenHasNoSpace(h: Headers)
    ensures BearerToken(h).Some? ==> ' ' !in BearerToken(h).value
  {
    if BearerToken(h).Some? {
      var v := h["authorization"];
      SplitAfterBearer(v);
      SplitPiecesNoSep(v, ' ');
    }
  }
}
