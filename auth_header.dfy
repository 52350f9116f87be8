/**
 * `authHeader()` (`auth-header.js`): the Authorization header the client
 * attaches to API calls, chosen from whatever is stored under 'user'.
 */
module AuthHeader {
  import opened Common

  /** What reading and parsing the stored 'user' item can give. "" stands
   *  for an absent or falsy field. */
  datatype StoredValue =
    | Missing                                       // no item, or an empty one
    | Unparseable                                   // JSON.parse throws
    | JsonObject(accessToken: string, token: string)
    | JsonString(text: string)                      // the item holds a JSON string
    | JsonOther                                     // null, a number, ...

  /** The header value, or `None` for the empty header object `{}`. The
   *  first non-empty of `accessToken`, `token`, or the stored string itself
   *  is sent after the "Bearer " prefix. */
  function AuthHeader(v: StoredValue): (h: Option<string>)
    ensures h.Some? ==> StartsWith(h.value, BEARER_PREFIX)
    ensures h.None? <==> v.Missing? || v.Unparseable? || v.JsonOther?
                         || (v.JsonObject? && v.accessToken == "" && v.token == "")
  {
    match v
    case Missing => None
    case Unparseable => None
    case JsonOther => None
    case JsonObject(access, tok) =>
      if access != "" then Some(BEARER_PREFIX + access)
      else if tok != "" then Some(BEARER_PREFIX + tok)
      else None
    case JsonString(text) => Some(BEARER_PREFIX + text)
  }

  /** The server reading this header gets `accessToken` when one is
   *  stored, else `token`, else the stored string, and nothing when the
   *  client sent no header. */
  lemma ServerReadsChosenCredential(v: StoredValue)
    ensures v.JsonObject? && v.accessToken != "" ==> BearerToken(AuthHeader(v)) == Some(v.accessToken)
    ensures v.JsonObject? && v.accessToken == "" && v.token != "" ==> BearerToken(AuthHeader(v)) == Some(v.token)
    ensures v.JsonString? ==> BearerToken(AuthHeader(v)) == Some(v.text)
    ensures AuthHeader(v).None? ==> BearerToken(AuthHeader(v)).None?
  {
    match v
    case JsonObject(access, tok) =>
      if access != "" { BearerRoundTrip(access); } else if tok != "" { BearerRoundTrip(tok); }
    case JsonString(text) => BearerRoundTrip(text);
    case _ =>
  }
}
