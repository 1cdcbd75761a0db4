/**
 * The bearer-prefix gate (api/private-user.js): an optional `Authorization`
 * header in, a status, a fixed Cache-Control header and a JSON body out.
 * The clock reading `ts` is a parameter.
 */
module PrivateUser {
  import opened Wrappers

  const BearerPrefix := "Bearer "
  const PrivateCacheControl := "private, no-store, max-age=0"
  const DemoUserId := "demo-user"
  const DemoEmail := "demo@example.com"

  datatype Body =
    | ErrorBody(error: string)
    | UserBody(userId: string, email: string, ts: nat)

  datatype Response = Response(status: nat, cacheControl: string, body: Body)

  /** `String.prototype.startsWith`: `prefix` is the first `|prefix|` characters of `s`, case and all. */
  predicate StartsWith(s: string, prefix: string): (b: bool)
    ensures b <==> |prefix| <= |s| && forall i :: 0 <= i < |prefix| ==> s[i] == prefix[i]
  {
    |prefix| <= |s| && s[..|prefix|] == prefix
  }

  /**
   * A missing header counts as the empty string. Only a header that begins
   * with exactly `Bearer ` (capital B, trailing space) is let through; the
   * token after it is never looked at.
   */
  function Handle(authorization: Option<string>, now: nat): (r: Response)
    ensures r.cacheControl == PrivateCacheControl
    ensures r.status == 401 || r.status == 200
    ensures r.status == 401 <==> !StartsWith(authorization.GetOr(""), BearerPrefix)
    ensures r.status == 401 ==> r.body == ErrorBody("Unauthorized")
    ensures r.status == 200 ==> r.body == UserBody(DemoUserId, DemoEmail, now)
  {
    var header := authorization.GetOr("");
    if !StartsWith(header, BearerPrefix) then
      Response(401, PrivateCacheControl, ErrorBody("Unauthorized"))
    else
      Response(200, PrivateCacheControl, UserBody(DemoUserId, DemoEmail, now))
  }

  /** Any token, including none at all, passes once the exact prefix is there. */
  lemma AnyTokenAccepted(token: string, now: nat)
    ensures Handle(Some(BearerPrefix + token), now).status == 200
  {
  }

  /**
   * Conversely, every accepted header is the prefix followed by some token:
   * the prefix check is the whole decision.
   */
  lemma AcceptedHeaderHasPrefix(authorization: Option<string>, now: nat)
    requires Handle(authorization, now).status == 200
    ensures authorization.Some?
    ensures authorization.value == BearerPrefix + authorization.value[|BearerPrefix|..]
  {
  }

  /** No header, a lower-case scheme, or the scheme without its space are all refused. */
  lemma PrefixIsExact(now: nat)
    ensures Handle(None, now).status == 401
    ensures Handle(Some(""), now).status == 401
    ensures Handle(Some("bearer x"), now).status == 401
    ensures Handle(Some("Bearer"), now).status == 401
    ensures Handle(Some("Bearerx"), now).status == 401
  {
    assert "bearer x"[..|BearerPrefix|] != BearerPrefix by {
      assert "bearer x"[0] != BearerPrefix[0];
    }
    assert "Bearerx"[6] != BearerPrefix[6];
  }
}
