/** The Firebase auth middleware: read the bearer token from the
    `Authorization` header and have Firebase verify it.

    Token verification is an input (`verify`), a function from token text to
    the identity it carries, `None` when Firebase rejects it.  The result
    records which tokens were handed to the verifier, so that contracts can
    say a request without a token never reaches it.
 */
module Middleware {
  import opened Wrappers
  import opened Store
  import opened JsText

  const NoToken := AppError("Unauthorized: No token provided.", 401)
  const InvalidToken := AppError("Unauthorized: Invalid token.", 401)
  const BearerPrefix := "Bearer "

  datatype AuthResult = AuthResult(outcome: Result<Identity>, verifierCalls: seq<string>)

  /** `header.split('Bearer ')[1]` for a header that starts with the prefix:
      the text after the prefix up to the next occurrence of the prefix. */
  function BearerToken(header: string): (t: string)
    requires StartsWith(header, BearerPrefix)
    ensures StartsWith(header, BearerPrefix + t)
    ensures forall j :: 0 <= j ==> !OccursAt(t, BearerPrefix, j)
    ensures |BearerPrefix + t| == |header| || OccursAt(header, BearerPrefix, |BearerPrefix + t|)
  {
    match IndexOf(header, BearerPrefix, |BearerPrefix|)
    case None =>
      var t := header[|BearerPrefix|..|header|];
      assert header == BearerPrefix + t;
      forall j | 0 <= j ensures !OccursAt(t, BearerPrefix, j) {
        if OccursAt(t, BearerPrefix, j) { OccursInSlice(header, BearerPrefix, |BearerPrefix|, |header|, j); }
      }
      t
    case Some(e) =>
      var t := header[|BearerPrefix|..e];
      assert header[..e] == BearerPrefix + t;
      forall j | 0 <= j ensures !OccursAt(t, BearerPrefix, j) {
        if OccursAt(t, BearerPrefix, j) { OccursInSlice(header, BearerPrefix, |BearerPrefix|, e, j); }
      }
      t
  }

  lemma OccursInSlice(s: string, pat: string, a: nat, b: nat, j: nat)
    requires a <= b <= |s| && OccursAt(s[a..b], pat, j)
    ensures OccursAt(s, pat, a + j) && a + j + |pat| <= b
  {
    assert j + |pat| <= b - a;
    var u := s[a..b][j..j + |pat|];
    var w := s[a + j..a + j + |pat|];
    assert forall k :: 0 <= k < |pat| ==> u[k] == w[k];
  }

  /** `firebaseAuthMiddleware`: the identity for the request, or the 401 it
      is turned away with. */
  function Authenticate(header: Option<string>, verify: string -> Option<Identity>): (r: AuthResult)
    ensures |r.verifierCalls| <= 1
    ensures (header.None? || !StartsWith(header.value, BearerPrefix)) <==> r.outcome == Err(NoToken)
    ensures r.outcome == Err(NoToken) ==> r.verifierCalls == []
    ensures r.outcome.Ok? ==>
      (r.verifierCalls == [BearerToken(header.value)]
      && verify(BearerToken(header.value)) == Some(r.outcome.value))
    ensures r.outcome == Err(InvalidToken) ==>
      (r.verifierCalls == [BearerToken(header.value)] && verify(BearerToken(header.value)).None?)
  {
    if header.None? || !StartsWith(header.value, BearerPrefix) then AuthResult(Err(NoToken), [])
    else
      var token := BearerToken(header.value);
      match verify(token)
      case None => AuthResult(Err(InvalidToken), [token])
      case Some(id) => AuthResult(Ok(id), [token])
  }

  /** The client sends `Bearer ${token}`; for any token that does not itself
      contain the prefix (a Firebase ID token is a JWT: base64url and dots),
      the middleware hands exactly that token to the verifier. */
  lemma {:induction false} ClientHeaderRoundTrip(token: string, verify: string -> Option<Identity>)
    requires forall j :: 0 <= j ==> !OccursAt(token, BearerPrefix, j)
    ensures Authenticate(Some(BearerPrefix + token), verify).verifierCalls == [token]
    ensures Authenticate(Some(BearerPrefix + token), verify).outcome.Ok?
            <==> verify(token).Some?
  {
    var h := BearerPrefix + token;
    assert h[..|BearerPrefix|] == BearerPrefix;
    var t := BearerToken(h);
    assert h[..|BearerPrefix + t|] == BearerPrefix + t;
    assert t == h[|BearerPrefix|..|BearerPrefix + t|];
    if |BearerPrefix + t| < |h| {
      var e := |BearerPrefix + t|;
      assert OccursAt(h, BearerPrefix, e);
      assert h[e..e + |BearerPrefix|] == token[e - |BearerPrefix|..e];
      assert OccursAt(token, BearerPrefix, e - |BearerPrefix|);
      assert false;
    }
    assert t == token;
  }
}
