/**
 * The server's two middlewares, `authenticateToken` and `requireAdmin`, as the
 * decision they make before a protected handler runs: from the `Authorization`
 * header to a token, from the token to its claims, and from the claims to
 * "go on", 401 or 403.
 */
module Access {
  import opened Wrappers
  import opened JsValue
  import opened Http
  import Crypto

  const TOKEN_REQUIRED := "Access token required"
  const INVALID_TOKEN := "Invalid token"
  const ADMIN_REQUIRED := "Admin access required"

  /** Either the request reaches the handler with the token's claims, or it is answered here. */
  datatype Decision = Allow(claims: Record) | Deny(status: nat, message: string)

  /** The position of the first space in `s`, or `|s|` when there is none. */
  function SpaceIndex(s: string): (k: nat)
    ensures k <= |s|
    ensures k < |s| ==> s[k] == ' '
    ensures forall j :: 0 <= j < k ==> s[j] != ' '
    decreases |s|
  {
    if s == [] || s[0] == ' ' then 0 else 1 + SpaceIndex(s[1..])
  }

  /** `s.split(' ')`: the pieces between single spaces, empty pieces included. */
  function Split(s: string): (parts: seq<string>)
    ensures |parts| >= 1
    decreases |s|
  {
    var k := SpaceIndex(s);
    if k == |s| then [s] else [s[..k]] + Split(s[k + 1..])
  }

  /** `parts.join(' ')`. */
  function Join(parts: seq<string>): string
    decreases |parts|
  {
    if parts == [] then ""
    else if |parts| == 1 then parts[0]
    else parts[0] + " " + Join(parts[1..])
  }

  /** Splitting at spaces and joining with spaces gives the header back. */
  lemma {:induction false} JoinSplit(s: string)
    ensures Join(Split(s)) == s
    decreases |s|
  {
    var k := SpaceIndex(s);
    if k < |s| {
      JoinSplit(s[k + 1..]);
      assert s == s[..k] + " " + s[k + 1..];
    }
  }

  /** No piece of a split holds a space. */
  lemma {:induction false} SplitPiecesHaveNoSpace(s: string)
    ensures forall i :: 0 <= i < |Split(s)| ==> ' ' !in Split(s)[i]
    decreases |s|
  {
    var k := SpaceIndex(s);
    if k < |s| {
      SplitPiecesHaveNoSpace(s[k + 1..]);
      var rest := Split(s[k + 1..]);
      assert Split(s) == [s[..k]] + rest;
      forall i | 0 <= i < |Split(s)| ensures ' ' !in Split(s)[i] {
        if i > 0 {
          assert Split(s)[i] == rest[i - 1];
        }
      }
    }
  }

  /** Splitting a word followed by a space and a word gives the two words. */
  lemma SplitTwoWords(a: string, b: string)
    requires ' ' !in a && ' ' !in b
    ensures Split(a + " " + b) == [a, b]
  {
    var s := a + " " + b;
    assert SpaceIndex(s) == |a| by {
      assert s[|a|] == ' ';
      assert forall j :: 0 <= j < |a| ==> s[j] == a[j];
    }
    assert s[..|a|] == a;
    assert s[|a| + 1..] == b;
    assert SpaceIndex(b) == |b|;
  }

  /**
   * `authHeader && authHeader.split(' ')[1]`, kept only when truthy: the second
   * space-separated piece of the header, whatever the first piece says.
   */
  function BearerToken(header: Option<string>): (token: Option<string>)
    ensures token.Some? ==> token.value != "" && ' ' !in token.value
    ensures token.Some? <==> header.Some? && |Split(header.value)| >= 2 && Split(header.value)[1] != ""
    ensures token.Some? ==> token.value == Split(header.value)[1]
  {
    match header
    case None => None
    case Some(h) =>
      var parts := Split(h);
      SplitPiecesHaveNoSpace(h);
      if h == "" || |parts| < 2 || parts[1] == "" then None else Some(parts[1])
  }

  /** `authenticateToken`: 401 without a token, 403 when it does not verify, else its claims. */
  function Authenticate(header: Option<string>, verify: string -> Option<Record>): (d: Decision)
    ensures d == Deny(UNAUTHORIZED, TOKEN_REQUIRED) <==> BearerToken(header).None?
    ensures d == Deny(FORBIDDEN, INVALID_TOKEN)
        <==> BearerToken(header).Some? && verify(BearerToken(header).value).None?
    ensures d.Allow? <==> BearerToken(header).Some? && verify(BearerToken(header).value).Some?
    ensures d.Allow? ==> verify(BearerToken(header).value) == Some(d.claims)
  {
    match BearerToken(header)
    case None => Deny(UNAUTHORIZED, TOKEN_REQUIRED)
    case Some(token) =>
      match verify(token)
      case None => Deny(FORBIDDEN, INVALID_TOKEN)
      case Some(claims) => Allow(claims)
  }

  /** `requireAdmin`: the claims go on only when their `isAdmin` is truthy. */
  function RequireAdmin(claims: Record): (d: Decision)
    ensures d.Allow? <==> Truthy(Get(claims, "isAdmin"))
    ensures d.Allow? ==> d.claims == claims
    ensures d.Deny? ==> d == Deny(FORBIDDEN, ADMIN_REQUIRED)
  {
    if Truthy(Get(claims, "isAdmin")) then Allow(claims) else Deny(FORBIDDEN, ADMIN_REQUIRED)
  }

  /** `authenticateToken` followed by `requireAdmin`, as the admin routes chain them. */
  function AuthenticateAdmin(header: Option<string>, verify: string -> Option<Record>): (d: Decision)
    ensures Authenticate(header, verify).Deny? ==> d == Authenticate(header, verify)
    ensures d.Allow? <==> Authenticate(header, verify).Allow? && Truthy(Get(Authenticate(header, verify).claims, "isAdmin"))
    ensures d.Allow? ==> d == Authenticate(header, verify)
  {
    match Authenticate(header, verify)
    case Deny(status, message) => Deny(status, message)
    case Allow(claims) => RequireAdmin(claims)
  }

  /** A missing header, or one with no second space-separated piece, is answered 401. */
  lemma NoSecondPieceIsUnauthorized(header: Option<string>, verify: string -> Option<Record>)
    requires header.None? || ' ' !in header.value
    ensures Authenticate(header, verify) == Deny(UNAUTHORIZED, TOKEN_REQUIRED)
    ensures AuthenticateAdmin(header, verify) == Deny(UNAUTHORIZED, TOKEN_REQUIRED)
  {
  }

  /** Valid claims whose `isAdmin` is falsy are stopped by `requireAdmin` with 403. */
  lemma NonAdminIsForbidden(header: Option<string>, verify: string -> Option<Record>)
    requires Authenticate(header, verify).Allow?
    requires !Truthy(Get(Authenticate(header, verify).claims, "isAdmin"))
    ensures AuthenticateAdmin(header, verify) == Deny(FORBIDDEN, ADMIN_REQUIRED)
  {
  }

  /**
   * A token the server signed, sent as `Bearer <token>`, passes `authenticateToken`
   * with its claims, for any payload whose token verifies back to it.
   */
  lemma {:induction false} ServerTokenAccepted(crypto: Crypto.Primitives, claims: Record)
    requires crypto.Sound() && crypto.RoundTrips(claims)
    ensures Authenticate(Some("Bearer " + crypto.sign(claims)), crypto.verify) == Allow(claims)
  {
    var token := crypto.sign(claims);
    assert token != "" && ' ' !in token;
    assert "Bearer " + token == "Bearer" + " " + token;
    SplitTwoWords("Bearer", token);
    assert BearerToken(Some("Bearer " + token)) == Some(token);
    assert crypto.verify(token) == Some(claims);
  }
}
