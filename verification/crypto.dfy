/**
 * The two foreign libraries the server calls, bcrypt (password hashing) and
 * jsonwebtoken (signed session tokens), taken as opaque primitives supplied from
 * outside. The server's secret key is folded into `sign` and `verify`; the random
 * salt bcrypt draws is an explicit argument of `hash`.
 */
module Crypto {
  import opened Wrappers
  import opened JsValue

  datatype Primitives = Primitives(
    hash: (nat, string) -> string,          // bcrypt.hash(password, 10) with the salt it draws
    compare: (string, string) -> bool,      // bcrypt.compare(password, digest)
    sign: Record -> string,                 // jwt.sign(payload, secret)
    verify: string -> Option<Record>)       // jwt.verify(token, secret): the payload, or an error
  {
    /**
     * What the server relies on for every input: a password matches every digest
     * made from it, and a token is one non-empty word (base64url segments joined
     * by dots, so it never holds a space).
     */
    ghost predicate Sound()
    {
      && (forall salt: nat, p: string :: compare(p, hash(salt, p)))
      && (forall c: Record :: sign(c) != "" && ' ' !in sign(c))
    }

    /**
     * jsonwebtoken's promise for one payload: the token signed for it verifies back
     * to it. Tokens are finite strings and payloads are not, so this can hold of
     * many payloads but never of all of them.
     */
    ghost predicate RoundTrips(c: Record)
    {
      verify(sign(c)) == Some(c)
    }
  }

  /** Primitives that keep passwords as they are and sign every payload alike are sound. */
  lemma SoundIsSatisfiable()
    ensures var p := Primitives((salt: nat, pw: string) => pw, (pw: string, digest: string) => pw == digest,
                                (c: Record) => "token", (t: string) => if t == "token" then Some(map[]) else None);
      p.Sound() && p.RoundTrips(map[]) && !p.RoundTrips(map["email" := Null])
  {
    assert "email" in map["email" := Null];
  }
}
