/**
 * The stand-alone user router: a module-level array of `{ name, email, password }`
 * records, a signup that always appends, and a login that looks for an exact
 * match of email and plaintext password.
 */
module UserRoutes {
  import opened JsValue
  import opened Http

  const SIGNUP_OK := "Signup successful"
  const LOGIN_OK := "Login successful"
  const INVALID_CREDENTIALS := "Invalid credentials"

  /** A stored record, exactly the three fields taken from the request body. */
  datatype Credential = Credential(name: Value, email: Value, password: Value)

  /**
   * `u.email === email && u.password === password`: both fields equal and
   * primitive, so a record whose email or password is an object never matches.
   */
  predicate SameCredentials(u: Credential, givenEmail: Value, givenPassword: Value)
  {
    StrictEq(u.email, givenEmail) && StrictEq(u.password, givenPassword)
  }

  /** A record matches exactly when both fields are equal to the given ones and primitive. */
  lemma SameCredentialsMeans(u: Credential, givenEmail: Value, givenPassword: Value)
    ensures SameCredentials(u, givenEmail, givenPassword)
        <==> IsPrimitive(givenEmail) && u.email == givenEmail && IsPrimitive(givenPassword) && u.password == givenPassword
  {
  }

  /**
   * `users.find(...)` is not undefined: it succeeds exactly when some stored record
   * has an equal email and an equal password.
   */
  predicate AnyMatches(users: seq<Credential>, email: Value, password: Value): (r: bool)
    ensures r <==> exists i :: 0 <= i < |users| && SameCredentials(users[i], email, password)
    decreases |users|
  {
    assert forall i :: 1 <= i < |users| ==> users[i] == users[1..][i - 1];
    users != [] && (SameCredentials(users[0], email, password) || AnyMatches(users[1..], email, password))
  }

  /** A record stays findable whatever is appended after it. */
  lemma {:induction false} AnyMatchesAppend(users: seq<Credential>, u: Credential, email: Value, password: Value)
    ensures AnyMatches(users + [u], email, password)
        <==> AnyMatches(users, email, password) || SameCredentials(u, email, password)
  {
    var all := users + [u];
    assert all[|users|] == u;
    assert forall i :: 0 <= i < |users| ==> all[i] == users[i];
  }

  /** The router's `users` array. */
  class CredentialStore {
    var users: seq<Credential>

    constructor ()
      ensures users == []
    {
      users := [];
    }

    /** POST /signup: always appends the body's three fields and always succeeds. */
    method Signup(name: Value, email: Value, password: Value) returns (r: Reply<string>)
      modifies this
      ensures users == old(users) + [Credential(name, email, password)]
      ensures r == Ok(OK, SIGNUP_OK)
    {
      users := users + [Credential(name, email, password)];
      r := Ok(OK, SIGNUP_OK);
    }

    /** POST /login: succeeds iff some stored record has that email and that password. */
    method Login(email: Value, password: Value) returns (r: Reply<string>)
      ensures r.Ok? <==> exists i :: 0 <= i < |users| && StrictEq(users[i].email, email)
                                     && StrictEq(users[i].password, password)
      ensures r.Ok? ==> r == Ok(OK, LOGIN_OK)
      ensures r.Err? ==> r == Err(BAD_REQUEST, INVALID_CREDENTIALS)
    {
      if AnyMatches(users, email, password) {
        return Ok(OK, LOGIN_OK);
      }
      r := Err(BAD_REQUEST, INVALID_CREDENTIALS);
    }
  }

  /** After signing up with string credentials, logging in with them succeeds, even for a repeated email. */
  method SignupThenLogin(store: CredentialStore, name: Value, email: string, password: string)
    returns (signed: Reply<string>, login: Reply<string>)
    modifies store
    ensures signed == Ok(OK, SIGNUP_OK) && login == Ok(OK, LOGIN_OK)
    ensures |store.users| == old(|store.users|) + 1
  {
    signed := store.Signup(name, Str(email), Str(password));
    var all := store.users;
    assert SameCredentials(all[|all| - 1], Str(email), Str(password));
    login := store.Login(Str(email), Str(password));
  }
}
