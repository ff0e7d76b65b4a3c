/**
 * The in-memory bookstore server: three module-level arrays (users, books,
 * orders) and one counter that hands out ids to all three, changed one request at
 * a time by the route handlers. A `Store` object is that module state; each
 * handler is a method that answers with a `Reply` and changes only what its
 * `modifies` clause names. The clock (`now`), bcrypt's random salt (`salt`) and
 * the parsed path id (`id`, None when `parseInt` gives NaN) are parameters.
 */
module Bookstore {
  import opened Wrappers
  import opened JsValue
  import opened Http
  import opened Seqs
  import opened Access
  import opened Catalog
  import Crypto

  const USER_EXISTS := "User already exists"
  const INVALID_CREDENTIALS := "Invalid credentials"
  const BOOK_NOT_FOUND := "Book not found"
  const SERVER_FAULT := "Server error"
  const ADMIN_NAME := "Admin"
  const ADMIN_EMAIL := "admin@bookstore.com"
  const ADMIN_PASSWORD := "admin123"
  const CATEGORIES := ["Motivational", "Telugu", "English", "UPSC", "GATE", "Groups", "Competitive"]

  /** A stored user: `password` holds the bcrypt digest, never the password. */
  datatype User = User(id: int, name: Value, email: Value, password: string, isAdmin: bool, createdAt: int)

  /** The user as register and login return it: the digest and creation time are left out. */
  datatype PublicUser = PublicUser(id: int, name: Value, email: Value, isAdmin: bool)

  /** The body of a successful register or login. */
  datatype Session = Session(token: string, user: PublicUser)

  /** The counts the seed route reports, with one count per catalogue category. */
  datatype SeedStats = SeedStats(users: nat, books: nat, orders: nat, perCategory: seq<nat>)

  function PublicView(u: User): (p: PublicUser)
    ensures p.id == u.id && p.name == u.name && p.email == u.email && p.isAdmin == u.isAdmin
  {
    PublicUser(u.id, u.name, u.email, u.isAdmin)
  }

  /** The payload signed into a session token: `{ userId, email, isAdmin }`. */
  function ClaimsOf(u: User): (c: Record)
    ensures Get(c, "userId") == Num(u.id as real) && Get(c, "email") == u.email
    ensures Truthy(Get(c, "isAdmin")) == u.isAdmin
  {
    map["userId" := Num(u.id as real), "email" := u.email, "isAdmin" := Bool(u.isAdmin)]
  }

  /** The whole stored user object, digest included, as the admin order listing embeds it. */
  function UserValue(u: User): (v: Value)
    ensures v.Obj? && v.fields.Keys == {"id", "name", "email", "password", "isAdmin", "createdAt"}
    ensures Get(v.fields, "id") == Num(u.id as real) && Get(v.fields, "email") == u.email
    ensures Get(v.fields, "password") == Str(u.password)
    ensures Get(v.fields, "name") == u.name && Get(v.fields, "isAdmin") == Bool(u.isAdmin)
    ensures Get(v.fields, "createdAt") == Date(u.createdAt)
  {
    Obj(map["id" := Num(u.id as real), "name" := u.name, "email" := u.email,
            "password" := Str(u.password), "isAdmin" := Bool(u.isAdmin), "createdAt" := Date(u.createdAt)])
  }

  /** `findUserByEmail`: the first user whose email is `=== email`. */
  function FindUserByEmail(users: seq<User>, email: Value): (r: Option<User>)
    ensures r.None? <==> forall i :: 0 <= i < |users| ==> !StrictEq(users[i].email, email)
    ensures r.Some? ==> (exists k :: 0 <= k < |users| && r.value == users[k] && StrictEq(users[k].email, email)
                                    && forall i :: 0 <= i < k ==> !StrictEq(users[i].email, email))
  {
    var k := FirstIndex(users, (u: User) => StrictEq(u.email, email));
    if k < 0 then None else Some(users[k])
  }

  /** `findUserById`: the first user whose numeric id is `=== id`. */
  function FindUserById(users: seq<User>, id: Value): (r: Option<User>)
    ensures r.None? <==> forall i :: 0 <= i < |users| ==> !StrictEq(Num(users[i].id as real), id)
    ensures r.Some? ==> (exists k :: 0 <= k < |users| && r.value == users[k] && StrictEq(Num(users[k].id as real), id)
                                    && forall i :: 0 <= i < k ==> !StrictEq(Num(users[i].id as real), id))
  {
    var k := FirstIndex(users, (u: User) => StrictEq(Num(u.id as real), id));
    if k < 0 then None else Some(users[k])
  }

  /**
   * `book.id === parseInt(req.params.id)`: NaN is `===` to nothing, and a number is
   * `===` only to an `id` field holding that number (not to the string "3", say).
   */
  predicate HasId(book: Record, id: Option<int>)
  {
    id.Some? && StrictEq(Get(book, "id"), Num(id.value as real))
  }

  /** A book has the parsed id exactly when the parse succeeded and its `id` field is that number. */
  lemma HasIdMeans(book: Record, id: Option<int>)
    ensures HasId(book, id) <==> id.Some? && Get(book, "id") == Num(id.value as real)
  {
  }

  /** `books.findIndex(book => book.id === id)`. */
  function FindBookIndex(books: seq<Record>, id: Option<int>): (k: int)
    ensures -1 <= k < |books|
    ensures k == -1 <==> forall i :: 0 <= i < |books| ==> !HasId(books[i], id)
    ensures 0 <= k ==> HasId(books[k], id) && forall i :: 0 <= i < k ==> !HasId(books[i], id)
  {
    FirstIndex(books, (b: Record) => HasId(b, id))
  }

  /**
   * `{ id: nextId++, ...req.body, createdAt: new Date() }`: the book carries the body's
   * fields, the counter's id unless the body names one, and the server's time.
   */
  function NewBook(id: int, body: Record, now: int): (r: Record)
    ensures Get(r, "createdAt") == Date(now)
    ensures Get(r, "id") == if "id" in body then body["id"] else Num(id as real)
    ensures forall key :: key != "id" && key != "createdAt" ==> Get(r, key) == Get(body, key)
  {
    (map["id" := Num(id as real)] + body)["createdAt" := Date(now)]
  }

  /**
   * `{ id: nextId++, ...req.body, userId: req.user.userId, createdAt: new Date() }`: the
   * owner and the time are the server's whatever the body says; the rest is the body's.
   */
  function NewOrder(id: int, body: Record, owner: Value, now: int): (r: Record)
    ensures Get(r, "userId") == owner
    ensures Get(r, "createdAt") == Date(now)
    ensures Get(r, "id") == if "id" in body then body["id"] else Num(id as real)
    ensures forall key :: key !in {"id", "userId", "createdAt"} ==> Get(r, key) == Get(body, key)
  {
    (map["id" := Num(id as real)] + body)["userId" := owner]["createdAt" := Date(now)]
  }

  /**
   * `{ ...order, userId: findUserById(order.userId) }`: only `userId` changes, to the
   * owner's whole record when some user has that id and to undefined otherwise.
   */
  function Annotate(order: Record, users: seq<User>): (r: Record)
    ensures forall key :: key != "userId" ==> Get(r, key) == Get(order, key)
    ensures Get(r, "userId") == Undefined
        <==> forall i :: 0 <= i < |users| ==> !StrictEq(Num(users[i].id as real), Get(order, "userId"))
    ensures forall k :: 0 <= k < |users| && StrictEq(Num(users[k].id as real), Get(order, "userId"))
                        && (forall i :: 0 <= i < k ==> !StrictEq(Num(users[i].id as real), Get(order, "userId")))
                        ==> Get(r, "userId") == UserValue(users[k])
  {
    var owner := FindUserById(users, Get(order, "userId"));
    order["userId" := if owner.Some? then UserValue(owner.value) else Undefined]
  }

  /** `books.splice(k, 1)`: the books without the one at `k`. */
  function RemoveAt(books: seq<Record>, k: nat): (r: seq<Record>)
    requires k < |books|
    ensures |r| == |books| - 1
  {
    books[..k] + books[k + 1..]
  }

  /**
   * The sample catalogue numbered from `start` in order (`id: nextId++` for each
   * literal), each stamped `now` and otherwise carrying its literal's fields.
   */
  function Numbered(samples: seq<Record>, start: int, now: int): (r: seq<Record>)
    ensures |r| == |samples|
    ensures forall i :: 0 <= i < |r| ==> Get(r[i], "createdAt") == Date(now)
    ensures forall i :: 0 <= i < |r| && "id" !in samples[i] ==> Get(r[i], "id") == Num((start + i) as real)
    ensures forall i, key :: 0 <= i < |r| && key != "id" && key != "createdAt" ==> Get(r[i], key) == Get(samples[i], key)
  {
    seq(|samples|, i requires 0 <= i < |samples| => NewBook(start + i, samples[i], now))
  }

  /** `books.filter(b => b.category === c).length` for each catalogue category. */
  function CategoryCounts(books: seq<Record>): (counts: seq<nat>)
    ensures |counts| == |CATEGORIES|
  {
    seq(|CATEGORIES|, i requires 0 <= i < |CATEGORIES| =>
      |Filter(books, (b: Record) => CategoryMatches(b, Str(CATEGORIES[i])))|)
  }

  /** Each category's count is the number of stored books whose category is `===` that one. */
  lemma CategoryCountsCountBooks(books: seq<Record>)
    ensures forall i :: 0 <= i < |CATEGORIES| ==>
      CategoryCounts(books)[i] == |set j | 0 <= j < |books| && CategoryMatches(books[j], Str(CATEGORIES[i]))|
  {
    forall i | 0 <= i < |CATEGORIES|
      ensures CategoryCounts(books)[i] == |set j | 0 <= j < |books| && CategoryMatches(books[j], Str(CATEGORIES[i]))|
    {
      var inCategory := (b: Record) => CategoryMatches(b, Str(CATEGORIES[i]));
      FilterCount(books, inCategory);
      assert PassingIndices(books, inCategory)
          == set j | 0 <= j < |books| && CategoryMatches(books[j], Str(CATEGORIES[i]));
    }
  }

  /** Deleting keeps every other book, in order: before `k` unmoved, after it shifted down by one. */
  lemma RemoveAtKeepsOthers(books: seq<Record>, k: nat)
    requires k < |books|
    ensures forall i :: 0 <= i < k ==> RemoveAt(books, k)[i] == books[i]
    ensures forall i :: k <= i < |books| - 1 ==> RemoveAt(books, k)[i] == books[i + 1]
    ensures multiset(RemoveAt(books, k)) + multiset{books[k]} == multiset(books)
  {
    assert books == books[..k] + [books[k]] + books[k + 1..];
  }

  /**
   * Every user id came from the counter, so ids increase along the array and stay
   * below `nextId`, and no two users have `===` emails.
   */
  ghost predicate UsersValid(users: seq<User>, nextId: int)
  {
    && (forall i :: 0 <= i < |users| ==> users[i].id < nextId)
    && (forall i, j :: 0 <= i < j < |users| ==> users[i].id < users[j].id)
    && (forall i, j :: 0 <= i < j < |users| ==> !StrictEq(users[i].email, users[j].email))
  }

  /** Appending a user that takes the counter's id and a fresh email keeps the users valid. */
  lemma AddUserKeepsValid(users: seq<User>, nextId: int, u: User, later: int)
    requires UsersValid(users, nextId)
    requires u.id == nextId && nextId < later
    requires FindUserByEmail(users, u.email).None?
    ensures UsersValid(users + [u], later)
    ensures FindUserByEmail(users + [u], u.email).Some? <==> IsPrimitive(u.email)
  {
    var all := users + [u];
    assert all[|users|] == u;
    if IsPrimitive(u.email) {
      assert StrictEq(all[|users|].email, u.email);
    }
  }

  /** The in-memory database of server-simple.js. */
  class Store {
    const crypto: Crypto.Primitives
    var users: seq<User>
    var books: seq<Record>
    var orders: seq<Record>
    var nextId: int

    /** The crypto primitives behave and the users are as `UsersValid` demands. */
    ghost predicate Valid()
      reads this
    {
      crypto.Sound() && UsersValid(users, nextId)
    }

    /** The server at start-up: empty arrays and `nextId = 1`. */
    constructor (crypto: Crypto.Primitives)
      requires crypto.Sound()
      ensures Valid() && this.crypto == crypto
      ensures users == [] && books == [] && orders == [] && nextId == 1
    {
      this.crypto := crypto;
      users, books, orders, nextId := [], [], [], 1;
    }

    /** POST /api/auth/register. */
    method Register(name: Value, email: Value, password: Value, salt: nat, now: int) returns (r: Reply<Session>)
      requires Valid()
      modifies this`users, this`nextId
      ensures Valid()
      ensures old(FindUserByEmail(users, email)).Some? ==>
        r == Err(BAD_REQUEST, USER_EXISTS) && users == old(users) && nextId == old(nextId)
      ensures old(FindUserByEmail(users, email)).None? && !password.Str? ==>
        r == Err(SERVER_ERROR, SERVER_FAULT) && users == old(users) && nextId == old(nextId)
      ensures old(FindUserByEmail(users, email)).None? && password.Str? ==>
        var u := User(old(nextId), name, email, crypto.hash(salt, password.s), false, now);
        && users == old(users) + [u]
        && nextId == old(nextId) + 1
        && r == Ok(CREATED, Session(crypto.sign(ClaimsOf(u)), PublicView(u)))
      ensures r.Ok? ==> r.body.token == crypto.sign(ClaimsOf(users[|users| - 1]))
      ensures r.Ok? && crypto.RoundTrips(ClaimsOf(users[|users| - 1])) ==>
        Authenticate(Some("Bearer " + r.body.token), crypto.verify) == Allow(ClaimsOf(users[|users| - 1]))
      ensures r.Ok? ==> crypto.compare(password.s, users[|users| - 1].password)
    {
      if FindUserByEmail(users, email).Some? {
        return Err(BAD_REQUEST, USER_EXISTS);
      }
      if !password.Str? {
        // bcrypt.hash rejects anything but a string; the handler answers 500.
        return Err(SERVER_ERROR, SERVER_FAULT);
      }
      var hashed := crypto.hash(salt, password.s);
      var user := User(nextId, name, email, hashed, false, now);
      AddUserKeepsValid(users, nextId, user, nextId + 1);
      nextId := nextId + 1;
      users := users + [user];
      var token := crypto.sign(ClaimsOf(user));
      r := Ok(CREATED, Session(token, PublicView(user)));
      if crypto.RoundTrips(ClaimsOf(user)) {
        ServerTokenAccepted(crypto, ClaimsOf(user));
      }
    }

    /**
     * POST /api/auth/login. An unknown email and a wrong password give the same
     * answer; the store is only read.
     */
    method Login(email: Value, password: Value) returns (r: Reply<Session>)
      requires Valid()
      ensures r.Ok? <==> exists i :: 0 <= i < |users| && StrictEq(users[i].email, email)
                           && password.Str? && crypto.compare(password.s, users[i].password)
      ensures FindUserByEmail(users, email).None? ==> r == Err(BAD_REQUEST, INVALID_CREDENTIALS)
      ensures password.Str? && r.Err? ==> r == Err(BAD_REQUEST, INVALID_CREDENTIALS)
      ensures r.Err? ==> r == Err(BAD_REQUEST, INVALID_CREDENTIALS) || r == Err(SERVER_ERROR, SERVER_FAULT)
      ensures r.Ok? ==> exists i :: 0 <= i < |users| && StrictEq(users[i].email, email)
                          && r == Ok(OK, Session(crypto.sign(ClaimsOf(users[i])), PublicView(users[i])))
                          && Get(ClaimsOf(users[i]), "email") == email
                          && (crypto.RoundTrips(ClaimsOf(users[i])) ==>
                                Authenticate(Some("Bearer " + r.body.token), crypto.verify) == Allow(ClaimsOf(users[i])))
    {
      var found := FindUserByEmail(users, email);
      if found.None? {
        return Err(BAD_REQUEST, INVALID_CREDENTIALS);
      }
      if !password.Str? {
        // bcrypt.compare rejects anything but a string; the handler answers 500.
        return Err(SERVER_ERROR, SERVER_FAULT);
      }
      var user := found.value;
      ghost var k :| 0 <= k < |users| && user == users[k] && StrictEq(users[k].email, email);
      UniqueEmail(k, email);
      if !crypto.compare(password.s, user.password) {
        return Err(BAD_REQUEST, INVALID_CREDENTIALS);
      }
      r := Ok(OK, Session(crypto.sign(ClaimsOf(user)), PublicView(user)));
      if crypto.RoundTrips(ClaimsOf(user)) {
        ServerTokenAccepted(crypto, ClaimsOf(user));
      }
    }

    /** The one user whose email is `=== email` is the one at `k`. */
    lemma UniqueEmail(k: int, email: Value)
      requires Valid()
      requires 0 <= k < |users| && StrictEq(users[k].email, email)
      ensures forall i :: 0 <= i < |users| && StrictEq(users[i].email, email) ==> i == k
    {
    }

    /**
     * GET /api/books with the parsed query values `category` and `search` (undefined
     * when absent; the query parser may also give an array or an object). A truthy
     * category must be `===` to the book's; a truthy search must be a string, or
     * `search.toLowerCase()` throws and the answer is 500 before any book is read;
     * otherwise its lower-cased text must be found in the lower-cased title or
     * author, and a book whose title (or, past a non-matching title, author) is not
     * a string makes the search throw, with the same 500.
     */
    method ListBooks(category: Value, search: Value) returns (r: Reply<seq<Record>>)
      ensures r.Err? <==>
        && Truthy(search)
        && (!search.Str? || exists i :: 0 <= i < |books| && (!Truthy(category) || CategoryMatches(books[i], category))
                                                         && SearchMatch(books[i], ToLower(search.s)).None?)
      ensures r.Err? ==> r == Err(SERVER_ERROR, SERVER_FAULT)
      ensures r.Ok? ==> (r.status == OK && r.body == Filter(books, (b: Record) => Wanted(b, category, search)))
    {
      var filtered := books;
      var byCategory := (b: Record) => !Truthy(category) || CategoryMatches(b, category);
      if Truthy(category) {
        filtered := Filter(filtered, (b: Record) => CategoryMatches(b, category));
        FilterCongruent(books, (b: Record) => CategoryMatches(b, category), byCategory);
      } else {
        FilterKeepsAll(books, byCategory);
      }
      assert filtered == Filter(books, byCategory);
      var wanted := (b: Record) => Wanted(b, category, search);
      if Truthy(search) {
        if !search.Str? {
          // An array or object has no `toLowerCase`: the TypeError is answered 500.
          return Err(SERVER_ERROR, SERVER_FAULT);
        }
        var needle := ToLower(search.s);
        var kept := FilterSearch(filtered, needle);
        if kept.None? {
          ghost var i :| 0 <= i < |filtered| && SearchMatch(filtered[i], needle).None?;
          assert filtered[i] in books;
          return Err(SERVER_ERROR, SERVER_FAULT);
        }
        FilterCompose(books, byCategory, (b: Record) => SearchMatch(b, needle) == Some(true), wanted);
        filtered := kept.value;
      } else {
        FilterKeepsAll(filtered, (b: Record) => true);
        FilterCompose(books, byCategory, (b: Record) => true, wanted);
      }
      r := Ok(OK, filtered);
    }

    /** GET /api/books/:id: the first book with that id, or 404. */
    method GetBook(id: Option<int>) returns (r: Reply<Record>)
      ensures r.Ok? <==> exists i :: 0 <= i < |books| && HasId(books[i], id)
      ensures r.Ok? ==> r.status == OK
      ensures r.Ok? ==> (exists k :: 0 <= k < |books| && r.body == books[k]
                                      && HasId(books[k], id) && forall i :: 0 <= i < k ==> !HasId(books[i], id))
      ensures r.Err? ==> r == Err(NOT_FOUND, BOOK_NOT_FOUND)
    {
      var k := FindBookIndex(books, id);
      if k == -1 {
        return Err(NOT_FOUND, BOOK_NOT_FOUND);
      }
      r := Ok(OK, books[k]);
    }

    /** POST /api/admin/books. */
    method CreateBook(header: Option<string>, body: Record, now: int) returns (r: Reply<Record>)
      requires Valid()
      modifies this`books, this`nextId
      ensures Valid()
      ensures AuthenticateAdmin(header, crypto.verify).Deny? ==>
        r == Err(AuthenticateAdmin(header, crypto.verify).status, AuthenticateAdmin(header, crypto.verify).message)
        && books == old(books) && nextId == old(nextId)
      ensures AuthenticateAdmin(header, crypto.verify).Allow? ==>
        && books == old(books) + [NewBook(old(nextId), body, now)]
        && nextId == old(nextId) + 1
        && r == Ok(CREATED, NewBook(old(nextId), body, now))
    {
      var gate := AuthenticateAdmin(header, crypto.verify);
      if gate.Deny? {
        return Err(gate.status, gate.message);
      }
      var book := NewBook(nextId, body, now);
      nextId := nextId + 1;
      books := books + [book];
      r := Ok(CREATED, book);
    }

    /** PUT /api/admin/books/:id: `books[k] = { ...books[k], ...req.body }` at the first match. */
    method UpdateBook(header: Option<string>, id: Option<int>, body: Record) returns (r: Reply<Record>)
      requires Valid()
      modifies this`books
      ensures Valid()
      ensures AuthenticateAdmin(header, crypto.verify).Deny? ==>
        r == Err(AuthenticateAdmin(header, crypto.verify).status, AuthenticateAdmin(header, crypto.verify).message)
        && books == old(books)
      ensures AuthenticateAdmin(header, crypto.verify).Allow? && FindBookIndex(old(books), id) == -1 ==>
        r == Err(NOT_FOUND, BOOK_NOT_FOUND) && books == old(books)
      ensures AuthenticateAdmin(header, crypto.verify).Allow? && FindBookIndex(old(books), id) >= 0 ==>
        var k := FindBookIndex(old(books), id);
        && books == old(books)[k := old(books)[k] + body]
        && r == Ok(OK, old(books)[k] + body)
    {
      var gate := AuthenticateAdmin(header, crypto.verify);
      if gate.Deny? {
        return Err(gate.status, gate.message);
      }
      var k := FindBookIndex(books, id);
      if k == -1 {
        return Err(NOT_FOUND, BOOK_NOT_FOUND);
      }
      books := books[k := books[k] + body];
      r := Ok(OK, books[k]);
    }

    /** DELETE /api/admin/books/:id: `books.splice(k, 1)` at the first match. */
    method DeleteBook(header: Option<string>, id: Option<int>) returns (r: Reply<()>)
      requires Valid()
      modifies this`books
      ensures Valid()
      ensures AuthenticateAdmin(header, crypto.verify).Deny? ==>
        r == Err(AuthenticateAdmin(header, crypto.verify).status, AuthenticateAdmin(header, crypto.verify).message)
        && books == old(books)
      ensures AuthenticateAdmin(header, crypto.verify).Allow? && FindBookIndex(old(books), id) == -1 ==>
        r == Err(NOT_FOUND, BOOK_NOT_FOUND) && books == old(books)
      ensures AuthenticateAdmin(header, crypto.verify).Allow? && FindBookIndex(old(books), id) >= 0 ==>
        books == RemoveAt(old(books), FindBookIndex(old(books), id)) && r == Ok(OK, ())
    {
      var gate := AuthenticateAdmin(header, crypto.verify);
      if gate.Deny? {
        return Err(gate.status, gate.message);
      }
      var k := FindBookIndex(books, id);
      if k == -1 {
        return Err(NOT_FOUND, BOOK_NOT_FOUND);
      }
      books := RemoveAt(books, k);
      r := Ok(OK, ());
    }

    /** GET /api/admin/orders: every order, in order, with `userId` replaced by its owner's record. */
    method AdminOrders(header: Option<string>) returns (r: Reply<seq<Record>>)
      ensures AuthenticateAdmin(header, crypto.verify).Deny? ==>
        r == Err(AuthenticateAdmin(header, crypto.verify).status, AuthenticateAdmin(header, crypto.verify).message)
      ensures AuthenticateAdmin(header, crypto.verify).Allow? ==>
        r.Ok? && r.status == OK && |r.body| == |orders|
        && forall i :: 0 <= i < |orders| ==> r.body[i] == Annotate(orders[i], users)
    {
      var gate := AuthenticateAdmin(header, crypto.verify);
      if gate.Deny? {
        return Err(gate.status, gate.message);
      }
      var all, owners := orders, users;
      var annotated := seq(|all|, i requires 0 <= i < |all| => Annotate(all[i], owners));
      r := Ok(OK, annotated);
    }

    /** POST /api/orders: the owner is the token's `userId`, whatever the body claims. */
    method CreateOrder(header: Option<string>, body: Record, now: int) returns (r: Reply<Record>)
      requires Valid()
      modifies this`orders, this`nextId
      ensures Valid()
      ensures Authenticate(header, crypto.verify).Deny? ==>
        r == Err(Authenticate(header, crypto.verify).status, Authenticate(header, crypto.verify).message)
        && orders == old(orders) && nextId == old(nextId)
      ensures Authenticate(header, crypto.verify).Allow? ==>
        var order := NewOrder(old(nextId), body, Get(Authenticate(header, crypto.verify).claims, "userId"), now);
        && orders == old(orders) + [order]
        && nextId == old(nextId) + 1
        && r == Ok(CREATED, order)
    {
      var gate := Authenticate(header, crypto.verify);
      if gate.Deny? {
        return Err(gate.status, gate.message);
      }
      var order := NewOrder(nextId, body, Get(gate.claims, "userId"), now);
      nextId := nextId + 1;
      orders := orders + [order];
      r := Ok(CREATED, order);
    }

    /** GET /api/orders: the caller's orders, in the order they were placed. */
    method MyOrders(header: Option<string>) returns (r: Reply<seq<Record>>)
      ensures Authenticate(header, crypto.verify).Deny? ==>
        r == Err(Authenticate(header, crypto.verify).status, Authenticate(header, crypto.verify).message)
      ensures Authenticate(header, crypto.verify).Allow? ==>
        var owner := Get(Authenticate(header, crypto.verify).claims, "userId");
        r.Ok? && r.status == OK
        && (forall o :: o in r.body <==> o in orders && StrictEq(Get(o, "userId"), owner))
        && r.body == Filter(orders, (o: Record) => StrictEq(Get(o, "userId"), owner))
    {
      var gate := Authenticate(header, crypto.verify);
      if gate.Deny? {
        return Err(gate.status, gate.message);
      }
      var owner := Get(gate.claims, "userId");
      r := Ok(OK, Filter(orders, (o: Record) => StrictEq(Get(o, "userId"), owner)));
    }

    /**
     * POST /api/seed: adds the admin unless `admin@bookstore.com` is taken, and the
     * sample catalogue only into an empty catalogue.
     */
    method Seed(samples: seq<Record>, salt: nat, now: int) returns (r: Reply<SeedStats>)
      requires Valid()
      modifies this`users, this`books, this`nextId
      ensures Valid()
      ensures orders == old(orders)
      ensures old(FindUserByEmail(users, Str(ADMIN_EMAIL))).Some? ==> users == old(users)
      ensures old(FindUserByEmail(users, Str(ADMIN_EMAIL))).None? ==>
        users == old(users) + [User(old(nextId), Str(ADMIN_NAME), Str(ADMIN_EMAIL),
                                    crypto.hash(salt, ADMIN_PASSWORD), true, now)]
      ensures old(|books|) > 0 ==> books == old(books)
      ensures old(|books|) == 0 ==>
        books == Numbered(samples, old(nextId) + |users| - old(|users|), now)
      ensures nextId == old(nextId) + (|users| - old(|users|)) + (|books| - old(|books|))
      ensures FindUserByEmail(users, Str(ADMIN_EMAIL)).Some?
      ensures |samples| > 0 ==> |books| > 0
      ensures r == Ok(OK, SeedStats(|users|, |books|, |orders|, CategoryCounts(books)))
    {
      if FindUserByEmail(users, Str(ADMIN_EMAIL)).None? {
        var hashed := crypto.hash(salt, ADMIN_PASSWORD);
        var admin := User(nextId, Str(ADMIN_NAME), Str(ADMIN_EMAIL), hashed, true, now);
        AddUserKeepsValid(users, nextId, admin, nextId + 1);
        nextId := nextId + 1;
        users := users + [admin];
      }
      if |books| == 0 {
        books := Numbered(samples, nextId, now);
        nextId := nextId + |samples|;
      }
      r := Ok(OK, SeedStats(|users|, |books|, |orders|, CategoryCounts(books)));
    }
  }

  /**
   * A second seed changes nothing and reports what the first did: the store ends as
   * the first seed left it, whatever salt and time the second one is given.
   */
  method SeedTwice(store: Store, samples: seq<Record>, salt1: nat, salt2: nat, now1: int, now2: int)
    returns (first: Reply<SeedStats>, second: Reply<SeedStats>)
    requires store.Valid()
    modifies store
    ensures store.Valid()
    ensures second == first
    ensures old(FindUserByEmail(store.users, Str(ADMIN_EMAIL))).Some? ==> store.users == old(store.users)
    ensures old(FindUserByEmail(store.users, Str(ADMIN_EMAIL))).None? ==>
      store.users == old(store.users) + [User(old(store.nextId), Str(ADMIN_NAME), Str(ADMIN_EMAIL),
                                              store.crypto.hash(salt1, ADMIN_PASSWORD), true, now1)]
    ensures old(|store.books|) > 0 ==> store.books == old(store.books)
    ensures old(|store.books|) == 0 ==>
      store.books == Numbered(samples, old(store.nextId) + |store.users| - old(|store.users|), now1)
    ensures store.orders == old(store.orders)
    ensures store.nextId == old(store.nextId) + (|store.users| - old(|store.users|)) + (|store.books| - old(|store.books|))
  {
    first := store.Seed(samples, salt1, now1);
    assert FindUserByEmail(store.users, Str(ADMIN_EMAIL)).Some?;
    assert |samples| > 0 ==> |store.books| > 0;
    second := store.Seed(samples, salt2, now2);
  }

  /** Registering an email twice: the second attempt is refused and adds no user. */
  method RegisterTwice(store: Store, name: Value, email: string, password: string, salt1: nat, salt2: nat, now: int)
    returns (first: Reply<Session>, second: Reply<Session>)
    requires store.Valid()
    requires FindUserByEmail(store.users, Str(email)).None?
    modifies store
    ensures store.Valid()
    ensures first.Ok? && first.status == CREATED
    ensures second == Err(BAD_REQUEST, USER_EXISTS)
    ensures |store.users| == old(|store.users|) + 1 && store.nextId == old(store.nextId) + 1
  {
    first := store.Register(name, Str(email), Str(password), salt1, now);
    var users := store.users;
    assert StrictEq(users[|users| - 1].email, Str(email));
    second := store.Register(name, Str(email), Str(password), salt2, now);
  }

  /** After registering, logging in with the same email and password succeeds as the same user. */
  method RegisterThenLogin(store: Store, name: Value, email: string, password: string, salt: nat, now: int)
    returns (reg: Reply<Session>, login: Reply<Session>)
    requires store.Valid()
    requires FindUserByEmail(store.users, Str(email)).None?
    modifies store
    ensures store.Valid()
    ensures reg.Ok? && login.Ok? && login.status == OK && login.body.user == reg.body.user
    ensures login.body.user.email == Str(email) && !login.body.user.isAdmin
  {
    reg := store.Register(name, Str(email), Str(password), salt, now);
    var last := |store.users| - 1;
    assert StrictEq(store.users[last].email, Str(email));
    store.UniqueEmail(last, Str(email));
    login := store.Login(Str(email), Str(password));
  }

  /** A placed order shows up last in its owner's order list. */
  method PlaceThenList(store: Store, header: Option<string>, body: Record, now: int)
    returns (before: Reply<seq<Record>>, placed: Reply<Record>, after: Reply<seq<Record>>)
    requires store.Valid()
    requires Authenticate(header, store.crypto.verify).Allow?
    requires IsPrimitive(Get(Authenticate(header, store.crypto.verify).claims, "userId"))
    modifies store
    ensures store.Valid()
    ensures before.Ok? && placed.Ok? && after.Ok?
    ensures after.body == before.body + [placed.body]
  {
    before := store.MyOrders(header);
    placed := store.CreateOrder(header, body, now);
    after := store.MyOrders(header);
    var owner := Get(Authenticate(header, store.crypto.verify).claims, "userId");
    var mine := (o: Record) => StrictEq(Get(o, "userId"), owner);
    FilterAppend(old(store.orders), [placed.body], mine);
    assert Get(placed.body, "userId") == owner;
  }
}
