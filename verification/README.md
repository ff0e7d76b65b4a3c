# Bookstore, modelled in Dafny

This project models the core of a small online bookstore: an Express server that keeps users, books and orders in
memory, a stand-alone user router, and three React components of the client. It proves the properties the code promises.

- **Server (`Bookstore`, `Access`, `Catalog`).** A `Store` object holds the module-level state: the `users`, `books`
  and `orders` arrays and the `nextId` counter, which hands out ids to all three.
  - Each route handler is a method. It answers with a `Reply` (a status and a body, or a status and a message) and
    changes only what its `modifies` clause names.
  - `authenticateToken` and `requireAdmin` are pure decisions, made from the `Authorization` header and the token's
    claims.
  - Request bodies and stored books and orders are JavaScript values (`JsValue.Value`). That keeps what the handlers
    do with them: `===` (never true between two objects), truthiness, `{...spread}` (a body may override the id), and
    `toLowerCase` throwing on a non-string.
  - bcrypt and jsonwebtoken are function-valued parameters (`Crypto.Primitives`). The store assumes only two things
    (`Crypto.Primitives.Sound`, shown satisfiable by `Crypto.SoundIsSatisfiable`): a hash verifies against its
    password, and a token is a non-empty string without spaces. That a signed token verifies back to its claims is a
    separate condition on one payload, `Crypto.Primitives.RoundTrips`. It cannot hold of every payload, since tokens are
    finite strings and payloads are not, so each contract that needs it asks for it for that payload only.
  - The clock, bcrypt's random salt and `parseInt` of a path id are parameters. The query values of GET /api/books are
    JavaScript values: absent (undefined), a string, or the array or object the query parser builds from `a[]=x`.
- **User router (`UserRoutes`).** A `CredentialStore` holds the router's own `users` array. Signup always appends.
  Login looks for an exact `===` match of email and plaintext password.
- **Catalogue page (`BookList`).** `BookListState` holds the page's React state. `FilterAndSortBooks` runs the four
  filters in turn, then the sort.
  - The result is proved equal to `Visible`, a specification function. `Visible` states which books are shown and how
    often (exactly the passing ones, each as often as it was fetched), and that they are sorted.
  - `Array.prototype.sort` is modelled as a stable insertion sort. Every comparator the page uses is antisymmetric and transitive
    (`CompareFlips`, `CompareTransitive`), so this is the order any stable sort gives.
- **Client strings (`Utf16`).** The two client components that measure text do it in UTF-16 code units, as the browser
  does: `.length`, regular-expression classes and `substring` all see an emoji as two units. Passwords and book
  descriptions are therefore `Utf16.JsString`, and `Utf16.Encode` gives the code units of a text.
- **Registration page (`RegisterPage`).** The password-strength score is 25 for each criterion met. The label
  thresholds are 25, 50 and 75. The submit method reports a mismatch first, then a weak password, and only then sends
  the request.
- **Book card (`BookCard`).** It covers the stock badge and the truncated description. The add-to-cart button is a
  small class: a sign-in check, a button disabled while adding or when stock is 0, and a timer that completes the add.

Shared modules: `Wrappers` (Option), `Seqs` (`filter`, `findIndex` and their algebra), `JsValue`, `Crypto`, `Http`, `Utf16`.

Behaviours of the code worth knowing:
- A token that fails verification gets 403 "Invalid token". Only a missing token gets 401.
- The admin check is the truthiness of the token's `isAdmin` claim.
- The admin order listing replaces `userId` by the owner's whole stored record, password digest included. The
  order's other fields are left as stored.
- No handler validates a body. An order's total, items and status are whatever the body says.
- Login is indistinguishable between an unknown email and a wrong password only for string passwords. A known email
  with a non-string password gets 500, because bcrypt throws.

## Model

| member | source | states |
|---|---|---|
| JsValue.StrictEq | backend/server-simple.js:19-21 | `===` holds exactly between equal primitives, so no object, array or date is ever `===` to anything |
| JsValue.Truthy | backend/server-simple.js:131-136 | the falsy values are exactly undefined, null, false, 0 and the empty string; every array, object and date is truthy |
| JsValue.ToLower | backend/server-simple.js:137-140 | lower-casing keeps the length, maps each character and leaves no ASCII capital |
| JsValue.ToLowerIdempotent | backend/server-simple.js:137 | lower-casing twice is lower-casing once |
| JsValue.IncludesPiece | backend/server-simple.js:139-140 | a string includes any piece it is built from |
| Seqs.Filter | backend/server-simple.js:133 | `filter` keeps exactly the elements the callback accepts, never adding any |
| Seqs.FirstIndex | backend/server-simple.js:179 | `findIndex` is -1 exactly when nothing matches, else the first match |
| Seqs.FilterAppend | backend/server-simple.js:235 | filtering a concatenation is concatenating the filtered parts |
| Seqs.FilterCompose | backend/server-simple.js:131-141 | two filters in a row are one filter by the conjunction |
| Seqs.FilterKeepsAll | backend/server-simple.js:130-136 | a filter everything passes returns the array unchanged |
| Seqs.FilterCount | backend/server-simple.js:671-679 | a filter keeps as many elements as there are positions whose element passes |
| Seqs.FilterCongruent | backend/server-simple.js:131-141 | filters that agree on every element give the same result |
| Seqs.FilterMultiplicity | client/src/components/BookList.js:51-70 | a filter keeps each passing element as often as it occurs and drops the rest |
| Utf16.Encode | client/src/pages/Register.js:33 | a text is as many code units as characters when none is astral, and twice as many when all are |
| Access.SpaceIndex | backend/server-simple.js:27 | finds the first space, or the end |
| Access.Split | backend/server-simple.js:27 | `split(' ')` always yields at least one piece |
| Access.JoinSplit | backend/server-simple.js:27 | splitting at spaces loses nothing: joining the pieces gives the header back |
| Access.SplitPiecesHaveNoSpace | backend/server-simple.js:27 | no piece of the split holds a space |
| Access.SplitTwoWords | backend/server-simple.js:27 | `"a b".split(' ')` is `[a, b]` for space-free words |
| Access.BearerToken | backend/server-simple.js:26-27 | the token is exactly the second space-separated piece of the header, whatever the first piece is, and there is one exactly when that piece exists and is non-empty; it is space-free |
| Access.Authenticate | backend/server-simple.js:25-40 | 401 exactly when there is no token, 403 exactly when it does not verify, otherwise the verified claims |
| Access.RequireAdmin | backend/server-simple.js:43-48 | passes exactly when `isAdmin` is truthy, otherwise 403 "Admin access required" |
| Access.AuthenticateAdmin | backend/server-simple.js:163 | the chained gates: an authentication refusal is kept, otherwise admin claims pass |
| Access.NoSecondPieceIsUnauthorized | backend/server-simple.js:26-31 | a missing header, or one with no space, is 401 at both gates |
| Access.NonAdminIsForbidden | backend/server-simple.js:43-46 | valid claims with a falsy `isAdmin` are 403 at the admin gate |
| Access.ServerTokenAccepted | backend/server-simple.js:25-40 | a token the server signed, sent as `Bearer <token>`, is accepted with its claims, for every payload whose token verifies back to it |
| Catalog.LowerOf | backend/server-simple.js:139-140 | `toLowerCase` succeeds exactly on strings |
| Catalog.SearchMatch | backend/server-simple.js:138-141 | the search matches when the lower-cased title, or else the author, includes the text; it throws on a non-string title, or on a non-string author after a non-matching title |
| Catalog.FilterSearch | backend/server-simple.js:138-141 | the search filter throws exactly when some book throws, and otherwise keeps exactly the matching books, in order |
| Catalog.Wanted | backend/server-simple.js:131-141 | with neither query value truthy every book is wanted; a truthy category must equal the book's primitive category; a truthy search must be a string and the title must be one |
| Catalog.SearchIgnoresCase | backend/server-simple.js:137 | the query gives the same answer for any letter case of a string search text |
| Catalog.CompoundCategoryMatchesNothing | backend/server-simple.js:131-133 | a category given as an array or an object is `===` to no book's, so nothing is listed |
| Catalog.GatsbyIsFound | backend/server-simple.js:136-141 | "gatsby" finds "The Great Gatsby" |
| Bookstore.PublicView | backend/server-simple.js:83-87 | the returned user keeps id, name, email and role and drops the digest |
| Bookstore.ClaimsOf | backend/server-simple.js:77-81 | the token claims are the user's id, email and admin flag |
| Bookstore.UserValue | backend/server-simple.js:209 | the embedded user is the whole stored object: exactly the six keys id, name, email, password digest, admin flag and creation time, each holding the user's own value |
| Bookstore.FindUserByEmail | backend/server-simple.js:20 | finds the first user whose email is `===`, or none when none is |
| Bookstore.FindUserById | backend/server-simple.js:21 | finds the first user whose id is `===`, or none when none is |
| Bookstore.HasIdMeans | backend/server-simple.js:179 | a book has the parsed id exactly when its `id` field is that number; NaN matches no book |
| Bookstore.FindBookIndex | backend/server-simple.js:179 | the first book whose id is `===` the parsed id; NaN finds nothing |
| Bookstore.RemoveAt | backend/server-simple.js:198 | `splice(k, 1)` shortens the array by one |
| Bookstore.Numbered | backend/server-simple.js:261-663 | each sample literal, in order, gets the id `start + i` unless it names one, the seed's time, and otherwise its own fields |
| Bookstore.CategoryCounts | backend/server-simple.js:671-679 | there is one count per catalogue category |
| Bookstore.CategoryCountsCountBooks | backend/server-simple.js:671-679 | each category's count is the number of stored books whose category is `===` to it |
| Bookstore.NewBook | backend/server-simple.js:165-169 | a created book has the body's fields and the server's time, and the counter's id unless the body gives one |
| Bookstore.NewOrder | backend/server-simple.js:220-225 | an order's owner and time are the server's, whatever the body claims; the id is the counter's unless the body gives one |
| Bookstore.Annotate | backend/server-simple.js:207-210 | annotation changes only `userId`: undefined exactly when no user has that id, and otherwise the whole record of the first user who has it |
| Bookstore.RemoveAtKeepsOthers | backend/server-simple.js:193-198 | deleting keeps every other book in order and removes exactly one occurrence |
| Bookstore.AddUserKeepsValid | backend/server-simple.js:56-75 | adding a user with the counter's id and an unused email keeps ids increasing and emails distinct |
| Bookstore.Store.constructor | backend/server-simple.js:11-14 | the server starts with empty arrays and `nextId` 1 |
| Bookstore.Store.Register | backend/server-simple.js:51-91 | a taken email is 400 "User already exists" with nothing changed; a non-string password is 500; otherwise one user is appended with the next id and a hash the password verifies against, and the token is signed over that user's claims and authenticates as them whenever it verifies back |
| Bookstore.Store.Login | backend/server-simple.js:93-124 | succeeds exactly when the email's user has a password that matches its hash; a string password gets the same "Invalid credentials" for an unknown email and a wrong password; the token is signed over that user's claims, which carry the email, and authenticates as them whenever it verifies back |
| Bookstore.Store.UniqueEmail | backend/server-simple.js:20 | at most one user has a given email |
| Bookstore.Store.ListBooks | backend/server-simple.js:127-148 | a truthy category must be `===` to the book's, a truthy search must be a string found case-insensitively in the title or author; the wanted books in stored order, or 500 exactly when the search is truthy and not a string, or throws on a book that passed the category filter |
| Bookstore.Store.GetBook | backend/server-simple.js:150-160 | the first book with the id, or 404 exactly when there is none |
| Bookstore.Store.CreateBook | backend/server-simple.js:163-175 | the admin gates refuse with nothing changed; otherwise one book is appended with the next id |
| Bookstore.Store.UpdateBook | backend/server-simple.js:177-189 | gates first, then 404 with nothing changed, else the first matching book is merged with the body and nothing else changes |
| Bookstore.Store.DeleteBook | backend/server-simple.js:191-203 | gates first, then 404 with nothing changed, else exactly the first matching book is removed |
| Bookstore.Store.AdminOrders | backend/server-simple.js:205-215 | every order, in order, annotated with its owner, behind the admin gates |
| Bookstore.Store.CreateOrder | backend/server-simple.js:218-231 | a verified caller's order is appended with the token's `userId` as owner and the next id |
| Bookstore.Store.MyOrders | backend/server-simple.js:233-240 | exactly the caller's orders, in the order they were placed |
| Bookstore.Store.Seed | backend/server-simple.js:243-684 | adds the admin only when its email is not taken, adds the samples only to an empty catalogue, numbers them after the admin, and reports the counts |
| Bookstore.SeedTwice | backend/server-simple.js:246-262 | a second seed reports what the first did and leaves the store as the first left it: the admin added only if absent, the samples numbered only into an empty catalogue (none when there are no samples), orders untouched, and `nextId` advanced by exactly the records added |
| Bookstore.RegisterTwice | backend/server-simple.js:56-59 | registering an email a second time is refused with 400 and adds no user |
| Bookstore.RegisterThenLogin | backend/server-simple.js:93-118 | logging in with the credentials just registered succeeds, as the same user |
| Bookstore.PlaceThenList | backend/server-simple.js:218-240 | a placed order appears last in its owner's list |
| UserRoutes.AnyMatches | backend/routes/userRoutes.js:16-18 | `find` succeeds exactly when some record has an equal email and an equal password |
| UserRoutes.SameCredentialsMeans | backend/routes/userRoutes.js:17 | a record matches exactly when its email and password equal the given ones and both are primitives |
| UserRoutes.AnyMatchesAppend | backend/routes/userRoutes.js:9 | a matching record stays findable whatever is appended after it |
| UserRoutes.CredentialStore.constructor | backend/routes/userRoutes.js:4 | the router starts with no users |
| UserRoutes.CredentialStore.Signup | backend/routes/userRoutes.js:6-11 | always appends the three fields and always succeeds, duplicates included |
| UserRoutes.CredentialStore.Login | backend/routes/userRoutes.js:13-25 | succeeds exactly when some record's email and password are both `===`, otherwise 400 "Invalid credentials" |
| UserRoutes.SignupThenLogin | backend/routes/userRoutes.js:6-24 | after a signup with string credentials, logging in with them succeeds, even for an email already signed up |
| BookList.LexCompare | client/src/components/BookList.js:75-76 | the string order is zero exactly on equal strings |
| BookList.LexCompareFlips | client/src/components/BookList.js:75-76 | swapping the strings negates the order |
| BookList.LexCompareTransitive | client/src/components/BookList.js:75-76 | the string order is transitive |
| BookList.Compare | client/src/components/BookList.js:73-88 | ascending title or author, cheapest or dearest first, newest first; an unknown key ties every pair |
| BookList.CompareFlips | client/src/components/BookList.js:73-88 | every sort key's comparator is antisymmetric |
| BookList.CompareTransitive | client/src/components/BookList.js:73-88 | every sort key's comparator is transitive |
| BookList.Insert | client/src/components/BookList.js:73 | insertion adds exactly the one book |
| BookList.Sort | client/src/components/BookList.js:73-88 | sorting is a permutation |
| BookList.SortedCons | client/src/components/BookList.js:73 | a head that sorts before a sorted tail gives a sorted list |
| BookList.InsertSorted | client/src/components/BookList.js:73 | inserting into a sorted list keeps it sorted |
| BookList.SortSorted | client/src/components/BookList.js:73-88 | the sorted list is ordered by the comparator |
| BookList.PriceSortsAreMonotone | client/src/components/BookList.js:77-80 | "price-low" never decreases in price, "price-high" never increases |
| BookList.MatchesSearch | client/src/components/BookList.js:51-56 | a term found as typed in the title, author or description matches, and so does the empty term |
| BookList.Passes | client/src/components/BookList.js:50-70 | with no filter set every book passes; a passing book matches the search, has the category, and lies within each entered bound, inclusive; a NaN bound passes nothing |
| BookList.Visible | client/src/components/BookList.js:47-91 | the shown books are exactly the passing books, each as often as fetched, in sorted order |
| BookList.NoFiltersShowsAll | client/src/components/BookList.js:48-70 | with no filter set, every fetched book is shown |
| BookList.BookListState.constructor | client/src/components/BookList.js:7-14 | the page starts empty, unfiltered, sorted by title |
| BookList.BookListState.FilterAndSortBooks | client/src/components/BookList.js:47-91 | the search, category and inclusive price filters in turn, each only when set, then the sort, give `Visible` |
| BookList.BookListState.ClearFilters | client/src/components/BookList.js:93-98 | afterwards no filter is active, the sort is by title, and the books are untouched |
| BookList.BookListState.ActiveFiltersCount | client/src/components/BookList.js:100-106 | the count is the number of active kinds, at most 3, and 0 exactly when nothing is set; the two price boxes count once |
| BookList.ActiveKindsSize | client/src/components/BookList.js:100-106 | each of the three tests that holds adds one kind |
| BookList.ActiveKinds | client/src/components/BookList.js:100-106 | at most the three kinds, none exactly when no filter is set, and the two price boxes make one kind |
| RegisterPage.Score | client/src/pages/Register.js:29-39 | strength is 25 per criterion met, with the length counted in code units, so one of 0, 25, 50, 75 or 100 |
| RegisterPage.Met | client/src/pages/Register.js:33-36 | length at least 8 code units, an ASCII capital, an ASCII digit, and any other code unit are the four criteria |
| RegisterPage.PasswordStrength | client/src/pages/Register.js:29-39 | the accumulated strength is `Score`: 100 exactly when all four criteria hold, 0 exactly when none does |
| RegisterPage.ScoreGrowsWithExtension | client/src/pages/Register.js:33-36 | extending a password never loses a criterion or lowers its strength |
| RegisterPage.EmojiPassword | client/src/pages/Register.js:33-36 | four emoji are eight code units, all symbols, so such a password scores 50 |
| RegisterPage.LabelFor | client/src/pages/Register.js:41-47 | Weak below 25, Fair below 50, Good below 75, Strong otherwise |
| RegisterPage.LabelOfPassword | client/src/pages/Register.js:41-47 | for real passwords: Weak only with no criterion, Fair with one, Good with two, Strong with three or four |
| RegisterPage.RegisterForm.constructor | client/src/pages/Register.js:8-15 | the form starts empty, with no error and not loading |
| RegisterPage.RegisterForm.HandleSubmit | client/src/pages/Register.js:49-79 | a mismatch is reported before strength; the request is sent exactly when the passwords match and strength is at least 50; a refusal shows the server's message or "Registration failed"; the form is never left loading |
| RegisterPage.SubmitExamples | client/src/pages/Register.js:49-79 | a four-emoji password typed twice is sent; with a different confirmation it is stopped with the mismatch message |
| BookCard.StockBadge | client/src/components/BookCard.js:28-37 | Out of Stock exactly at 0, Low Stock below 5 otherwise (negatives included), Limited from 5 to below 10, none from 10 |
| BookCard.BadgeEasesWithStock | client/src/components/BookCard.js:28-37 | among non-negative counts, more stock never gives a more urgent badge |
| BookCard.NegativeStockIsLow | client/src/components/BookCard.js:29-31 | a negative count shows Low Stock |
| BookCard.TruncateText | client/src/components/BookCard.js:39-42 | '' for missing or empty text, the text itself when it fits, otherwise its first `maxLength` code units and "...", never longer than `maxLength` + 3 |
| BookCard.TruncateIsPrefixAndStable | client/src/components/BookCard.js:39-42 | the result is the text or a prefix of it with "...", and truncating the result again changes nothing |
| BookCard.CardDescription | client/src/components/BookCard.js:99 | the card's description is the text when it has at most 100 code units, else its first 100 and "..."; never more than 103 |
| BookCard.EmojiDescriptionIsCut | client/src/components/BookCard.js:39-42 | a description of 51 to 100 emoji is cut to its first 50 and "..." |
| BookCard.BookCardState.constructor | client/src/components/BookCard.js:6-10 | a card starts idle, with no toast and nothing added |
| BookCard.BookCardState.HandleAddToCart | client/src/components/BookCard.js:12-26 | signed out, it only alerts; signed in, it marks the card adding and schedules one add |
| BookCard.BookCardState.TimerFires | client/src/components/BookCard.js:21-25 | the scheduled add hands the book to the cart, shows the toast and ends adding |
| BookCard.BookCardState.ButtonDisabled | client/src/components/BookCard.js:117 | a card without stock is never clickable; one with stock is disabled exactly while an add is in progress |
| BookCard.BookCardState.Click | client/src/components/BookCard.js:113-117 | a click on a disabled button (stock 0 or adding) changes nothing; an enabled signed-in click disables the button |
| BookCard.DoubleClickAddsOnce | client/src/components/BookCard.js:12-26 | signed in, two clicks and the timer hand the book to the cart once, with no alert, and leave the button enabled |
| BookCard.SignedOutNeverAdds | client/src/components/BookCard.js:12-16 | signed out, clicks never schedule an add; each click on a card with stock raises the sign-in alert |

## Left out

- The real cryptography (bcrypt's cost factor, the JWT secret, HMAC) is not modelled. So are the `expiresIn: '24h'`
  expiry and the `iat`/`exp` claims it adds: tokens here never expire, and claims are exactly `{ userId, email, isAdmin }`. Because
  `sign` sees the claims alone, the model would give the same token for the same user at any time; the real one stamps
  the issue time, so no contract says that two tokens are equal.
- JSON serialisation of replies is not modelled. That covers dropping `undefined` fields and turning dates into
  strings.
- The success message strings ("Book created successfully", "Order placed successfully" and the like) are not
  modelled. The reply carries the status and the record only.
- `toLowerCase` is modelled for ASCII letters only. Other Unicode case mappings are not modelled.
- The text parsing of `parseInt` and `parseFloat` is not modelled. Their result is a parameter, with NaN as `None`.
- `localeCompare` is replaced by character-code order. Locale collation is not modelled.
- Seed: the 35 sample-book literals are a parameter.
- The request body's fields are a map from names to values. A body that is an array or a primitive is not modelled.
- The health and debug endpoints are not modelled. Neither are `server.js`, `routes/bookRoutes.js` or anything that
  talks to MongoDB.
- `new Date()` is a parameter `now`, one per request.
- Concurrent requests racing on `nextId` and the arrays are not modelled. Each request runs to completion before the
  next one.
- Client prices and stock are exact reals. Floating-point rounding is not modelled, and neither are a non-numeric
  stock or price.
- BookList: fetching the books, loading and error display, and the React effect that re-runs `filterAndSortBooks`
  are not modelled. `FilterAndSortBooks` is the operation the effect calls. Book fields are strings and numbers, so
  the client search cannot throw.
- The 500 ms delay is not modelled: `TimerFires` is the callback, run whenever the caller chooses.
- `CartContext` is not part of this model. The card records the books it hands over in `added`.
- `AuthContext`'s `login` and the navigation after a successful registration are not modelled. The UI rendering is
  not modelled either.
- BookCard.TruncateText: the length bound is `max(0, maxLength) + 3`, not `maxLength + 3`. `substring` clamps a
  negative length to 0, so a negative `maxLength` still yields "...". The only caller passes 100.
- Bookstore.Store.Login: the indistinguishable "Invalid credentials" answer is stated for string passwords only. A
  known email with a non-string password gets 500 instead.
- Bookstore.Store.Register: that the returned token authenticates as the new user is stated only when its claims
  round-trip (`Crypto.Primitives.RoundTrips`). jsonwebtoken promises this for every payload it signs, but no function
  from all payloads to finite strings can be undone on all of them, so the model cannot assume it universally.
- Bookstore.Store.Login: the same holds for the token it returns.
- BookList: titles, authors and descriptions are texts of characters, not code units. `includes` on well-formed text
  gives the same answer either way; a search term that is a lone surrogate is not modelled.
