# Sweet shop inventory, modelled in Dafny

This project models the core of a small sweet-shop inventory system. The
backend is a Spring service over a relational table of sweets. The browser
client keeps two stores: an inventory cache and a sign-in session. Every part
is written as immutable data and pure state transitions.

- **Backend.**
  - The `Sweet` entity's `purchase`/`restock` arithmetic, with Java `int`
    wrap-around.
  - Bean Validation of the request bodies.
  - The repository table (`map<int, Sweet>` with an identity counter) and its
    `search` query.
  - `SweetService` and `UserService`.
  - The admin gate and status codes of `SweetController`.
  - The JSON bodies `GlobalExceptionHandler` builds.
- **Client.**
  - The inventory store (`useSweetStore`) and the session store
    (`useAuthStore`, with `localStorage` as a map).
  - The `useAuth` hook and the route guards.
  - The sweet card, the admin page's form and restock entries, and the home
    page's search form.
- **Composition.** A purchase from the client cache, answered by the
  controller, then settled by the cache.

Every server answer a client store waits for is an explicit argument of type
`Result<T, Option<string>>`: the data, or a rejection carrying the `error`
field of the error body. `Http.SweetOutcome` derives that argument from a
modelled controller response.

Modules follow the program:

| module | part of the program |
|---|---|
| `Wrappers` | `Option` and `Result` |
| `JavaLang` | `int` width, `String.trim`, ASCII case folding |
| `Exceptions` | the exception kinds |
| `Sweets` | the entity |
| `Dto` | the request and response bodies and their constraints |
| `Http` | statuses, bodies, how axios settles |
| `GlobalExceptionHandler` | the error bodies |
| `SweetRepository` | the table and its queries |
| `SweetService` | inventory operations |
| `UserService` | accounts |
| `SweetController` | the inventory endpoints |
| `SweetStore` | the client inventory store |
| `AuthStore` | the client session store |
| `UseAuth` | the `useAuth` hook |
| `Routes` | the route guards |
| `SweetCard` | the sweet card |
| `AdminPage` | the admin page |
| `HomePage` | the home page |
| `Composition` | the end-to-end purchase |

Where the natural reading of the design and the code differ, the model
follows the code. Four places where this matters:

- `restock` has no guard on its argument.
- The catalogue card treats only a stock of exactly 0 as out of stock.
- The card's quantity picker lets a negative number through.
- The session store counts an empty token as signed in, while the hook does
  not.

## Model

| member | source | states |
|---|---|---|
| JavaLang.Wrap32 | backend/src/main/java/com/sweetshop/entity/Sweet.java:65-74 | Java `int` `+=`/`-=`: the exact value when it fits in 32 bits, otherwise shifted by 2^32 into range |
| Sweets.Purchase | backend/src/main/java/com/sweetshop/entity/Sweet.java:61-66 | refused with "Insufficient quantity available" exactly when stock < q; otherwise only the quantity changes, and for q >= 0 it drops by exactly q and stays within 0..old stock |
| Sweets.Restock | backend/src/main/java/com/sweetshop/entity/Sweet.java:73-75 | only the quantity changes: by exactly q when the sum fits an `int`, wrapped by 2^32 otherwise; no guard on q |
| Sweets.PurchaseWholeStock | backend/src/main/java/com/sweetshop/entity/Sweet.java:62-65 | buying exactly the stock succeeds and leaves 0 (the comparison is strict) |
| Sweets.PurchaseKeepsStockNonNegative | backend/src/main/java/com/sweetshop/entity/Sweet.java:61-66 | with a non-negative stock and q >= 0, a successful purchase never leaves a negative stock |
| Sweets.NegativePurchaseCanWrap | backend/src/main/java/com/sweetshop/entity/Sweet.java:61-66 | the guard lets a negative q through, and at stock 2^31-1 a purchase of -1 wraps the stock to -2^31 |
| Sweets.RestockThenPurchase | backend/src/main/java/com/sweetshop/entity/Sweet.java:61-75 | restocking q and then purchasing q always succeeds and restores the sweet exactly, when no overflow occurs |
| Sweets.RestockCanWrapNegative | backend/src/main/java/com/sweetshop/entity/Sweet.java:73-75 | restocking 1 at stock 2^31-1 makes the stock negative |
| Dto.NameViolations | backend/src/main/java/com/sweetshop/dto/SweetRequest.java:17-19 | no violation iff the name is present, not blank after trimming, and 2..100 long; "Name is required" iff null or blank, the size message iff present with a length outside 2..100; only the `name` field is named |
| Dto.CategoryViolations | backend/src/main/java/com/sweetshop/dto/SweetRequest.java:21-22 | no violation iff the category is present and not blank, reported as "Category is required" under `category` |
| Dto.PriceViolations | backend/src/main/java/com/sweetshop/dto/SweetRequest.java:24-26 | "Price is required" iff null, "Price must be greater than 0" iff below 0.01; no violation iff present and at least 0.01 |
| Dto.QuantityViolations | backend/src/main/java/com/sweetshop/dto/SweetRequest.java:28-30 | "Quantity is required" iff null, "Quantity cannot be negative" iff below 0; no violation iff present and at least 0 |
| Dto.DescriptionViolations | backend/src/main/java/com/sweetshop/dto/SweetRequest.java:32-34 | "Description is required" iff null or blank, the size message iff present with a length outside 10..500; no violation iff present, not blank and 10..500 long |
| Dto.FiveFields | backend/src/main/java/com/sweetshop/dto/SweetRequest.java:17-34 | the five per-field lists concatenate to empty iff each is empty, and a field is named in the union iff its own list is non-empty |
| Dto.SweetRequestViolations | backend/src/main/java/com/sweetshop/dto/SweetRequest.java:17-34 | a request is accepted iff all five field predicates hold, and each failing field, and only a failing field, is reported |
| Dto.ViolationMessages | backend/src/main/java/com/sweetshop/dto/SweetRequest.java:17-34 | each of the nine messages is reported under its field exactly when its own constraint fails, independently of the others (an empty name carries both name messages) |
| Dto.PurchaseRequestViolations | backend/src/main/java/com/sweetshop/dto/PurchaseRequest.java:17-19 | null gives "Quantity is required", a value <= 0 gives "Quantity must be at least 1", and exactly the values >= 1 pass |
| Dto.EmptyCategoryRefused | backend/src/main/java/com/sweetshop/dto/SweetRequest.java:21-22 | an empty category is refused and reported under `category` |
| Dto.BoundaryRequestIsValid | backend/src/main/java/com/sweetshop/dto/SweetRequest.java:17-34 | the minimal lengths, price 0.01 and quantity 0 are all accepted |
| GlobalExceptionHandler.ErrorsMapContents | backend/src/main/java/com/sweetshop/exception/GlobalExceptionHandler.java:63-69 | the `errors` object has exactly the rejected fields as keys, each mapped to one of that field's messages |
| GlobalExceptionHandler.Handle | backend/src/main/java/com/sweetshop/exception/GlobalExceptionHandler.java:23-98 | every body has `status` and a non-2xx code; the code per exception kind is 404/401/409/400/400/500; `error` is present except for validation failures; the message passes through except for unexpected errors |
| GlobalExceptionHandler.ValidationBody | backend/src/main/java/com/sweetshop/exception/GlobalExceptionHandler.java:59-74 | a validation failure answers 400 with an `errors` object naming exactly the rejected fields |
| GlobalExceptionHandler.UnexpectedMessageHidden | backend/src/main/java/com/sweetshop/exception/GlobalExceptionHandler.java:91-98 | the response to an unexpected error does not depend on its message |
| SweetRepository.Insert | backend/src/main/java/com/sweetshop/service/SweetService.java:38 | saving a new sweet stores it under a fresh identity value and keeps the table well formed |
| SweetRepository.FindById | backend/src/main/java/com/sweetshop/service/SweetService.java:58 | a row is found iff its id is stored, and it is that row |
| SweetRepository.FindByNameContainingIgnoreCase | backend/src/main/java/com/sweetshop/repository/SweetRepository.java:24 | exactly the rows whose name contains the term ignoring ASCII case |
| SweetRepository.FindByCategory | backend/src/main/java/com/sweetshop/repository/SweetRepository.java:32 | exactly the rows of that category |
| SweetRepository.FindByPriceRange | backend/src/main/java/com/sweetshop/repository/SweetRepository.java:41-43 | exactly the rows priced within the range, both ends included |
| SweetRepository.Search | backend/src/main/java/com/sweetshop/repository/SweetRepository.java:54-62 | a stored row is in the result iff all four null-or-match conjuncts hold of it; nothing else is, and rows come back unchanged |
| SweetRepository.SearchWithoutFiltersIsFindAll | backend/src/main/java/com/sweetshop/repository/SweetRepository.java:54-58 | with every argument null the search returns the whole table |
| SweetRepository.SearchIsIntersectionOfFinders | backend/src/main/java/com/sweetshop/repository/SweetRepository.java:24-58 | with all four filters given, the search is the intersection of the name, category and price-range finders |
| SweetRepository.PriceBoundsInclusive | backend/src/main/java/com/sweetshop/repository/SweetRepository.java:41-58 | a row priced exactly at both bounds is found by `search` and by `findByPriceRange` |
| SweetRepository.InvertedRangeIsEmpty | backend/src/main/java/com/sweetshop/repository/SweetRepository.java:41-58 | a minimum above the maximum finds nothing |
| SweetRepository.SearchMonotone | backend/src/main/java/com/sweetshop/repository/SweetRepository.java:54-58 | replacing null arguments by values never adds rows |
| SweetRepository.EmptyNameMatchesEverything | backend/src/main/java/com/sweetshop/repository/SweetRepository.java:55 | the empty name term matches every row |
| SweetRepository.EmptyCategoryMatchesOnlyEmpty | backend/src/main/java/com/sweetshop/repository/SweetRepository.java:56 | the empty category is a real filter: it finds only rows with an empty category |
| SweetRepository.NameSearchIgnoresCase | backend/src/main/java/com/sweetshop/repository/SweetRepository.java:55 | a name term and its lower-cased form find the same rows |
| SweetRepository.CategorySearchIsCaseSensitive | backend/src/main/java/com/sweetshop/repository/SweetRepository.java:56 | "Candy" does not find a row whose category is "candy" |
| SweetService.GetAllSweets | backend/src/main/java/com/sweetshop/service/SweetService.java:46-60 | the same list as a search with every filter null; it lists exactly the ids `getSweetById` finds, each with the record found there |
| SweetService.GetSweetById | backend/src/main/java/com/sweetshop/service/SweetService.java:57-60 | the stored row, or not-found with "Sweet not found with id: <id>" exactly when the id is absent |
| SweetService.AddSweet | backend/src/main/java/com/sweetshop/service/SweetService.java:29-39 | always succeeds; the new row carries the request's five fields under a fresh id, and the table stays well formed |
| SweetService.UpdateSweet | backend/src/main/java/com/sweetshop/service/SweetService.java:70-80 | succeeds iff the id is stored; then the row keeps its id, takes the five fields, and no other row changes; otherwise nothing changes |
| SweetService.DeleteSweet | backend/src/main/java/com/sweetshop/service/SweetService.java:88-93 | succeeds iff the id is stored; then exactly that row goes; otherwise not-found and nothing changes |
| SweetService.PurchaseSweet | backend/src/main/java/com/sweetshop/service/SweetService.java:104-108 | not-found for an absent id, "Insufficient quantity available" when q exceeds the stock, otherwise only that row's stock drops by q; a failure changes nothing |
| SweetService.RestockSweet | backend/src/main/java/com/sweetshop/service/SweetService.java:118-122 | succeeds iff the id is stored; only that row's stock rises by q when no overflow occurs; a failure changes nothing |
| SweetService.SearchSweets | backend/src/main/java/com/sweetshop/service/SweetService.java:133-135 | a stored sweet is listed iff it matches the name fragment, the category and both price bounds given; listed sweets are unchanged (see also `SweetRepository.SearchWithoutFiltersIsFindAll`) |
| SweetService.AddThenDeleteRestores | backend/src/main/java/com/sweetshop/service/SweetService.java:29-93 | adding a sweet and deleting the id it got restores the table's rows |
| SweetService.DeleteTwice | backend/src/main/java/com/sweetshop/service/SweetService.java:88-93 | a second delete of the same id is not-found and changes nothing |
| SweetService.StockStaysNonNegative | backend/src/main/java/com/sweetshop/service/SweetService.java:29-122 | with validated inputs, no service operation makes a stored stock negative; the restock case assumes q >= 0, which the server is not shown to check |
| SweetService.NegativeRestockDrivesStockNegative | backend/src/main/java/com/sweetshop/service/SweetService.java:118-122 | a restock by minus one more than the stock succeeds and leaves a stored stock of -1 |
| SweetService.ValidatedPurchaseLowersStock | backend/src/main/java/com/sweetshop/dto/PurchaseRequest.java:17-19 | a purchase that passed validation and succeeded strictly lowers the stock |
| UserService.RegisterUser | backend/src/main/java/com/sweetshop/service/UserService.java:30-47 | the username clash is checked before the email clash; success iff neither clashes, adding a USER with the encoded password; usernames and emails stay unique |
| UserService.AuthenticateUser | backend/src/main/java/com/sweetshop/service/UserService.java:57-66 | succeeds iff the user exists and the encoder matches the password; both failures give the same "Invalid username or password" |
| UserService.GetUserByUsername | backend/src/main/java/com/sweetshop/service/UserService.java:75-78 | the stored user, or "User not found" exactly when absent |
| UserService.RegistrationNeverGrantsAdmin | backend/src/main/java/com/sweetshop/service/UserService.java:39-46 | registration changes no one's admin status: admins after it are exactly the admins before it |
| UserService.RegisterThenAuthenticate | backend/src/main/java/com/sweetshop/service/UserService.java:30-66 | a registered user can sign in with the raw password, given an encoder whose `matches` accepts its own `encode` |
| UserService.UsernameClashReportedFirst | backend/src/main/java/com/sweetshop/service/UserService.java:31-37 | when both username and email clash, the username message is the one reported |
| SweetController.MapToResponse | backend/src/main/java/com/sweetshop/controller/SweetController.java:194-205 | the response carries the entity's six data fields unchanged |
| SweetController.MapToResponseInjective | backend/src/main/java/com/sweetshop/controller/SweetController.java:194-205 | different sweets give different responses |
| SweetController.VerifyAdminRole | backend/src/main/java/com/sweetshop/controller/SweetController.java:213-224 | passes iff the caller is authenticated and stored as ADMIN; otherwise "User must be authenticated", "User not found" or "Only admins can perform this action" |
| SweetController.AddSweet | backend/src/main/java/com/sweetshop/controller/SweetController.java:41-51 | 201 iff the body is valid and the caller is admin; validation is answered first; any other answer leaves the table unchanged |
| SweetController.GetAllSweets | backend/src/main/java/com/sweetshop/controller/SweetController.java:59-67 | 200 with every stored sweet, open to everyone |
| SweetController.GetSweetById | backend/src/main/java/com/sweetshop/controller/SweetController.java:76-80 | 200 with the sweet iff it exists, else the not-found answer |
| SweetController.SearchSweets | backend/src/main/java/com/sweetshop/controller/SweetController.java:92-105 | 200 with exactly the repository search result |
| SweetController.UpdateSweet | backend/src/main/java/com/sweetshop/controller/SweetController.java:116-125 | 200 iff valid body, admin caller and stored id, in that order of checks; otherwise the table is unchanged |
| SweetController.DeleteSweet | backend/src/main/java/com/sweetshop/controller/SweetController.java:135-143 | 204 with no body iff admin caller and stored id; then only that row is gone |
| SweetController.PurchaseSweet | backend/src/main/java/com/sweetshop/controller/SweetController.java:154-166 | validation first, then 401 with no body when unauthenticated, then the service; 200 iff all pass and q <= stock, with the stock lowered by q |
| SweetController.RestockSweet | backend/src/main/java/com/sweetshop/controller/SweetController.java:177-186 | for a body the restock request accepts: 200 iff admin caller and stored id, with the stock raised by the quantity sent |
| SweetController.AdminNegativeRestock | backend/src/main/java/com/sweetshop/controller/SweetController.java:177-186 | if the restock request accepts a negative quantity, an admin restock gets 200 and leaves a stored stock of -1 |
| SweetController.NonAdminCannotMutate | backend/src/main/java/com/sweetshop/controller/SweetController.java:45-182 | a caller who is not admin changes nothing through add, update, delete or restock, and every such call is answered 400 or 401 (400 whenever the sweet request is invalid) |
| SweetController.UserMayPurchase | backend/src/main/java/com/sweetshop/controller/SweetController.java:154-166 | an ordinary USER may buy; purchase does not need the admin role |
| Http.ErrorField | frontend/src/store/sweetStore.js:23-24 | `error.response?.data?.error`: the `error` string of an error body, and nothing for any other body |
| Http.ErrorMessage | frontend/src/store/sweetStore.js:23-24 | the server's message when it is a non-empty string, otherwise the fallback |
| Http.SweetOutcome | frontend/src/store/sweetStore.js:118-131 | a call settles with the record iff the status is 2xx with a record body, and otherwise rejects with the body's `error` field |
| SweetStore.ReplaceById | frontend/src/store/sweetStore.js:87 | `map` by id: same length; every entry with that id becomes the server's record, every other entry is kept |
| SweetStore.RemoveId | frontend/src/store/sweetStore.js:105 | `filter` by id: keeps exactly the entries with a different id |
| SweetStore.RemoveIdConcat | frontend/src/store/sweetStore.js:105 | filtering distributes over concatenation |
| SweetStore.RemoveAbsentIsNoOp | frontend/src/store/sweetStore.js:105 | filtering an id the cache does not hold changes nothing |
| SweetStore.FetchSweets | frontend/src/store/sweetStore.js:16-28 | success replaces the cache with the server list; failure keeps it and records the message or "Failed to fetch sweets" |
| SweetStore.SearchSweets | frontend/src/store/sweetStore.js:33-44 | success replaces the cache wholesale; failure keeps it and records the message or "Search failed" |
| SweetStore.GetSweetById | frontend/src/store/sweetStore.js:49-61 | success sets `selectedSweet` only; the cache never changes |
| SweetStore.AddSweet | frontend/src/store/sweetStore.js:66-78 | success appends the server's record after the old cache; failure keeps it |
| SweetStore.UpdateSweet | frontend/src/store/sweetStore.js:83-96 | success replaces by id; failure keeps the cache and records the message or "Failed to update sweet" |
| SweetStore.PurchaseSweet | frontend/src/store/sweetStore.js:118-131 | success replaces by id with the server's record; failure keeps the cache |
| SweetStore.RestockSweet | frontend/src/store/sweetStore.js:136-149 | success replaces by id with the server's record; failure keeps the cache |
| SweetStore.DeleteSweet | frontend/src/store/sweetStore.js:101-113 | success removes every entry with the id; failure keeps the cache |
| SweetStore.ClearError | frontend/src/store/sweetStore.js:154 | clears the message and nothing else |
| SweetStore.ReplaceReconciles | frontend/src/store/sweetStore.js:118-123 | after a successful purchase each position holds the server's record when its id matches and is unchanged otherwise; an absent id is a no-op |
| SweetStore.DeleteReconciles | frontend/src/store/sweetStore.js:101-106 | after a successful delete no entry has the id, all other entries survive, and a second delete changes nothing |
| SweetStore.FailureKeepsCache | frontend/src/store/sweetStore.js:22-27 | a rejected fetch, search, get, add, update, purchase, restock or delete leaves the cache and the selection as they were, clears loading and sets that call's message |
| SweetStore.AddUpdateDeleteRoundTrip | frontend/src/store/sweetStore.js:66-113 | adding a record with a new id, updating it and deleting it gives back the original cache |
| AuthStore.Load | frontend/src/store/authStore.js:8-9 | the user is parsed from the stored "user" entry; the token is the stored "authToken" when present and non-empty, else none |
| AuthStore.SignIn | frontend/src/store/authStore.js:16-29 | success stores the token and the serialised user and signs in with both; failure keeps the session and storage and records the message or the fallback |
| AuthStore.Register | frontend/src/store/authStore.js:16-29 | success signs in; failure records the message or "Registration failed" |
| AuthStore.Login | frontend/src/store/authStore.js:34-47 | success signs in; failure records the message or "Login failed" |
| AuthStore.Logout | frontend/src/store/authStore.js:52-55 | user, token and error are cleared, the two storage keys are removed and every other stored key is kept |
| AuthStore.ClearError | frontend/src/store/authStore.js:60 | clears the message; the user, token, loading flag and stored keys are untouched |
| AuthStore.SignInSurvivesReload | frontend/src/store/authStore.js:8-29 | with a faithful JSON codec and a non-empty token, reloading after sign-in restores the same user and token |
| AuthStore.EmptyTokenLostOnReload | frontend/src/store/authStore.js:9-67 | an empty token counts as signed in for the store but is lost on reload |
| AuthStore.LogoutIdempotentAndPersistent | frontend/src/store/authStore.js:52-55 | logging out twice equals logging out once, and a reload afterwards is neither authenticated nor admin |
| AuthStore.FailedLoginStaysAnonymous | frontend/src/store/authStore.js:34-47 | a failed login leaves an anonymous visitor anonymous, not admin, with storage untouched |
| UseAuth.HookStricterThanStore | frontend/src/hooks/useAuth.js:56 | the hook's authentication implies the store's, and the empty token separates them |
| UseAuth.HandleLogin | frontend/src/hooks/useAuth.js:34-44 | navigates to "/" iff the login succeeded; a failure is swallowed and the session kept |
| UseAuth.HandleRegister | frontend/src/hooks/useAuth.js:22-32 | navigates to "/" iff the registration succeeded |
| UseAuth.HandleLogout | frontend/src/hooks/useAuth.js:46-49 | always logs out and goes to "/login", leaving neither flag set |
| Routes.ProtectedRoute | frontend/src/components/ProtectedRoute.jsx:8-16 | renders iff authenticated, else redirects to "/login" |
| Routes.AdminRoute | frontend/src/components/ProtectedRoute.jsx:21-33 | "/login" when unauthenticated whatever the admin flag, "/" for signed-in non-admins, renders iff authenticated and admin |
| Routes.AdminRouteOutcomes | frontend/src/components/ProtectedRoute.jsx:21-33 | exactly one of the three outcomes, and the admin page renders only where the protected page would |
| SweetCard.CardOffersOneWayToBuy | frontend/src/components/SweetCard.jsx:57-81 | never both purchase controls and the hint; neither when out of stock; one of them for any non-admin while in stock; an editor is never offered purchase |
| SweetCard.CardFollowsSession | frontend/src/components/SweetCard.jsx:48-81 | a signed-in admin may edit and cannot buy; a non-admin cannot edit; after logout nobody may edit or buy and an in-stock item shows the login hint |
| SweetCard.ClampQuantity | frontend/src/components/SweetCard.jsx:66 | never above the stock; NaN and 0 become 1; any other parsed number is kept up to the stock |
| SweetCard.ClampedQuantityRange | frontend/src/components/SweetCard.jsx:66 | for a positive stock, sane input gives 1..stock, and a negative entry passes through unchanged |
| SweetCard.HandlePurchase | frontend/src/components/SweetCard.jsx:13-20 | a successful purchase resets the picker to 1; a failed one keeps it and the cache |
| AdminPage.HandleEdit | frontend/src/pages/AdminPage.jsx:62-72 | copies the record's five fields into the form, sets `editingId` to its id and opens the form |
| AdminPage.ResetForm | frontend/src/pages/AdminPage.jsx:98-108 | all five fields empty, no id being edited, form closed, restock entries kept |
| AdminPage.Payload | frontend/src/pages/AdminPage.jsx:44-54 | text fields sent verbatim, price and quantity parsed, `NaN` as null |
| AdminPage.HandleSubmit | frontend/src/pages/AdminPage.jsx:40-60 | update with `editingId` when one is set and non-zero, add otherwise; the form resets only on success |
| AdminPage.EditThenSubmitSendsRecord | frontend/src/pages/AdminPage.jsx:40-72 | editing a record and submitting untouched sends that record's own fields under its id |
| AdminPage.HandleRestock | frontend/src/pages/AdminPage.jsx:84-96 | an absent, empty or non-positive entry only alerts; otherwise it restocks with the parsed entry, empties that entry on success and keeps it on failure |
| AdminPage.RestockClearsOnlyItsEntry | frontend/src/pages/AdminPage.jsx:84-96 | a successful restock empties only its own entry, so repeating the click is refused locally |
| HomePage.SearchParams | frontend/src/pages/HomePage.jsx:22-30 | a key iff its input is non-empty; names verbatim, prices parsed |
| HomePage.QueryArgs | frontend/src/pages/HomePage.jsx:24-33 | an absent key is a null search argument; a `NaN` price gives no argument list |
| HomePage.InputsReachServer | frontend/src/pages/HomePage.jsx:24-33 | each filled input reaches the endpoint as that filter and each empty one as none |
| HomePage.EmptySearchListsEverything | frontend/src/pages/HomePage.jsx:24-33 | with all inputs empty the query is `{}` and the server answers with every record, as the list endpoint does |
| HomePage.HandleSearch | frontend/src/pages/HomePage.jsx:22-37 | the store searches with the built query and the inputs stay as typed |
| HomePage.HandleClearSearch | frontend/src/pages/HomePage.jsx:39-42 | all four inputs become empty and the full list is fetched |
| HomePage.ClearedFormSearchesUnfiltered | frontend/src/pages/HomePage.jsx:22-42 | searching right after clearing sends no filter |
| Composition.ClientPurchase | frontend/src/store/sweetStore.js:118-131 | the store's purchase settles on exactly the controller's answer to the same quantity |
| Composition.PurchaseWithinStock | backend/src/main/java/com/sweetshop/controller/SweetController.java:154-166 | buying at most the stock lowers it on the server by q, and every cached copy shows the new stock while other entries stay |
| Composition.PurchaseBeyondStock | backend/src/main/java/com/sweetshop/entity/Sweet.java:62-63 | buying more than the stock changes neither side and the cache records "Insufficient quantity available" |
| Composition.PurchaseOfUnknownId | backend/src/main/java/com/sweetshop/service/SweetService.java:57-60 | an unknown id is reported with "Sweet not found with id: <id>" and changes nothing |
| Composition.RefusedPurchaseFallsBack | backend/src/main/java/com/sweetshop/controller/SweetController.java:157-161 | a quantity below 1 or an unauthenticated caller gets a body without `error`, so the cache records "Failed to purchase sweet" |

## Left out

- Order of lists: the table and every list the server sends are maps keyed by
  id, because the queries have no `ORDER BY`. The client cache keeps
  whatever order the server sent.
- SweetRepository.NameMatches: `ILIKE` wildcards (`%`, `_`) inside the search
  term, and case folding beyond ASCII A-Z, are not modelled. The term is
  treated as literal text.
- Dto.NameViolations: lengths are counted in characters of the model's
  strings, not UTF-16 units.
- Dto.DescriptionViolations: the same; the 500-character bound is counted
  in characters of the model's strings, not UTF-16 units.
- SweetService.AddSweet: the service builds entities from any request it is
  given; the model requires every field to be present. The controller only
  calls it after validation, which guarantees that.
- SweetService.UpdateSweet: the same precondition as `AddSweet`, for the same
  reason.
- SweetController.RestockSweet: the body is a validated `RestockRequest`,
  whose constraints are not part of this model. The 200-iff holds only for
  quantities that request accepts; a missing (null) quantity is out of
  scope, and whether a negative quantity is refused is left open.
- `UserRegistrationRequest` is not part of this model; registration
  requests are taken as given.
- GlobalExceptionHandler.ErrorsMap: when one field fails two constraints, the
  message kept depends on the order in which the validator reports them. The
  model keeps the last one in its own order and proves only that the kept
  message is one of that field's.
- Identifiers are unbounded integers, not 64-bit `Long` values. Creation and
  update timestamps are not modelled.
- Tokens, JWT signing and expiry, the security filter chain, and the 403 it
  produces for anonymous requests are not modelled. The caller arrives as an
  optional `Authentication`.
- The password encoder and the JSON codec are parameters (`encode`/`matches`,
  `stringify`/`parse`). A corrupt stored user is whatever `parse` returns;
  the exception `JSON.parse` would throw is not modelled.
- `getUserById` and the user table's numeric ids are not modelled. Users are
  keyed by username.
- Request routing, JSON (de)serialisation and the axios/fetch plumbing are not
  modelled. Each server call is the controller function or an explicit
  outcome argument.
- Numbers that do not fit a Java `int` are not modelled: the server refuses to
  bind them. The client's parsers therefore yield `Int32` quantities.
- `parseFloat`, `parseInt` and `Number` are parameters; floating-point
  rounding is not modelled, and prices are exact `real`s.
- Concurrency between in-flight calls is not modelled: each store operation
  is one atomic transition from start to settlement.
- Rendering, alerts' wording beyond success/failure, confirmation dialogs and
  the admin page's redirect effect are not modelled.
