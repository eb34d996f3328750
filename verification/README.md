# Store rating system — a verified model

The system is a store-rating web application. Its three account kinds are:

- administrators, who create users and stores and list them;
- normal users, who rate stores from 1 to 5;
- store owners, who see their store's ratings and average.

The backend is an Express service over three tables: users, stores and ratings. The frontend is a React client that keeps the session, guards pages by role and offers a password-change form.

This project models the part of the system that carries its rules:

- the input validators;
- the token gate and the role gate;
- the account routes: signup, login and password change;
- the administrator's routes: create, list and look up users and stores;
- the normal user's routes: rate a store, change a rating, list stores with the caller's rating, list the caller's ratings;
- the store owner's dashboard and ratings listing;
- the table constraints, which every writing route keeps. In particular, every store's `averageRating` always equals the rounded mean of its ratings;
- on the client:
  - the session reducer and the session restore at start-up;
  - the route guard and the navigation bar's dashboard link;
  - the password-change form.

How the model is built:

- **Tables.** The tables are sequences inside the class `Database.Db`. Each table has an id counter standing in for `autoIncrement`.
- **Database invariant.** `Db.Valid()` is the database invariant:
  - every column rule holds;
  - primary keys and emails are unique;
  - both foreign keys of every rating resolve;
  - no user rates a store twice;
  - every store's average is exact.
- **Average.** The average is held in integer tenths: 37 is 3.7. A store without ratings has 0.
- **Handlers.** A route handler is a method on `Db` when it writes, and a function when it only reads.
- **Replies.** A reply is `Ok(status, body)` or `Err(status, error)`, with the source's status codes and messages.
- **Password hashes** are the value `Bcrypt(salt, secret)`, and comparison succeeds only on the same secret.
- **Tokens** are the value `Jwt(claims, issuedAt, expiresAt, key)`. They verify with their own key until 24 hours after issue.
- **Module layout.** The modules follow the source files:

| module | models |
|---|---|
| `Validation` | backend/utils/validation.js |
| `AuthMiddleware` | backend/middleware/auth.js |
| `Schema`, `Database` | backend/models/*.js and the tables |
| `UserRoutes`, `AdminRoutes`, `StoreRoutes`, `AuthRoutes` | backend/routes/*.js |
| `AuthContext` | frontend/src/contexts/AuthContext.js |
| `ProtectedRoute` | frontend/src/components/ProtectedRoute.js and the route table of frontend/src/App.js |
| `Navbar` | frontend/src/components/Navbar.js and the redirect in frontend/src/components/Login.js |
| `ChangePasswordForm` | frontend/src/components/ChangePassword.js |

Shared pieces:

- `Aggregate` holds the per-store sum and the rounded mean.
- `Listing` holds the search filter and the pagination.
- `Credentials` models bcrypt and `Tokens` models signing.
- `Text` models `split` and case folding.

## Model

| member | source | states |
|---|---|---|
| `Validation.ValidateName` | backend/utils/validation.js:1-6 | accepts exactly the names of 20 to 60 characters; every other name, the empty one included, gets the one length message |
| `Validation.EmailMatcherCorrect` | backend/utils/validation.js:9 | the left-to-right matcher for `^[^\s@]+@[^\s@]+\.[^\s@]+$` accepts exactly the strings described by `EmailShaped`: a non-empty local part, one `@`, no white space or other `@`, and a dot that is neither the first nor the last character of the domain |
| `Validation.ValidateEmail` | backend/utils/validation.js:8-14 | returns no message exactly for email-shaped strings, and the email message otherwise |
| `Validation.ValidatePassword` | backend/utils/validation.js:16-33 | accepts exactly the passwords of 8 to 16 characters with an upper-case letter and a special character. The length message comes first even when the others would also fail, and the upper-case message comes before the special-character one |
| `Validation.ValidateAddress` | backend/utils/validation.js:35-40 | accepts exactly the addresses of 1 to 400 characters. `validateAddress` tests `!address`, so the empty address is refused with the "must not exceed 400 characters" message, the same one a long address gets |
| `Validation.ParseIntText` | backend/utils/validation.js:43 | `parseInt` of blank text is `NaN`; text whose first non-blank character is neither a digit nor a sign is `NaN`; text starting with a digit from 1 to 9 reads as a number that is not negative; a negative reading needs a leading `-` |
| `Validation.ValidateRating` | backend/utils/validation.js:42-48 | accepts exactly the values whose `parseInt` reading is an integer from 1 to 5 |
| `Validation.NumberRatingAccepted` | backend/utils/validation.js:43-44 | a numeric rating is accepted exactly when it lies in [1, 6): 3.9 counts as 3, and 0 and 6 are refused |
| `Validation.TextRatingPrefix` | backend/utils/validation.js:43-44 | a text rating of a digit from 1 to 5 followed by a non-digit, such as `"3.9"` or `"3"`, reads as that digit and is accepted |
| `Validation.AccountFieldsError` | backend/routes/admin.js:34-44 | the account checks run name, email, password, address, and the first failure's message is the one returned; no message exactly when all four fields are acceptable |
| `AuthMiddleware.BearerToken` | backend/middleware/auth.js:6 | no header gives no token, and a token taken from the header never contains a space |
| `AuthMiddleware.BearerRoundTrip` | backend/middleware/auth.js:5-6 | a header `Bearer <token>` with no space in the token yields the token back as the second space-separated field |
| `AuthMiddleware.NoSpaceNoToken` | backend/middleware/auth.js:5-10 | a header without a space has no second field, so no token |
| `AuthMiddleware.Request.constructor` | backend/middleware/auth.js:4-6 | a request starts with no caller row and no caller kind |
| `AuthMiddleware.AuthenticateToken` | backend/middleware/auth.js:4-37 | a missing token gives 401. A failed verification or an unknown id gives 403 `Invalid token`, and any type other than user or store gives 403 `Invalid token type`. A user or store claim whose id exists stores that row and the same kind on the request and passes on; a refusal leaves the request untouched |
| `AuthMiddleware.RequireRole` | backend/middleware/auth.js:39-49 | a refusal is always 403 `Insufficient permissions`; a request with no caller kind is refused; a store passes exactly when `store_owner` is allowed; a user passes exactly when its own role is allowed |
| `AuthMiddleware.RequireRoleIsMembership` | backend/middleware/auth.js:39-49 | for an admitted caller the gate passes exactly when its effective role is in the allowed set (a user's own role; `store_owner` for a store, whatever its columns), and otherwise answers 403 `Insufficient permissions` |
| `AuthMiddleware.GatesAreDisjoint` | backend/middleware/auth.js:41-47 | each caller passes exactly one of the three routers' gates: an administrator is refused by the user router, a store by the admin and user routers, a normal user by the admin router |
| `Schema.ParseRole` | backend/models/User.js:34-38 | only the three enumeration names read back as roles, and a role's name reads back as that role |
| `Schema.PairIndexUnique` | backend/models/Rating.js:35-40 | with the unique (userId, storeId) index, the lookup of a pair finds the one row holding it |
| `Schema.UserIndexUnique` | backend/models/User.js:3-7 | with unique primary keys, looking up a row's id finds that row |
| `Schema.StoreIndexUnique` | backend/models/Store.js:3-7 | with unique primary keys, looking up a store's id finds that store |
| `Aggregate.RatingsOfStoreMembers` | backend/routes/user.js:93 | the store's ratings are exactly the ratings that name the store |
| `Aggregate.RatingsOfStoreCount` | backend/routes/store.js:12-15 | the number of a store's ratings is the number of rows whose storeId is the store's id |
| `Aggregate.SumBounds` | backend/models/Rating.js:24-31 | the sum of n valid ratings lies between n and 5n |
| `Aggregate.RoundTenths` | backend/routes/user.js:94-97 | the stored average is the mean rounded half-up to one decimal: within half a tenth of sum/count |
| `Aggregate.RoundedMeanInRange` | backend/models/Store.js:34-41 | a rounded mean of ratings from 1 to 5 lies between 1.0 and 5.0 |
| `Aggregate.MeanInRange` | backend/models/Store.js:34-41 | a store's average always lies in [0, 5], and in [1, 5] once it has a rating |
| `Aggregate.RatingsOfAbsentStore` | backend/models/Store.js:34-37 | a store no rating names has no rows and average 0, the column's default |
| `Aggregate.RatingsOfStoreAppend` | backend/routes/user.js:86-93 | creating a rating extends the rows of its store only |
| `Aggregate.RatingsOfStoreUpdateOther` | backend/routes/user.js:84 | changing a rating leaves every other store's rows unchanged |
| `Aggregate.RatingsOfStoreUpdateSame` | backend/routes/user.js:84 | changing a rating keeps the number of its store's rows and changes only that row's value |
| `Credentials.CompareHash` | backend/routes/auth.js:31 | a password matches its own hash, and no other password matches it |
| `Tokens.SignThenVerify` | backend/routes/auth.js:41-45 | a signed token verifies with its key, returning exactly the signed claims, for 24 hours after issue and never after; it never verifies with another key |
| `Tokens.UserClaims` | backend/routes/auth.js:42 | a user's token claims are its id, email and role, with type `user` |
| `Tokens.StoreClaims` | backend/routes/auth.js:96 | a store's token claims are its id and email, with type `store` and no role |
| `Database.AddUserKeepsTables` | backend/models/User.js:1-45 | appending a valid user with the next id and a fresh email keeps every table's constraints and every average exact |
| `Database.AddStoreKeepsTables` | backend/models/Store.js:1-48 | appending a valid store with the next id, a fresh email and average 0 keeps every table's constraints and every average exact |
| `Database.NewUserPasswordKeepsTables` | backend/routes/auth.js:138-139 | replacing a user's password hash keeps every table's constraints |
| `Database.NewStorePasswordKeepsTables` | backend/routes/auth.js:140-141 | replacing a store's password hash keeps every table's constraints |
| `Database.WithUserPassword` | backend/routes/auth.js:139 | `User.update` by id: rows with that id take the new hash, and every other column and row is unchanged |
| `Database.WithStorePassword` | backend/routes/auth.js:141 | `Store.update` by id: rows with that id take the new hash, and every other column and row is unchanged |
| `Database.Db.constructor` | backend/models/index.js:1-24 | the database starts with three empty tables and every id counter at 1 |
| `Database.Db.AddUser` | backend/routes/admin.js:57-63 | `User.create` appends exactly the new row with the next id, advances the counter, keeps the invariant and changes nothing else |
| `Database.Db.AddStore` | backend/routes/admin.js:104-109 | `Store.create` appends the new row with the next id and average 0, advances the counter, keeps the invariant and changes nothing else |
| `Database.Db.SetUserPassword` | backend/routes/auth.js:139 | the users table becomes `WithUserPassword` of the old one; the invariant holds and nothing else changes |
| `Database.Db.SetStorePassword` | backend/routes/auth.js:141 | the stores table becomes `WithStorePassword` of the old one; the invariant holds and nothing else changes |
| `Listing.Search` | backend/routes/admin.js:131-141 | the filter keeps no more rows than it is given, and every kept row contains the search text in one of its searched columns |
| `Listing.SearchMembers` | backend/routes/admin.js:131-141 | the search keeps exactly the rows that contain the search text in one of the searched columns, ignoring case |
| `Text.FoldedSearchIsCaseBlind` | backend/routes/admin.js:135-138 | the `iLike` test asks the same question of the text and of its lower-cased form: case does not matter |
| `Listing.EmptySearchKeepsAll` | backend/routes/admin.js:132 | an empty search applies no filter |
| `Listing.CeilDiv` | backend/routes/admin.js:156 | `Math.ceil(count / limit)`: the least number of pages of `limit` rows that holds all the rows |
| `Listing.PageOf` | backend/routes/admin.js:143-148 | page p holds at most `limit` rows, namely the rows from offset (p-1)·limit in order, and is empty past the last row |
| `Listing.Paginate` | backend/routes/admin.js:143-157 | the reply counts the matches before the page cut, echoes the page and reports the page count. Page 0 gives a negative offset, which the database refuses: 500 |
| `Listing.RowOnItsPage` | backend/routes/admin.js:143-156 | every row appears on page k/limit+1, which is within the reported page count |
| `Listing.RowOnOnePage` | backend/routes/admin.js:143-148 | a row appears on no other page and at no other position |
| `Listing.PastLastPageEmpty` | backend/routes/admin.js:143-156 | pages past the reported page count are empty |
| `Listing.TwentyFiveRows` | backend/routes/admin.js:143-156 | 25 matches at 10 a page make three pages of 10, 10 and 5 rows, and an empty fourth page |
| `UserRoutes.StatusOf` | backend/routes/user.js:63-108 | a rating reply is 200 exactly when the rating was submitted or updated |
| `UserRoutes.SumRatings` | backend/routes/user.js:94 | the loop's total is the sum of the store's ratings |
| `UserRoutes.AverageOf` | backend/routes/user.js:93-97 | the recomputed value is the rounded mean of the store's ratings |
| `UserRoutes.Refreshed` | backend/routes/user.js:96-99 | `Store.update` of the average changes that store's average only |
| `UserRoutes.RefreshKeepsAverages` | backend/routes/user.js:93-99 | after a write, storing the recomputed average makes every average exact again |
| `UserRoutes.RefreshKeepsStoreTable` | backend/routes/user.js:96-99 | storing an average from 1.0 to 5.0 keeps the stores table's constraints |
| `UserRoutes.RatingTableRekeyed` | backend/routes/user.js:84 | changing a rating's value to 1..5 keeps the ratings table's constraints |
| `UserRoutes.RatingTableExtended` | backend/routes/user.js:86-90 | a new rating for an unrated pair with existing user and store keeps the ratings table's constraints |
| `UserRoutes.UpdateKeepsTables` | backend/routes/user.js:84-99 | changing a rating and refreshing its store's average keeps the whole database invariant |
| `UserRoutes.InsertKeepsTables` | backend/routes/user.js:86-99 | creating a rating and refreshing its store's average keeps the whole database invariant |
| `UserRoutes.CreateRating` | backend/routes/user.js:86-99 | appends exactly the new rating with the next id. The store's average becomes the rounded mean, which is in [1, 5]; users and other stores are unchanged and the invariant holds |
| `UserRoutes.ChangeRating` | backend/routes/user.js:84-99 | changes only the value of the one rating. The store's average becomes the rounded mean, in [1, 5]; users and other stores are unchanged and the invariant holds |
| `UserRoutes.UpsertRating` | backend/routes/user.js:79-99 | updates the caller's rating of the store in place when there is one, and creates one otherwise, so a pair never has two rows. It reports which it did |
| `UserRoutes.FieldsPresent` | backend/routes/user.js:67 | the test that refuses a falsy `storeId` or `rating`: the fields count as present only with a non-zero store id; a missing rating, a rating of 0 and an empty rating string are missing; a non-zero number with a non-zero store id is present |
| `UserRoutes.SubmitRating` | backend/routes/user.js:63-108 | POST /ratings, in order: a missing store id or falsy rating gives 400, a rating outside 1..5 gives 400, an unknown store gives 404, and none of these writes anything. Otherwise the reply says "updated" exactly when the caller had rated the store and "submitted" when it had not, the row is updated or appended, and the store's average is the rounded mean |
| `UserRoutes.UpdateRating` | backend/routes/user.js:110-145 | PUT /ratings/:storeId: a falsy rating gives 400, an invalid one gives 400, and no existing rating gives 404, with no create branch and nothing written. Otherwise only that row's value changes, and the store's average is the rounded mean |
| `UserRoutes.CardOf` | backend/routes/user.js:43-49 | a listed store shows its id, name, address and average, and the caller's own rating of it, or nothing when the caller has not rated it |
| `UserRoutes.CardsOf` | backend/routes/user.js:43-49 | every store on the page becomes its card, in order |
| `UserRoutes.ListStoresForUser` | backend/routes/user.js:12-61 | GET /stores searches name and address only, counts the matches, reports `ceil(count/limit)` pages and lists the whole window: `min(limit, count - offset)` items from offset (page-1)·limit, none past the last match, each store with the caller's rating |
| `UserRoutes.UserRatingIsOwnRating` | backend/routes/user.js:48 | with the unique pair index, the rating shown is the caller's one rating of that store |
| `UserRoutes.RatedStoreOf` | backend/routes/user.js:151-156 | the store joined to a rating is found exactly when that store exists, and carries its id, name and address |
| `UserRoutes.OwnRatings` | backend/routes/user.js:149-150 | the `where: { userId }` filter keeps no more rows than the table holds, and only the caller's |
| `UserRoutes.OwnRatingsMembers` | backend/routes/user.js:149-150 | GET /my-ratings lists exactly the caller's ratings |
| `UserRoutes.MyRatings` | backend/routes/user.js:147-164 | each listed rating is the caller's own, in table order, joined with its store |
| `UserRoutes.MyRatingsJoined` | backend/routes/user.js:151-156 | under the store foreign key, every listed rating comes with its store |
| `AdminRoutes.AssignableRole` | backend/routes/admin.js:46-48 | the administrator may assign only `system_admin` and `normal_user`; `store_owner` and every other text is refused |
| `AdminRoutes.CreateUser` | backend/routes/admin.js:30-79 | POST /users, in order: the field checks, then the role allow-list, then the unique email. The first failure answers 400 with its message and writes nothing. Otherwise one user is created with the hashed password and the given role, and the 201 reply describes it without a password |
| `AdminRoutes.CreateStore` | backend/routes/admin.js:81-125 | POST /stores: the field checks, then the unique email, first failure 400 with nothing written. Otherwise one store is created with the hashed password and average 0, and the 201 reply omits the password |
| `AdminRoutes.UserViews` | backend/routes/admin.js:149 | each listed user shows id, name, email, address and role, and never a password |
| `AdminRoutes.StoreViews` | backend/routes/admin.js:185 | each listed store shows id, name, email, address and average, and never a password |
| `AdminRoutes.ListUsers` | backend/routes/admin.js:127-162 | GET /users: page 0 gives 500. Otherwise the reply counts all matches, reports `ceil(count/limit)` pages and holds the whole window: `min(limit, count - offset)` items from offset (page-1)·limit, none past the last match, as views without the password |
| `AdminRoutes.ListUsersAsWritten` | backend/routes/admin.js:131-141 | the query as written: any non-empty search fails with 500, and an empty search lists like `AdminRoutes.ListUsers` |
| `AdminRoutes.UserSearchAsWrittenFails` | backend/routes/admin.js:131-141 | on every valid page and every non-empty search the query as written answers 500 where the intended search lists the matches |
| `AdminRoutes.ListStores` | backend/routes/admin.js:164-198 | GET /stores: page 0 gives 500. Otherwise the stores matching on name, email or address are counted, `ceil(count/limit)` pages reported, and the page holds the whole window: `min(limit, count - offset)` items from offset (page-1)·limit, none past the last match |
| `AdminRoutes.ListedUsersMatch` | backend/routes/admin.js:131-141 | every listed user is a user whose name, email, address or role contains the search text, ignoring case |
| `AdminRoutes.EveryUserListed` | backend/routes/admin.js:143-157 | for any search, match `k` is item `k % limit` of page `k / limit + 1`, a page within the reported count |
| `AdminRoutes.MatchingUserListed` | backend/routes/admin.js:131-157 | every user of the table that matches the search, and with no search every user, appears on some page of the listing |
| `AdminRoutes.GetUser` | backend/routes/admin.js:200-216 | GET /users/:id gives 404 `User not found` exactly when no user has the id; otherwise it gives 200 with that user's view, with no password |
| `AdminRoutes.GetStore` | backend/routes/admin.js:218-234 | GET /stores/:id gives 404 `Store not found` exactly when no store has the id; otherwise it gives 200 with that store's view |
| `AdminRoutes.CreatedUserFound` | backend/routes/admin.js:200-211 | a user just created under the next id is found by that id |
| `StoreRoutes.ViewOf` | backend/routes/store.js:31-40 | a rating is shown with its id, value and date and its rater's id, name and email; the join fails exactly when the rater is missing |
| `StoreRoutes.ViewsOf` | backend/routes/store.js:31-40 | the rows are shown in order when every rater exists |
| `StoreRoutes.StoreDashboard` | backend/routes/store.js:10-46 | GET /dashboard counts and shows the store's own ratings only. Its average is `Aggregate.MeanTenths` of the store's ratings: the mean rounded to tenths, or 0 with no ratings. It fails with 500 exactly when a rater is missing |
| `StoreRoutes.DashboardCountsOwnRatings` | backend/routes/store.js:12-30 | `totalRatings` is the number of rows whose storeId is the caller's, and every shown rating is one of them |
| `StoreRoutes.DashboardShowsStoredAverage` | backend/routes/store.js:24-26 | on a consistent database the dashboard's average equals the store's stored `averageRating`: 0 with no ratings, between 1.0 and 5.0 otherwise |
| `StoreRoutes.RatingsQueryOf` | backend/routes/store.js:50 | the listing's defaults are sort `createdAt`, order DESC, page 1, limit 10 |
| `StoreRoutes.DefaultRatingsPage` | backend/routes/store.js:50-53 | with no query parameters the listing answers page 1 with at most 10 of the store's ratings |
| `StoreRoutes.RatingsPage` | backend/routes/store.js:48-86 | GET /ratings lists only the store's own ratings, paginated as the whole window: `min(limit, count - offset)` items from offset (page-1)·limit, none past the last match, each with its rater. It counts all of them and reports `ceil(count/limit)` pages |
| `StoreRoutes.RatingsPageOnlyOwn` | backend/routes/store.js:54-55 | on a consistent database the listing succeeds for every page from 1, and every rating it shows belongs to the caller's store |
| `AuthRoutes.Signup` | backend/routes/auth.js:10-61 | the field checks in order, then the unique email (400 `Email already registered`); a failure writes nothing. Otherwise a `normal_user` is created whatever the body says, and the 201 reply carries a 24-hour user token for it |
| `AuthRoutes.Login` | backend/routes/auth.js:63-118 | a missing email, password or type gives 400. For users and stores, an unknown email and a wrong password both give the same 400 `Invalid credentials`. Any other type gives 400 `Invalid user type`. Success signs the kind's claims and reports the role, or `store_owner` for a store |
| `AuthRoutes.LoginTokenOpensGate` | backend/middleware/auth.js:4-49 | a login's token, presented within 24 hours, verifies to claims that the gate resolves to the very row that logged in, and the role gate then passes exactly the allowed roles |
| `AuthRoutes.ChangePassword` | backend/routes/auth.js:120-149 | the checks run in order: both fields required, then the new password's rule, then the current password. Only then is the hash replaced, in the table the caller's kind names, for the caller's id only |
| `AuthRoutes.NewPasswordLogsIn` | backend/routes/auth.js:136-139 | after a password change the new password logs in and any other password is refused |
| `AuthContext.InitialState` | frontend/src/contexts/AuthContext.js:47-53 | the client starts signed out, with no user, loading and no error, holding the stored token |
| `AuthContext.Reduce` | frontend/src/contexts/AuthContext.js:6-45 | LOGIN signs in with the given user and token and clears loading and error. LOGOUT clears everything. SET_LOADING changes only loading, SET_ERROR sets the error and stops loading, CLEAR_ERROR clears only the error, and any other action changes nothing |
| `AuthContext.ReduceKeepsCoherent` | frontend/src/contexts/AuthContext.js:6-53 | the initial state is coherent (signed in means a user and a token; signed out means no user), and every action keeps it so |
| `AuthContext.ReduceIdempotent` | frontend/src/contexts/AuthContext.js:6-45 | dispatching an action twice gives the state of dispatching it once |
| `AuthContext.ReduceAllKeepsCoherent` | frontend/src/contexts/AuthContext.js:6-45 | no run of dispatches breaks coherence |
| `AuthContext.ErrorMessage` | frontend/src/contexts/AuthContext.js:89 | a failure shows the server's error text when it has one, and the fallback message otherwise |
| `AuthContext.SignInActions` | frontend/src/contexts/AuthContext.js:68-115 | login and signup dispatch three actions: loading on, clear the error, then LOGIN with the reply's user and token exactly on success (an error otherwise); they never log out |
| `AuthContext.SignInSettles` | frontend/src/contexts/AuthContext.js:68-115 | login and signup always end loading. Success signs in with exactly the reply's user and token; failure shows its message and keeps the session |
| `AuthContext.ChangePasswordResult` | frontend/src/contexts/AuthContext.js:122-139 | the form is told of success exactly when the request succeeded, and otherwise of the failure's message |
| `AuthContext.ChangePasswordActions` | frontend/src/contexts/AuthContext.js:122-139 | a password change dispatches three actions: loading on, clear the error, then loading off exactly on success (an error otherwise); it never logs in or out |
| `AuthContext.ChangePasswordSettles` | frontend/src/contexts/AuthContext.js:122-139 | a password change ends loading, never touches the session, and leaves in the state the error it hands the form |
| `AuthContext.RestoredUser` | frontend/src/contexts/AuthContext.js:151-156 | a session rebuilt from a token takes the token's id, email and type, has no name, and has role `store_owner` when the token has none |
| `AuthContext.RestoreAction` | frontend/src/contexts/AuthContext.js:141-168 | with no stored token the effect only ends loading. An unreadable or expired token (exp·1000 not after now) logs out, and an unexpired one logs in with the rebuilt user |
| `AuthContext.RestoreEndsLoading` | frontend/src/contexts/AuthContext.js:141-168 | after the effect the client is never loading. It is signed in exactly when the stored token decodes and has not expired, then with the rebuilt user; a rejected token is dropped |
| `ProtectedRoute.EffectiveRole` | frontend/src/components/ProtectedRoute.js:16 | the role a page is checked against is the signed-in user's own role for a `user` session, and `store_owner` for a store session or no user |
| `ProtectedRoute.Guard` | frontend/src/components/ProtectedRoute.js:5-23 | while loading it shows the placeholder, and signed out it redirects to `/login`. It renders the page exactly when loaded, signed in and either no role is required or the required role equals the effective role (the user's role for a `user` session, otherwise `store_owner`); every redirect goes to `/login` |
| `ProtectedRoute.RouteRole` | frontend/src/App.js:22-45 | exactly `/admin`, `/dashboard` and `/store` are guarded, by `system_admin`, `normal_user` and `store_owner` |
| `ProtectedRoute.DashboardsExclusive` | frontend/src/components/ProtectedRoute.js:16-20 | a signed-in session opens a dashboard exactly when the dashboard's role is its effective role, so it opens one dashboard at most; there is no hierarchy |
| `Navbar.DashboardPath` | frontend/src/components/Navbar.js:8-15 | no user maps to `/`; a `user` session maps to `/admin` for `system_admin` and to `/dashboard` otherwise; any other session maps to `/store` |
| `Navbar.LoginRedirect` | frontend/src/components/Login.js:16-28 | after login the client goes to `/admin`, `/dashboard` or `/store`: `/admin` exactly for a system administrator, `/store` exactly for a store session |
| `Navbar.NavbarAgreesWithLogin` | frontend/src/components/Login.js:16-28 | the dashboard link and the login screen's redirect lead to the same page |
| `Navbar.DashboardPathPassesGuard` | frontend/src/components/Navbar.js:8-15 | for every loaded session whose user names its kind (a store, or a `user` with role `system_admin` or `normal_user`), the link leads to a guarded page the guard renders. A signup session names no kind; see Findings |
| `Navbar.PayloadOf` | frontend/src/contexts/AuthContext.js:145 | the client reads a server token's id, type, expiry and role name from its claims |
| `Navbar.ClientUserOf` | frontend/src/contexts/AuthContext.js:101-107 | the client keeps the reply's id, name, email and role name; its user type is `"user"` exactly when the reply says `userType: "user"`, so a reply without the field is not a user session |
| `Navbar.SignedIn` | frontend/src/contexts/AuthContext.js:68-115 | after a successful login or signup the client is signed in, loaded, without error, with the reply's user and token |
| `Navbar.SignupSessionTakenForStore` | backend/routes/auth.js:46-55 | a signup reply (a `normal_user` account without `userType`) makes the client point the link at `/store`, refuse `/dashboard` with a redirect to `/login`, forward from the login screen to `/store`, and render the store owner's page |
| `Navbar.TypedReplyOpensDashboard` | backend/routes/auth.js:104-112 | a reply that names its user type, as the login reply does, opens its account's dashboard: the administrator's, the user's or the store's; the login screen forwards there and the guard renders it |
| `Navbar.RestoredSessionOpensDashboard` | frontend/src/contexts/AuthContext.js:141-158 | a reload within 24 hours of login restores the session from the server's token. Its dashboard link then leads to the administrator's, the user's or the store's page as the row says, and the guard renders it |
| `ChangePasswordForm.ValidFormPassesServerChecks` | frontend/src/components/ChangePassword.js:58-62 | a form the client sends passes the server's required-fields and password-rule checks |
| `ChangePasswordForm.Form.constructor` | frontend/src/components/ChangePassword.js:6-13 | the form starts with empty inputs, banners and messages |
| `ChangePasswordForm.Form.HandleChange` | frontend/src/components/ChangePassword.js:17-27 | editing stores the input, hides that input's message and keeps the others' messages, clears both banners and leaves the other inputs unchanged |
| `ChangePasswordForm.Form.ValidateForm` | frontend/src/components/ChangePassword.js:29-51 | records an empty-current message, the new password's rule message, or "must be different" when the passwords are equal (which overwrites the rule message), and a mismatch message. The form is valid exactly when no message was recorded, which is exactly the form condition |
| `ChangePasswordForm.Form.HandleSubmit` | frontend/src/components/ChangePassword.js:53-75 | sends the request exactly when the form is valid, and otherwise shows the messages and keeps the inputs. On success it clears the inputs and messages and shows the success banner; on failure it shows the returned message and keeps the inputs |

## Left out

- Sorting: the listings' `ORDER BY` on the caller's `sortBy` and `sortOrder` is not modelled. Rows are listed in table order. `StoreRoutes.RatingsQueryOf` carries the sort fields, but `StoreRoutes.RatingsPage` does not apply them.
- Search matching folds ASCII letters only. The `iLike` wildcards `%` and `_` inside the search text and the database's collation are not modelled.
- Lengths are counted in characters, not in the UTF-16 code units JavaScript counts.
- Request bodies: a field is a string, with a missing one as the empty string. Other JSON values, such as a number for a name, are not modelled. A rating may be a number or a string. A store id is an integer.
- The average is exact rounding to tenths. JavaScript `toFixed(1)` on a double can differ on ties that a double cannot represent, and the `DECIMAL(2,1)` column is held as integer tenths.
- Concurrency: every route runs alone. The read-then-write average recompute is not atomic between requests, and the model claims nothing about races.
- Sequelize's `isEmail` column check is not modelled. The email rule that rows keep is the route validators' expression.
- Timestamps: `createdAt` is a parameter and `updatedAt` is not modelled.
- The administrator's GET /dashboard only counts the three tables' rows, and is not modelled.
- I/O: `localStorage`, the axios header, `setAuthToken`, the network requests and the clock are left out. The clock and the server's replies are parameters.
- Query coercion: `page` and `limit` are naturals with `limit >= 1`. JavaScript coercion of other query text is not modelled.
- `parseInt` is modelled with leading white space, sign, the `0x` prefix and the digit prefix. Exponent and other number formats of a numeric JSON value are not modelled.
- `Validation.NumberRatingAccepted` holds for numbers JavaScript writes in decimal. A number written in exponent form is read by `parseInt` from its text: `5e-7` reads as 5 and `1e21` as 1, so the code accepts both, and the model, which truncates the number, refuses them.
- A path id that is not a number, which makes the database fail with 500, is not modelled.
- The user search as written applies `iLike` to the role column (backend/routes/admin.js:138), whose type is an enumeration (backend/models/User.js:35). PostgreSQL has no `ILIKE` on an enumeration without a cast, so a non-empty search very likely fails with 500. `AdminRoutes.ListUsers` follows the evident intent and matches the role's name text; see Findings.
- Tokens are values: the compact string form, base64 and signature bytes are not modelled. The client reads claims through a `decode` parameter.
- bcrypt's salting rounds and hash format are not modelled: a hash is the pair of salt and secret.
- `Credentials.CompareHash` and `AuthRoutes.NewPasswordLogsIn` treat the whole password as compared. bcrypt compares only the first 72 bytes, so two passwords sharing those bytes match the same hash. The password rule allows at most 16 characters, so no password the routes accept reaches the cut-off.
- React rendering, `useEffect` and `useState` wiring, and the other frontend screens are left out.
- frontend/src/utils/validation.js is not part of this model. The password-change form checks the new password with the server's rule from backend/utils/validation.js.
- `AuthRoutes.ChangePassword` takes the caller's kind and row as `authenticateToken` leaves them. The model does not tie the two, which the middleware does.
- `Navbar.DashboardPathPassesGuard` requires that a `user` session's role is `system_admin` or `normal_user`. A user row holding `store_owner` is allowed by the column but cannot be created by any route. It would be sent to `/dashboard` and redirected to `/login`.
- Server errors (500) other than the negative offset and the missing join, such as database outages, are not modelled.

## Findings

| source | as written | input that shows it | evidently intended | confidence | as-written member | corrected member |
|---|---|---|---|---|---|---|
| backend/routes/admin.js:131-141 | the search puts `iLike` on the role column, an enumeration (backend/models/User.js:35), which PostgreSQL cannot compare with `ILIKE` without a cast | GET /users?search=a with page 1: the query fails and the reply is 500 | the search also matches the role's name, and the page of matching users is listed | medium, not executed | `AdminRoutes.UserSearchAsWrittenFails` | `AdminRoutes.ListUsers` |
| backend/routes/auth.js:46-55 | the signup reply's `user` has no `userType`, unlike the login reply (backend/routes/auth.js:104-112); the client stores it as it is (frontend/src/contexts/AuthContext.js:101-107) and reads a missing `userType` as a store session (frontend/src/components/ProtectedRoute.js:16) | a successful signup: the signup screen navigates to `/dashboard` (frontend/src/components/Signup.js:21), the guard redirects to `/login`, and the login screen forwards to `/store`, which renders for the normal user | the reply carries `userType: "user"`, so a new user lands on the user dashboard at once, as after a reload | high, not executed | `Navbar.SignupSessionTakenForStore` | `Navbar.TypedReplyOpensDashboard` |
