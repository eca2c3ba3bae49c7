# Nutrility request handlers in Dafny

Nutrility is a small nutrition-tracking web service. A user registers and logs in. A meal's
nutrient breakdown goes in and a "nutrition density" score comes back from a pretrained
regression model. The user can list their meal history.

This project models the service's request handlers on an in-memory store. The store holds a
`users` table and a `meal_history` table:

- `predict_meal`: resolves who is calling, builds the model's 28-entry feature vector, calls the
  model, and appends one row.
- `get_meals`: lists the rows owned by the caller.
- `register`: inserts a user, refusing a taken username.
- `login`: checks a password and issues a token.
- The request and response schemas, with their defaults, and the table shapes with their
  constraints.

Anything the handlers call but do not define is a function-typed field of `Collaborators.Env`.
This covers password hashing, token creation and verification, and the model's `predict`. The
library contracts that some lemmas rely on are stated as the predicates
`Collaborators.HashingSound` and `Collaborators.TokensSound`; no lemma assumes either one silently.

Modules, one file each:

- `Wrappers`: `Option` and `Result`.
- `Errors`: the failures a handler can end in:
  - the HTTP errors the code raises, with their statuses and messages;
  - the database's `IntegrityError` and SQLAlchemy's `MultipleResultsFound`;
  - Python's `UnboundLocalError`;
  - a response-model validation error.
- `Collaborators`: the opaque environment.
- `Schemas`: `MealCreate`, `MealOut`, `UserCreate`, `UserLogin` and `Token`.
- `Database`: the `User` and `MealHistory` rows and the table constraints. It also has the
  queries the handlers use (`first`, `one_or_none`, the owner filter, serialization through
  `MealOut`) and the `Store` class, whose `AddUser` and `AddMeal` model `db.add` plus `commit`.
- `Bearer`: Python's `str.split(" ")` and the two handlers' header resolution.
- `Auth`: `register` as a method that updates the store, proved against `RegisterSpec`, and
  `login` as a function.
- `Predictor`: the `vals` loop as a method with its loop invariants. `predict_meal` is a method that
  updates the store, proved against `PredictSpec`. `get_meals` is a function.
- `Scenarios`: end-to-end sequences across handlers.

Three behaviours of the code that a reader might not expect, all modelled as written:

- Only a two-part `Authorization` header whose token fails to verify is rejected with 401 by
  `predict_meal`. A missing, empty or otherwise malformed header is treated as anonymous.
- The first part of the header is never compared with `Bearer`; any scheme is accepted.
- The `get_meals` docstring (backend/routes/predictor.py:111-114) promises an empty list for an
  unauthenticated caller, but the code fails instead (see Findings).

## Model

| member | source | states |
|---|---|---|
| Schemas.MealCreateFrom | backend/schemas.py:6-42 | `meal_name` is the given name, or "Manual Entry" when absent; every one of the 32 nutrient fields is exactly what the body gave, `None` when absent |
| Schemas.EmptyBodyDefaults | backend/schemas.py:8-42 | an empty body validates to "Manual Entry" with every nutrient `None` |
| Schemas.FeatureNamesAreTheNonFat | backend/routes/predictor.py:41-47 | `feature_names` holds 28 distinct nutrients, and a nutrient is in it exactly when it is not one of the four fat fields |
| Schemas.ColumnMissingOnlyForFat | backend/schemas.py:13-16 | a nutrient has a stored/returned column exactly when it is not a fat field |
| Schemas.ColumnsAreTheFeatures | backend/schemas.py:52-79 | the nutrients with a `MealOut` column are exactly those of `feature_names`; the four fat fields of `MealCreate` have none |
| Schemas.TokenFrom | backend/schemas.py:101-104 | the token response keeps `access_token`, and its `token_type` is the given one or "bearer" when absent |
| Schemas.CredentialSchemasAgree | backend/schemas.py:89-98 | `UserCreate` and `UserLogin` carry the same fields: converting either way and back is the identity |
| Database.NextUserId | backend/database.py:18 | a new user's primary key is at least 1 and larger than every existing id |
| Database.NextMealId | backend/database.py:28 | a new meal's primary key is at least 1 and larger than every existing id |
| Database.First | backend/routes/auth.py:15 | `.first()` finds nothing exactly when no user has the name, and otherwise the earliest user with it |
| Database.Matching | backend/routes/predictor.py:38 | the rows of the filter are exactly the users with that name, and it is empty exactly when none has it |
| Database.MatchingDistinct | backend/database.py:19 | under the UNIQUE username constraint at most one user matches a name |
| Database.OneOrNoneIsFirst | backend/routes/predictor.py:38 | under unique usernames `one_or_none()` never raises and agrees with `.first()` |
| Database.UniqueNameIsFirst | backend/database.py:19 | under unique usernames the user with a name is the one `.first()` finds |
| Database.OwnedBy | backend/routes/predictor.py:127-131 | the owner filter holds exactly the rows whose `user_id` is that id, is empty exactly when the owner has none, and is no longer than the table |
| Database.OwnedByAppend | backend/database.py:22 | appending a row extends an owner's filtered rows by that row exactly when it belongs to them |
| Database.OwnedByAscending | backend/routes/predictor.py:127-131 | filtering keeps the table's ascending id order |
| Database.ToMealOut | backend/schemas.py:45-86 | a row converts to `MealOut` exactly when its nullable `prediction` is set, copying id, owner, name, columns, prediction and timestamp |
| Database.Serialize | backend/schemas.py:45-86 | a list of rows validates as `List[MealOut]` exactly when every row has a prediction; the failure is a response validation error; each record is its row's conversion |
| Database.OwnedBySerializes | backend/database.py:60 | when every row has a prediction, any owner's rows serialize |
| Database.SerializeKeepsKeys | backend/schemas.py:47-48 | serialized records keep their rows' `id` and `user_id` position by position |
| Database.SerializeOne | backend/schemas.py:45-86 | a single predicted row serializes to its own conversion |
| Database.EmptyTablesConsistent | backend/database.py:15-63 | the empty tables satisfy every table invariant |
| Database.Store.constructor | backend/database.py:65-66 | a new store has empty tables that meet the constraints |
| Database.Store.AddUser | backend/database.py:19 | an insert of a taken username fails with `IntegrityError` and changes nothing; otherwise it appends one user with the next id and keeps the constraints |
| Database.Store.AddMeal | backend/database.py:25-61 | an insert appends exactly the given row with the next id, leaves `users` as it was, and keeps the constraints |
| Bearer.Split | backend/routes/predictor.py:32 | `str.split(" ")` yields at least one part |
| Bearer.SplitJoin | backend/routes/predictor.py:32 | joining the parts with single spaces gives back the header |
| Bearer.JoinSplit | backend/routes/predictor.py:32 | splitting single-space-joined, space-free parts gives back the parts |
| Bearer.SplitCount | backend/routes/predictor.py:32-33 | the number of parts is the number of spaces plus one |
| Bearer.SplitPartsHaveNoSpace | backend/routes/predictor.py:32 | no part contains a space |
| Bearer.BearerTokenShape | backend/routes/predictor.py:31-34 | a header yields a token exactly when it contains exactly one space; the token is the space-free text after it |
| Bearer.SchemeNotChecked | backend/routes/predictor.py:32-34 | any `<scheme> <token>` header yields `<token>`: the scheme is never compared with "Bearer" |
| Bearer.UnusableHeaderIsAnonymous | backend/routes/predictor.py:30-34 | a missing header, or one without exactly one space, is anonymous in both handlers rather than rejected |
| Bearer.TwoPartHeaderVerdict | backend/routes/predictor.py:34-37 | a two-part header claims the verified subject, and is rejected when `verify_token` gives `None` or "" |
| Bearer.ResolutionsAgree | backend/routes/predictor.py:116-123 | `get_meals` resolves the identity `predict_meal` claims, and no identity wherever `predict_meal` would reject |
| Auth.Register | backend/routes/auth.py:13-23 | `register` answers and updates the users table as `RegisterSpec` says, leaves `meal_history` unchanged, and keeps the table constraints |
| Auth.RegisterVerdict | backend/routes/auth.py:15-23 | a taken username gives 400 "Username already exists" with the table unchanged; a free one gives the success message and appends exactly one user with that username, the hash of the password and an id no other user has |
| Auth.RegisterPreservesConsistency | backend/routes/auth.py:15-21 | registration keeps ids and usernames unique and every meal owner present |
| Auth.RegisterTwice | backend/routes/auth.py:15-17 | registering the same username again fails with 400 and leaves the table as the first registration left it |
| Auth.Login | backend/routes/auth.py:25-32 | every login failure is 401 "Invalid credentials" |
| Auth.LoginVerdict | backend/routes/auth.py:27-32 | under unique usernames, login succeeds exactly when a user has the name and the password verifies against their hash; it then returns the token for that username with type "bearer"; an absent name and a wrong password give the same 401 |
| Auth.LoginAfterRegister | backend/routes/auth.py:19-32 | after a successful registration, logging in with the same credentials returns that username's token with type "bearer", given that a password verifies against its own hash |
| Predictor.BuildFeatures | backend/routes/predictor.py:49-55 | the loop yields 28 entries in `feature_names` order, each the field's value, or 0.0 where it is `None` |
| Predictor.DefaultsAgree | backend/routes/predictor.py:53-54 | the loop's `is None` default and the row's `or 0.0` default give the same value |
| Predictor.StoredColumnOf | backend/routes/predictor.py:66-96 | each stored column is the input value or 0.0, never `None`; the fat fields have no column |
| Predictor.StoredColumnsMatchFeatures | backend/routes/predictor.py:49-96 | every one of the 28 stored columns equals the corresponding feature-vector entry |
| Predictor.EmptyMealStoresDefaults | backend/database.py:32-59 | a meal with no nutrients is stored with the table's all-0.0 defaults and sent to the model as 28 zeros |
| Predictor.AppleExample | backend/routes/predictor.py:41-96 | a body with only a name and two nutrients stores and sends those two values and 0.0 everywhere else |
| Predictor.AppleMeal | backend/schemas.py:6-42 | that body validates to the meal with exactly those two fields set |
| Predictor.PredictMeal | backend/routes/predictor.py:23-106 | `predict_meal` answers and updates `meal_history` as `PredictSpec` says, leaves `users` unchanged, and keeps the constraints |
| Predictor.PredictRejectsUnverifiedToken | backend/routes/predictor.py:35-37 | a two-part header whose token does not verify gives 401 "Invalid or expired token" and stores nothing |
| Predictor.PredictIgnoresUnusableHeader | backend/routes/predictor.py:30-34 | an unusable header is answered exactly as a request without one, with an owner-less row |
| Predictor.PredictModelFailureStoresNothing | backend/routes/predictor.py:60-63 | when the model raises, the answer is 500 carrying its message, and nothing is stored |
| Predictor.PredictAppendsOneRow | backend/routes/predictor.py:60-106 | a successful prediction appends exactly one row with a fresh id, the input's meal name, the stored columns, the model output as prediction and the given time, and returns that row |
| Predictor.PredictOwner | backend/routes/predictor.py:30-38 | the stored row has no owner for an anonymous request, and the id of the named user when the subject names one |
| Predictor.PredictForUser | backend/routes/predictor.py:38-106 | for a subject naming an existing user, the answer and the new table are exactly that user's new row |
| Predictor.PredictPreservesConsistency | backend/routes/predictor.py:66-103 | a prediction keeps meal ids unique and ascending, owners present and every prediction set |
| Predictor.PredictTwiceStoresTwoRows | backend/database.py:28 | the same request twice stores two rows with different ids |
| Predictor.GetMealsAsWrittenFailsWithoutUser | backend/routes/predictor.py:125-134 | the handler as written raises an unbound-`meals` error whenever no user is resolved |
| Predictor.GetMealsWithoutUserIsEmpty | backend/routes/predictor.py:111-134 | the corrected handler answers `[]` wherever no user is resolved, and agrees with the handler as written elsewhere |
| Predictor.GetMealsNeverUnauthorized | backend/routes/predictor.py:116-134 | neither handler raises an `HTTPException` (no 401); for a token `predict_meal` would reject, the corrected handler answers `[]` and the handler as written fails with an unbound `meals` (see Findings) |
| Predictor.OwnHistoryRecords | backend/routes/predictor.py:127-131 | each record of an owner's serialized history is one of their rows at the same position, and ids ascend |
| Predictor.OwnHistoryComplete | backend/routes/predictor.py:127-131 | every row of the owner appears in the answer |
| Predictor.OwnHistoryAnswer | backend/routes/predictor.py:125-131 | an owner's history serializes, has one record per owned row, holds every such row, and keeps table order |
| Predictor.GetMealsReturnsOwnHistory | backend/routes/predictor.py:116-131 | for a resolved user, both the handler as written and the corrected one answer exactly that user's serialized rows, and never fail |
| Scenarios.NewUserOwnsNothing | backend/routes/auth.py:19-21 | a newly registered user owns no meals |
| Scenarios.IssuedTokenResolves | backend/routes/auth.py:31-32 | the token login issues, sent as `Bearer <token>`, resolves to that username in both handlers |
| Scenarios.RegisterLoginPredictList | backend/routes/predictor.py:23-131 | register, login, predict with the issued token, then list: the login succeeds, the row belongs to the new user, and listing returns exactly that row |
| Scenarios.EmptyUsernameLockedOut | backend/routes/predictor.py:35-37 | a user registered with the empty username logs in, but their token is rejected by `predict_meal` with 401 and stores nothing |

## Left out

- I/O and framework wiring are not modelled: `main.py` (app construction, CORS, static files, HTML
  pages), routing, dependency injection and the response encoding.
- The real database and its sessions are replaced by the in-memory `Store`: the SQLite engine,
  `SessionLocal`, `get_db` and `init_db`. `db.refresh` is the identity, because the row in the
  store already holds its id.
- Password hashing is an opaque function of `Env`. bcrypt's random salt is not modelled, so
  `hashPassword` is a deterministic function. Only `verify_password(p, hash_password(p))` is
  assumed, as `HashingSound`, and only where a lemma says so.
- `backend/utils/jwt_handler.py` is not part of this model. `create_access_token` and
  `verify_token` are opaque. Token expiry and the clock are not modelled. `TokensSound` says an
  issued token verifies to its subject.
- The model file, `joblib.load` and `model.predict` are an opaque function that may fail with a
  message. The regression itself is not modelled.
- The numpy array and the `float()` conversions are left out. Nutrient values are `real`, with no
  floating-point reasoning.
- `datetime.utcnow()` is the `now` parameter.
- The OCR and language-model label ingestion do not appear in the modelled files.
- Concurrent requests are not modelled: each handler runs alone against the store.
- Ids are unbounded integers. SQLite's 64-bit rowid limit is not modelled.
- Database.Serialize: the order of rows returned by a query without `ORDER BY` is unspecified in SQL. The model takes table (insertion) order, which is what SQLite yields for these queries.
- Database.Store.AddUser: the only table constraint an insert of a user checks is the UNIQUE constraint on `username`.
- Database.Store.AddMeal: the foreign key on `meal_history.user_id` is not checked on insert, since SQLite does not enforce foreign keys by default. `OwnersExist` is instead an invariant the handlers are proved to keep.
- Schemas.MealCreateFrom: validating arbitrary JSON is not modelled. The body is already a map from
  the 32 known nutrients to optional values, plus an optional name; unknown keys and type
  coercion are not represented.

## Findings

| source | as written | input that shows it | evidently intended | confidence | as-written member | corrected member |
|---|---|---|---|---|---|---|
| backend/routes/predictor.py:125-134 | `meals` is assigned only inside `if user:`, so `return meals` raises `UnboundLocalError` (a 500) whenever no user is resolved | `GET /meals` with no `Authorization` header | the empty list, as the docstring on line 114 promises | high; not executed | Predictor.GetMealsAsWrittenFailsWithoutUser | Predictor.GetMealsWithoutUserIsEmpty |
