/** Properties of request sequences across both route modules: what a client observes when it
    registers, logs in and then uses the prediction routes with the token it was given. */
module Scenarios {
  import opened Wrappers
  import opened Errors
  import opened Schemas
  import opened Database
  import opened Collaborators
  import opened Bearer
  import opened Auth
  import opened Predictor

  /** A user registered after the current meals were stored owns none of them. */
  lemma {:induction false} NewUserOwnsNothing(users: seq<User>, meals: seq<MealHistory>, u: UserCreate, env: Env)
    requires OwnersExist(users, meals)
    ensures OwnedBy(meals, NewUser(users, u, env).id) == []
  {
    var id := NewUser(users, u, env).id;
    forall i | 0 <= i < |meals| ensures meals[i].userId != Some(id) {
      if meals[i].userId.Some? {
        var j :| 0 <= j < |users| && users[j].id == meals[i].userId.value;
      }
    }
  }

  /** The token a freshly registered user logs in with, sent as `Bearer <token>`, resolves to that
      user on both prediction routes. */
  lemma {:induction false} IssuedTokenResolves(users: seq<User>, u: UserCreate, env: Env)
    requires UniqueUsernames(users)
    requires HashingSound(env) && TokensSound(env)
    requires u.username != ""
    requires RegisterSpec(users, u, env).0.Success?
    requires ' ' !in env.createAccessToken(u.username)
    ensures var login := Login(RegisterSpec(users, u, env).1, u, env);
            login == Success(Token(env.createAccessToken(u.username), "bearer")) &&
            ResolveForPredict(Some("Bearer " + login.value.accessToken), env.verifyToken) == Claimed(u.username) &&
            ResolveForMeals(Some("Bearer " + login.value.accessToken), env.verifyToken) == Some(u.username)
  {
    LoginAfterRegister(users, u, env);
    var token := env.createAccessToken(u.username);
    assert env.verifyToken(token) == Some(u.username);
    assert "Bearer " + token == "Bearer" + " " + token;
    TwoPartHeaderVerdict("Bearer", token, env.verifyToken);
    ResolutionsAgree(Some("Bearer " + token), env.verifyToken);
  }

  /** Register, log in, predict with `Bearer <token>`, list: the new meal is owned by the new user,
      and the user's history is exactly that one meal. This relies on the hashing library's and
      the token library's contracts, on a non-empty username, and on a token without spaces. */
  lemma {:induction false} RegisterLoginPredictList(users: seq<User>, meals: seq<MealHistory>, u: UserCreate,
                                                    meal: MealCreate, env: Env, now: Timestamp)
    requires Consistent(users, meals)
    requires HashingSound(env) && TokensSound(env)
    requires u.username != ""
    requires RegisterSpec(users, u, env).0.Success?
    requires ' ' !in env.createAccessToken(u.username)
    requires env.predict(FeatureVector(meal)).Success?
    ensures Login(RegisterSpec(users, u, env).1, u, env) == Success(Token(env.createAccessToken(u.username), "bearer"))
    ensures var users' := RegisterSpec(users, u, env).1;
            var header := Some("Bearer " + env.createAccessToken(u.username));
            var row := NewRow(meals, Some(NewUser(users, u, env).id), meal, env.predict(FeatureVector(meal)).value, now);
            PredictSpec(users', meals, meal, header, env, now) == (Success(ToMealOut(row).value), meals + [row]) &&
            GetMeals(users', meals + [row], header, env) == Success([ToMealOut(row).value])
  {
    var users' := RegisterSpec(users, u, env).1;
    var created := NewUser(users, u, env);
    assert users' == users + [created];
    assert users'[|users|] == created;
    IssuedTokenResolves(users, u, env);
    var header := Some("Bearer " + env.createAccessToken(u.username));
    RegisterPreservesConsistency(users, meals, u, env);

    var row := NewRow(meals, Some(created.id), meal, env.predict(FeatureVector(meal)).value, now);
    PredictForUser(users', meals, meal, header, env, now, |users|);
    var meals' := meals + [row];
    PredictPreservesConsistency(users', meals, meal, header, env, now);
    assert Consistent(users', meals');

    GetMealsReturnsOwnHistory(users', meals', header, env, |users|);
    OwnedByAppend(meals, row, created.id);
    NewUserOwnsNothing(users, meals, u, env);
    assert OwnedBy(meals', created.id) == [row];
    SerializeOne(row);
  }

  /** A user may register with the empty username and log in, but the token it receives is
      refused by `predict_meal` with 401: `verify_token` yields the falsy subject "". */
  lemma {:induction false} EmptyUsernameLockedOut(users: seq<User>, meals: seq<MealHistory>, u: UserCreate,
                                                  meal: MealCreate, env: Env, now: Timestamp)
    requires UniqueUsernames(users)
    requires HashingSound(env) && TokensSound(env)
    requires u.username == ""
    requires RegisterSpec(users, u, env).0.Success?
    requires ' ' !in env.createAccessToken(u.username)
    ensures var users' := RegisterSpec(users, u, env).1;
            var login := Login(users', u, env);
            login.Success? &&
            PredictSpec(users', meals, meal, Some("Bearer " + login.value.accessToken), env, now) ==
              (Failure(InvalidToken), meals)
  {
    LoginAfterRegister(users, u, env);
    var token := env.createAccessToken(u.username);
    assert env.verifyToken(token) == Some("");
    assert "Bearer " + token == "Bearer" + " " + token;
    PredictRejectsUnverifiedToken(RegisterSpec(users, u, env).1, meals, meal, "Bearer", token, env, now);
  }
}
