/** The prediction routes (backend/routes/predictor.py): `predict_meal` resolves the caller, builds
    the model's feature vector, asks the model for a score and appends one row to `meal_history`;
    `get_meals` lists the caller's rows. */
module Predictor {
  import opened Wrappers
  import opened Errors
  import opened Schemas
  import opened Database
  import opened Collaborators
  import opened Bearer

  // ---- Feature vector ----

  /** The loop's defaulting: `if value is None: value = 0.0`. */
  function ValueOrZero(o: Option<real>): real {
    if o.None? then 0.0 else o.value
  }

  /** The row's defaulting, Python's `value or 0.0`, which also replaces a falsy 0.0. */
  function PyOrZero(o: Option<real>): real {
    if o.None? || o.value == 0.0 then 0.0 else o.value
  }

  /** The model input: one entry per name of `feature_names`, in that order. */
  function FeatureVector(meal: MealCreate): seq<real> {
    seq(|FeatureNames|, i requires 0 <= i < |FeatureNames| => ValueOrZero(Field(meal, FeatureNames[i])))
  }

  /** The `vals` loop: 28 entries in `feature_names` order, each the field's value, or 0.0 where
      the field is `None`. */
  method BuildFeatures(meal: MealCreate) returns (vals: seq<real>)
    ensures |vals| == |FeatureNames| == 28
    ensures forall i :: 0 <= i < |FeatureNames| ==>
              vals[i] == ValueOrZero(Field(meal, FeatureNames[i]))
  {
    vals := [];
    for k := 0 to |FeatureNames|
      invariant |vals| == k
      invariant forall i :: 0 <= i < k ==>
                  vals[i] == ValueOrZero(Field(meal, FeatureNames[i]))
    {
      var value := Field(meal, FeatureNames[k]);
      var x := if value.None? then 0.0 else value.value;
      vals := vals + [x];
    }
  }

  // ---- The stored row ----

  /** The 28 nutrient columns of the stored row, each `meal.<field> or 0.0`. */
  function StoredColumns(meal: MealCreate): NutrientColumns {
    NutrientColumns(
      PyOrZero(meal.caloricValue), PyOrZero(meal.carbohydrates), PyOrZero(meal.sugars), PyOrZero(meal.protein),
      PyOrZero(meal.dietaryFiber), PyOrZero(meal.cholesterol), PyOrZero(meal.sodium), PyOrZero(meal.water),
      PyOrZero(meal.vitaminA), PyOrZero(meal.vitaminB1), PyOrZero(meal.vitaminB11), PyOrZero(meal.vitaminB12),
      PyOrZero(meal.vitaminB2), PyOrZero(meal.vitaminB3), PyOrZero(meal.vitaminB5), PyOrZero(meal.vitaminB6),
      PyOrZero(meal.vitaminC), PyOrZero(meal.vitaminD), PyOrZero(meal.vitaminE), PyOrZero(meal.vitaminK),
      PyOrZero(meal.calcium), PyOrZero(meal.copper), PyOrZero(meal.iron), PyOrZero(meal.magnesium),
      PyOrZero(meal.manganese), PyOrZero(meal.phosporus), PyOrZero(meal.selenium), PyOrZero(meal.zinc))
  }

  function OwnerId(user: Option<User>): Option<int> {
    if user.Some? then Some(user.value.id) else None
  }

  /** The `MealHistory` row `predict_meal` stores, with the id the database gives it. */
  function NewRow(meals: seq<MealHistory>, owner: Option<int>, meal: MealCreate, prediction: real, now: Timestamp): MealHistory {
    MealHistory(NextMealId(meals), owner, meal.mealName, StoredColumns(meal), Some(prediction), now)
  }

  // ---- predict_meal ----

  /** What `POST /predict` answers, and the meal table afterwards. */
  function PredictSpec(users: seq<User>, meals: seq<MealHistory>, meal: MealCreate,
                       authorization: Option<string>, env: Env, now: Timestamp): (Result<MealOut, Failure>, seq<MealHistory>)
  {
    var resolution := ResolveForPredict(authorization, env.verifyToken);
    if resolution.Rejected? then (Failure(InvalidToken), meals)
    else
      var lookup := if resolution.Claimed? then OneOrNone(users, resolution.username) else Success(None);
      if lookup.Failure? then (Failure(lookup.error), meals)
      else
        match env.predict(FeatureVector(meal))
        case Failure(e) => (Failure(PredictionFailed(e)), meals)
        case Success(p) =>
          var row := NewRow(meals, OwnerId(lookup.value), meal, p, now);
          (Success(ToMealOut(row).value), meals + [row])
  }

  /** `POST /predict`. */
  method PredictMeal(db: Store, meal: MealCreate, authorization: Option<string>, env: Env, now: Timestamp)
    returns (r: Result<MealOut, Failure>)
    requires db.Valid()
    modifies db
    ensures db.Valid()
    ensures db.users == old(db.users)
    ensures (r, db.meals) == PredictSpec(old(db.users), old(db.meals), meal, authorization, env, now)
  {
    var resolution := ResolveForPredict(authorization, env.verifyToken);
    if resolution.Rejected? {
      r := Failure(InvalidToken);
      return;
    }
    var user: Option<User> := None;
    if resolution.Claimed? {
      var lookup := OneOrNone(db.users, resolution.username);
      if lookup.Failure? {
        r := Failure(lookup.error);
        return;
      }
      user := lookup.value;
    }
    var vals := BuildFeatures(meal);
    assert vals == FeatureVector(meal);
    var prediction := env.predict(vals);
    if prediction.Failure? {
      r := Failure(PredictionFailed(prediction.error));
      return;
    }
    var row := db.AddMeal(OwnerId(user), meal.mealName, StoredColumns(meal), Some(prediction.value), now);
    r := Success(ToMealOut(row).value);
  }

  // ---- get_meals ----

  /** The user `get_meals` acts for: none without a verified, non-empty subject or without a user
      of that name. */
  function MealsUser(users: seq<User>, authorization: Option<string>, env: Env): Result<Option<User>, Failure> {
    match ResolveForMeals(authorization, env.verifyToken)
    case None => Success(None)
    case Some(name) => OneOrNone(users, name)
  }

  /** `GET /meals` as written: with no resolved user the local `meals` is never assigned, and
      `return meals` raises instead of answering. */
  function GetMealsAsWritten(users: seq<User>, meals: seq<MealHistory>, authorization: Option<string>, env: Env)
    : Result<seq<MealOut>, Failure>
  {
    var lookup := MealsUser(users, authorization, env);
    if lookup.Failure? then Failure(lookup.error)
    else if lookup.value.Some? then Serialize(OwnedBy(meals, lookup.value.value.id))
    else Failure(UnboundLocal("meals"))
  }

  /** `GET /meals` as its docstring intends: the caller's rows, or the empty list for a caller
      without a resolved user. */
  function GetMeals(users: seq<User>, meals: seq<MealHistory>, authorization: Option<string>, env: Env)
    : Result<seq<MealOut>, Failure>
  {
    var lookup := MealsUser(users, authorization, env);
    if lookup.Failure? then Failure(lookup.error)
    else if lookup.value.Some? then Serialize(OwnedBy(meals, lookup.value.value.id))
    else Success([])
  }

  // ---- Properties of the feature vector and the stored columns ----

  /** The loop's `is None` default and the row's `or 0.0` default agree on every value. */
  lemma DefaultsAgree(o: Option<real>)
    ensures PyOrZero(o) == ValueOrZero(o)
  {
  }

  /** Each nutrient's stored column: none for a fat field, otherwise the input value, or 0.0
      (never null) when the input omitted it. */
  lemma {:induction false} StoredColumnOf(meal: MealCreate, n: Nutrient)
    ensures Column(StoredColumns(meal), n) == if IsFatField(n) then None else Some(ValueOrZero(Field(meal, n)))
    ensures !IsFatField(n) && Field(meal, n).None? ==> Column(StoredColumns(meal), n) == Some(0.0)
  {
    DefaultsAgree(Field(meal, n));
    match n {
      case CaloricValue =>
      case Carbohydrates =>
      case Fat =>
      case SaturatedFat =>
      case MonounsaturatedFat =>
      case PolyunsaturatedFat =>
      case Sugars =>
      case Protein =>
      case DietaryFiber =>
      case Cholesterol =>
      case Sodium =>
      case Water =>
      case VitaminA =>
      case VitaminB1 =>
      case VitaminB11 =>
      case VitaminB12 =>
      case VitaminB2 =>
      case VitaminB3 =>
      case VitaminB5 =>
      case VitaminB6 =>
      case VitaminC =>
      case VitaminD =>
      case VitaminE =>
      case VitaminK =>
      case Calcium =>
      case Copper =>
      case Iron =>
      case Magnesium =>
      case Manganese =>
      case Phosporus =>
      case Selenium =>
      case Zinc =>
    }
  }

  /** Every one of the 28 stored columns equals the corresponding feature-vector entry: the row
      holds exactly what the model was given. */
  lemma {:induction false} StoredColumnsMatchFeatures(meal: MealCreate)
    ensures forall i :: 0 <= i < |FeatureNames| ==>
              Column(StoredColumns(meal), FeatureNames[i]) == Some(FeatureVector(meal)[i])
  {
    FeatureNamesAreTheNonFat();
    forall i | 0 <= i < |FeatureNames|
      ensures Column(StoredColumns(meal), FeatureNames[i]) == Some(FeatureVector(meal)[i])
    {
      StoredColumnOf(meal, FeatureNames[i]);
    }
  }

  /** A meal with no nutrients given is stored with the table's column defaults and all-zero
      features. */
  lemma EmptyMealStoresDefaults()
    ensures StoredColumns(MealCreateFrom(None, map[])) == ZeroColumns
    ensures FeatureVector(MealCreateFrom(None, map[])) == seq(28, _ => 0.0)
  {
  }

  /** `{meal_name: "Apple", Caloric_Value: 52, Sugars: 10}`: those two columns hold the given values
      and every other one 0.0. */
  lemma AppleExample()
    ensures var meal := MealCreateFrom(Some("Apple"), map[CaloricValue := Some(52.0), Sugars := Some(10.0)]);
            meal.mealName == "Apple" &&
            StoredColumns(meal) == ZeroColumns.(caloricValue := 52.0, sugars := 10.0) &&
            FeatureVector(meal) == [52.0, 0.0, 10.0] + seq(25, _ => 0.0)
  {
    AppleMeal();
  }

  /** The validated Apple request, written out field by field. */
  lemma AppleMeal()
    ensures MealCreateFrom(Some("Apple"), map[CaloricValue := Some(52.0), Sugars := Some(10.0)])
         == MealCreate("Apple", Some(52.0), None, None, None, None, None, Some(10.0),
                       None, None, None, None, None, None, None, None, None, None, None, None,
                       None, None, None, None, None, None, None, None, None, None, None, None, None)
  {
  }

  // ---- Properties of predict_meal ----

  /** A two-part header whose token does not verify is answered with 401 and stores nothing,
      whatever its first part says. */
  lemma {:induction false} PredictRejectsUnverifiedToken(users: seq<User>, meals: seq<MealHistory>, meal: MealCreate,
                                                         scheme: string, token: string, env: Env, now: Timestamp)
    requires ' ' !in scheme && ' ' !in token
    requires !Truthy(env.verifyToken(token))
    ensures PredictSpec(users, meals, meal, Some(scheme + " " + token), env, now) == (Failure(InvalidToken), meals)
  {
    TwoPartHeaderVerdict(scheme, token, env.verifyToken);
  }

  /** A missing header, an empty one, or one that does not split into exactly two parts is the same
      request as no header at all, and a meal stored for it has no owner. */
  lemma {:induction false} PredictIgnoresUnusableHeader(users: seq<User>, meals: seq<MealHistory>, meal: MealCreate,
                                                        authorization: Option<string>, env: Env, now: Timestamp)
    requires authorization.None? || CountSpaces(authorization.value) != 1
    ensures PredictSpec(users, meals, meal, authorization, env, now) == PredictSpec(users, meals, meal, None, env, now)
    ensures var (r, meals') := PredictSpec(users, meals, meal, authorization, env, now);
            r.Success? ==> |meals'| == |meals| + 1 && meals'[|meals|].userId == None && r.value.userId == None
  {
    UnusableHeaderIsAnonymous(authorization, env.verifyToken);
  }

  /** When the model raises, the answer is 500 carrying the model's message, and nothing is stored. */
  lemma {:induction false} PredictModelFailureStoresNothing(users: seq<User>, meals: seq<MealHistory>, meal: MealCreate,
                                                            authorization: Option<string>, env: Env, now: Timestamp)
    requires UniqueUsernames(users)
    requires !ResolveForPredict(authorization, env.verifyToken).Rejected?
    requires env.predict(FeatureVector(meal)).Failure?
    ensures PredictSpec(users, meals, meal, authorization, env, now) ==
              (Failure(PredictionFailed(env.predict(FeatureVector(meal)).error)), meals)
  {
    var resolution := ResolveForPredict(authorization, env.verifyToken);
    if resolution.Claimed? {
      OneOrNoneIsFirst(users, resolution.username);
    }
  }

  /** A request that is not rejected and whose model call succeeds appends exactly one row: it
      holds the meal's name, the model's score, the current time, a fresh id and, in each of the
      28 nutrient columns, the feature-vector entry the model saw; the answer is that row. */
  lemma {:induction false} PredictAppendsOneRow(users: seq<User>, meals: seq<MealHistory>, meal: MealCreate,
                                                authorization: Option<string>, env: Env, now: Timestamp)
    requires UniqueUsernames(users)
    requires !ResolveForPredict(authorization, env.verifyToken).Rejected?
    requires env.predict(FeatureVector(meal)).Success?
    ensures var (r, meals') := PredictSpec(users, meals, meal, authorization, env, now);
            r.Success? && |meals'| == |meals| + 1 && meals'[..|meals|] == meals &&
            ToMealOut(meals'[|meals|]) == Some(r.value) &&
            meals'[|meals|].mealName == meal.mealName &&
            meals'[|meals|].prediction == Some(env.predict(FeatureVector(meal)).value) &&
            meals'[|meals|].createdAt == now &&
            (forall k :: 0 <= k < |meals| ==> meals[k].id < meals'[|meals|].id) &&
            forall i :: 0 <= i < |FeatureNames| ==>
              Column(meals'[|meals|].columns, FeatureNames[i]) == Some(FeatureVector(meal)[i])
  {
    var resolution := ResolveForPredict(authorization, env.verifyToken);
    if resolution.Claimed? {
      OneOrNoneIsFirst(users, resolution.username);
    }
    StoredColumnsMatchFeatures(meal);
    var (r, meals') := PredictSpec(users, meals, meal, authorization, env, now);
    assert meals'[..|meals|] == meals;
  }

  /** The owner of a stored meal: none for an anonymous request; for a verified subject, the id of
      the user of that name, or none when there is no such user. */
  lemma {:induction false} PredictOwner(users: seq<User>, meals: seq<MealHistory>, meal: MealCreate,
                                        authorization: Option<string>, env: Env, now: Timestamp)
    requires UniqueUsernames(users)
    ensures var (r, meals') := PredictSpec(users, meals, meal, authorization, env, now);
            r.Success? ==>
              |meals'| == |meals| + 1 &&
              match ResolveForPredict(authorization, env.verifyToken)
              case Anonymous => meals'[|meals|].userId == None
              case Claimed(name) =>
                (meals'[|meals|].userId.None? <==> forall k :: 0 <= k < |users| ==> users[k].username != name) &&
                (meals'[|meals|].userId.Some? ==>
                   exists k :: 0 <= k < |users| && users[k].username == name && users[k].id == meals'[|meals|].userId.value)
              case Rejected => false
  {
    var resolution := ResolveForPredict(authorization, env.verifyToken);
    if resolution.Claimed? {
      OneOrNoneIsFirst(users, resolution.username);
    }
  }

  /** For a subject that names the user at index `k`, a successful prediction stores exactly the
      row `NewRow` builds, owned by that user, and answers it. */
  lemma {:induction false} PredictForUser(users: seq<User>, meals: seq<MealHistory>, meal: MealCreate,
                                          authorization: Option<string>, env: Env, now: Timestamp, k: int)
    requires UniqueUsernames(users)
    requires 0 <= k < |users|
    requires ResolveForPredict(authorization, env.verifyToken) == Claimed(users[k].username)
    requires env.predict(FeatureVector(meal)).Success?
    ensures var row := NewRow(meals, Some(users[k].id), meal, env.predict(FeatureVector(meal)).value, now);
            PredictSpec(users, meals, meal, authorization, env, now) == (Success(ToMealOut(row).value), meals + [row])
  {
    OneOrNoneIsFirst(users, users[k].username);
    UniqueNameIsFirst(users, users[k].username, users[k]);
  }

  /** A prediction keeps every table invariant: unique and ascending meal ids, owners that exist,
      and a prediction in every row. */
  lemma {:induction false} PredictPreservesConsistency(users: seq<User>, meals: seq<MealHistory>, meal: MealCreate,
                                                       authorization: Option<string>, env: Env, now: Timestamp)
    requires Consistent(users, meals)
    ensures Consistent(users, PredictSpec(users, meals, meal, authorization, env, now).1)
  {
    var resolution := ResolveForPredict(authorization, env.verifyToken);
    if resolution.Claimed? {
      OneOrNoneIsFirst(users, resolution.username);
    }
    var meals' := PredictSpec(users, meals, meal, authorization, env, now).1;
    if |meals'| != |meals| {
      var row := meals'[|meals|];
      assert meals' == meals + [row];
      if row.userId.Some? {
        var u :| First(users, resolution.username) == Some(u) && u.id == row.userId.value;
        var k :| 0 <= k < |users| && users[k] == u;
        assert HasUserId(users, row.userId.value);
      }
    }
  }

  /** The same request twice stores two rows with different ids: there is no deduplication. */
  lemma {:induction false} PredictTwiceStoresTwoRows(users: seq<User>, meals: seq<MealHistory>, meal: MealCreate,
                                                     authorization: Option<string>, env: Env, t1: Timestamp, t2: Timestamp)
    requires UniqueUsernames(users)
    ensures var (r1, m1) := PredictSpec(users, meals, meal, authorization, env, t1);
            var (r2, m2) := PredictSpec(users, m1, meal, authorization, env, t2);
            r1.Success? ==>
              r2.Success? && |m2| == |meals| + 2 && r1.value.id != r2.value.id &&
              r1.value.columns == r2.value.columns && r1.value.prediction == r2.value.prediction
  {
    var (r1, m1) := PredictSpec(users, meals, meal, authorization, env, t1);
    if r1.Success? {
      PredictAppendsOneRow(users, meals, meal, authorization, env, t1);
      PredictAppendsOneRow(users, m1, meal, authorization, env, t2);
      var (r2, m2) := PredictSpec(users, m1, meal, authorization, env, t2);
      assert m1[|meals|].id < m2[|m1|].id;
    }
  }

  // ---- Properties of get_meals ----

  /** The defect: with no header, an unverified token, or a subject without a user, `meals` is
      unassigned and the request fails instead of answering the empty list. */
  lemma GetMealsAsWrittenFailsWithoutUser(users: seq<User>, meals: seq<MealHistory>, authorization: Option<string>, env: Env)
    ensures GetMealsAsWritten(users, meals, None, env) == Failure(UnboundLocal("meals"))
    ensures MealsUser(users, authorization, env) == Success(None) ==>
              GetMealsAsWritten(users, meals, authorization, env) == Failure(UnboundLocal("meals"))
  {
  }

  /** The correction answers the empty list wherever no user is resolved, and changes nothing
      where one is. */
  lemma GetMealsWithoutUserIsEmpty(users: seq<User>, meals: seq<MealHistory>, authorization: Option<string>, env: Env)
    ensures GetMeals(users, meals, None, env) == Success([])
    ensures MealsUser(users, authorization, env) == Success(None) ==> GetMeals(users, meals, authorization, env) == Success([])
    ensures MealsUser(users, authorization, env) != Success(None) ==>
              GetMeals(users, meals, authorization, env) == GetMealsAsWritten(users, meals, authorization, env)
  {
  }

  /** Neither form of `get_meals` raises an `HTTPException`: a token that `predict_meal` would reject
      is simply no identity here, which the corrected handler answers with `[]` and the handler as
      written with an unbound `meals`. */
  lemma {:induction false} GetMealsNeverUnauthorized(users: seq<User>, meals: seq<MealHistory>, authorization: Option<string>, env: Env)
    ensures var r := GetMeals(users, meals, authorization, env); !(r.Failure? && r.error.HttpError?)
    ensures var r := GetMealsAsWritten(users, meals, authorization, env); !(r.Failure? && r.error.HttpError?)
    ensures !ResolveForPredict(authorization, env.verifyToken).Claimed? ==> GetMeals(users, meals, authorization, env) == Success([])
    ensures !ResolveForPredict(authorization, env.verifyToken).Claimed? ==>
              GetMealsAsWritten(users, meals, authorization, env) == Failure(UnboundLocal("meals"))
  {
    ResolutionsAgree(authorization, env.verifyToken);
  }

  /** The serialized history of one owner: each record is one of the owner's rows, every such row
      is there, and ids ascend. */
  lemma {:induction false} OwnHistoryAnswer(meals: seq<MealHistory>, id: int)
    requires AllPredicted(meals) && IdsAscending(meals)
    ensures var r := Serialize(OwnedBy(meals, id));
            r.Success? &&
            |r.value| == |OwnedBy(meals, id)| &&
            (forall i :: 0 <= i < |r.value| ==> r.value[i].userId == Some(id) &&
                                                ToMealOut(OwnedBy(meals, id)[i]) == Some(r.value[i])) &&
            (forall m :: m in meals && m.userId == Some(id) ==>
                           exists i :: 0 <= i < |r.value| && r.value[i].id == m.id) &&
            forall i, j :: 0 <= i < j < |r.value| ==> r.value[i].id < r.value[j].id
  {
    OwnHistoryRecords(meals, id);
    OwnHistoryComplete(meals, id);
  }

  /** Each serialized record is the owner's row at the same position, and ids ascend. */
  lemma {:induction false} OwnHistoryRecords(meals: seq<MealHistory>, id: int)
    requires AllPredicted(meals) && IdsAscending(meals)
    ensures Serialize(OwnedBy(meals, id)).Success?
    ensures |Serialize(OwnedBy(meals, id)).value| == |OwnedBy(meals, id)|
    ensures forall i :: 0 <= i < |OwnedBy(meals, id)| ==>
              Serialize(OwnedBy(meals, id)).value[i].userId == Some(id) &&
              ToMealOut(OwnedBy(meals, id)[i]) == Some(Serialize(OwnedBy(meals, id)).value[i])
    ensures forall i, j :: 0 <= i < j < |OwnedBy(meals, id)| ==>
              Serialize(OwnedBy(meals, id)).value[i].id < Serialize(OwnedBy(meals, id)).value[j].id
  {
    var rows := OwnedBy(meals, id);
    OwnedBySerializes(meals, id);
    OwnedByAscending(meals, id);
    SerializeKeepsKeys(rows);
    var out := Serialize(rows).value;
    forall i | 0 <= i < |rows| ensures out[i].userId == Some(id) {
      assert rows[i] in rows;
    }
  }

  /** Every row of the owner has a serialized record with its id. */
  lemma {:induction false} OwnHistoryComplete(meals: seq<MealHistory>, id: int)
    requires AllPredicted(meals)
    ensures Serialize(OwnedBy(meals, id)).Success?
    ensures forall m :: m in meals && m.userId == Some(id) ==>
              exists i :: 0 <= i < |Serialize(OwnedBy(meals, id)).value| && Serialize(OwnedBy(meals, id)).value[i].id == m.id
  {
    var rows := OwnedBy(meals, id);
    OwnedBySerializes(meals, id);
    SerializeKeepsKeys(rows);
    var out := Serialize(rows).value;
    forall m | m in meals && m.userId == Some(id) ensures exists i :: 0 <= i < |out| && out[i].id == m.id {
      assert m in rows;
      var i :| 0 <= i < |rows| && rows[i] == m;
      assert out[i].id == m.id;
    }
  }

  /** For a resolved user, the answer is exactly that user's rows: each returned record is one of
      the user's rows, every row of the user is returned, and they come back in table order,
      oldest first, with no "newest first" ordering applied. */
  lemma {:induction false} GetMealsReturnsOwnHistory(users: seq<User>, meals: seq<MealHistory>, authorization: Option<string>,
                                                     env: Env, k: int)
    requires Consistent(users, meals)
    requires 0 <= k < |users|
    requires ResolveForMeals(authorization, env.verifyToken) == Some(users[k].username)
    ensures GetMeals(users, meals, authorization, env) == Serialize(OwnedBy(meals, users[k].id))
    ensures GetMealsAsWritten(users, meals, authorization, env) == Serialize(OwnedBy(meals, users[k].id))
    ensures Serialize(OwnedBy(meals, users[k].id)).Success?
  {
    OneOrNoneIsFirst(users, users[k].username);
    UniqueNameIsFirst(users, users[k].username, users[k]);
    OwnedBySerializes(meals, users[k].id);
  }
}
