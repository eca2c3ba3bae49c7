/** The two tables of the relational store (backend/database.py) and the session operations the
    handlers use on them. The session itself (engine, connections, `get_db`) is not modelled: a
    `Store` object holds both tables as sequences in insertion order. */
module Database {
  import opened Wrappers
  import opened Errors
  import opened Schemas

  /** A row of `users`. */
  datatype User = User(id: int, username: string, passwordHash: string)

  /** A row of `meal_history`. `userId` is a nullable foreign key to `users.id`, so anonymous meals
      are allowed; `prediction` is a nullable column. */
  datatype MealHistory = MealHistory(
    id: int,
    userId: Option<int>,
    mealName: string,
    columns: NutrientColumns,
    prediction: Option<real>,
    createdAt: Timestamp
  )

  /** The nutrient columns' default values: every one is 0.0. */
  const ZeroColumns: NutrientColumns := NutrientColumns(
    0.0, 0.0, 0.0, 0.0, 0.0, 0.0, 0.0, 0.0, 0.0, 0.0, 0.0, 0.0, 0.0, 0.0,
    0.0, 0.0, 0.0, 0.0, 0.0, 0.0, 0.0, 0.0, 0.0, 0.0, 0.0, 0.0, 0.0, 0.0)

  // ---- Primary keys ----

  /** The largest id, or 0 for an empty table. */
  function MaxId(ids: seq<int>): int {
    if |ids| == 0 then 0
    else
      var rest := MaxId(ids[1..]);
      if ids[0] > rest then ids[0] else rest
  }

  lemma {:induction false} MaxIdBounds(ids: seq<int>)
    ensures MaxId(ids) >= 0
    ensures forall i :: 0 <= i < |ids| ==> ids[i] <= MaxId(ids)
  {
    if |ids| > 0 {
      MaxIdBounds(ids[1..]);
      assert forall i :: 1 <= i < |ids| ==> ids[i] == ids[1..][i - 1];
    }
  }

  function UserIds(users: seq<User>): seq<int> {
    seq(|users|, i requires 0 <= i < |users| => users[i].id)
  }

  function MealIds(meals: seq<MealHistory>): seq<int> {
    seq(|meals|, i requires 0 <= i < |meals| => meals[i].id)
  }

  /** The id SQLite gives the next `users` row: one more than the largest id in the table (1 when
      it is empty). It is positive and differs from every id already there. */
  function NextUserId(users: seq<User>): (id: int)
    ensures id >= 1
    ensures forall i :: 0 <= i < |users| ==> users[i].id < id
  {
    MaxIdBounds(UserIds(users));
    assert forall i :: 0 <= i < |users| ==> UserIds(users)[i] == users[i].id;
    MaxId(UserIds(users)) + 1
  }

  /** The id SQLite gives the next `meal_history` row. */
  function NextMealId(meals: seq<MealHistory>): (id: int)
    ensures id >= 1
    ensures forall i :: 0 <= i < |meals| ==> meals[i].id < id
  {
    MaxIdBounds(MealIds(meals));
    assert forall i :: 0 <= i < |meals| ==> MealIds(meals)[i] == meals[i].id;
    MaxId(MealIds(meals)) + 1
  }

  // ---- Constraints ----

  /** `id` is the primary key of `users`. */
  predicate UniqueUserIds(users: seq<User>) {
    forall i, j :: 0 <= i < j < |users| ==> users[i].id != users[j].id
  }

  /** `username` is UNIQUE: at most one user per username. */
  predicate UniqueUsernames(users: seq<User>) {
    forall i, j :: 0 <= i < j < |users| ==> users[i].username != users[j].username
  }

  /** `id` is the primary key of `meal_history`. */
  predicate UniqueMealIds(meals: seq<MealHistory>) {
    forall i, j :: 0 <= i < j < |meals| ==> meals[i].id != meals[j].id
  }

  /** What the database itself enforces. */
  predicate Constraints(users: seq<User>, meals: seq<MealHistory>) {
    UniqueUserIds(users) && UniqueUsernames(users) && UniqueMealIds(meals)
  }

  predicate HasUserId(users: seq<User>, id: int) {
    exists j :: 0 <= j < |users| && users[j].id == id
  }

  /** Every owned meal points at an existing user. SQLite does not enforce foreign keys unless
      asked to, so this is an invariant of the handlers rather than of the store. */
  predicate OwnersExist(users: seq<User>, meals: seq<MealHistory>) {
    forall i :: 0 <= i < |meals| && meals[i].userId.Some? ==> HasUserId(users, meals[i].userId.value)
  }

  /** Every meal carries a prediction: the only writer of `meal_history` always fills it. */
  predicate AllPredicted(meals: seq<MealHistory>) {
    forall i :: 0 <= i < |meals| ==> meals[i].prediction.Some?
  }

  /** Meals are kept in ascending id order, oldest first. */
  predicate IdsAscending(meals: seq<MealHistory>) {
    forall i, j :: 0 <= i < j < |meals| ==> meals[i].id < meals[j].id
  }

  /** Everything that holds of the tables in every state the handlers can reach. */
  predicate Consistent(users: seq<User>, meals: seq<MealHistory>) {
    Constraints(users, meals) && OwnersExist(users, meals) && AllPredicted(meals) && IdsAscending(meals)
  }

  // ---- Queries ----

  /** `query(User).filter(User.username == name).first()`: the earliest user with that name. */
  function First(users: seq<User>, name: string): (r: Option<User>)
    ensures r.None? <==> forall i :: 0 <= i < |users| ==> users[i].username != name
    ensures r.Some? ==> exists k :: 0 <= k < |users| && users[k] == r.value && r.value.username == name &&
                                    forall j :: 0 <= j < k ==> users[j].username != name
  {
    if |users| == 0 then None
    else if users[0].username == name then Some(users[0])
    else
      var r := First(users[1..], name);
      assert forall i :: 1 <= i < |users| ==> users[i] == users[1..][i - 1];
      r
  }

  /** `query(User).filter(User.username == name)`: every user with that name, in table order. */
  function Matching(users: seq<User>, name: string): (r: seq<User>)
    ensures forall u :: u in r <==> u in users && u.username == name
    ensures |r| == 0 <==> forall i :: 0 <= i < |users| ==> users[i].username != name
  {
    if |users| == 0 then []
    else
      var rest := Matching(users[1..], name);
      assert forall u :: u in users <==> u == users[0] || u in users[1..];
      if users[0].username == name then [users[0]] + rest else rest
  }

  /** `query(User).filter(User.username == name).one_or_none()`: raises when several users match. */
  function OneOrNone(users: seq<User>, name: string): Result<Option<User>, Failure> {
    var m := Matching(users, name);
    if |m| == 0 then Success(None)
    else if |m| == 1 then Success(Some(m[0]))
    else Failure(MultipleResultsFound)
  }

  /** The user's `meals` relationship, and equally `query(MealHistory).filter(user_id == id).all()`:
      exactly the rows owned by `userId`, in table order. */
  function OwnedBy(meals: seq<MealHistory>, userId: int): (r: seq<MealHistory>)
    ensures forall m :: m in r <==> m in meals && m.userId == Some(userId)
    ensures |r| == 0 <==> forall i :: 0 <= i < |meals| ==> meals[i].userId != Some(userId)
    ensures |r| <= |meals|
  {
    if |meals| == 0 then []
    else
      var rest := OwnedBy(meals[1..], userId);
      assert forall m :: m in meals <==> m == meals[0] || m in meals[1..];
      if meals[0].userId == Some(userId) then [meals[0]] + rest else rest
  }

  /** Reading a row as the `MealOut` response model; a row without a prediction does not validate. */
  function ToMealOut(row: MealHistory): (o: Option<MealOut>)
    ensures o.Some? <==> row.prediction.Some?
    ensures o.Some? ==> o.value.id == row.id && o.value.userId == row.userId &&
                        o.value.mealName == row.mealName && o.value.columns == row.columns &&
                        Some(o.value.prediction) == row.prediction && o.value.createdAt == row.createdAt
  {
    match row.prediction
    case None => None
    case Some(p) => Some(MealOut(row.id, row.userId, row.mealName, row.columns, p, row.createdAt))
  }

  /** Validating a list of rows against `List[MealOut]`: fails on the first row without a
      prediction, otherwise converts every row, in order. */
  function Serialize(rows: seq<MealHistory>): (r: Result<seq<MealOut>, Failure>)
    ensures r.Success? <==> forall i :: 0 <= i < |rows| ==> rows[i].prediction.Some?
    ensures r.Failure? ==> r.error == ResponseValidation
    ensures r.Success? ==>
              |r.value| == |rows| && forall i :: 0 <= i < |rows| ==> ToMealOut(rows[i]) == Some(r.value[i])
  {
    if |rows| == 0 then Success([])
    else
      assert forall i :: 1 <= i < |rows| ==> rows[i] == rows[1..][i - 1];
      match ToMealOut(rows[0])
      case None => Failure(ResponseValidation)
      case Some(out) =>
        var rest := Serialize(rows[1..]);
        if rest.Failure? then rest else Success([out] + rest.value)
  }

  // ---- Properties of the tables ----

  /** Under the UNIQUE constraint, `one_or_none()` never raises and agrees with `first()`. */
  lemma OneOrNoneIsFirst(users: seq<User>, name: string)
    requires UniqueUsernames(users)
    ensures OneOrNone(users, name) == Success(First(users, name))
  {
    MatchingDistinct(users, name);
    var m := Matching(users, name);
    if |m| == 1 {
      assert m[0] in m;
      UniqueNameIsFirst(users, name, m[0]);
    }
  }

  /** A user matching a unique name is the first user with that name. */
  lemma UniqueNameIsFirst(users: seq<User>, name: string, u: User)
    requires UniqueUsernames(users)
    requires u in users && u.username == name
    ensures First(users, name) == Some(u)
  {
  }

  /** Under the UNIQUE constraint at most one user matches a name. */
  lemma {:induction false} MatchingDistinct(users: seq<User>, name: string)
    requires UniqueUsernames(users)
    ensures |Matching(users, name)| <= 1
  {
    if |users| > 0 {
      var tail := users[1..];
      assert UniqueUsernames(tail);
      MatchingDistinct(tail, name);
      if users[0].username == name {
        forall i | 0 <= i < |tail| ensures tail[i].username != name {
          assert tail[i] == users[i + 1];
        }
      }
    }
  }

  /** A meal appended to the table joins its owner's history at the end and no one else's. */
  lemma {:induction false} OwnedByAppend(meals: seq<MealHistory>, row: MealHistory, userId: int)
    ensures OwnedBy(meals + [row], userId) ==
            OwnedBy(meals, userId) + (if row.userId == Some(userId) then [row] else [])
  {
    if |meals| > 0 {
      assert (meals + [row])[1..] == meals[1..] + [row];
      OwnedByAppend(meals[1..], row, userId);
    } else {
      assert meals + [row] == [row];
    }
  }

  /** A user's history keeps the table's ascending id order: oldest first. */
  lemma {:induction false} OwnedByAscending(meals: seq<MealHistory>, userId: int)
    requires IdsAscending(meals)
    ensures IdsAscending(OwnedBy(meals, userId))
  {
    if |meals| > 0 {
      assert IdsAscending(meals[1..]);
      OwnedByAscending(meals[1..], userId);
      var rest := OwnedBy(meals[1..], userId);
      forall k | 0 <= k < |rest| ensures meals[0].id < rest[k].id {
        assert rest[k] in meals[1..];
      }
    }
  }

  /** Every row of a consistent table validates against `List[MealOut]`. */
  lemma OwnedBySerializes(meals: seq<MealHistory>, userId: int)
    requires AllPredicted(meals)
    ensures Serialize(OwnedBy(meals, userId)).Success?
  {
    var rows := OwnedBy(meals, userId);
    forall i | 0 <= i < |rows| ensures rows[i].prediction.Some? {
      assert rows[i] in meals;
    }
  }

  /** Serialization keeps each row's id and owner, in order. */
  lemma SerializeKeepsKeys(rows: seq<MealHistory>)
    requires Serialize(rows).Success?
    ensures forall i :: 0 <= i < |rows| ==>
              Serialize(rows).value[i].id == rows[i].id && Serialize(rows).value[i].userId == rows[i].userId
  {
    var out := Serialize(rows).value;
    forall i | 0 <= i < |rows| ensures out[i].id == rows[i].id && out[i].userId == rows[i].userId {
      assert ToMealOut(rows[i]) == Some(out[i]);
    }
  }

  /** A single predicted row serializes to its record. */
  lemma SerializeOne(row: MealHistory)
    requires row.prediction.Some?
    ensures Serialize([row]) == Success([ToMealOut(row).value])
  {
    assert [row][1..] == [];
    assert Serialize([row][1..]) == Success([]);
    var out := ToMealOut(row).value;
    assert [out] + [] == [out];
  }

  /** Tables the handlers have not yet written to. */
  lemma EmptyTablesConsistent()
    ensures Consistent([], [])
  {
  }

  /** The session the handlers share: both tables, updated in place by `db.add` and `db.commit`. */
  class Store {
    var users: seq<User>
    var meals: seq<MealHistory>

    ghost predicate Valid()
      reads this
    {
      Constraints(users, meals)
    }

    constructor ()
      ensures Valid() && users == [] && meals == []
    {
      users := [];
      meals := [];
    }

    /** `db.add(User(username=…, password_hash=…)); db.commit()`: the commit is refused when the
        username is taken; otherwise the row is stored under a fresh id. */
    method AddUser(username: string, passwordHash: string) returns (r: Result<User, Failure>)
      requires Valid()
      modifies this
      ensures Valid() && meals == old(meals)
      ensures First(old(users), username).Some? ==> r == Failure(IntegrityError) && users == old(users)
      ensures First(old(users), username).None? ==>
                r == Success(User(NextUserId(old(users)), username, passwordHash)) &&
                users == old(users) + [r.value]
    {
      if First(users, username).Some? {
        r := Failure(IntegrityError);
        return;
      }
      var u := User(NextUserId(users), username, passwordHash);
      users := users + [u];
      r := Success(u);
    }

    /** `db.add(MealHistory(…)); db.commit(); db.refresh(…)`: the row is stored under a fresh id,
        which the refreshed row carries. */
    method AddMeal(userId: Option<int>, mealName: string, columns: NutrientColumns,
                   prediction: Option<real>, createdAt: Timestamp) returns (row: MealHistory)
      requires Valid()
      modifies this
      ensures Valid() && users == old(users)
      ensures row == MealHistory(NextMealId(old(meals)), userId, mealName, columns, prediction, createdAt)
      ensures meals == old(meals) + [row]
    {
      row := MealHistory(NextMealId(meals), userId, mealName, columns, prediction, createdAt);
      meals := meals + [row];
    }
  }
}
