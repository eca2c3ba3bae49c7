/** The request and response records of the API (backend/schemas.py) and the nutrient vocabulary
    they share. Nutrient quantities are only copied or defaulted, never computed with, so they are
    modelled as `real`. */
module Schemas {
  import opened Wrappers

  /** A point in time (`datetime`), as an uninterpreted number. */
  type Timestamp = int

  /** Every nutrient field of `MealCreate`, in declaration order. The names follow the source's
      fields, including its spelling `Phosporus`. */
  datatype Nutrient =
    | CaloricValue | Carbohydrates
    | Fat | SaturatedFat | MonounsaturatedFat | PolyunsaturatedFat
    | Sugars | Protein | DietaryFiber | Cholesterol | Sodium | Water
    | VitaminA | VitaminB1 | VitaminB11 | VitaminB12 | VitaminB2 | VitaminB3 | VitaminB5 | VitaminB6
    | VitaminC | VitaminD | VitaminE | VitaminK
    | Calcium | Copper | Iron | Magnesium | Manganese | Phosporus | Selenium | Zinc

  /** The four fat fields that `MealCreate` accepts and nothing downstream keeps. */
  predicate IsFatField(n: Nutrient) {
    n == Fat || n == SaturatedFat || n == MonounsaturatedFat || n == PolyunsaturatedFat
  }

  /** The request body of `POST /predict`. Every nutrient is optional. */
  datatype MealCreate = MealCreate(
    mealName: string,
    caloricValue: Option<real>, carbohydrates: Option<real>,
    fat: Option<real>, saturatedFat: Option<real>,
    monounsaturatedFat: Option<real>, polyunsaturatedFat: Option<real>,
    sugars: Option<real>, protein: Option<real>, dietaryFiber: Option<real>,
    cholesterol: Option<real>, sodium: Option<real>, water: Option<real>,
    vitaminA: Option<real>, vitaminB1: Option<real>, vitaminB11: Option<real>, vitaminB12: Option<real>,
    vitaminB2: Option<real>, vitaminB3: Option<real>, vitaminB5: Option<real>, vitaminB6: Option<real>,
    vitaminC: Option<real>, vitaminD: Option<real>, vitaminE: Option<real>, vitaminK: Option<real>,
    calcium: Option<real>, copper: Option<real>, iron: Option<real>, magnesium: Option<real>,
    manganese: Option<real>, phosporus: Option<real>, selenium: Option<real>, zinc: Option<real>
  )

  /** The default of `MealCreate.meal_name`. */
  const DefaultMealName: string := "Manual Entry"

  /** `getattr(meal, n)`: the field of `meal` named by `n`. */
  function Field(meal: MealCreate, n: Nutrient): Option<real> {
    match n
    case CaloricValue => meal.caloricValue
    case Carbohydrates => meal.carbohydrates
    case Fat => meal.fat
    case SaturatedFat => meal.saturatedFat
    case MonounsaturatedFat => meal.monounsaturatedFat
    case PolyunsaturatedFat => meal.polyunsaturatedFat
    case Sugars => meal.sugars
    case Protein => meal.protein
    case DietaryFiber => meal.dietaryFiber
    case Cholesterol => meal.cholesterol
    case Sodium => meal.sodium
    case Water => meal.water
    case VitaminA => meal.vitaminA
    case VitaminB1 => meal.vitaminB1
    case VitaminB11 => meal.vitaminB11
    case VitaminB12 => meal.vitaminB12
    case VitaminB2 => meal.vitaminB2
    case VitaminB3 => meal.vitaminB3
    case VitaminB5 => meal.vitaminB5
    case VitaminB6 => meal.vitaminB6
    case VitaminC => meal.vitaminC
    case VitaminD => meal.vitaminD
    case VitaminE => meal.vitaminE
    case VitaminK => meal.vitaminK
    case Calcium => meal.calcium
    case Copper => meal.copper
    case Iron => meal.iron
    case Magnesium => meal.magnesium
    case Manganese => meal.manganese
    case Phosporus => meal.phosporus
    case Selenium => meal.selenium
    case Zinc => meal.zinc
  }

  /** What the request body gave for `n`: absent, explicit `null`, or a number. */
  function Given(body: map<Nutrient, Option<real>>, n: Nutrient): Option<real> {
    if n in body then body[n] else None
  }

  /** Validation of a request body into `MealCreate`, applying the schema's defaults: `meal_name`
      is "Manual Entry" when absent, and every nutrient absent from `body` is `None`. */
  function MealCreateFrom(name: Option<string>, body: map<Nutrient, Option<real>>): (meal: MealCreate)
    ensures meal.mealName == (if name.Some? then name.value else DefaultMealName)
    ensures forall n :: Field(meal, n) == Given(body, n)
  {
    MealCreate(
      name.GetOr(DefaultMealName),
      Given(body, CaloricValue), Given(body, Carbohydrates),
      Given(body, Fat), Given(body, SaturatedFat),
      Given(body, MonounsaturatedFat), Given(body, PolyunsaturatedFat),
      Given(body, Sugars), Given(body, Protein), Given(body, DietaryFiber),
      Given(body, Cholesterol), Given(body, Sodium), Given(body, Water),
      Given(body, VitaminA), Given(body, VitaminB1), Given(body, VitaminB11), Given(body, VitaminB12),
      Given(body, VitaminB2), Given(body, VitaminB3), Given(body, VitaminB5), Given(body, VitaminB6),
      Given(body, VitaminC), Given(body, VitaminD), Given(body, VitaminE), Given(body, VitaminK),
      Given(body, Calcium), Given(body, Copper), Given(body, Iron), Given(body, Magnesium),
      Given(body, Manganese), Given(body, Phosporus), Given(body, Selenium), Given(body, Zinc))
  }

  /** The 28 nutrients the model reads and the tables keep, in `feature_names` order
      (backend/routes/predictor.py:41-47), which is also the column order of `MealOut`. */
  const FeatureNames: seq<Nutrient> := [
    CaloricValue, Carbohydrates, Sugars, Protein, DietaryFiber, Cholesterol,
    Sodium, Water, VitaminA, VitaminB1, VitaminB11, VitaminB12,
    VitaminB2, VitaminB3, VitaminB5, VitaminB6, VitaminC, VitaminD,
    VitaminE, VitaminK, Calcium, Copper, Iron, Magnesium, Manganese,
    Phosporus, Selenium, Zinc
  ]

  /** The position of `n` in `feature_names`, or -1 for a fat field. */
  function FeatureIndex(n: Nutrient): int {
    match n
    case CaloricValue => 0
    case Carbohydrates => 1
    case Fat => -1
    case SaturatedFat => -1
    case MonounsaturatedFat => -1
    case PolyunsaturatedFat => -1
    case Sugars => 2
    case Protein => 3
    case DietaryFiber => 4
    case Cholesterol => 5
    case Sodium => 6
    case Water => 7
    case VitaminA => 8
    case VitaminB1 => 9
    case VitaminB11 => 10
    case VitaminB12 => 11
    case VitaminB2 => 12
    case VitaminB3 => 13
    case VitaminB5 => 14
    case VitaminB6 => 15
    case VitaminC => 16
    case VitaminD => 17
    case VitaminE => 18
    case VitaminK => 19
    case Calcium => 20
    case Copper => 21
    case Iron => 22
    case Magnesium => 23
    case Manganese => 24
    case Phosporus => 25
    case Selenium => 26
    case Zinc => 27
  }

  /** The 28 stored nutrient values of a meal, none of them optional: the nutrient part of `MealOut`
      and of a `meal_history` row. */
  datatype NutrientColumns = NutrientColumns(
    caloricValue: real, carbohydrates: real, sugars: real, protein: real,
    dietaryFiber: real, cholesterol: real, sodium: real, water: real,
    vitaminA: real, vitaminB1: real, vitaminB11: real, vitaminB12: real,
    vitaminB2: real, vitaminB3: real, vitaminB5: real, vitaminB6: real,
    vitaminC: real, vitaminD: real, vitaminE: real, vitaminK: real,
    calcium: real, copper: real, iron: real, magnesium: real,
    manganese: real, phosporus: real, selenium: real, zinc: real
  )

  /** The column for `n`; the fat nutrients have none. */
  function Column(c: NutrientColumns, n: Nutrient): Option<real> {
    match n
    case CaloricValue => Some(c.caloricValue)
    case Carbohydrates => Some(c.carbohydrates)
    case Fat => None
    case SaturatedFat => None
    case MonounsaturatedFat => None
    case PolyunsaturatedFat => None
    case Sugars => Some(c.sugars)
    case Protein => Some(c.protein)
    case DietaryFiber => Some(c.dietaryFiber)
    case Cholesterol => Some(c.cholesterol)
    case Sodium => Some(c.sodium)
    case Water => Some(c.water)
    case VitaminA => Some(c.vitaminA)
    case VitaminB1 => Some(c.vitaminB1)
    case VitaminB11 => Some(c.vitaminB11)
    case VitaminB12 => Some(c.vitaminB12)
    case VitaminB2 => Some(c.vitaminB2)
    case VitaminB3 => Some(c.vitaminB3)
    case VitaminB5 => Some(c.vitaminB5)
    case VitaminB6 => Some(c.vitaminB6)
    case VitaminC => Some(c.vitaminC)
    case VitaminD => Some(c.vitaminD)
    case VitaminE => Some(c.vitaminE)
    case VitaminK => Some(c.vitaminK)
    case Calcium => Some(c.calcium)
    case Copper => Some(c.copper)
    case Iron => Some(c.iron)
    case Magnesium => Some(c.magnesium)
    case Manganese => Some(c.manganese)
    case Phosporus => Some(c.phosporus)
    case Selenium => Some(c.selenium)
    case Zinc => Some(c.zinc)
  }

  /** The response record of `POST /predict` and of each element of `GET /meals`. */
  datatype MealOut = MealOut(
    id: int,
    userId: Option<int>,
    mealName: string,
    columns: NutrientColumns,
    prediction: real,
    createdAt: Timestamp
  )

  /** The body of `POST /auth/register` (and, in the handler, of `POST /auth/login`). */
  datatype UserCreate = UserCreate(username: string, password: string)

  /** The login schema; it declares the same two fields as `UserCreate`. */
  datatype UserLogin = UserLogin(username: string, password: string)

  function CreateAsLogin(u: UserCreate): UserLogin {
    UserLogin(u.username, u.password)
  }

  function LoginAsCreate(l: UserLogin): UserCreate {
    UserCreate(l.username, l.password)
  }

  /** The response of `POST /auth/login`. */
  datatype Token = Token(accessToken: string, tokenType: string)

  /** Validation of a token response; `token_type` is "bearer" when absent. */
  function TokenFrom(accessToken: string, tokenType: Option<string>): (t: Token)
    ensures t.accessToken == accessToken
    ensures tokenType.None? ==> t.tokenType == "bearer"
    ensures tokenType.Some? ==> t.tokenType == tokenType.value
  {
    Token(accessToken, tokenType.GetOr("bearer"))
  }

  // ---- Properties of the schemas ----

  /** An empty request body is the meal named "Manual Entry" with every nutrient `None`. */
  lemma EmptyBodyDefaults()
    ensures MealCreateFrom(None, map[]).mealName == "Manual Entry"
    ensures forall n :: Field(MealCreateFrom(None, map[]), n) == None
  {
  }

  /** `FeatureIndex` inverts `feature_names`. */
  lemma FeatureIndexInverts()
    ensures forall i :: 0 <= i < |FeatureNames| ==> FeatureIndex(FeatureNames[i]) == i
  {
  }

  /** A nutrient is in `feature_names` exactly when it is not a fat field. */
  lemma {:induction false} InFeatureNames(n: Nutrient)
    ensures n in FeatureNames <==> !IsFatField(n)
  {
    FeatureIndexInverts();
    match n {
      case CaloricValue => assert FeatureNames[0] == n;
      case Carbohydrates => assert FeatureNames[1] == n;
      case Fat =>
      case SaturatedFat =>
      case MonounsaturatedFat =>
      case PolyunsaturatedFat =>
      case Sugars => assert FeatureNames[2] == n;
      case Protein => assert FeatureNames[3] == n;
      case DietaryFiber => assert FeatureNames[4] == n;
      case Cholesterol => assert FeatureNames[5] == n;
      case Sodium => assert FeatureNames[6] == n;
      case Water => assert FeatureNames[7] == n;
      case VitaminA => assert FeatureNames[8] == n;
      case VitaminB1 => assert FeatureNames[9] == n;
      case VitaminB11 => assert FeatureNames[10] == n;
      case VitaminB12 => assert FeatureNames[11] == n;
      case VitaminB2 => assert FeatureNames[12] == n;
      case VitaminB3 => assert FeatureNames[13] == n;
      case VitaminB5 => assert FeatureNames[14] == n;
      case VitaminB6 => assert FeatureNames[15] == n;
      case VitaminC => assert FeatureNames[16] == n;
      case VitaminD => assert FeatureNames[17] == n;
      case VitaminE => assert FeatureNames[18] == n;
      case VitaminK => assert FeatureNames[19] == n;
      case Calcium => assert FeatureNames[20] == n;
      case Copper => assert FeatureNames[21] == n;
      case Iron => assert FeatureNames[22] == n;
      case Magnesium => assert FeatureNames[23] == n;
      case Manganese => assert FeatureNames[24] == n;
      case Phosporus => assert FeatureNames[25] == n;
      case Selenium => assert FeatureNames[26] == n;
      case Zinc => assert FeatureNames[27] == n;
    }
  }

  /** `feature_names` lists 28 distinct nutrients, exactly the ones that are not fat fields. */
  lemma {:induction false} FeatureNamesAreTheNonFat()
    ensures |FeatureNames| == 28
    ensures forall i, j :: 0 <= i < j < |FeatureNames| ==> FeatureNames[i] != FeatureNames[j]
    ensures forall n :: n in FeatureNames <==> !IsFatField(n)
  {
    FeatureIndexInverts();
    forall n ensures n in FeatureNames <==> !IsFatField(n) {
      InFeatureNames(n);
    }
  }

  /** Only the four fat fields lack a column. */
  lemma ColumnMissingOnlyForFat(c: NutrientColumns, n: Nutrient)
    ensures Column(c, n).Some? <==> !IsFatField(n)
  {
  }

  /** The nutrients with a stored column are exactly the 28 of `feature_names`: the four fat
      fields of `MealCreate` are never stored or returned. */
  lemma {:induction false} ColumnsAreTheFeatures(c: NutrientColumns, n: Nutrient)
    ensures Column(c, n).Some? <==> n in FeatureNames
    ensures IsFatField(n) ==> Column(c, n) == None
  {
    InFeatureNames(n);
    ColumnMissingOnlyForFat(c, n);
  }

  /** The two credential schemas carry the same fields. */
  lemma CredentialSchemasAgree(u: UserCreate, l: UserLogin)
    ensures LoginAsCreate(CreateAsLogin(u)) == u
    ensures CreateAsLogin(LoginAsCreate(l)) == l
  {
  }
}
