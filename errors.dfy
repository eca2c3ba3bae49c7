/** What a request can fail with: the `HTTPException`s the handlers raise and the exceptions that
    escape from the database layer or the interpreter (all of which reach the client as a 500). */
module Errors {

  datatype Failure =
    | HttpError(status: int, detail: string)  // `raise HTTPException(status_code, detail)`
    | IntegrityError                          // commit refused by the UNIQUE constraint on users.username
    | MultipleResultsFound                    // `one_or_none()` met more than one row
    | UnboundLocal(name: string)              // Python `UnboundLocalError` on reading an unassigned local
    | ResponseValidation                      // a row that does not validate against the `response_model`

  /** `register` on a taken username (backend/routes/auth.py:17). */
  const UsernameTaken: Failure := HttpError(400, "Username already exists")

  /** `login` on an unknown username or a wrong password (backend/routes/auth.py:29). */
  const InvalidCredentials: Failure := HttpError(401, "Invalid credentials")

  /** `predict_meal` with a rejected bearer token (backend/routes/predictor.py:37). */
  const InvalidToken: Failure := HttpError(401, "Invalid or expired token")

  /** `predict_meal` when the regression model raises `e` (backend/routes/predictor.py:63). */
  function PredictionFailed(e: string): Failure {
    HttpError(500, "Model prediction failed: " + e)
  }
}
