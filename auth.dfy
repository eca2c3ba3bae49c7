/** The authentication routes (backend/routes/auth.py): registration inserts into the users table,
    whose usernames are unique; login is a read-only credential check that issues a token. */
module Auth {
  import opened Wrappers
  import opened Errors
  import opened Schemas
  import opened Database
  import opened Collaborators

  const RegisteredMessage: string := "User registered successfully"

  /** The row `register` stores for `u`: the password is stored only as its hash. */
  function NewUser(users: seq<User>, u: UserCreate, env: Env): User {
    User(NextUserId(users), u.username, env.hashPassword(u.password))
  }

  /** What `register` answers, and the users table afterwards. */
  function RegisterSpec(users: seq<User>, u: UserCreate, env: Env): (Result<string, Failure>, seq<User>) {
    if First(users, u.username).Some? then (Failure(UsernameTaken), users)
    else (Success(RegisteredMessage), users + [NewUser(users, u, env)])
  }

  /** `POST /auth/register`. */
  method Register(db: Store, u: UserCreate, env: Env) returns (r: Result<string, Failure>)
    requires db.Valid()
    modifies db
    ensures db.Valid()
    ensures db.meals == old(db.meals)
    ensures (r, db.users) == RegisterSpec(old(db.users), u, env)
  {
    var existing := First(db.users, u.username);
    if existing.Some? {
      r := Failure(UsernameTaken);
      return;
    }
    var added := db.AddUser(u.username, env.hashPassword(u.password));
    if added.Failure? {
      // the check above rules out the UNIQUE violation
      assert false;
    }
    r := Success(RegisteredMessage);
  }

  /** `POST /auth/login`. The handler reads the body as a `UserCreate`. */
  function Login(users: seq<User>, u: UserCreate, env: Env): (r: Result<Token, Failure>)
    ensures r.Failure? ==> r.error == InvalidCredentials
  {
    var dbUser := First(users, u.username);
    if dbUser.None? || !env.verifyPassword(u.password, dbUser.value.passwordHash) then
      Failure(InvalidCredentials)
    else
      Success(Token(env.createAccessToken(dbUser.value.username), "bearer"))
  }

  // ---- Properties of registration ----

  /** A taken username is refused with 400 and the table is left as it was; a free one gains
      exactly one row, holding the username, the hash of the password and a fresh id. */
  lemma {:induction false} RegisterVerdict(users: seq<User>, u: UserCreate, env: Env)
    ensures (exists k :: 0 <= k < |users| && users[k].username == u.username) ==>
              RegisterSpec(users, u, env) == (Failure(UsernameTaken), users)
    ensures (forall k :: 0 <= k < |users| ==> users[k].username != u.username) ==>
              var (r, users') := RegisterSpec(users, u, env);
              r == Success(RegisteredMessage) && |users'| == |users| + 1 && users'[..|users|] == users &&
              users'[|users|].username == u.username &&
              users'[|users|].passwordHash == env.hashPassword(u.password) &&
              forall k :: 0 <= k < |users| ==> users[k].id != users'[|users|].id
  {
    var (r, users') := RegisterSpec(users, u, env);
    if First(users, u.username).None? {
      assert users'[..|users|] == users;
    }
  }

  /** Registration keeps every table invariant: ids and usernames stay unique, and the owners of
      existing meals still exist. */
  lemma {:induction false} RegisterPreservesConsistency(users: seq<User>, meals: seq<MealHistory>, u: UserCreate, env: Env)
    requires Consistent(users, meals)
    ensures Consistent(RegisterSpec(users, u, env).1, meals)
  {
    var users' := RegisterSpec(users, u, env).1;
    if First(users, u.username).None? {
      forall i | 0 <= i < |meals| && meals[i].userId.Some?
        ensures HasUserId(users', meals[i].userId.value)
      {
        var j :| 0 <= j < |users| && users[j].id == meals[i].userId.value;
        assert users'[j] == users[j];
      }
    }
  }

  /** Registering the same username twice: the second attempt fails with 400 and leaves the table
      exactly as the first left it. */
  lemma RegisterTwice(users: seq<User>, u: UserCreate, v: UserCreate, env: Env)
    requires RegisterSpec(users, u, env).0.Success?
    requires v.username == u.username
    ensures var users' := RegisterSpec(users, u, env).1;
            RegisterSpec(users', v, env) == (Failure(UsernameTaken), users')
  {
    var users' := RegisterSpec(users, u, env).1;
    assert users'[|users|].username == v.username;
  }

  // ---- Properties of login ----

  /** Under unique usernames, login succeeds exactly when some user has the given name and the
      password verifies against that user's stored hash, and then it issues the token for that
      username with type "bearer". An unknown name and a wrong password give the same 401. */
  lemma {:induction false} LoginVerdict(users: seq<User>, u: UserCreate, env: Env)
    requires UniqueUsernames(users)
    ensures Login(users, u, env).Success? <==>
              exists k :: 0 <= k < |users| && users[k].username == u.username &&
                          env.verifyPassword(u.password, users[k].passwordHash)
    ensures Login(users, u, env).Success? ==>
              Login(users, u, env).value == TokenFrom(env.createAccessToken(u.username), Some("bearer"))
    ensures Login(users, u, env).Failure? ==> Login(users, u, env) == Failure(InvalidCredentials)
  {
    if exists k :: 0 <= k < |users| && users[k].username == u.username &&
                   env.verifyPassword(u.password, users[k].passwordHash) {
      var k :| 0 <= k < |users| && users[k].username == u.username &&
               env.verifyPassword(u.password, users[k].passwordHash);
      UniqueNameIsFirst(users, u.username, users[k]);
    }
  }

  /** After a successful registration, logging in with the same username and password succeeds,
      given the hashing library's contract that a password verifies against its own hash. */
  lemma {:induction false} LoginAfterRegister(users: seq<User>, u: UserCreate, env: Env)
    requires UniqueUsernames(users)
    requires HashingSound(env)
    requires RegisterSpec(users, u, env).0.Success?
    ensures Login(RegisterSpec(users, u, env).1, u, env) ==
              Success(Token(env.createAccessToken(u.username), "bearer"))
  {
    var users' := RegisterSpec(users, u, env).1;
    var added := NewUser(users, u, env);
    assert users'[|users|] == added;
    assert UniqueUsernames(users');
    UniqueNameIsFirst(users', u.username, added);
    assert env.verifyPassword(u.password, env.hashPassword(u.password));
  }
}
