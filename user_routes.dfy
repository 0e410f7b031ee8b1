/** The `/users` routes: registration with its duplicate-email check, login,
    updating the current user's names and skills, and reading the stored
    progress map. Hashing, password checks and token signing are oracles. */
module UserRoutes {
  import opened Outcomes
  import opened Seqs
  import opened Dates
  import opened Schema

  /** The `UserCreate` body: the public fields and the plain password. */
  datatype UserCreate = UserCreate(email: string, username: string, fullName: string, password: string)

  /** The `User` response model: every column but `hashed_password`. */
  datatype PublicUser = PublicUser(
    id: Uuid,
    email: string,
    username: string,
    fullName: string,
    isActive: bool,
    createdAt: DateTime,
    skills: seq<string>,
    progress: map<string, string>,
    preferences: map<string, string>)

  /** The login response. */
  datatype Token = Token(accessToken: string, tokenType: string)

  function UserEmail(u: UserRow): string { u.email }

  function PublicOf(u: UserRow): PublicUser
  {
    PublicUser(u.id, u.email, u.username, u.fullName, u.isActive, u.createdAt, u.skills, u.progress, u.preferences)
  }

  // ---------------------------------------------------------------------
  // POST /users/register

  /** The `UserInDB` row built from the body: the defaults of the model and the
      password hash in place of the password. */
  function NewUserRow(form: UserCreate, hashedPassword: string, id: Uuid, now: DateTime): UserRow
  {
    UserRow(id, form.email, form.username, form.fullName, hashedPassword, now, true, [], map[], map[])
  }

  /** 400 and no write when a row already has the email; otherwise one new row
      holding the hashed password, and the public view of it is returned. */
  method RegisterUser(db: Store, form: UserCreate, hash: string -> string, freshId: Uuid, now: DateTime)
    returns (r: Result<PublicUser>)
    requires db.Valid()
    modifies db`users
    ensures HasKey(old(db.users), UserEmail, form.email) ==>
      r == Err(HttpError(400, "Email already registered")) && db.users == old(db.users)
    ensures !HasKey(old(db.users), UserEmail, form.email) ==>
      && db.users == PutRow(old(db.users), UserKey, NewUserRow(form, hash(form.password), freshId, now))
      && r == Ok(PublicOf(NewUserRow(form, hash(form.password), freshId, now)))
    ensures db.Valid()
  {
    var existing := FirstMatch(db.users, (u: UserRow) => u.email == form.email);
    if existing.Some? {
      return Err(HttpError(400, "Email already registered"));
    }
    assert !HasKey(db.users, UserEmail, form.email) by {
      forall i | 0 <= i < |db.users| ensures UserEmail(db.users[i]) != form.email {
        assert !((u: UserRow) => u.email == form.email)(db.users[i]);
      }
    }
    var row := NewUserRow(form, hash(form.password), freshId, now);
    db.users := PutRow(db.users, UserKey, row);
    r := Ok(PublicOf(row));
  }

  /** Since a taken email is refused, registration keeps emails unique. */
  lemma RegistrationKeepsEmailsUnique(users: seq<UserRow>, row: UserRow)
    requires UniqueBy(users, UserKey)
    requires UniqueBy(users, UserEmail)
    requires !HasKey(users, UserEmail, row.email)
    ensures UniqueBy(PutRow(users, UserKey, row), UserEmail)
  {
    var r := PutRow(users, UserKey, row);
    if HasKey(users, UserKey, row.id) {
      assert |r| == |users|;
      assert forall i :: 0 <= i < |users| ==> r[i] == if UserKey(users[i]) == UserKey(row) then row else users[i];
      forall i, j | 0 <= i < j < |r| ensures UserEmail(r[i]) != UserEmail(r[j]) {
        if UserKey(users[i]) == row.id {
          assert UserKey(users[j]) != row.id;
          assert UserEmail(users[j]) != row.email;
        } else if UserKey(users[j]) == row.id {
          assert UserEmail(users[i]) != row.email;
        }
      }
    } else {
      assert r == users + [row];
      forall i, j | 0 <= i < j < |r| ensures UserEmail(r[i]) != UserEmail(r[j]) {
        if j == |users| {
          assert UserEmail(users[i]) != row.email;
        }
      }
    }
  }

  // ---------------------------------------------------------------------
  // POST /users/token

  /** `SELECT * FROM users WHERE username = %s` + `.one()`. */
  function FindByUsername(users: seq<UserRow>, username: string): Option<UserRow>
  {
    FirstMatch(users, (u: UserRow) => u.username == username)
  }

  /** `verify` checks a password against a stored hash; `sign` makes a token
      for a subject with an expiry in minutes. */
  function Login(users: seq<UserRow>, username: string, password: string,
                 verify: (string, string) -> bool, sign: (string, nat) -> string): Result<Token>
  {
    match FindByUsername(users, username)
    case None => Err(HttpError(401, "Incorrect username or password"))
    case Some(user) =>
      if !verify(password, user.hashedPassword) then Err(HttpError(401, "Incorrect username or password"))
      else Ok(Token(sign(user.username, 30), "bearer"))
  }

  /** Login fails with 401 when no row has the username or the password does
      not verify against the first such row's hash; otherwise the bearer token
      is signed for that username with a 30-minute expiry. */
  lemma {:induction false} LoginOutcome(users: seq<UserRow>, username: string, password: string,
                     verify: (string, string) -> bool, sign: (string, nat) -> string)
    ensures var r := Login(users, username, password, verify, sign);
      && ((forall i :: 0 <= i < |users| ==> users[i].username != username) ==>
            r == Err(HttpError(401, "Incorrect username or password")))
      && (r.Ok? <==> exists i :: 0 <= i < |users| && users[i].username == username
                                 && verify(password, users[i].hashedPassword)
                                 && forall j :: 0 <= j < i ==> users[j].username != username)
      && (r.Ok? ==> r.value == Token(sign(username, 30), "bearer"))
      && (r.Err? ==> r.error == HttpError(401, "Incorrect username or password"))
  {
    var p := (u: UserRow) => u.username == username;
    var k := FirstIndex(users, p);
    if k.Some? {
      var i0 := k.value;
      assert FindByUsername(users, username) == Some(users[i0]);
      assert users[i0].username == username;
      assert forall j :: 0 <= j < i0 ==> users[j].username != username by {
        forall j | 0 <= j < i0 ensures users[j].username != username {
          assert !p(users[j]);
        }
      }
      FirstHolderIsUnique(users, username, i0);
    } else {
      forall i | 0 <= i < |users| ensures users[i].username != username {
        assert !p(users[i]);
      }
    }
  }

  /** The first row with a username is the only row with it and none before. */
  lemma {:induction false} FirstHolderIsUnique(users: seq<UserRow>, username: string, i0: nat)
    requires i0 < |users| && users[i0].username == username
    requires forall j :: 0 <= j < i0 ==> users[j].username != username
    ensures forall i :: 0 <= i < |users| && users[i].username == username ==>
              (forall j :: 0 <= j < i ==> users[j].username != username) ==> i == i0
  {
  }

  // ---------------------------------------------------------------------
  // PUT /users/me and PUT /users/me/skills

  /** `SET email = %s, username = %s, full_name = %s`. */
  function Renamed(update: UserCreate): UserRow -> UserRow
  {
    (u: UserRow) => u.(email := update.email, username := update.username, fullName := update.fullName)
  }

  /** The current user's row gets the new email, username and full name and
      keeps every other column; no other row changes. The response is the
      current user with the update's public fields laid over it. */
  method UpdateUser(db: Store, currentUser: PublicUser, update: UserCreate) returns (r: PublicUser)
    requires db.Valid()
    modifies db`users
    ensures db.users == UpdateWhere(old(db.users), KeyEquals(UserKey, currentUser.id), Renamed(update))
    ensures |db.users| == |old(db.users)|
    ensures forall i :: 0 <= i < |db.users| && old(db.users)[i].id == currentUser.id ==>
      db.users[i] == old(db.users)[i].(email := update.email, username := update.username, fullName := update.fullName)
    ensures forall i :: 0 <= i < |db.users| && old(db.users)[i].id != currentUser.id ==>
      db.users[i] == old(db.users)[i]
    ensures r == currentUser.(email := update.email, username := update.username, fullName := update.fullName)
    ensures db.Valid()
  {
    UpdateWhereKeepsUnique(db.users, UserKey, KeyEquals(UserKey, currentUser.id), Renamed(update));
    db.users := UpdateWhere(db.users, KeyEquals(UserKey, currentUser.id), Renamed(update));
    r := currentUser.(email := update.email, username := update.username, fullName := update.fullName);
  }

  function WithSkills(skills: seq<string>): UserRow -> UserRow
  {
    (u: UserRow) => u.(skills := skills)
  }

  /** The current user's skills list is replaced wholesale; nothing else changes. */
  method UpdateSkills(db: Store, currentUserId: Uuid, skills: seq<string>) returns (message: string)
    requires db.Valid()
    modifies db`users
    ensures db.users == UpdateWhere(old(db.users), KeyEquals(UserKey, currentUserId), WithSkills(skills))
    ensures |db.users| == |old(db.users)|
    ensures forall i :: 0 <= i < |db.users| && old(db.users)[i].id == currentUserId ==>
      db.users[i] == old(db.users)[i].(skills := skills)
    ensures forall i :: 0 <= i < |db.users| && old(db.users)[i].id != currentUserId ==>
      db.users[i] == old(db.users)[i]
    ensures message == "Skills updated successfully"
    ensures db.Valid()
  {
    UpdateWhereKeepsUnique(db.users, UserKey, KeyEquals(UserKey, currentUserId), WithSkills(skills));
    db.users := UpdateWhere(db.users, KeyEquals(UserKey, currentUserId), WithSkills(skills));
    message := "Skills updated successfully";
  }

  // ---------------------------------------------------------------------
  // GET /users/me/progress

  function GetProgress(users: seq<UserRow>, currentUserId: Uuid): map<string, string>
  {
    match FindUser(users, currentUserId)
    case Some(user) => user.progress
    case None => map[]
  }

  /** The stored progress map of the current user's row, or an empty map when
      there is no such row. */
  lemma GetProgressIsStoredMap(users: seq<UserRow>, currentUserId: Uuid)
    requires UniqueBy(users, UserKey)
    ensures forall i :: 0 <= i < |users| && users[i].id == currentUserId ==>
      GetProgress(users, currentUserId) == users[i].progress
    ensures (forall i :: 0 <= i < |users| ==> users[i].id != currentUserId) ==>
      GetProgress(users, currentUserId) == map[]
  {
    FindUserUnique(users, currentUserId);
  }
}
