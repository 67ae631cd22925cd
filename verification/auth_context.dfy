/** The authentication provider: the signed-in user, the copy of it kept in
    the browser's storage under `pharmacy_user`, and the `users` relation
    that sign-in reads and registration writes. */
module AuthContext {
  import opened Wrappers

  /** The session user: the `users` row without its password hash. */
  datatype User = User(id: string, email: string, createdAt: string, updatedAt: string)

  /** A row of the `users` relation. */
  datatype UserRow = UserRow(id: string, email: string, hashedPassword: string, createdAt: string, updatedAt: string)

  datatype AuthResult = Success | Failure(error: string)

  /** What the insert of a new account reports: an error, no row back, or
      the new row's id. */
  datatype InsertOutcome = InsertFailed | InsertedNothing | Inserted(id: string)

  const DatabaseError := "Database error occurred"
  const InvalidCredentials := "Invalid email or password"
  const DuplicateAccount := "An account with this email already exists"
  const CreateFailed := "Failed to create account"

  function SessionUser(row: UserRow): (u: User)
    ensures u.id == row.id && u.email == row.email
    ensures u.createdAt == row.createdAt && u.updatedAt == row.updatedAt
  {
    User(row.id, row.email, row.createdAt, row.updatedAt)
  }

  /** `eq('email', email).limit(1)`: the first row with that email. */
  function FindByEmail(users: seq<UserRow>, email: string): (r: Option<nat>)
    ensures r.None? <==> forall i :: 0 <= i < |users| ==> users[i].email != email
    ensures r.Some? ==> r.value < |users| && users[r.value].email == email
    ensures r.Some? ==> forall i :: 0 <= i < r.value ==> users[i].email != email
  {
    if users == [] then None
    else if users[0].email == email then Some(0)
    else
      match FindByEmail(users[1..], email)
      case None => None
      case Some(i) => Some(i + 1)
  }

  /** `update({ updated_at: now }).eq('id', id)`: every row with that id gets
      the new time; nothing else changes. */
  function StampById(users: seq<UserRow>, id: string, now: string): (r: seq<UserRow>)
    ensures |r| == |users|
    ensures forall i :: 0 <= i < |users| ==>
      r[i] == if users[i].id == id then users[i].(updatedAt := now) else users[i]
  {
    seq(|users|, i requires 0 <= i < |users| => if users[i].id == id then users[i].(updatedAt := now) else users[i])
  }

  /** No two rows share an email. */
  ghost predicate EmailsDistinct(users: seq<UserRow>)
  {
    forall i, j :: 0 <= i < j < |users| ==> users[i].email != users[j].email
  }

  /** Stamping a sign-in time moves no row and changes no email, so every
      email lookup finds the same row as before. */
  lemma StampKeepsLookups(users: seq<UserRow>, id: string, now: string, email: string)
    ensures FindByEmail(StampById(users, id, now), email) == FindByEmail(users, email)
    ensures EmailsDistinct(users) ==> EmailsDistinct(StampById(users, id, now))
  {
  }

  /** A row appended for an email that is not yet taken keeps the emails
      distinct. */
  lemma AppendNewEmail(users: seq<UserRow>, row: UserRow)
    requires FindByEmail(users, row.email).None?
    ensures EmailsDistinct(users) ==> EmailsDistinct(users + [row])
  {
  }

  /** A lookup of an email that was not taken finds exactly the row
      appended for it. */
  lemma AppendedEmailFound(users: seq<UserRow>, row: UserRow)
    requires FindByEmail(users, row.email).None?
    ensures FindByEmail(users + [row], row.email) == Some(|users|)
  {
    var all := users + [row];
    assert all[|users|].email == row.email;
    assert forall i :: 0 <= i < |users| ==> all[i].email != row.email;
  }

  /** The provider's state. `storedUser` is the `pharmacy_user` entry of the
      browser's storage (None when absent). */
  class AuthProvider {
    var user: Option<User>
    var loading: bool
    var storedUser: Option<User>
    var users: seq<UserRow>

    /** A signed-in user is always the stored one; once loading is over the
        two agree even when nobody is signed in. */
    ghost predicate Valid()
      reads this
    {
      && (user.Some? ==> user == storedUser)
      && (!loading ==> user == storedUser)
    }

    /** Mounting: nobody signed in yet, still loading. */
    constructor (stored: Option<User>, table: seq<UserRow>)
      ensures Valid()
      ensures user.None? && loading
      ensures storedUser == stored && users == table
    {
      user := None;
      loading := true;
      storedUser := stored;
      users := table;
    }

    /** The mount effect: a stored user becomes the session user; loading ends. */
    method RestoreSession()
      requires Valid()
      modifies this
      ensures Valid()
      ensures !loading
      ensures user == old(storedUser)
      ensures storedUser == old(storedUser) && users == old(users)
    {
      if storedUser.Some? {
        user := storedUser;
      }
      loading := false;
    }

    /** `login`. A failed lookup, an unknown email or a wrong password fails
        with its message and changes nothing. Otherwise the sign-in time is
        written when the store accepts it (`stampWritten`; its error is
        ignored), and the row as it was read becomes the session user and
        the stored user. `matches` is the password check against the hash. */
    method Login(
      email: string, password: string, lookupFailed: bool,
      matches: (string, string) -> bool, now: string, stampWritten: bool)
      returns (result: AuthResult)
      requires Valid()
      modifies this
      ensures Valid()
      ensures loading == old(loading)
      ensures lookupFailed ==> result == Failure(DatabaseError)
      ensures !lookupFailed && FindByEmail(old(users), email).None? ==> result == Failure(InvalidCredentials)
      ensures !lookupFailed && FindByEmail(old(users), email).Some?
              && !matches(password, old(users)[FindByEmail(old(users), email).value].hashedPassword)
              ==> result == Failure(InvalidCredentials)
      ensures result.Failure? ==>
        user == old(user) && storedUser == old(storedUser) && users == old(users)
      ensures result.Success? <==>
        !lookupFailed && FindByEmail(old(users), email).Some?
        && matches(password, old(users)[FindByEmail(old(users), email).value].hashedPassword)
      ensures result.Success? ==>
        var row := old(users)[FindByEmail(old(users), email).value];
        && user == Some(SessionUser(row))
        && user.value.email == email
        && storedUser == user
        && users == (if stampWritten then StampById(old(users), row.id, now) else old(users))
    {
      if lookupFailed {
        return Failure(DatabaseError);
      }
      var found := FindByEmail(users, email);
      if found.None? {
        return Failure(InvalidCredentials);
      }
      var row := users[found.value];
      if !matches(password, row.hashedPassword) {
        return Failure(InvalidCredentials);
      }
      if stampWritten {
        users := StampById(users, row.id, now);
      }
      var info := SessionUser(row);
      user := Some(info);
      storedUser := Some(info);
      result := Success;
    }

    /** `register`. A failed check fails with the database message, a taken
        email with the duplicate message, a failed or empty insert with the
        create message; those change nothing. Otherwise one row holding the
        email, the hash of the password and the current time is added. The
        session is left as it was: registering does not sign in. */
    method Register(
      email: string, password: string, checkFailed: bool,
      hash: string -> string, insert: InsertOutcome, now: string)
      returns (result: AuthResult)
      requires Valid()
      modifies this
      ensures Valid()
      ensures user == old(user) && storedUser == old(storedUser) && loading == old(loading)
      ensures checkFailed ==> result == Failure(DatabaseError)
      ensures !checkFailed && FindByEmail(old(users), email).Some? ==> result == Failure(DuplicateAccount)
      ensures !checkFailed && FindByEmail(old(users), email).None? && !insert.Inserted?
              ==> result == Failure(CreateFailed)
      ensures result.Failure? ==> users == old(users)
      ensures result.Success? <==>
        !checkFailed && FindByEmail(old(users), email).None? && insert.Inserted?
      ensures result.Success? ==>
        users == old(users) + [UserRow(insert.id, email, hash(password), now, now)]
      ensures EmailsDistinct(old(users)) ==> EmailsDistinct(users)
    {
      if checkFailed {
        return Failure(DatabaseError);
      }
      if FindByEmail(users, email).Some? {
        return Failure(DuplicateAccount);
      }
      var hashedPassword := hash(password);
      match insert {
        case InsertFailed =>
          return Failure(CreateFailed);
        case InsertedNothing =>
          return Failure(CreateFailed);
        case Inserted(id) =>
          var row := UserRow(id, email, hashedPassword, now, now);
          AppendNewEmail(users, row);
          users := users + [row];
          result := Success;
      }
    }

    /** `logout`: nobody is signed in and the stored user is removed. */
    method Logout()
      requires Valid()
      modifies this
      ensures Valid()
      ensures user.None? && storedUser.None?
      ensures users == old(users) && loading == old(loading)
    {
      user := None;
      storedUser := None;
    }
  }

  /** After a registration for a new email, the lookup of that email finds
      the registered row; the row holds the stored hash, and its session
      user is the one a sign-in with it would store. */
  lemma RegisteredAccountIsFound(users: seq<UserRow>, id: string, email: string, hashed: string, now: string)
    requires FindByEmail(users, email).None?
    ensures var after := users + [UserRow(id, email, hashed, now, now)];
      && FindByEmail(after, email) == Some(|users|)
      && after[|users|].hashedPassword == hashed
      && SessionUser(after[|users|]) == User(id, email, now, now)
  {
  }
}
