/** The user table and `UserService` of `src/auth/services.py`.

    The table is a sequence of rows. Nothing in the schema makes `email`
    unique, and `get_user_by_email` asks for at most one row, so a lookup can
    find no row, one row, or several (which raises). */
module AuthServices {
  import opened Common
  import opened AuthUtils

  /** A stored user. `role` defaults to "user"; times are in seconds. */
  datatype User = User(
    uid: string,
    email: string,
    username: string,
    firstName: string,
    lastName: string,
    hashedPassword: string,
    isVerified: bool,
    role: string,
    createdAt: int,
    updatedAt: int)

  /** A user as the handlers send it back: the fields of `UserModel`. This
      view follows the `User` class of src/auth/models.py, which
      `UserService` instantiates: a dump of that class yields exactly these
      fields, since its `hashed_password` is excluded and it has no `role`.
      The row of src/db/models.py that `User` above adopts does have a `role`,
      which a dump of it would include. */
  datatype UserModel = UserModel(
    uid: string,
    email: string,
    username: string,
    firstName: string,
    lastName: string,
    isVerified: bool,
    createdAt: int,
    updatedAt: int)

  function PublicView(u: User): UserModel {
    UserModel(u.uid, u.email, u.username, u.firstName, u.lastName, u.isVerified, u.createdAt, u.updatedAt)
  }

  /** What a reply shows of a user does not depend on the stored hash or role. */
  lemma PublicViewHidesSecrets(u: User, hashedPassword: string, role: string)
    ensures PublicView(u.(hashedPassword := hashedPassword, role := role)) == PublicView(u)
    ensures PublicView(u).uid == u.uid && PublicView(u).email == u.email
  {
  }

  /** The signup body. */
  datatype UserCreateModel = UserCreateModel(username: string, firstName: string, lastName: string, email: string, password: string)

  /** The limits the request schema puts on a signup body. */
  predicate ValidSignup(m: UserCreateModel) {
    |m.username| <= 50 && |m.firstName| <= 25 && |m.lastName| <= 25 && |m.email| <= 100 && |m.password| >= 6
  }

  const DEFAULT_ROLE: string := "user"

  /** What `scalar_one_or_none` makes of a query: no row, the row at `index`,
      or several rows (MultipleResultsFound). */
  datatype Lookup = NoRow | OneRow(index: nat) | ManyRows

  /** Every e-mail address occurs in at most one row. */
  predicate UniqueEmails(users: seq<User>) {
    forall i, j :: 0 <= i < j < |users| ==> users[i].email != users[j].email
  }

  /** `select(User).where(User.email == email)` followed by `scalar_one_or_none`. */
  function FindByEmail(users: seq<User>, email: string): (r: Lookup)
    ensures r.NoRow? <==> forall i :: 0 <= i < |users| ==> users[i].email != email
    ensures r.OneRow? ==> r.index < |users| && users[r.index].email == email
    ensures r.OneRow? ==> forall j :: 0 <= j < |users| && j != r.index ==> users[j].email != email
    ensures r.ManyRows? <==> exists i, j :: 0 <= i < j < |users| && users[i].email == email && users[j].email == email
  {
    if users == [] then NoRow
    else
      var rest := FindByEmail(users[1..], email);
      if users[0].email == email then
        if rest.NoRow? then OneRow(0)
        else
          assert rest.OneRow? ==> users[1..][rest.index].email == email;
          ManyRows
      else
        match rest
        case NoRow => NoRow
        case OneRow(i) =>
          assert forall j :: 1 <= j < |users| ==> users[j] == users[1..][j - 1];
          OneRow(i + 1)
        case ManyRows =>
          var a, b :| 0 <= a < b < |users[1..]| && users[1..][a].email == email && users[1..][b].email == email;
          assert users[a + 1].email == email && users[b + 1].email == email;
          ManyRows
  }

  /** With unique e-mail addresses a lookup never finds several rows. */
  lemma UniqueEmailsLookup(users: seq<User>, email: string)
    requires UniqueEmails(users)
    ensures !FindByEmail(users, email).ManyRows?
  {
  }

  /** `get_user_by_email`: the one user with that address, None when there is
      none, and an unhandled error when there are several. */
  function GetUserByEmail(users: seq<User>, email: string): (r: Result<Option<User>>)
    ensures r == Ok(None) <==> forall i :: 0 <= i < |users| ==> users[i].email != email
    ensures r.Ok? && r.value.Some? ==> r.value.value in users && r.value.value.email == email
    ensures r.Err? <==> FindByEmail(users, email).ManyRows?
    ensures r.Err? ==> r.failure.Unhandled?
  {
    match FindByEmail(users, email)
    case NoRow => Ok(None)
    case OneRow(i) => Ok(Some(users[i]))
    case ManyRows => Err(Unhandled("MultipleResultsFound"))
  }

  /** `is_user_exist`: true exactly when `get_user_by_email` finds a user. */
  function IsUserExist(users: seq<User>, email: string): (r: Result<bool>)
    ensures r.Ok? <==> GetUserByEmail(users, email).Ok?
    ensures r.Ok? ==> (r.value <==> GetUserByEmail(users, email).value.Some?)
    ensures r.Ok? ==> (r.value <==> exists i :: 0 <= i < |users| && users[i].email == email)
  {
    match GetUserByEmail(users, email)
    case Ok(u) => Ok(u.Some?)
    case Err(f) => Err(f)
  }

  /** The row `create_user` builds from a signup body: the schema's fields, the
      hash of the password, not verified, the default role, both times `now`. */
  function NewUser(data: UserCreateModel, hashedPassword: string, uid: string, now: int): (r: User)
    ensures r.uid == uid && r.email == data.email && r.username == data.username
    ensures r.firstName == data.firstName && r.lastName == data.lastName
    ensures r.hashedPassword == hashedPassword
    ensures !r.isVerified && r.role == DEFAULT_ROLE && r.createdAt == now && r.updatedAt == now
  {
    User(uid, data.email, data.username, data.firstName, data.lastName, hashedPassword, false, DEFAULT_ROLE, now, now)
  }

  /** A change handed to `update_users`. */
  datatype UserChange = SetVerified(verified: bool) | SetHashedPassword(hashed: string)

  /** `setattr` of the one field a change names. */
  function ApplyChange(u: User, c: UserChange): (r: User)
    ensures r.uid == u.uid && r.email == u.email && r.role == u.role
    ensures c.SetVerified? ==> r == u.(isVerified := c.verified)
    ensures c.SetHashedPassword? ==> r == u.(hashedPassword := c.hashed)
  {
    match c
    case SetVerified(v) => u.(isVerified := v)
    case SetHashedPassword(h) => u.(hashedPassword := h)
  }

  /** The user table behind `UserService`. */
  class UserService {
    var users: seq<User>

    constructor ()
      ensures users == []
    {
      users := [];
    }

    /** `create_user`: builds the new row with `hasher.hash(password)` as its
        stored hash and inserts it. A uid already in the table makes the insert
        fail and leaves the table as it was. */
    method CreateUser(data: UserCreateModel, hasher: PasswordHasher, uid: string, now: int) returns (r: Result<User>)
      modifies this
      ensures (exists i :: 0 <= i < |old(users)| && old(users)[i].uid == uid) ==>
                r == Err(Unhandled("IntegrityError")) && users == old(users)
      ensures (forall i :: 0 <= i < |old(users)| ==> old(users)[i].uid != uid) ==>
                r == Ok(NewUser(data, hasher.hash(data.password), uid, now)) && users == old(users) + [r.value]
      ensures r.Ok? ==> r.value.hashedPassword == hasher.hash(data.password) && !r.value.isVerified
      ensures r.Ok? ==> r.value.email == data.email && r.value.role == DEFAULT_ROLE
    {
      var newUser := NewUser(data, hasher.hash(data.password), uid, now);
      if exists i :: 0 <= i < |users| && users[i].uid == uid {
        return Err(Unhandled("IntegrityError"));
      }
      users := users + [newUser];
      r := Ok(newUser);
    }

    /** `update_users(user, changes)`: applies the change to the row at `index`
        and to no other row. */
    method UpdateUsers(index: nat, change: UserChange) returns (u: User)
      requires index < |users|
      modifies this
      ensures u == ApplyChange(old(users)[index], change)
      ensures users == old(users)[index := u]
    {
      u := ApplyChange(users[index], change);
      users := users[index := u];
    }
  }

  /** After a successful insert the new user is the one user found by its
      address, as long as no other row had that address. */
  lemma CreatedUserRetrievable(users: seq<User>, u: User)
    requires forall i :: 0 <= i < |users| ==> users[i].email != u.email
    ensures GetUserByEmail(users + [u], u.email) == Ok(Some(u))
    ensures UniqueEmails(users) ==> UniqueEmails(users + [u])
  {
    var s := users + [u];
    assert s[|users|] == u;
    assert forall i :: 0 <= i < |users| ==> s[i] == users[i];
    match FindByEmail(s, u.email)
    case NoRow => assert false;
    case OneRow(i) => assert i == |users|;
    case ManyRows => assert false;
  }
}
