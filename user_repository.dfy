/**
 * UserRepository: registration support (duplicate lookup, building and saving
 * a user with the seeded GUEST role) and the user reads and delete.
 */
module UserRepository {
  import opened Wrappers
  import opened Entities
  import opened Database
  import opened Ordering

  const NotInitialized := "Database not initialized"
  const GuestRoleName := "GUEST"
  const DefaultRoleMissing := "System configuration error: Default role not found"
  const UserSaved := "User saved successfully with default role \"GUEST\""
  const UserNotFound := "User not found"
  const UserDeleted := "User deleted successfully"

  /** `{ success, message, user? }` */
  datatype SaveOutcome = SaveOutcome(success: bool, message: string, user: Option<User>)

  /** `{ success, message }` */
  datatype DeleteOutcome = DeleteOutcome(success: bool, message: string)

  /**
   * A stored user that blocks registering `email` or `username`: either field
   * alone is enough, and a user built from the same registration data always
   * blocks it.
   */
  predicate Matches(user: User, email: string, username: string): (ok: bool)
    ensures user.email == email ==> ok
    ensures user.username == username ==> ok
    ensures user == CreateUser(UserInput(Some(username), None, None, Some(email), None)) ==> ok
  {
    user.email == email || user.username == username
  }

  /** The user's organizations, joined through the OrganizationUser rows. */
  function UserOrganizations(organizations: map<string, Organization>,
                             memberships: multiset<Membership>, userId: string): (r: set<Organization>)
    ensures forall k :: k in organizations && Membership(userId, k) in memberships ==>
      organizations[k] in r
    ensures forall o :: o in r ==>
      exists k :: k in organizations && Membership(userId, k) in memberships && organizations[k] == o
  {
    set k | k in organizations && Membership(userId, k) in memberships :: organizations[k]
  }

  /** The selected columns of a user, with its roles and organizations. */
  function Project(user: User, organizations: set<Organization>): UserView {
    UserView(user.userId, user.username, user.firstName, user.lastName, user.email,
             user.phoneNumber, user.roles, organizations)
  }

  /** The row `getAllUsers` and `getUserById` return for the stored user `id`. */
  function Row(db: DataSource, id: string): (v: UserView)
    reads db
    requires id in db.users
    ensures v.userId == db.users[id].userId && v.username == db.users[id].username
  {
    Project(db.users[id], UserOrganizations(db.organizations, db.memberships, id))
  }

  /** Users from the first row on have usernames in descending order. */
  predicate SortedByUsernameDesc(rows: seq<UserView>) {
    forall i, j :: 0 <= i < j < |rows| ==> LexLe(rows[j].username, rows[i].username)
  }

  /** Puts `v` in front of the first row whose username does not sort after its own. */
  function InsertByUsername(v: UserView, rows: seq<UserView>): (r: seq<UserView>)
    ensures multiset(r) == multiset(rows) + multiset{v}
    ensures |r| == |rows| + 1
    ensures forall x :: x in r <==> x == v || x in rows
  {
    if rows == [] then [v]
    else if LexLe(rows[0].username, v.username) then [v] + rows
    else
      assert rows == [rows[0]] + rows[1..];
      [rows[0]] + InsertByUsername(v, rows[1..])
  }

  /** A row whose username sorts after every other row's can go in front. */
  lemma PrependKeepsSorted(x: UserView, rows: seq<UserView>)
    requires SortedByUsernameDesc(rows)
    requires forall j :: 0 <= j < |rows| ==> LexLe(rows[j].username, x.username)
    ensures SortedByUsernameDesc([x] + rows)
  {
    var r := [x] + rows;
    forall i, j | 0 <= i < j < |r|
      ensures LexLe(r[j].username, r[i].username)
    {
      if i > 0 {
        assert r[i] == rows[i - 1] && r[j] == rows[j - 1];
      }
    }
  }

  lemma {:induction false} InsertKeepsSorted(v: UserView, rows: seq<UserView>)
    requires SortedByUsernameDesc(rows)
    ensures SortedByUsernameDesc(InsertByUsername(v, rows))
  {
    if rows == [] {
    } else if LexLe(rows[0].username, v.username) {
      forall j | 0 <= j < |rows|
        ensures LexLe(rows[j].username, v.username)
      {
        if j > 0 {
          LexTransitive(rows[j].username, rows[0].username, v.username);
        }
      }
      PrependKeepsSorted(v, rows);
    } else {
      var tail := InsertByUsername(v, rows[1..]);
      InsertKeepsSorted(v, rows[1..]);
      LexTotal(rows[0].username, v.username);
      forall j | 0 <= j < |tail|
        ensures LexLe(tail[j].username, rows[0].username)
      {
        assert tail[j] == v || tail[j] in rows[1..];
      }
      PrependKeepsSorted(rows[0], tail);
    }
  }

  /**
   * Looks for a stored user with this email or this username; throws when
   * the data source is not initialized.
   */
  method FindExistingUser(db: DataSource, email: string, username: string)
    returns (r: Result<Option<User>, string>)
    ensures !db.isInitialized <==> r == Failure(NotInitialized)
    ensures r.Success? ==>
      (r.value.Some? <==> exists k :: k in db.users && Matches(db.users[k], email, username))
    ensures r.Success? && r.value.Some? ==>
      r.value.value in db.users.Values && Matches(r.value.value, email, username)
  {
    if !db.isInitialized {
      return Failure(NotInitialized);
    }
    if k :| k in db.users && Matches(db.users[k], email, username) {
      return Success(Some(db.users[k]));
    }
    r := Success(None);
  }

  /**
   * Builds an unsaved user from request data: absent text fields become
   * empty strings, an absent phone number becomes null.
   */
  function CreateUser(data: UserInput): (u: User)
    ensures u.userId == None && u.password == None && u.roles == []
    ensures u.username == (if data.username.Some? then data.username.value else "")
    ensures u.firstName == (if data.firstName.Some? then data.firstName.value else "")
    ensures u.lastName == (if data.lastName.Some? then data.lastName.value else "")
    ensures u.email == (if data.email.Some? then data.email.value else "")
    ensures u.phoneNumber == data.phoneNumber
  {
    User(None, data.username.GetOr(""), data.firstName.GetOr(""), data.lastName.GetOr(""),
         data.email.GetOr(""), data.phoneNumber, None, [])
  }

  /**
   * Saves a user with exactly the seeded GUEST role. Throws when the data
   * source is not initialized; reports a configuration error, and saves
   * nothing, when no GUEST role exists. A user without an id gets `freshId`.
   */
  method SaveUser(db: DataSource, user: User, freshId: string)
    returns (r: Result<SaveOutcome, string>)
    requires db.Valid()
    requires freshId !in db.users
    modifies db`users
    ensures db.Valid()
    ensures !db.isInitialized ==> r == Failure(NotInitialized)
    ensures (db.isInitialized && forall k :: k in db.roles ==> db.roles[k].roleName != GuestRoleName) ==>
      r == Success(SaveOutcome(false, DefaultRoleMissing, None))
    ensures r.Success? && r.value.success <==>
      db.isInitialized && exists k :: k in db.roles && db.roles[k].roleName == GuestRoleName
    ensures !(r.Success? && r.value.success) ==> db.users == old(db.users)
    ensures r.Success? && r.value.success ==>
      r.value.message == UserSaved && r.value.user.Some? &&
      var saved := r.value.user.value;
      var key := user.userId.GetOr(freshId);
      |saved.roles| == 1 && saved.roles[0] in db.roles.Values &&
      saved.roles[0].roleName == GuestRoleName &&
      saved == user.(userId := Some(key), roles := saved.roles) &&
      db.users == old(db.users)[key := saved]
  {
    if !db.isInitialized {
      return Failure(NotInitialized);
    }
    if k :| k in db.roles && db.roles[k].roleName == GuestRoleName {
      var guest := db.roles[k];
      var key := if user.userId.Some? then user.userId.value else freshId;
      var saved := user.(userId := Some(key), roles := [guest]);
      db.users := db.users[key := saved];
      assert k in db.roles && db.roles[k].roleName == GuestRoleName;
      return Success(SaveOutcome(true, UserSaved, Some(saved)));
    }
    r := Success(SaveOutcome(false, DefaultRoleMissing, None));
  }

  /**
   * All users, ordered by username descending, projected to the selected
   * columns with roles and organizations: a permutation of the stored users'
   * rows.
   */
  method GetAllUsers(db: DataSource) returns (rows: seq<UserView>)
    requires db.Valid()
    ensures SortedByUsernameDesc(rows)
    ensures |rows| == |db.users|
    ensures forall k :: k in db.users ==> Row(db, k) in rows
    ensures forall v :: v in rows ==> exists k :: k in db.users && v == Row(db, k)
    ensures forall v :: multiset(rows)[v] <= 1
  {
    var pending := db.users.Keys;
    rows := [];
    while pending != {}
      invariant pending <= db.users.Keys
      invariant SortedByUsernameDesc(rows)
      invariant |rows| + |pending| == |db.users.Keys|
      invariant forall k :: k in db.users && k !in pending ==> Row(db, k) in rows
      invariant forall v :: v in rows ==> exists k :: k in db.users && k !in pending && v == Row(db, k)
      invariant forall v :: multiset(rows)[v] <= 1
      decreases |pending|
    {
      var k :| k in pending;
      var v := Row(db, k);
      assert v !in rows;
      InsertKeepsSorted(v, rows);
      rows := InsertByUsername(v, rows);
      assert pending == (pending - {k}) + {k};
      pending := pending - {k};
    }
  }

  /** One user's row, or null when no user has this id. */
  method GetUserById(db: DataSource, id: string) returns (r: Option<UserView>)
    ensures r.None? <==> id !in db.users
    ensures r.Some? ==> r.value == Row(db, id)
  {
    if id !in db.users {
      return None;
    }
    r := Some(Row(db, id));
  }

  /** Loads the user and removes it. */
  method DeleteUser(db: DataSource, id: string) returns (r: DeleteOutcome)
    requires db.Valid()
    modifies db`users
    ensures db.Valid()
    ensures r.success <==> id in old(db.users)
    ensures !r.success ==> r.message == UserNotFound
    ensures r.success ==> r.message == UserDeleted
    ensures db.users == old(db.users) - {id}
  {
    if id !in db.users {
      return DeleteOutcome(false, UserNotFound);
    }
    db.users := db.users - {id};
    r := DeleteOutcome(true, UserDeleted);
  }
}
