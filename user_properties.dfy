/** Properties of registration and of the user reads and delete that span several calls. */
module UserProperties {
  import opened Wrappers
  import opened Entities
  import opened Database
  import opened UserRepository

  /** Rows of two different stored users are different: the listing has no duplicates to collapse. */
  lemma RowsDistinct(db: DataSource, j: string, k: string)
    requires db.Valid() && j in db.users && k in db.users && j != k
    ensures Row(db, j) != Row(db, k)
  {
  }

  /**
   * A projected row carries the user's own columns and roles, and does not
   * depend on the credential columns.
   */
  lemma ProjectKeepsColumns(user: User, organizations: set<Organization>, password: Option<string>)
    ensures Project(user.(password := password), organizations) == Project(user, organizations)
    ensures var v := Project(user, organizations);
      v.userId == user.userId && v.username == user.username &&
      v.firstName == user.firstName && v.lastName == user.lastName &&
      v.email == user.email && v.phoneNumber == user.phoneNumber &&
      v.roles == user.roles && v.organizations == organizations
  {
  }

  /**
   * Registration: build the user from request data and save it. With a seeded
   * GUEST role the stored user has exactly that one role.
   */
  method Register(db: DataSource, data: UserInput, freshId: string)
    returns (r: Result<SaveOutcome, string>)
    requires db.Valid() && db.isInitialized
    requires freshId !in db.users
    requires exists k :: k in db.roles && db.roles[k].roleName == GuestRoleName
    modifies db`users
    ensures db.Valid()
    ensures r.Success? && r.value.success && r.value.user.Some?
    ensures var stored := r.value.user.value;
      db.users == old(db.users)[freshId := stored] &&
      |stored.roles| == 1 && stored.roles[0].roleName == GuestRoleName &&
      stored.username == data.username.GetOr("") && stored.email == data.email.GetOr("") &&
      stored.phoneNumber == data.phoneNumber
  {
    ghost var guest :| guest in db.roles && db.roles[guest].roleName == GuestRoleName;
    var user := CreateUser(data);
    r := SaveUser(db, user, freshId);
    assert guest in db.roles && db.roles[guest].roleName == GuestRoleName;
  }

  /** Without a seeded GUEST role registration fails and stores no user. */
  method RegisterWithoutGuestRole(db: DataSource, data: UserInput, freshId: string)
    returns (r: Result<SaveOutcome, string>)
    requires db.Valid() && db.isInitialized
    requires freshId !in db.users
    requires forall k :: k in db.roles ==> db.roles[k].roleName != GuestRoleName
    modifies db`users
    ensures r == Success(SaveOutcome(false, DefaultRoleMissing, None))
    ensures db.users == old(db.users)
  {
    var user := CreateUser(data);
    r := SaveUser(db, user, freshId);
  }

  /** Deleting a user twice: the second call finds no user and changes nothing. */
  method DeleteUserTwice(db: DataSource, id: string) returns (r1: DeleteOutcome, r2: DeleteOutcome)
    requires db.Valid() && id in db.users
    modifies db`users
    ensures r1 == DeleteOutcome(true, UserDeleted)
    ensures r2 == DeleteOutcome(false, UserNotFound)
    ensures db.users == old(db.users) - {id}
  {
    r1 := DeleteUser(db, id);
    r2 := DeleteUser(db, id);
  }
}
