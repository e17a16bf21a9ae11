/**
 * OrganizationRepository: create, save, read, update and delete organizations
 * and add users to them. Every operation answers with a tagged result
 * instead of throwing.
 */
module OrganizationRepository {
  import opened Wrappers
  import opened Entities
  import opened Database

  const IdRequired := "Organization ID is required"
  const NotFound := "Organization not found"
  const RequiredFieldsMissing := "Required fields are missing"
  const AlreadyExists := "Organization with this name or email already exists.You can Join it!!!"
  const NotFoundOrDeleted := "Organization not found or already deleted"
  const Deleted := "Organization deleted successfully"
  const UserNotFound := "User not found"
  const AlreadyMember := "User is already a member of this organization"
  const UserAdded := "User added to organization successfully"

  /** `{ success, data?, message? }` */
  datatype Outcome = Outcome(success: bool, message: Option<string>, data: Option<Organization>)

  /** `{ success, message }` */
  datatype DeleteOutcome = DeleteOutcome(success: bool, message: string)

  /** `{ success, message, organization?, user? }` */
  datatype MembershipOutcome = MembershipOutcome(
    success: bool, message: string, organization: Option<Organization>, user: Option<UserView>)

  function Fail(message: string): Outcome {
    Outcome(false, Some(message), None)
  }

  /**
   * The four fields an organization cannot be saved without. `save` checks
   * exactly the fields `create` checks: an organization passes here exactly
   * when `create` accepts its fields.
   */
  predicate HasRequiredFields(org: Organization): (ok: bool)
    ensures ok <==> Create(OrganizationInput(
      Some(org.organizationName), Some(org.description), Some(org.contactEmail),
      Some(org.contactPhone), Some(org.address), Some(org.organizationType))).success
  {
    org.organizationName != "" && org.contactEmail != "" &&
    org.address != "" && org.organizationType != ""
  }

  /**
   * A stored organization that `save` reports as a duplicate of `org`. An
   * organization always clashes with itself, so saving one that is already
   * stored is refused.
   */
  predicate Clashes(stored: Organization, org: Organization): (ok: bool)
    ensures stored == org ==> ok
  {
    stored.organizationName == org.organizationName || stored.contactEmail == org.contactEmail
  }

  /**
   * Builds an unsaved organization from request data, or reports missing
   * required fields. Touches no table.
   */
  function Create(data: OrganizationInput): (r: Outcome)
    ensures r.success <==>
      Truthy(data.organizationName) && Truthy(data.contactEmail) &&
      Truthy(data.address) && Truthy(data.organizationType)
    ensures !r.success ==> r == Fail(RequiredFieldsMissing)
    ensures r.success ==> (
      r.message == None && r.data.Some? &&
      r.data.value.organizationName != "" && r.data.value.contactEmail != "" &&
      r.data.value.address != "" && r.data.value.organizationType != "")
    ensures r.success ==> var org := r.data.value;
      org.organizationId == None &&
      org.organizationName == data.organizationName.value &&
      org.contactEmail == data.contactEmail.value &&
      org.address == data.address.value &&
      org.organizationType == data.organizationType.value &&
      org.description == (if data.description.Some? then data.description.value else "") &&
      org.contactPhone == (if data.contactPhone.Some? then data.contactPhone.value else "")
  {
    if !Truthy(data.organizationName) || !Truthy(data.contactEmail)
       || !Truthy(data.address) || !Truthy(data.organizationType) then
      Fail(RequiredFieldsMissing)
    else
      Outcome(true, None, Some(Organization(
        None,
        data.organizationName.value,
        data.description.GetOr(""),
        data.contactEmail.value,
        data.contactPhone.GetOr(""),
        data.address.value,
        data.organizationType.value)))
  }

  /**
   * The field-wise merge of `update`: every field given in `data` (even as
   * an empty string) replaces the stored one; absent fields keep theirs. The
   * id is kept, and the required fields stay filled unless `data` blanks one.
   */
  function Merge(org: Organization, data: OrganizationInput): (m: Organization)
    ensures m.organizationId == org.organizationId
    ensures (HasRequiredFields(org) &&
             data.organizationName != Some("") && data.contactEmail != Some("") &&
             data.address != Some("") && data.organizationType != Some("")) ==>
      HasRequiredFields(m)
  {
    org.(
      organizationName := data.organizationName.GetOr(org.organizationName),
      description := data.description.GetOr(org.description),
      contactEmail := data.contactEmail.GetOr(org.contactEmail),
      contactPhone := data.contactPhone.GetOr(org.contactPhone),
      address := data.address.GetOr(org.address),
      organizationType := data.organizationType.GetOr(org.organizationType))
  }

  /** All organizations, as stored. */
  method GetAll(db: DataSource) returns (success: bool, data: set<Organization>)
    ensures success
    ensures forall o :: o in data <==> exists k :: k in db.organizations && db.organizations[k] == o
  {
    success := true;
    data := db.organizations.Values;
  }

  /** Looks an organization up by id. */
  method GetById(db: DataSource, id: string) returns (r: Outcome)
    ensures id == "" ==> r == Fail(IdRequired)
    ensures id != "" && id !in db.organizations ==> r == Fail(NotFound)
    ensures r.success <==> id != "" && id in db.organizations
    ensures r.success ==> r.data == Some(db.organizations[id]) && r.message == None
  {
    if id == "" {
      return Fail(IdRequired);
    }
    if id !in db.organizations {
      return Fail(NotFound);
    }
    r := Outcome(true, None, Some(db.organizations[id]));
  }

  /**
   * Saves an organization unless a required field is empty or a stored
   * organization has the same name or the same contact email; in that case the
   * clashing organization comes back as `data`. A saved organization without
   * an id gets `freshId`, the id the database generates.
   */
  method Save(db: DataSource, org: Organization, freshId: string) returns (r: Outcome)
    requires db.Valid()
    requires freshId !in db.organizations
    modifies db`organizations
    ensures db.Valid()
    ensures !HasRequiredFields(org) ==>
      r == Fail(RequiredFieldsMissing) && db.organizations == old(db.organizations)
    ensures (HasRequiredFields(org) &&
             exists k :: k in old(db.organizations) && Clashes(old(db.organizations)[k], org)) ==>
      !r.success && r.message == Some(AlreadyExists) &&
      r.data.Some? && r.data.value in old(db.organizations).Values && Clashes(r.data.value, org) &&
      db.organizations == old(db.organizations)
    ensures r.success <==>
      HasRequiredFields(org) &&
      forall k :: k in old(db.organizations) ==> !Clashes(old(db.organizations)[k], org)
    ensures r.success ==>
      var key := org.organizationId.GetOr(freshId);
      var saved := org.(organizationId := Some(key));
      r == Outcome(true, None, Some(saved)) &&
      db.organizations == old(db.organizations)[key := saved]
    ensures UniqueOrganizations(old(db.organizations)) ==> UniqueOrganizations(db.organizations)
  {
    if !HasRequiredFields(org) {
      return Fail(RequiredFieldsMissing);
    }
    if k :| k in db.organizations && Clashes(db.organizations[k], org) {
      return Outcome(false, Some(AlreadyExists), Some(db.organizations[k]));
    }
    var key := if org.organizationId.Some? then org.organizationId.value else freshId;
    var saved := org.(organizationId := Some(key));
    db.organizations := db.organizations[key := saved];
    r := Outcome(true, None, Some(saved));
  }

  /**
   * Merges the given fields into a stored organization. No uniqueness check
   * is made: see `UpdateMayDuplicateNames`.
   */
  method Update(db: DataSource, id: string, data: OrganizationInput) returns (r: Outcome)
    requires db.Valid()
    modifies db`organizations
    ensures db.Valid()
    ensures id == "" ==> r == Fail(IdRequired)
    ensures id != "" && id !in old(db.organizations) ==> r == Fail(NotFound)
    ensures r.success <==> id != "" && id in old(db.organizations)
    ensures !r.success ==> db.organizations == old(db.organizations)
    ensures r.success ==>
      var merged := Merge(old(db.organizations)[id], data);
      r == Outcome(true, None, Some(merged)) &&
      db.organizations == old(db.organizations)[id := merged]
  {
    if id == "" {
      return Fail(IdRequired);
    }
    if id !in db.organizations {
      return Fail(NotFound);
    }
    var merged := Merge(db.organizations[id], data);
    db.organizations := db.organizations[id := merged];
    r := Outcome(true, None, Some(merged));
  }

  /** Deletes an organization by id. */
  method Delete(db: DataSource, id: string) returns (r: DeleteOutcome)
    requires db.Valid()
    modifies db`organizations
    ensures db.Valid()
    ensures id == "" ==> r == DeleteOutcome(false, IdRequired)
    ensures id != "" && id !in old(db.organizations) ==> r == DeleteOutcome(false, NotFoundOrDeleted)
    ensures r.success <==> id != "" && id in old(db.organizations)
    ensures r.success ==> r.message == Deleted
    ensures db.organizations ==
      if id == "" then old(db.organizations) else old(db.organizations) - {id}
  {
    if id == "" {
      return DeleteOutcome(false, IdRequired);
    }
    if id !in db.organizations {
      return DeleteOutcome(false, NotFoundOrDeleted);
    }
    db.organizations := db.organizations - {id};
    r := DeleteOutcome(true, Deleted);
  }

  /** The user as `addUserToOrganization` returns it: roles, but no organizations. */
  function MemberView(user: User): (v: UserView)
    ensures v.organizations == {} && v.roles == user.roles
  {
    UserView(user.userId, user.username, user.firstName, user.lastName, user.email,
             user.phoneNumber, user.roles, {})
  }

  /**
   * Adds the user to the organization. The user is looked for first, then the
   * organization, then an existing membership row; only when all three
   * checks pass is exactly one row added.
   */
  method AddUserToOrganization(db: DataSource, userId: string, organizationId: string)
    returns (r: MembershipOutcome)
    requires db.Valid()
    modifies db`memberships
    ensures db.Valid()
    ensures userId !in db.users ==> r == MembershipOutcome(false, UserNotFound, None, None)
    ensures userId in db.users && organizationId !in db.organizations ==>
      r == MembershipOutcome(false, NotFound, None, None)
    ensures (userId in db.users && organizationId in db.organizations &&
             Membership(userId, organizationId) in old(db.memberships)) ==>
      r == MembershipOutcome(false, AlreadyMember, None, None)
    ensures r.success <==>
      userId in db.users && organizationId in db.organizations &&
      Membership(userId, organizationId) !in old(db.memberships)
    ensures !r.success ==> db.memberships == old(db.memberships)
    ensures r.success ==>
      r == MembershipOutcome(true, UserAdded, Some(db.organizations[organizationId]),
                             Some(MemberView(db.users[userId]))) &&
      db.memberships == old(db.memberships) + multiset{Membership(userId, organizationId)}
  {
    var user := if userId in db.users then Some(db.users[userId]) else None;
    var organization := if organizationId in db.organizations
                        then Some(db.organizations[organizationId]) else None;
    if user.None? {
      return MembershipOutcome(false, UserNotFound, None, None);
    }
    if organization.None? {
      return MembershipOutcome(false, NotFound, None, None);
    }
    var row := Membership(userId, organizationId);
    if row in db.memberships {
      return MembershipOutcome(false, AlreadyMember, None, None);
    }
    db.memberships := db.memberships + multiset{row};
    r := MembershipOutcome(true, UserAdded, organization, Some(MemberView(user.value)));
  }
}
