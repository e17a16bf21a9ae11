/**
 * The persisted entities: Organization, User, Role and the OrganizationUser
 * join row, together with the partial input shapes the repositories accept.
 * Text columns are strings; JavaScript's undefined or null is `None`.
 */
module Entities {
  import opened Wrappers

  /** An organization row. `organizationId` is `None` until the row is saved. */
  datatype Organization = Organization(
    organizationId: Option<string>,
    organizationName: string,
    description: string,
    contactEmail: string,
    contactPhone: string,
    address: string,
    organizationType: string)

  /** Partial<OrganizationInterface>: every field may be absent. */
  datatype OrganizationInput = OrganizationInput(
    organizationName: Option<string>,
    description: Option<string>,
    contactEmail: Option<string>,
    contactPhone: Option<string>,
    address: Option<string>,
    organizationType: Option<string>)

  datatype Role = Role(roleId: string, roleName: string)

  /**
   * A user row. `userId` is `None` until saved; `password` stands for the
   * credential columns that projections leave out; `roles` is the many-to-many
   * relation, empty when not loaded or not assigned.
   */
  datatype User = User(
    userId: Option<string>,
    username: string,
    firstName: string,
    lastName: string,
    email: string,
    phoneNumber: Option<string>,
    password: Option<string>,
    roles: seq<Role>)

  /** Partial<UserInterface>: every field may be absent. */
  datatype UserInput = UserInput(
    username: Option<string>,
    firstName: Option<string>,
    lastName: Option<string>,
    email: Option<string>,
    phoneNumber: Option<string>)

  /** An OrganizationUser row: the user belongs to the organization. */
  datatype Membership = Membership(userId: string, organizationId: string)

  /**
   * What the repositories hand out for a user: the six selected columns, the
   * roles and the organizations; never the credential columns.
   */
  datatype UserView = UserView(
    userId: Option<string>,
    username: string,
    firstName: string,
    lastName: string,
    email: string,
    phoneNumber: Option<string>,
    roles: seq<Role>,
    organizations: set<Organization>)
}
