/**
 * The persistence gateway as an in-memory store: one map per table keyed by
 * primary key, the OrganizationUser join table as a multiset of rows (the
 * storage layer is not assumed to enforce the composite key), and the
 * `isInitialized` flag of the data source.
 */
module Database {
  import opened Wrappers
  import opened Entities

  /** Every stored organization carries its own key as its id. */
  ghost predicate KeyedOrganizations(organizations: map<string, Organization>) {
    forall k :: k in organizations ==> organizations[k].organizationId == Some(k)
  }

  /** Every stored user carries its own key as its id. */
  ghost predicate KeyedUsers(users: map<string, User>) {
    forall k :: k in users ==> users[k].userId == Some(k)
  }

  /** A user joins an organization at most once. */
  ghost predicate AtMostOneRowPerPair(memberships: multiset<Membership>) {
    forall m :: memberships[m] <= 1
  }

  /** No two organizations share a name, and no two share a contact email. */
  ghost predicate UniqueOrganizations(organizations: map<string, Organization>) {
    forall j, k :: j in organizations && k in organizations && j != k ==>
      organizations[j].organizationName != organizations[k].organizationName &&
      organizations[j].contactEmail != organizations[k].contactEmail
  }

  class DataSource {
    var isInitialized: bool
    var organizations: map<string, Organization>
    var users: map<string, User>
    var roles: map<string, Role>
    var memberships: multiset<Membership>

    ghost predicate Valid()
      reads this
    {
      KeyedOrganizations(organizations) &&
      KeyedUsers(users) &&
      AtMostOneRowPerPair(memberships)
    }

    /** A data source over empty tables that has not been initialized yet. */
    constructor ()
      ensures Valid() && !isInitialized
      ensures organizations == map[] && users == map[] && roles == map[]
      ensures memberships == multiset{}
    {
      isInitialized := false;
      organizations := map[];
      users := map[];
      roles := map[];
      memberships := multiset{};
    }
  }
}
