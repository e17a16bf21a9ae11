/**
 * Properties of the organization operations that relate several calls or
 * several inputs.
 */
module OrganizationProperties {
  import opened Wrappers
  import opened Entities
  import opened Database
  import opened OrganizationRepository

  /** What `create` builds passes the required-field check of `save`. */
  lemma CreatedIsSaveable(data: OrganizationInput)
    requires Create(data).success
    ensures HasRequiredFields(Create(data).data.value)
  {
  }

  /** `update` replaces exactly the fields given (`??`: an empty string counts as given) and keeps the id. */
  lemma MergeFieldwise(org: Organization, data: OrganizationInput)
    ensures var m := Merge(org, data);
      m.organizationId == org.organizationId &&
      (data.organizationName.Some? ==> m.organizationName == data.organizationName.value) &&
      (data.organizationName.None? ==> m.organizationName == org.organizationName) &&
      (data.description.Some? ==> m.description == data.description.value) &&
      (data.description.None? ==> m.description == org.description) &&
      (data.contactEmail.Some? ==> m.contactEmail == data.contactEmail.value) &&
      (data.contactEmail.None? ==> m.contactEmail == org.contactEmail) &&
      (data.contactPhone.Some? ==> m.contactPhone == data.contactPhone.value) &&
      (data.contactPhone.None? ==> m.contactPhone == org.contactPhone) &&
      (data.address.Some? ==> m.address == data.address.value) &&
      (data.address.None? ==> m.address == org.address) &&
      (data.organizationType.Some? ==> m.organizationType == data.organizationType.value) &&
      (data.organizationType.None? ==> m.organizationType == org.organizationType)
  {
  }

  /** An update that gives no field leaves the organization as it was. */
  lemma MergeNothing(org: Organization)
    ensures Merge(org, OrganizationInput(None, None, None, None, None, None)) == org
  {
  }

  /** Applying the same update twice is the same as applying it once. */
  lemma MergeIdempotent(org: Organization, data: OrganizationInput)
    ensures Merge(Merge(org, data), data) == Merge(org, data)
  {
  }

  /**
   * `update` does not re-check uniqueness: merging a second organization's
   * name into the first leaves two organizations with one name.
   */
  lemma UpdateMayDuplicateNames()
    ensures exists orgs: map<string, Organization>, id: string, data: OrganizationInput ::
      id in orgs && UniqueOrganizations(orgs) &&
      !UniqueOrganizations(orgs[id := Merge(orgs[id], data)])
  {
    var a := Organization(Some("a"), "Acme", "", "a@x.com", "", "1 Main St", "nonprofit");
    var b := Organization(Some("b"), "Beta", "", "b@x.com", "", "2 Main St", "nonprofit");
    var orgs := map["a" := a, "b" := b];
    var data := OrganizationInput(Some("Beta"), None, None, None, None, None);
    assert orgs.Keys == {"a", "b"};
    assert UniqueOrganizations(orgs);
    var after := orgs["a" := Merge(a, data)];
    assert after["a"].organizationName == after["b"].organizationName;
    assert "a" in orgs && UniqueOrganizations(orgs) && !UniqueOrganizations(after);
  }

  /**
   * Saving two organizations with the same name: the first is stored, the
   * second is refused as a duplicate and comes back with the first one.
   */
  method SaveSameNameTwice(db: DataSource, first: Organization, second: Organization,
                           id1: string, id2: string)
    returns (r1: Outcome, r2: Outcome)
    requires db.Valid()
    requires id1 !in db.organizations && id2 !in db.organizations
    requires forall k :: k in db.organizations ==>
      !Clashes(db.organizations[k], first) && !Clashes(db.organizations[k], second)
    requires HasRequiredFields(first) && HasRequiredFields(second)
    requires first.organizationId == None && second.organizationId == None
    requires second.organizationName == first.organizationName
    requires id1 != id2
    modifies db`organizations
    ensures r1.success && r1.data == Some(first.(organizationId := Some(id1)))
    ensures !r2.success && r2.message == Some(AlreadyExists) && r2.data == r1.data
    ensures db.organizations == old(db.organizations)[id1 := first.(organizationId := Some(id1))]
  {
    r1 := Save(db, first, id1);
    r2 := Save(db, second, id2);
  }

  /** A second delete of the same id reports the organization as already gone. */
  method DeleteTwice(db: DataSource, id: string) returns (r1: DeleteOutcome, r2: DeleteOutcome)
    requires db.Valid() && id != "" && id in db.organizations
    modifies db`organizations
    ensures r1 == DeleteOutcome(true, Deleted)
    ensures r2 == DeleteOutcome(false, NotFoundOrDeleted)
    ensures db.organizations == old(db.organizations) - {id}
  {
    r1 := Delete(db, id);
    r2 := Delete(db, id);
  }

  /** Adding the same user twice: the second call is refused and adds no row. */
  method AddUserTwice(db: DataSource, userId: string, organizationId: string)
    returns (r1: MembershipOutcome, r2: MembershipOutcome)
    requires db.Valid()
    modifies db`memberships
    ensures !r2.success
    ensures r1.success ==> r2.message == AlreadyMember
    ensures db.memberships[Membership(userId, organizationId)] <= 1
    ensures db.memberships - multiset{Membership(userId, organizationId)} ==
            old(db.memberships) - multiset{Membership(userId, organizationId)}
  {
    r1 := AddUserToOrganization(db, userId, organizationId);
    r2 := AddUserToOrganization(db, userId, organizationId);
  }
}
