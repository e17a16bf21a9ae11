/**
 * The Event entity and the field constraints its validation decorators
 * declare, as a validity predicate and as the list of violation messages the
 * validator reports.
 */
module EventModel {
  import opened Wrappers
  import opened Uuid

  datatype EventType = Public | Private

  const PublicValue := "public"
  const PrivateValue := "private"

  /** The string value of each member of the enum. */
  function EventTypeValue(t: EventType): string {
    match t
    case Public => PublicValue
    case Private => PrivateValue
  }

  /** The enum member whose value is `s`, if any. */
  function ParseEventType(s: string): (r: Option<EventType>)
    ensures r.Some? <==> s == PublicValue || s == PrivateValue
  {
    if s == PublicValue then Some(Public)
    else if s == PrivateValue then Some(Private)
    else None
  }

  lemma ParseEventTypeInverse(s: string, t: EventType)
    ensures ParseEventType(s) == Some(t) <==> s == EventTypeValue(t)
  {
  }

  /** An event as it reaches the validator: any field may be undefined. */
  datatype Event = Event(
    eventId: Option<string>,
    eventTitle: Option<string>,
    description: Option<string>,
    eventCategory: Option<string>,
    eventType: Option<string>,
    organizerId: Option<string>,
    organizationId: Option<string>,
    venueId: Option<string>)

  const TitleMin := 3
  const TitleMax := 100
  const DescriptionMax := 1000
  const CategoryMax := 50

  const EventIdMessage := "eventId must be a valid UUID"
  const TitleRequiredMessage := "Event title is required"
  const TitleLengthMessage := "Event title must be between 3 and 100 characters"
  const DescriptionLengthMessage := "Description must be at most 1000 characters long"
  const CategoryLengthMessage := "Event category must be at most 50 characters long"
  const EventTypeMessage := "Event type must be one of: public, private"
  const OrganizerRequiredMessage := "Organizer ID is required"
  const OrganizerUuidMessage := "Organizer ID must be a valid UUID"
  const OrganizationRequiredMessage := "Organization ID is required"
  const OrganizationUuidMessage := "Organization ID must be a valid UUID"
  const VenueRequiredMessage := "Venue ID is required"
  const VenueUuidMessage := "Venue ID must be a valid UUID"

  /** Length(lo, hi): a string whose length lies in lo..hi. */
  predicate LengthIn(s: Option<string>, lo: nat, hi: nat) {
    s.Some? && lo <= |s.value| <= hi
  }

  /** IsOptional then Length(0, hi): undefined, or at most `hi` characters. */
  predicate OptionalAtMost(s: Option<string>, hi: nat) {
    s.None? || |s.value| <= hi
  }

  /** IsUUID('4'). */
  predicate UuidV4(s: Option<string>) {
    s.Some? && IsUuidV4(s.value)
  }

  /** IsEnum(EventType). */
  predicate IsEventType(s: Option<string>) {
    s.Some? && ParseEventType(s.value).Some?
  }

  /** Every decorator on every field is satisfied. */
  predicate Valid(e: Event): (ok: bool)
    ensures ok ==> e.eventType == Some(PublicValue) || e.eventType == Some(PrivateValue)
    ensures ok ==> Truthy(e.eventId)
  {
    UuidV4(e.eventId) &&
    Truthy(e.eventTitle) && LengthIn(e.eventTitle, TitleMin, TitleMax) &&
    OptionalAtMost(e.description, DescriptionMax) &&
    OptionalAtMost(e.eventCategory, CategoryMax) &&
    IsEventType(e.eventType) &&
    Truthy(e.organizerId) && UuidV4(e.organizerId) &&
    Truthy(e.organizationId) && UuidV4(e.organizationId) &&
    Truthy(e.venueId) && UuidV4(e.venueId)
  }

  function Check(ok: bool, message: string): seq<string> {
    if ok then [] else [message]
  }

  /** The messages of the failed constraints, field by field in declaration order. */
  function Violations(e: Event): (v: seq<string>)
    ensures v == [] <==> Valid(e)
    ensures !LengthIn(e.eventTitle, TitleMin, TitleMax) ==> TitleLengthMessage in v
    ensures !OptionalAtMost(e.description, DescriptionMax) ==> DescriptionLengthMessage in v
    ensures !OptionalAtMost(e.eventCategory, CategoryMax) ==> CategoryLengthMessage in v
    ensures !IsEventType(e.eventType) ==> EventTypeMessage in v
  {
    Check(UuidV4(e.eventId), EventIdMessage) +
    Check(Truthy(e.eventTitle), TitleRequiredMessage) +
    Check(LengthIn(e.eventTitle, TitleMin, TitleMax), TitleLengthMessage) +
    Check(OptionalAtMost(e.description, DescriptionMax), DescriptionLengthMessage) +
    Check(OptionalAtMost(e.eventCategory, CategoryMax), CategoryLengthMessage) +
    Check(IsEventType(e.eventType), EventTypeMessage) +
    Check(Truthy(e.organizerId), OrganizerRequiredMessage) +
    Check(UuidV4(e.organizerId), OrganizerUuidMessage) +
    Check(Truthy(e.organizationId), OrganizationRequiredMessage) +
    Check(UuidV4(e.organizationId), OrganizationUuidMessage) +
    Check(Truthy(e.venueId), VenueRequiredMessage) +
    Check(UuidV4(e.venueId), VenueUuidMessage)
  }

  /** The column default: an event stored without a type is public. */
  function WithDefaultType(e: Event): (d: Event)
    ensures d.eventType == Some(if e.eventType.Some? then e.eventType.value else PublicValue)
    ensures e.eventType.None? ==> ParseEventType(d.eventType.value) == Some(Public)
    ensures d.(eventType := e.eventType) == e
  {
    e.(eventType := Some(e.eventType.GetOr(PublicValue)))
  }

  /** What a valid event guarantees about each field. */
  lemma ValidEventFields(e: Event)
    requires Valid(e)
    ensures e.eventTitle.Some? && e.eventTitle.value != "" && 3 <= |e.eventTitle.value| <= 100
    ensures e.description.Some? ==> |e.description.value| <= 1000
    ensures e.eventCategory.Some? ==> |e.eventCategory.value| <= 50
    ensures e.eventType == Some(PublicValue) || e.eventType == Some(PrivateValue)
    ensures e.eventId.Some? && IsUuidV4(e.eventId.value)
    ensures e.organizerId.Some? && e.organizerId.value != "" && IsUuidV4(e.organizerId.value)
    ensures e.organizationId.Some? && e.organizationId.value != "" && IsUuidV4(e.organizationId.value)
    ensures e.venueId.Some? && e.venueId.value != "" && IsUuidV4(e.venueId.value)
  {
  }

  /** A well-formed UUID is never empty, so the IsNotEmpty checks add nothing to IsUUID. */
  lemma UuidImpliesNotEmpty(s: Option<string>)
    requires UuidV4(s)
    ensures Truthy(s)
  {
  }

  /** An event that is invalid only for lack of a type becomes valid once the column default applies. */
  lemma DefaultTypeRepairsMissingType(e: Event)
    requires e.eventType.None? && Valid(e.(eventType := Some(PrivateValue)))
    ensures !Valid(e) && Valid(WithDefaultType(e))
  {
  }
}
