# Events-management backend: repositories and the Event entity

This project models the decision logic of a REST backend for organizations, users, roles and events:

- **OrganizationRepository** (`organization_repository.dfy`): building an organization from request data with required-field checks and defaults, saving it unless an organization with the same name or contact email exists, reading, field-wise update, delete by id, and adding a user to an organization at most once. Every operation answers with a tagged `{success, message, data}` result.
- **UserRepository** (`user_repository.dfy`): duplicate lookup by email or username, building a user with defaults, saving it with exactly the seeded `GUEST` role, listing users ordered by username descending without credential columns, reading by id and deleting.
- **Event** (`event.dfy`, `uuid.dfy`): the `EventType` enum and the field constraints declared by the validation decorators, as a validity predicate and as the list of violation messages, with version-4 UUIDs in the textual form of section 3 of RFC 4122.

The relational database is replaced by an in-memory store (`database.dfy`): one `DataSource` object holding one map per table keyed by primary key, the OrganizationUser join table as a multiset of rows, and the `isInitialized` flag. The repositories are static classes over one shared data source in the source, so here they are modules of methods that take the data source and name in `modifies` the one table they change. The id the database generates on insert is a `freshId` parameter that is not yet a key of the table. A lookup that may match several rows (a name-or-email match, the `GUEST` role) picks any matching row.

Three facts about the program shape the model:
- Organization names and contact emails are meant to be unique. `save` keeps this (`OrganizationRepository.Save`); `update` makes no check and can break it (`OrganizationProperties.UpdateMayDuplicateNames`).
- A save refused as a duplicate answers with a fixed message and the existing organization as `data`.
- No storage-level key on OrganizationUser is modelled, so memberships are a multiset, and at most one row per pair is an invariant that `AddUserToOrganization` preserves.

## Model

| member | source | states |
|---|---|---|
| OrganizationRepository.GetAll | src/repositories/OrganizationRepository.ts:10-17 | succeeds and returns exactly the stored organizations |
| OrganizationRepository.GetById | src/repositories/OrganizationRepository.ts:20-34 | empty id gives "Organization ID is required"; an unknown id gives "Organization not found"; it succeeds exactly when the id is stored and then returns that organization |
| OrganizationRepository.HasRequiredFields | src/repositories/OrganizationRepository.ts:55 | holds exactly when create accepts the organization's fields: save re-checks exactly the four fields create checks (line 38) |
| OrganizationRepository.Clashes | src/repositories/OrganizationRepository.ts:61-66 | the duplicate test of save: same name or same contact email; an organization always clashes with itself, so re-saving a stored one is refused |
| OrganizationRepository.Create | src/repositories/OrganizationRepository.ts:37-51 | fails with "Required fields are missing" exactly when name, contact email, address or type is absent or empty; otherwise returns an unsaved organization (no id) with those four copied verbatim, description and phone defaulted to '' when absent, all four of them non-empty |
| OrganizationRepository.Save | src/repositories/OrganizationRepository.ts:54-86 | missing required field: failure and store unchanged; a stored organization with the same name or the same email: failure with the duplicate message, that organization as data, store unchanged; otherwise success and exactly the organization inserted at its id (or the generated one); name/email uniqueness is preserved |
| OrganizationRepository.Merge | src/repositories/OrganizationRepository.ts:107-114 | the `??` merge of update: each given field replaces the stored one; the id is kept; the required fields stay filled unless the input gives one of them as '' |
| OrganizationRepository.Update | src/repositories/OrganizationRepository.ts:91-121 | empty id gives "Organization ID is required"; unknown id gives "Organization not found"; both leave the store unchanged; otherwise only that organization changes, to the field-wise merge, which is returned |
| OrganizationRepository.Delete | src/repositories/OrganizationRepository.ts:124-138 | empty id gives "Organization ID is required"; unknown id gives "Organization not found or already deleted"; both leave the store unchanged; otherwise exactly that organization is removed and the result is success |
| OrganizationRepository.MemberView | src/repositories/OrganizationRepository.ts:187-198 | the returned user carries the loaded roles and an empty organizations list |
| OrganizationRepository.AddUserToOrganization | src/repositories/OrganizationRepository.ts:140-205 | missing user gives "User not found" (checked before the organization); missing organization gives "Organization not found"; an existing row gives "already a member"; each failure leaves memberships unchanged; otherwise exactly one (user, organization) row is added and the organization and user are returned; at most one row per pair is preserved |
| OrganizationProperties.CreatedIsSaveable | src/repositories/OrganizationRepository.ts:37-57 | an organization that create builds passes the required-field check of save |
| OrganizationProperties.MergeFieldwise | src/repositories/OrganizationRepository.ts:107-114 | each field given in the input (even as '') replaces the stored one, each absent field keeps its value, the id is kept |
| OrganizationProperties.MergeNothing | src/repositories/OrganizationRepository.ts:107-114 | an update giving no field leaves the organization unchanged |
| OrganizationProperties.MergeIdempotent | src/repositories/OrganizationRepository.ts:107-114 | applying an update twice equals applying it once |
| OrganizationProperties.UpdateMayDuplicateNames | src/repositories/OrganizationRepository.ts:107-117 | there is a store with unique names in which an update leaves two organizations with one name |
| OrganizationProperties.SaveSameNameTwice | src/repositories/OrganizationRepository.ts:60-79 | from any store in which neither clashes, saving two organizations with one name: the first is inserted and nothing else changes, the second fails as a duplicate and returns the first |
| OrganizationProperties.DeleteTwice | src/repositories/OrganizationRepository.ts:130-134 | the first delete of a stored id succeeds; the second reports "not found or already deleted"; only that organization is gone |
| OrganizationProperties.AddUserTwice | src/repositories/OrganizationRepository.ts:166-181 | the second of two identical calls fails, with "already a member" when the first succeeded, and the pair has at most one row |
| UserRepository.FindExistingUser | src/repositories/UserRepository.ts:10-24 | throws "Database not initialized" exactly when the data source is not initialized; otherwise returns a stored user whose email or username matches, and null exactly when no stored user matches |
| UserRepository.CreateUser | src/repositories/UserRepository.ts:29-38 | a new user with no id and no roles; username, names and email from the input or ''; phone number from the input or null |
| UserRepository.SaveUser | src/repositories/UserRepository.ts:42-78 | throws when not initialized; with no GUEST role answers the configuration error and stores nothing; it succeeds exactly when initialized with a GUEST role, and then stores and returns the user with its roles replaced by exactly one GUEST role |
| UserRepository.Matches | src/repositories/UserRepository.ts:17-19 | the duplicate test of findExistingUser: same email or same username; either field alone blocks, and a user built by createUser from the same email and username is always found |
| UserRepository.UserOrganizations | src/repositories/UserRepository.ts:86 | the organizations relation: exactly the stored organizations the user has a membership row for |
| UserRepository.Row | src/repositories/UserRepository.ts:85-86 | the projected row keeps the stored user's id and username |
| UserRepository.InsertByUsername | src/repositories/UserRepository.ts:87 | ordered insertion adds exactly the new row: the multiset of rows grows by it |
| UserRepository.InsertKeepsSorted | src/repositories/UserRepository.ts:87 | inserting into rows sorted by username descending keeps them sorted |
| UserRepository.GetAllUsers | src/repositories/UserRepository.ts:82-90 | rows sorted by username descending, one per stored user and no other, each the user's selected columns, roles and organizations |
| UserRepository.GetUserById | src/repositories/UserRepository.ts:92-99 | null exactly when no user has the id; otherwise that user's projected row |
| UserRepository.DeleteUser | src/repositories/UserRepository.ts:101-117 | unknown id gives "User not found" and changes nothing; otherwise exactly that user is removed and the result is success |
| UserProperties.RowsDistinct | src/repositories/UserRepository.ts:85 | rows of two different stored users differ |
| UserProperties.ProjectKeepsColumns | src/repositories/UserRepository.ts:85 | the projection keeps the six selected columns and the roles, and does not depend on the credential column: changing the password leaves the row unchanged |
| UserProperties.Register | src/repositories/UserRepository.ts:29-72 | creating then saving a user with a seeded GUEST role adds exactly that user at the new id, with exactly one role, GUEST, and changes no other stored user |
| UserProperties.RegisterWithoutGuestRole | src/repositories/UserRepository.ts:54-59 | without a GUEST role registration answers the configuration error and stores no user |
| UserProperties.DeleteUserTwice | src/repositories/UserRepository.ts:105-112 | the second delete of one id answers "User not found" |
| Ordering.LexReflexive | src/repositories/UserRepository.ts:87 | the username order is reflexive |
| Ordering.LexTotal | src/repositories/UserRepository.ts:87 | any two usernames are comparable |
| Ordering.LexAntisymmetric | src/repositories/UserRepository.ts:87 | usernames that sort both ways are equal |
| Ordering.LexTransitive | src/repositories/UserRepository.ts:87 | the username order is transitive |
| EventModel.ParseEventType | src/models/Event.ts:15-18 | a string names an event type exactly when it is 'public' or 'private' |
| EventModel.ParseEventTypeInverse | src/models/Event.ts:15-18 | parsing and the enum's string values are inverse |
| EventModel.Valid | src/models/Event.ts:22-70 | every decorator holds: version-4 UUID ids, title non-empty of 3 to 100 characters, optional description at most 1000 and category at most 50, type 'public' or 'private', and non-empty organizer, organization and venue ids |
| EventModel.Violations | src/models/Event.ts:22-70 | no violation message exactly when the event is valid; a bad title length, description length, category length or type each produce their message |
| EventModel.ValidEventFields | src/models/Event.ts:22-70 | a valid event has a title of 3 to 100 characters, description at most 1000 and category at most 50 when present, type 'public' or 'private', and version-4 UUIDs for the event, organizer, organization and venue ids, the last three non-empty |
| EventModel.UuidImpliesNotEmpty | src/models/Event.ts:57-70 | an id that passes the UUID check is never empty |
| EventModel.WithDefaultType | src/models/Event.ts:47-51 | the column default makes an absent type 'public' and keeps a given one and every other field |
| EventModel.DefaultTypeRepairsMissingType | src/models/Event.ts:47-55 | an event invalid only for lack of a type is valid after the default applies |
| Uuid.IsUuidV4 | src/models/Event.ts:23 | the `IsUUID('4')` check: 36 characters in 8-4-4-4-12 hexadecimal groups, either case; the version digit is 4 and the variant digit has high bits 1 0 |
| Uuid.FormatIsUuidV4 | src/models/Event.ts:22-24 | a generated identifier (random digits, version 4, variant 10) passes the version-4 check |
| Uuid.DigitsOfFormat | src/models/Event.ts:22-24 | reading the digits back from a formatted identifier gives the digits |
| Uuid.FormatOfDigits | src/models/Event.ts:22-24 | a valid lower-case identifier is the formatting of its digits |

## Left out

- Gateway exceptions are not modelled. These are the "Failed to ..." results of the organization operations, `deleteUser`'s "Failed to delete user", `saveUser`'s "Database error: ..." and `findExistingUser`'s rethrown error. Every gateway call here succeeds.
- async/await and concurrent requests are not modelled. Operations run one at a time, so the check-then-insert races in `save` and `addUserToOrganization` do not arise.
- Logging (`console.error`, `console.warn`) is left out.
- OrganizationController and the route files are not part of this model. They only translate HTTP and route requests.
- The entity files (Organization, User, Role, OrganizationUser), the database configuration and the interfaces are not part of this model. The fields used are the ones the repositories read and write. The credential columns of User are stood for by one `password` field.
- Relation loading is simplified. Roles are stored on the user row. The `organizations` relation is the join through the membership rows. The organization's loaded `users` relation in `addUserToOrganization` is not modelled.
- The repositories delete no membership rows: membership rows of a deleted user or organization stay in the table. A cascade declared on the entities is not modelled.
- UserRepository.SaveUser: the source also overwrites `roles` on the caller's own object. The model is on values and returns the updated user instead, so that aliasing is not captured.
- UserRepository.GetAllUsers: the database collation for `ORDER BY username DESC` is replaced by character-code order. Rows with equal usernames come in an unspecified order.
- OrganizationRepository.GetAll: the rows come back as a set, so the database's row order is not modelled.
- UserRepository.FindExistingUser: which matching row the database returns first is not modelled; any matching row may come back. The same holds for the GUEST role in `SaveUser` and the duplicate returned by `Save`.
- EventModel.Violations: length is counted in characters. The validator library's own counting rules are not modelled, and neither is its message grouping per property. The exact UUID regular expression of that library is replaced by the textual form of section 3 of RFC 4122.
- TypeORM's matching of undefined `where` values is not modelled: every id, email and username here is a string.
