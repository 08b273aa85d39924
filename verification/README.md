# Contact controller model

A Dafny model of the ownership-scoped contact controller of a personal
contact-management web application. The controller serves four REST
operations on `/api/contacts`:

- list the caller's contacts;
- create a contact;
- update a contact by id;
- delete a contact by id.

Each operation is modelled as a side-effect-free function (or, for list, a method whose result order is left open) of three things:

- the caller's identity (`Option<UserId>`, absent when no identity was attached to the request);
- the request inputs (body fields, route id, and the validation-error messages produced upstream);
- the store.

It yields an `Outcome`: a `Reply` and the store afterwards. A `Reply` is
either `Ok(status, value)` or `Fail(status, message)`. The error statuses
(400, 401) and the thrown messages occur only on the `Fail` branch. The
success statuses (200, 201) occur only on the `Ok` branch.

Files:

- `contact_model.dfy` (`ContactModel`): the contact record, the request body, and the store. The store is a `map<ContactId, Contact>` standing in for the document database. It also defines the per-user view `Owned`.
- `messages.dfy` (`Messages`): joins validation messages with a newline, and the split that reads them back.
- `contact_controller.dfy` (`ContactController`): the four operations, the shared load-then-authorize check, the partial merge used by update, and `UpdateContactKeepingOwner`, the corrected update that forwards only the record fields.
- `controller_properties.dfy` (`ControllerProperties`): ownership isolation, "nothing else changes", check order, delete-twice, create-then-delete, an end-to-end request sequence, and the owner-reassignment finding.

Points where the code's behaviour is easy to misread:

- The code does not check for a caller first. Update and delete report an unknown id (400 "Contact not found") even when no caller is present. Create reports a missing name and validation errors before a missing caller.
- No default `type` ("personal") is asserted. The schema that would supply one is not part of this model, and the model applies no schema default: in the model a created record's `kind` is the body's `type` field, absent if the body had none.
- Update applies the body's `user` field like any other field, so the owner can change. See "## Findings".

## Model

| member | source | states |
|---|---|---|
| ContactController.GetContacts | backend/controllers/contactController.js:12-19 | With no caller: 401 "User not found". With caller `u`: 200 and a duplicate-free list whose records are exactly the contacts whose owner is `u`. The store is unchanged in both cases. |
| ContactController.SetContact | backend/controllers/contactController.js:27-51 | Succeeds iff name is truthy, the error list is empty and a caller exists. Otherwise: 400 "name is required" first, then 400 with the joined errors, then 401 "User not found", each with the store unchanged. On success: 201, the fresh id, and a record owned by the caller. Exactly that one entry is added to the store. |
| ContactController.Authorize | backend/controllers/contactController.js:59-75 | The check order for update: unknown id gives 400 "Contact not found"; then a missing caller gives 401 "User not found"; then a non-owner gives 401 "User not authorized". It passes iff the id exists and the caller is its owner. |
| ContactController.UpdateContact | backend/controllers/contactController.js:58-81 | Succeeds iff the authorize check passes; any failure replies with that check's status and message and leaves the store unchanged. On success: 200 with the merged record, stored under the same id. |
| ContactController.DeleteContact | backend/controllers/contactController.js:88-110 | Same checks as update, with the same failure replies and an unchanged store. On success: 200 with the route id. That key is removed and every other entry is kept. |
| ContactController.UpdateContactKeepingOwner | backend/controllers/contactController.js:71-79 | Corrected update: same checks and failure replies as update. On success: 200 with the record merged from the body as update does, except that the owner stays the record's owner before the update; that record is stored under the same id. |
| Messages.Join | backend/controllers/contactController.js:37 | Joins validation messages with newlines. No messages give the empty text and a single message is returned as it is; with two or more, the text starts with the first message followed by a newline. |
| Messages.SplitJoin | backend/controllers/contactController.js:33-38 | For a non-empty list of newline-free messages, splitting the joined message on newlines gives back exactly the list. |
| ControllerProperties.CreateTouchesOnlyCallersView | backend/controllers/contactController.js:41-50 | A successful create grows the store by one. It adds the new record to the caller's view and leaves every other user's view equal. |
| ControllerProperties.CreateOwnerIsCaller | backend/controllers/contactController.js:46-48 | With a name and no validation errors, a caller's create succeeds and the record is owned by the caller. The stored record is the same whether or not the body names a `user`. |
| ControllerProperties.CreateChecksNameFirst | backend/controllers/contactController.js:28-31 | A missing or empty name gives 400 "name is required" whatever the errors and caller, with the store unchanged. |
| ControllerProperties.CreateChecksValidationBeforeCaller | backend/controllers/contactController.js:33-38 | With a name and a non-empty error list: 400 with the errors joined by newline, even without a caller, and the store is unchanged. |
| ControllerProperties.UnknownIdComesFirst | backend/controllers/contactController.js:59-63 | For an id not in the store, update and delete both give 400 "Contact not found" for any caller, the absent one included. The store is unchanged. |
| ControllerProperties.MissingCallerComesSecond | backend/controllers/contactController.js:65-69 | For an existing id and no caller, update and delete give 401 "User not found" with the store unchanged. |
| ControllerProperties.NonOwnerIsRefused | backend/controllers/contactController.js:71-75 | A caller who does not own the record gets 401 "User not authorized" from update and from delete. The store is unchanged. |
| ControllerProperties.UpdateChangesOnlyThatRecord | backend/controllers/contactController.js:77-79 | A successful update keeps the key set and every other record. When the body has no `user`, the owner is kept. |
| ControllerProperties.UpdateKeepsOtherViews | backend/controllers/contactController.js:77-79 | When the body has no `user`, an owner's update replaces the record in the owner's view and leaves every other user's view equal. |
| ControllerProperties.UpdateMergesPresentFields | backend/controllers/contactController.js:77-79 | After a successful update, each field the body carries (`user` included) has the body's value. Each field it omits keeps its stored value. |
| ControllerProperties.UpdateKeepsUnsentName | backend/controllers/contactController.js:77-79 | Updating `{name: "A", email: "a@x.com"}` with only a new email replies 200 with the name still "A" and the new email. |
| ControllerProperties.MergeIsIdempotent | backend/controllers/contactController.js:77 | Merging the same body twice equals merging it once. An empty body leaves the record as it was. |
| ControllerProperties.UpdateIsIdempotent | backend/controllers/contactController.js:77-79 | Repeating a successful update gives the same reply and store. The body must not reassign the owner. |
| ControllerProperties.DeleteTouchesOnlyCallersView | backend/controllers/contactController.js:107-108 | A successful delete shrinks the store by one. It removes the id from the caller's view and leaves every other user's view equal. |
| ControllerProperties.DeleteTwiceFails | backend/controllers/contactController.js:89-93 | After a successful delete, deleting the same id again gives 400 "Contact not found" for any caller. |
| ControllerProperties.CreateThenDeleteRestores | backend/controllers/contactController.js:48-50 | Deleting a record just created by the same caller replies 200 with its id and restores the original store. |
| ControllerProperties.OwnershipScenario | backend/controllers/contactController.js:12-108 | `u1` creates Bob and its list is exactly that record. `u2`'s rename is refused with 401 "User not authorized". `u1`'s list afterwards is the identical one-record list, still showing Bob. |
| ControllerProperties.UpdateCanReassignOwner | backend/controllers/contactController.js:77 | As written, an owner's update whose body names another `user` succeeds. The record leaves the owner's view and enters the other user's. The former owner's delete is then refused. |
| ControllerProperties.UpdateKeepingOwnerPreservesViews | backend/controllers/contactController.js:71-79 | For the corrected update, on any input, the key set and every record's owner stay the same. Each user's set of visible ids stays the same. A user other than the caller sees no change at all. |

## Left out

- Persistence engine: queries, casting, indexes and write atomicity are out of scope. The store is a map, and its operations are map lookup, update and removal.
- A malformed route id fails the engine's cast and reaches the error middleware; neither is part of this model. Route ids are plain strings.
- Id generation is a parameter `newId` of `SetContact`. It is required to be absent from the store, which the engine guarantees.
- The order in which the engine returns a user's contacts is unspecified. `GetContacts` picks keys in an arbitrary order, and its contract states the contents and the absence of duplicates, not the order.
- The validation rules that run before create are not part of this model. Their outcome is the input list of error messages.
- The middleware that attaches the caller's identity is not part of this model. Its outcome is the optional caller id.
- Schema defaults and schema validation are not part of this model. This includes a default `type` and any check on an updated name.
- Update operators in the forwarded update body (`$set`, `$unset`, …) are not modelled. Through them a body can change the owner without a top-level `user` key, or remove fields; `Merge` covers only plain top-level fields.
- Body fields are optional strings. JSON values of other types (`null`, numbers, objects) are not modelled, and neither are body fields the controller does not read.
- Asynchronous execution and concurrent requests are not modelled.
- The error middleware's response formatting and the `console.log` of the joined validation messages are not modelled.
- The client, the UI and the server bootstrap are out of scope: they contain no controller logic.

## Findings

| source | as written | input that shows it | evidently intended | confidence | as-written member | corrected member |
|---|---|---|---|---|---|---|
| backend/controllers/contactController.js:77 | The update passes the whole request body to the engine, including a `user` field, so an owner can hand a record to another user. | Owner `u1` updates `c1` with body `{user: "u2"}`: `c1` leaves `u1`'s list and joins `u2`'s, and `u1`'s later delete is refused with 401. | The ownership check at lines 71-75 implies ownership never changes: only `name`, `email`, `phone` and `type` should reach the update, as create picks them at line 46. | medium, not executed | ControllerProperties.UpdateCanReassignOwner | ControllerProperties.UpdateKeepingOwnerPreservesViews |
