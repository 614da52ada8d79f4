# Profile routes of a developer-network API, modelled in Dafny

The system is an Express router (`routes/api/profile.js`) that keeps one
profile per user in a document store. This model covers the router's logic:

- **Field builder** of `POST /api/profile`. It turns the request body into a
  partial update:
  - the owner id;
  - `website` and `status` when truthy;
  - `skills` when truthy, split on `,` with each piece trimmed;
  - a fresh `social` object holding each truthy platform handle.
- **Required-field checks** each handler declares (`check(...).not().isEmpty()`).
  When any check fails, the handler answers with one error per failed check and
  does not touch the store.
- **Upsert**. The owner has a profile: a `$set` of the field set, so carried
  fields overwrite, missing fields stay, and `social` is replaced as a whole.
  The owner has none: a new profile made of exactly the field set.
- **Sub-record ledgers** (`experience`, `education`):
  - adding uses `unshift`, so the newest record comes first;
  - removing uses `indexOf` over the record ids, then `splice(index, 1)`. When
    the id is not there, `indexOf` gives -1, and `splice(-1, 1)` removes the
    **last** record. The model reproduces this behaviour and states it as
    lemmas.
- **Lookup** by owner, and **deletion** of the owner's profile.

The store is a map from owner id to profile. Each handler that writes is a
function from (store, owner, request values) to the store afterwards plus a
reply. The reply is the profile (the success message for `DELETE /profile`)
or a failure: `Invalid` errors, or `ServerError` for the throw on a missing
profile. A failed request never changes the store. The two reads
(`GET /profile/me`, `GET /profile/user/:user_id`) change nothing and are
functions from (store, owner) to the reply alone, the profile or `NoProfile`.

Modules, one file each: `Wrappers` (optional values), `JsText` (truthiness,
`String.prototype.trim`, `split`/`join` with a one-character separator),
`Validation` (the checks), `Ledger` (records with ids; `indexOf`, `splice`,
`unshift`, removal by id), `ProfileFields` (request body to field set and
records), `ProfileStore` (profiles, upsert, delete) and `ProfileRoutes` (the
handlers modelled: both reads, `POST /profile`, `DELETE /profile`, and adding
and removing experience and education records).

Three behaviours of the code are worth stating plainly, and the model follows
them:

- The update replaces `social` as a whole (line 67). A platform stored before
  but left out of the new request is gone afterwards.
- An unknown id makes `indexOf` return -1, so `splice(-1, 1)` removes the last
  record (lines 209-213).
- An education record carries only `school`, `degree` and `fieldofstudy`
  (lines 244-248).

## Model

| member | source | states |
|---|---|---|
| `JsText.Trim` | routes/api/profile.js:63 | `trim` returns the infix of its input that follows the leading whitespace and is followed only by whitespace, with no whitespace at either end |
| `JsText.TrimPadded` | routes/api/profile.js:63 | whatever whitespace surrounds a trimmed string, `trim` gives back exactly that string; with `Trim`'s contract this fixes the result uniquely |
| `JsText.TrimOfTrimmed` | routes/api/profile.js:63 | `trim` leaves a string with no whitespace at either end unchanged, so trimming is idempotent |
| `JsText.TrimInfix` | routes/api/profile.js:63 | `trim` introduces no character that was not in its input |
| `JsText.Split` | routes/api/profile.js:63 | `split(',')` yields one more piece than there are commas, and no piece contains a comma |
| `JsText.JoinSplit` | routes/api/profile.js:63 | joining the pieces of a split with the same separator gives back the input string |
| `JsText.SplitJoin` | routes/api/profile.js:63 | splitting a join of separator-free pieces gives back exactly those pieces, empty ones included |
| `Validation.Failures` | routes/api/profile.js:36-45 | the error list is empty exactly when every checked value is present and non-empty; each failed check contributes its error and every error comes from a failed check; a single check gives no error when its value is truthy and exactly its own error otherwise |
| `Validation.FailuresAppend` | routes/api/profile.js:36-45 | the errors of consecutive groups of checks are the groups' errors one after the other; with the single-check case this fixes the list: one error per failed check, in declaration order |
| `Validation.FailuresOfThree` | routes/api/profile.js:36-38 | the three checks a handler declares report their errors in declaration order |
| `Validation.FailuresExample` | routes/api/profile.js:42-44 | a missing value followed by a present one gives exactly one error, the first check's |
| `ProfileFields.ProfileChecksPass` | routes/api/profile.js:36-38 | a profile body passes exactly when website, status and skills are all truthy; a missing status is reported with the source's own message text |
| `ProfileFields.ExperienceChecksPass` | routes/api/profile.js:169-171 | an experience passes exactly when title, company and description are truthy; `from` is not checked |
| `ProfileFields.EducationChecksPass` | routes/api/profile.js:231-233 | an education passes exactly when school, degree and field of study are truthy |
| `ProfileFields.ParseSkills` | routes/api/profile.js:62-64 | the skills list has one entry per comma-separated piece, in order, each the trimmed piece, comma-free and with no surrounding whitespace |
| `ProfileFields.TrimAll` | routes/api/profile.js:63 | mapping `trim` over the pieces keeps their number and trims each piece in place |
| `ProfileFields.ParseSkillsOfJoin` | routes/api/profile.js:63 | skills given as comma-joined entries that are trimmed and comma-free come back as exactly those entries |
| `ProfileFields.SkillsGoRust` | routes/api/profile.js:63 | `"go, rust"` becomes `["go", "rust"]` |
| `ProfileFields.SkillsSpacedAbc` | routes/api/profile.js:63 | whitespace on either side of a piece is dropped: `"a, b ,c"` becomes `["a", "b", "c"]` |
| `ProfileFields.SkillsEmptyMiddle` | routes/api/profile.js:63 | empty pieces are kept: `"a,,b"` becomes `["a", "", "b"]` |
| `ProfileFields.BuildSocial` | routes/api/profile.js:66-72 | a platform has a key in the social object exactly when its body value is truthy, and then holds that value |
| `ProfileFields.BuildFields` | routes/api/profile.js:57-72 | the field set always names the owner; website, status and skills are present exactly when truthy (skills parsed); the social object is built from the handles |
| `ProfileStore.Upsert` | routes/api/profile.js:74-90 | afterwards the owner has a profile and nobody else's changes; carried fields overwrite, missing ones keep the old value, `social` is the new object, ledgers stay; for a new owner the profile is exactly the field set with empty ledgers |
| `ProfileStore.UpsertTwice` | routes/api/profile.js:79-83 | two updates for one owner act as one update of the combined field set: a field the second omits keeps the first's value |
| `ProfileStore.UpsertIdempotent` | routes/api/profile.js:79-83 | repeating the same update changes nothing |
| `ProfileStore.UpsertDropsOmittedPlatform` | routes/api/profile.js:67-83 | a platform stored before but left out of the new body is gone afterwards: `social` is replaced, not merged |
| `ProfileStore.Delete` | routes/api/profile.js:142-145 | the owner's profile is removed and every other owner's profile stays as it was |
| `ProfileStore.DeleteUndoesCreate` | routes/api/profile.js:137-145 | deleting the profile a create just made restores the store |
| `Ledger.Ids` | routes/api/profile.js:209-210 | the id list has the ledger's length and holds each record's id at its position |
| `Ledger.IndexOf` | routes/api/profile.js:209-211 | `indexOf` is -1 exactly when the value is absent, and otherwise the position of its first occurrence |
| `Ledger.IndexOfIds` | routes/api/profile.js:209-211 | the index computed over the ids is -1 when no record carries the id, else the position of the first record that does |
| `Ledger.Splice` | routes/api/profile.js:213 | `splice(i, 1)` at an in-range index removes exactly that element; at -1 it removes the last element; it never adds elements |
| `Ledger.Unshift` | routes/api/profile.js:190 | the new record goes to the front and the earlier records follow in their order |
| `Ledger.RemoveById` | routes/api/profile.js:209-213 | when some record has the id, the first such record alone is removed and the rest keep their order; when none has it, the last record is removed |
| `Ledger.RemovePresent` | routes/api/profile.js:209-213 | removing an id whose first carrier is at position `p` removes exactly `l[p]`: the ledger is one shorter and every other record stays in order |
| `Ledger.RemoveAbsentDropsLast` | routes/api/profile.js:209-213 | with an id no record carries, a non-empty ledger still loses its last record |
| `Ledger.RemoveMissingIdExample` | routes/api/profile.js:209-213 | removing an unknown id from a two-record ledger leaves only the first record |
| `Ledger.RemoveTwiceDropsLast` | routes/api/profile.js:209-213 | removal is not idempotent: with unique ids, repeating a removal drops the last remaining record |
| `Ledger.RemoveUndoesUnshift` | routes/api/profile.js:190-213 | removing by the id of a record just added takes back exactly that record |
| `Ledger.UnshiftFreshKeepsUnique` | routes/api/profile.js:190 | adding a record with a fresh id keeps record ids unique |
| `Ledger.RemoveKeepsUnique` | routes/api/profile.js:209-213 | removal keeps record ids unique |
| `ProfileRoutes.GetProfile` | routes/api/profile.js:14-18 | the reply is the owner's profile exactly when there is one, else the no-profile failure; used for both `/me` and `/user/:user_id` (lines 118-122) |
| `ProfileRoutes.Post` | routes/api/profile.js:41-95 | the post succeeds exactly when website, status and skills are truthy; on failure the store is unchanged and the errors are reported; on success the store is the upsert of the built fields and the reply is the stored profile |
| `ProfileRoutes.AddExperience` | routes/api/profile.js:174-197 | succeeds exactly when the checks pass and the owner has a profile; failures leave the store unchanged (invalid input, or a server error on a missing profile); success puts the record first and changes nothing else |
| `ProfileRoutes.AddEducation` | routes/api/profile.js:236-258 | as for experience, on the education ledger |
| `ProfileRoutes.RemoveExperience` | routes/api/profile.js:204-220 | with no profile, a server error and an unchanged store; otherwise only the experience ledger changes, by removal by id |
| `ProfileRoutes.RemoveEducation` | routes/api/profile.js:265-281 | as for experience, on the education ledger |
| `ProfileRoutes.GetAfterPost` | routes/api/profile.js:74-90 | after a successful post, reading the owner's profile returns what the post replied |
| `ProfileRoutes.DeleteProfile` | routes/api/profile.js:137-158 | the reply is always the success message; the owner's profile is gone, every other profile stays, and with no profile to remove the store is unchanged |
| `ProfileRoutes.GetAfterDelete` | routes/api/profile.js:137-145 | after `DELETE /profile`, reading the owner's profile gives the no-profile failure |
| `ProfileRoutes.RemoveUndoesAddExperience` | routes/api/profile.js:189-213 | adding an experience and then removing it by its id restores the store |
| `ProfileRoutes.RemoveUndoesAddEducation` | routes/api/profile.js:250-274 | adding an education and then removing it by its id restores the store |
| `ProfileRoutes.PostAddGetExample` | routes/api/profile.js:57-90 | a session posting website `a.com`, status `dev`, skills `go, rust`, then adding one experience, reads back a profile with skills `["go", "rust"]`, an empty social object and that one experience |
| `ProfileRoutes.AddToFreshProfile` | routes/api/profile.js:189-192 | adding a valid experience to a profile with none gives a one-record experience ledger |

## Left out

- HTTP routing, status codes and response shapes are not modelled. Replies are
  abstracted to the profile or a failure kind.
- The authentication middleware is not modelled. The owner id is a parameter.
- `populate('user', ...)` joins with the user collection are not modelled.
- `console.error` logging is not modelled.
- Concurrency between requests is not modelled. Each handler is one atomic
  store transition, so lost updates between the read and the write are
  outside the model.
- The catch of an ObjectId cast error in `GET /user/:user_id` (lines 126-128)
  is not modelled. Owner ids are plain strings and every lookup is well formed.
- `GET /api/profile` (lines 102-110) is not modelled. It returns the whole
  collection and has no logic of its own.
- The second `findOneAndRemove({ _id: req.user.id })` in `DELETE /api/profile`
  (line 148) is not modelled. Profiles here have no identifier besides their
  owner. The user collection is not part of this model.
- Sub-record ids, which the store generates, are parameters of the add
  handlers.
- Non-string body values are not modelled. An array or number for `skills`
  would make `split` throw; every body value is an optional string.
- express-validator reading a key from places other than the body is not
  modelled.
- Schema defaults, schema validation and timestamps of `models/Profile.js` are
  not modelled. That file is not part of this model; a field the field set
  omits stays absent on a new profile.
- Storage failures, and the resulting 500 replies, are not modelled.
- `ProfileRoutes.GetProfile`: the `/user/:user_id` variant's different message
  text is not distinguished. Both give the `NoProfile` failure.
