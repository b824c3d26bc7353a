# Portfolio admin API — a Dafny model

This project models the admin back end of a 3D portfolio site and the browser
session that talks to it. The same REST API exists twice:

- an Express server with Mongoose schemas and a JWT middleware;
- a FastAPI server with pydantic models.

Both serve public, visible-only lists of projects, skills and certificates,
and accept contact messages. Both let a signed-in admin create, update and
delete content, manage messages, and read dashboard counts. The React client
keeps the admin token in `localStorage`. An axios interceptor sends that token
back as a `Bearer` header.

The model covers the following pieces:

- **Records.** `Models` holds the stored records, the creation models with
  their defaults, and the all-optional update models. It also holds the
  partial update both servers apply (only the present fields are written).
- **Schemas.** One module per Mongoose schema: `ProjectSchema`, `SkillSchema`,
  `CertificateSchema`, `MessageSchema`, and `AdminUserModel` for the admin
  schema. Each states what a stored document satisfies (required and trimmed
  strings, enums, bounds, a lower-cased email). It also states what `save()`
  accepts, and what an update under `runValidators` accepts and keeps valid.
  `AdminUserModel.AdminUserDoc` is a document object that updates in place.
  Its `save()` runs validation, then the pre-save hook. That hook re-hashes
  the password with a cost-12 salt, but only when the password was modified.
- **Collections and the database.** `Collections` holds the collection
  operations the handlers use: filter, count, a stable sort, a `to_list(n)`
  prefix, and find, update and delete by id. `Store.Database` is the
  database. Its collections are sequences in natural (insertion) order, with
  unique ids and unique admin usernames as its invariant.
- **Libraries.** `Oracles` models bcrypt, jsonwebtoken and the unseen Python
  `auth` module as values holding functions. Their laws are stated as
  predicates, and the lemmas that rely on them require them. The bcrypt law
  is stated on the key bcrypt actually reads: the password's UTF-8 bytes
  with a NUL terminator, read cyclically for 72 bytes. So a password longer
  than 72 bytes is matched by any candidate that shares its first 72 bytes.
- **Express.** `AuthMiddleware` models `generateToken` and
  `authenticateToken`. The header parse is `split(' ')[1]`. The guard's
  decision is the function `Guard`. The middleware method ties its effect on
  `req.user` and on the response to that decision. `ExpressServer` has every
  route handler as a method on the request, the response and the database.
  It also has the route table, with a lemma that every `/api/admin/` route
  except login is guarded.
- **FastAPI.** `PyServer` has the FastAPI handlers. Each returns a status and
  a body. The `get_current_admin` dependency's outcome is a parameter.
- **Client.** `ApiClient` models `localStorage`, the base URL, the request
  interceptor and the message-status URL. `AuthContext` is the React
  context's state (`user`, `loading`, `error`, the stored token). It has the
  `checkAuth`, `login` and `logout` transitions, and the invariant that a
  signed-in user always has a stored token.
- **Session.** `Session` joins the three parts. The token an Express login
  issues comes back through the interceptor's header and parses back to
  itself. The guard then admits it as the stored admin until it expires, and
  rejects it with `Invalid token` from then on.

The clock, uuid generation, the client address and the random part of a
bcrypt salt are parameters throughout.

## Model

| member | source | states |
|---|---|---|
| Text.Split | backend-express/middleware/auth.js:16 | `split(' ')` always yields at least one piece |
| Text.JoinSplit | backend-express/middleware/auth.js:16 | joining the pieces of a split with the separator gives back the string |
| Text.SplitJoin | backend-express/middleware/auth.js:16 | splitting a join of separator-free pieces gives back the pieces |
| Text.SplitPiecesFree | backend-express/middleware/auth.js:16 | no piece of a split contains the separator |
| Text.SplitFree | backend-express/middleware/auth.js:16 | a string without the separator splits into itself alone |
| Text.SplitAfterWord | backend-express/middleware/auth.js:16 | a separator-free word followed by the separator is the first piece; the pieces of the rest follow |
| Text.TrimStart | backend-express/models/Project.js:10-14 | the result is a suffix, and only white space was dropped before it |
| Text.TrimEnd | backend-express/models/Project.js:10-14 | the result is a prefix, and only white space was dropped after it |
| Text.Trim | backend-express/models/Project.js:10-14 | the `trim` setter yields a trimmed string no longer than its input |
| Text.TrimSpec | backend-express/models/Project.js:10-14 | a trimmed value is the contiguous slice of the input between leading and trailing white space |
| Text.TrimOfTrimmed | backend-express/models/Project.js:10-14 | trimming a trimmed string changes nothing |
| Text.TrimIdempotent | backend-express/models/Project.js:10-14 | trimming twice is trimming once |
| Text.ToLower | backend-express/models/AdminUser.js:17-23 | the `lowercase` setter maps each character and keeps the length |
| Text.ToLowerSpec | backend-express/models/AdminUser.js:17-23 | a lower-cased string has no upper-case letter, and lower-casing is idempotent |
| Text.TrimToLowerCommute | backend-express/models/AdminUser.js:17-23 | the `trim` and `lowercase` setters commute |
| Text.TrimStartToLower | backend-express/models/AdminUser.js:17-23 | lower-casing commutes with dropping leading white space |
| Text.TrimEndToLower | backend-express/models/AdminUser.js:17-23 | lower-casing commutes with dropping trailing white space |
| Text.OrDefault | backend-express/middleware/auth.js:4-5 | `value \|\| fallback`: a present non-empty value wins, otherwise the fallback |
| Collections.Filter | backend/server.py:57 | a query filter keeps only matching documents, each matching document as often as it is stored |
| Collections.FilterAppend | backend/server.py:57 | the result keeps stored order: a document appended to the collection is appended to the result exactly when it matches |
| Collections.CountBounds | backend/server.py:366-367 | a filtered count is at most the total, and equals it exactly when every document matches |
| Collections.InsertBy | backend/server.py:72 | inserting into a sorted list keeps it sorted and adds exactly that element |
| Collections.SortBy | backend/server.py:72 | `sort(key, 1)` returns a permutation of its input in ascending key order |
| Collections.Take | backend/server.py:57 | `to_list(n)` returns a prefix of at most n documents, all of them when there are no more than n |
| Collections.TakeSorted | backend/server.py:143 | a prefix of a sorted result is sorted and drawn from it |
| Collections.SortedPageSpec | backend/server.py:72 | filter, sort, then cap: at most the limit, sorted, only matching documents, and every match when they fit |
| Collections.IndexOfId | backend/server.py:170 | the position of the first document with the id |
| Collections.FindById | backend/server.py:170 | `find_one({id})` is absent exactly when no document has the id, otherwise one with that id |
| Collections.FindWhere | backend/server.py:63 | `find_one(filter)` returns a matching document, or none when nothing matches |
| Collections.UpdateById | backend/server.py:177 | `update_one` keeps the length and changes nothing for an unknown id |
| Collections.DeleteById | backend/server.py:190 | `delete_one` removes one document when the id exists, otherwise nothing |
| Collections.DeleteByIdSpec | backend/server.py:190-193 | with unique ids, delete removes exactly that id and keeps ids unique |
| Collections.UpdateByIdSpec | backend/server.py:177-179 | with unique ids, update keeps the id set, leaves every other document in place, and reading the id back gives the changed document |
| Collections.InsertFreshSpec | backend-express/models/Project.js:5-9 | appending a document with a fresh id keeps ids unique |
| Collections.UpdateByIdKeeps | backend-express/server.js:233-237 | when the one rewritten document keeps a property, every document still has it |
| Collections.UpdateByIdKeepsKey | backend-express/models/AdminUser.js:11-16 | a change that keeps a unique key keeps that key unique |
| Models.NewProject | backend/models.py:7-25 | a new project gets the id and time given, the body's fields, and the defaults web / completed / not featured / visible / no tech or features |
| Models.NewSkill | backend/models.py:62-72 | a new skill gets level 50, order 0, visible and no projects unless given |
| Models.NewCertificate | backend/models.py:95-108 | a new certificate gets status active, priority 0 and visible unless given |
| Models.NewMessage | backend/server.py:86-91 | a new message is `unread`, with the client's address and user agent |
| Models.NewAdminUser | backend/models.py:155-162 | role `admin` unless given, and no last login |
| Models.NewToken | backend/models.py:168-172 | the token type defaults to `bearer` |
| Models.ProjectUpdateSpec | backend/server.py:174-177 | the partial update writes exactly the fields that are not None and keeps every other field |
| Models.SkillUpdateSpec | backend/server.py:234-236 | the partial skill update writes exactly the fields that are not None and keeps every other field |
| Models.CertificateUpdateSpec | backend/server.py:293-295 | the partial certificate update writes exactly the fields that are not None and keeps every other field |
| Models.ProjectUpdateIdempotent | backend/models.py:44-59 | applying a project update twice is applying it once, and an all-None update changes nothing |
| Models.SkillUpdateIdempotent | backend/models.py:84-93 | applying a skill update twice is applying it once, and an all-None update changes nothing |
| Models.CertificateUpdateIdempotent | backend/models.py:123-135 | applying a certificate update twice is applying it once, and an all-None update changes nothing |
| Models.SkillUpdatesCompose | backend/server.py:234-236 | two successive partial updates equal one merged update in which the later fields win |
| Oracles.GenSalt | backend-express/models/AdminUser.js:52 | a generated salt carries the cost it was asked for |
| Oracles.SymbolicBcryptLawful | backend-express/models/AdminUser.js:52-53 | the bcrypt law the model relies on is satisfiable |
| Oracles.Utf8Append | backend-express/models/AdminUser.js:53 | the UTF-8 encoding bcrypt hashes distributes over concatenation |
| Oracles.Utf8DecodeChar | backend-express/models/AdminUser.js:53 | each character's UTF-8 bytes decode back to its code point |
| Oracles.Utf8Injective | backend-express/models/AdminUser.js:53 | different passwords have different UTF-8 encodings |
| Oracles.SharedPrefixSameKey | backend-express/models/AdminUser.js:53 | passwords that agree on their first 72 bytes have the same bcrypt key |
| Oracles.ShortKeysDistinct | backend-express/models/AdminUser.js:53 | encodings under 72 bytes without NUL bytes that differ give different keys |
| Oracles.KeyDeterminesPassword | backend-express/models/AdminUser.js:53 | among passwords bcrypt reads in full, equal keys mean equal passwords |
| Oracles.UnescapeEscape | backend-express/middleware/auth.js:9 | the symbolic token's field escaping is undone by unescaping |
| Oracles.EncodeTokenDecodes | backend-express/middleware/auth.js:9-22 | a symbolic token is non-empty and space-free, and verifies to its claims exactly before its expiry |
| Oracles.SymbolicJwtLawful | backend-express/middleware/auth.js:9-22 | the jsonwebtoken laws the model relies on hold together for a concrete signer and verifier |
| SchemaTypes.TrimOpt | backend-express/models/Project.js:25-28 | the setter on an optional path keeps absence and trims a present value |
| SchemaTypes.TrimAll | backend-express/models/Project.js:29-32 | the setter on a string-array path trims each element in place |
| SchemaTypes.TrimAllOpt | backend-express/models/Project.js:29-36 | an optional string-array path is trimmed element by element when present |
| SchemaTypes.TrimAllOfTrimmed | backend-express/models/Project.js:29-36 | trimming an already-trimmed list changes nothing |
| SchemaTypes.NormalizeEmail | backend-express/models/Message.js:15-20 | the email setters give the same value in either order |
| SchemaTypes.NormalizeEmailSpec | backend-express/models/AdminUser.js:17-23 | a non-blank email normalises to a valid stored email, and a stored email is left as it is |
| ProjectSchema.PreSave | backend-express/models/Project.js:90-93 | the pre-save hook sets `updatedAt` to now and nothing else |
| ProjectSchema.Create | backend-express/models/Project.js:10-74 | `save()` succeeds exactly for bodies with the required paths and enum values, and the stored project is valid |
| ProjectSchema.CreateDefaults | backend-express/models/Project.js:57-74 | omitted paths default to web, completed, not featured, visible, empty lists |
| ProjectSchema.CastUpdate | backend-express/server.js:233-237 | an update passes `runValidators` exactly when it respects the enums and does not blank a required path |
| ProjectSchema.UpdateKeepsValid | backend-express/server.js:233-237 | an accepted update keeps a valid project valid |
| SkillSchema.Create | backend-express/models/Skill.js:10-45 | `save()` succeeds exactly for an accepted body; the skill has level 0..100, a known category, non-negative experience, and the defaults |
| SkillSchema.CastUpdate | backend-express/server.js:305-309 | an update passes the validators exactly when its level, category and experience are in range |
| SkillSchema.UpdateKeepsValid | backend-express/server.js:305-309 | an accepted update keeps a valid skill valid |
| CertificateSchema.Create | backend-express/models/Certificate.js:10-57 | `save()` succeeds exactly for bodies with name, issuer and date, and a known status; defaults active, priority 0, visible |
| CertificateSchema.CastUpdate | backend-express/server.js:377-381 | an update passes the validators exactly when it respects the enum and does not blank a required path |
| CertificateSchema.UpdateKeepsValid | backend-express/server.js:377-381 | an accepted update keeps a valid certificate valid |
| MessageSchema.Create | backend-express/models/Message.js:10-40 | `save()` succeeds exactly when name, email and message are not blank; the message is unread, with the email trimmed and lower-cased |
| AdminUserModel.ToJsonHidesHash | backend-express/models/AdminUser.js:66-71 | two admins have the same JSON exactly when they differ at most in the password hash |
| AdminUserModel.HashAcceptsOnlyItsPassword | backend-express/models/AdminUser.js:61-63 | under the bcrypt law a hash accepts its own password and exactly the candidates with the same key; among passwords read in full (under 72 bytes, no NUL) only its own |
| AdminUserModel.HashAcceptsSharedPrefix | backend-express/models/AdminUser.js:61-63 | a candidate sharing the hashed password's first 72 bytes is accepted, whatever follows |
| AdminUserModel.AdminUserDoc.Load | backend-express/models/AdminUser.js:5-45 | a document loaded from the collection holds the record, with the password unmodified |
| AdminUserModel.AdminUserDoc.New | backend-express/models/AdminUser.js:5-40 | a new document trims the username, normalises the email, defaults the role and marks the password modified; it is a valid stored record exactly when it passes the validators |
| AdminUserModel.SettersMakeValid | backend-express/models/AdminUser.js:11-33 | a record built through the `trim` and `lowercase` setters passes the validators exactly when it is a valid stored record |
| AdminUserModel.ValidPassesValidators | backend-express/models/AdminUser.js:11-33 | every valid stored admin record passes `save()`'s validators |
| AdminUserModel.AdminUserDoc.ComparePassword | backend-express/models/AdminUser.js:61-63 | with the stored hash of some password, the candidate is accepted exactly when it has that password's key |
| AdminUserModel.AdminUserDoc.SetLastLogin | backend-express/server.js:172 | only `lastLogin` changes, and the password stays unmodified |
| AdminUserModel.AdminUserDoc.SetPassword | backend-express/models/AdminUser.js:24-27 | a password assignment marks the path modified |
| AdminUserModel.AdminUserDoc.HashIfModified | backend-express/models/AdminUser.js:48-58 | the hook hashes with a cost-12 salt only when the password was modified |
| AdminUserModel.AdminUserDoc.Save | backend-express/models/AdminUser.js:5-58 | `save()` succeeds exactly when the record passes the schema's validators (non-empty username, email and hash, role in the enum), and validation comes first; then the hook; an unmodified password is never rehashed; after a rehash exactly the candidates with the new password's key match, which for a password read in full is that password alone |
| Http.HeaderValue | backend-express/middleware/auth.js:15 | a header lookup is present exactly when the header was sent |
| Http.Response.Send | backend-express/server.js:80 | `res.status(code).json(body)` sets both |
| Store.FindAdmin | backend/server.py:107 | exact username lookup: a stored admin of that name, or none when there is none |
| Store.FindAdminUnique | backend-express/models/AdminUser.js:11-16 | with unique usernames, a lookup by an admin's name finds that admin |
| Store.QueryAdmin | backend-express/server.js:161 | `findOne({username})` casts the filter through the trim setter |
| Store.QueryAdminStored | backend-express/middleware/auth.js:23 | a stored admin's own username finds that admin |
| Store.ProjectChangeKeepsValid | backend-express/server.js:233-237 | an accepted update plus the `updatedAt` stamp keeps a project valid |
| Store.DashboardStats | backend-express/server.js:472-490 | counts of each collection; unread is at most total, and equal exactly when every message is unread |
| Store.Database.InsertProject | backend/server.py:158 | appends the project, keeping ids unique and schema validity |
| Store.Database.UpdateProject | backend/server.py:177 | rewrites the document with that id, keeps the ids and, when that document stays valid, the schema |
| Store.Database.DeleteProject | backend/server.py:190 | removes exactly that id |
| Store.Database.InsertSkill | backend/server.py:218 | appends the skill, keeping ids unique |
| Store.Database.UpdateSkill | backend/server.py:236 | rewrites the skill with that id, keeping the ids |
| Store.Database.DeleteSkill | backend/server.py:249 | removes exactly that id |
| Store.Database.InsertCertificate | backend/server.py:277 | appends the certificate, keeping ids unique |
| Store.Database.UpdateCertificate | backend/server.py:295 | rewrites the certificate with that id, keeping the ids |
| Store.Database.DeleteCertificate | backend/server.py:308 | removes exactly that id |
| Store.Database.InsertMessage | backend/server.py:96 | appends the message, keeping ids unique |
| Store.Database.UpdateMessage | backend/server.py:332-335 | rewrites the message with that id, keeping the ids |
| Store.Database.DeleteMessage | backend/server.py:349 | removes exactly that id |
| Store.Database.UpdateAdmin | backend/server.py:116-119 | rewrites the first admin with that id; ids, usernames and the admin schema stay as they were when the change keeps the record valid |
| AuthMiddleware.Configure | backend-express/middleware/auth.js:4-5 | the secret and the lifetime fall back to the built-in defaults when unset or empty |
| AuthMiddleware.GenerateToken | backend-express/middleware/auth.js:8-10 | signing succeeds exactly when the library understands `expiresIn` |
| AuthMiddleware.GeneratedTokenLifetime | backend-express/middleware/auth.js:5-10 | a generated token is non-empty and space-free, verifies to its payload until its lifetime ends, and the default lifetime is seven days |
| AuthMiddleware.BearerToken | backend-express/middleware/auth.js:15-20 | the token is the second space-separated piece, non-empty and space-free |
| AuthMiddleware.BearerTokenAfterAnyWord | backend-express/middleware/auth.js:16 | any first word is accepted; the word `Bearer` itself is never checked |
| AuthMiddleware.BearerTokenNeedsSpace | backend-express/middleware/auth.js:16-20 | a header with no space yields no token |
| AuthMiddleware.Guard | backend-express/middleware/auth.js:13-39 | only `Access token required` or `Invalid token`; the first exactly when no token can be parsed; a pass carries a stored admin's identity |
| AuthMiddleware.GuardPassNeedsSignedToken | backend-express/middleware/auth.js:22 | under the JWT laws, a pass needs a token signed with the secret and not yet expired |
| AuthMiddleware.GuardUnknownUser | backend-express/middleware/auth.js:23-27 | a valid token for a username no longer stored is rejected like a forged one |
| AuthMiddleware.GuardOnIssuedToken | backend-express/middleware/auth.js:22-34 | a token issued for a stored admin passes as that admin's stored identity before expiry, and is invalid after |
| AuthMiddleware.AuthenticateToken | backend-express/middleware/auth.js:13-39 | `next` is called exactly on a pass, with `req.user` set and the response untouched; otherwise 401 with the error |
| ExpressServer.GetProjects | backend-express/server.js:72-82 | the visible projects, newest first |
| ExpressServer.GetProject | backend-express/server.js:85-101 | a visible project with that id, or 404 exactly when every project with that id is hidden or there is none |
| ExpressServer.GetSkills | backend-express/server.js:104-114 | the visible skills by ascending order |
| ExpressServer.GetCertificates | backend-express/server.js:117-127 | the visible certificates by ascending priority |
| ExpressServer.SubmitContact | backend-express/server.js:130-152 | an accepted body is stored as an unread message and answered 201; otherwise 500 and nothing stored |
| ExpressServer.Login | backend-express/server.js:157-190 | unknown user and wrong password give the same 401 and no write; success sets `lastLogin` on that admin only and returns a token for the stored username and role |
| ExpressServer.VerifyToken | backend-express/server.js:193-195 | `{valid: true, user}` exactly when the guard passes, else its 401 |
| ExpressServer.AdminGetProjects | backend-express/server.js:200-210 | guarded; every project, newest first |
| ExpressServer.AdminCreateProject | backend-express/server.js:213-225 | guarded; stores the validated project and answers 201, or 500 and nothing stored |
| ExpressServer.AdminUpdateProject | backend-express/server.js:228-249 | guarded; 500 on a refused update, 404 on an unknown id (both without change), else that project is rewritten and returned |
| ExpressServer.UpdateProjectAdmitted | backend-express/server.js:230-248 | the update route after admission, with the three outcomes above, keeping the schema valid |
| ExpressServer.AdminDeleteProject | backend-express/server.js:252-267 | guarded; 404 and no change on an unknown id, else exactly that project is removed |
| ExpressServer.AdminGetSkills | backend-express/server.js:272-282 | guarded; every skill by ascending order |
| ExpressServer.AdminCreateSkill | backend-express/server.js:285-297 | guarded; stores the validated skill and answers 201, or 500 |
| ExpressServer.AdminUpdateSkill | backend-express/server.js:300-321 | guarded; 500, 404 or the rewritten skill, the schema kept valid |
| ExpressServer.AdminDeleteSkill | backend-express/server.js:324-339 | guarded; 404 and no change on an unknown id, else exactly that skill is removed |
| ExpressServer.AdminGetCertificates | backend-express/server.js:344-354 | guarded; every certificate by ascending priority |
| ExpressServer.AdminCreateCertificate | backend-express/server.js:357-369 | guarded; stores the validated certificate and answers 201, or 500 |
| ExpressServer.AdminUpdateCertificate | backend-express/server.js:372-393 | guarded; 500, 404 or the rewritten certificate, the schema kept valid |
| ExpressServer.AdminDeleteCertificate | backend-express/server.js:396-411 | guarded; 404 and no change on an unknown id, else exactly that certificate is removed |
| ExpressServer.AdminGetMessages | backend-express/server.js:416-426 | guarded; every message, newest first |
| ExpressServer.AdminUpdateMessageStatus | backend-express/server.js:429-450 | guarded; 404 on an unknown id, else the status is stored as given (none given: no change) |
| ExpressServer.AdminDeleteMessage | backend-express/server.js:453-467 | guarded; 404 and no change on an unknown id, else exactly that message is removed |
| ExpressServer.AdminDashboardStats | backend-express/server.js:472-493 | guarded; the five counts, unread at most total |
| ExpressServer.AdminRoutesGuarded | backend-express/server.js:193-473 | every registered `/api/admin/` route except login runs `authenticateToken`, and no other route does |
| PyServer.GetProjects | backend/server.py:54-58 | at most 100 projects, all visible and stored, in stored order; all of them when they fit |
| PyServer.GetProject | backend/server.py:60-66 | a visible project with that id, or 404 exactly when there is none |
| PyServer.GetSkills | backend/server.py:69-73 | at most 100 visible skills by ascending order; every visible skill when they fit |
| PyServer.GetCertificates | backend/server.py:76-80 | at most 100 visible certificates by ascending priority; every visible one when they fit |
| PyServer.SubmitContact | backend/server.py:83-99 | the message is appended as unread and returned |
| PyServer.Login | backend/server.py:104-130 | for any stored admin records: one 401 for unknown user and wrong password with no write; success sets `lastLogin` on the first admin with that username and returns a bearer token with `sub` = username and the role |
| PyServer.LoginTouchesOnlyLastLogin | backend/server.py:115-119 | with unique ids, the login write keeps every other admin and every other field of the matched one |
| PyServer.VerifyAdmin | backend/server.py:132-135 | `{valid: true, user}` for an authorised request, the dependency's error otherwise |
| PyServer.AdminGetProjects | backend/server.py:140-144 | at most 100 projects, newest first, drawn from the collection |
| PyServer.AdminCreateProject | backend/server.py:146-161 | appends the pydantic-defaulted project and returns it |
| PyServer.AdminUpdateProject | backend/server.py:163-182 | 404 before any write on an unknown id; else the present fields and `updatedAt` are set and the record read back |
| PyServer.AdminDeleteProject | backend/server.py:184-196 | 404 when nothing was deleted, else exactly that project is removed |
| PyServer.AdminGetSkills | backend/server.py:201-205 | at most 100 skills by ascending order |
| PyServer.AdminCreateSkill | backend/server.py:207-221 | appends the defaulted skill and returns it |
| PyServer.AdminUpdateSkill | backend/server.py:223-241 | 404 before any write; else the present fields only, no timestamp |
| PyServer.AdminDeleteSkill | backend/server.py:243-255 | 404 when nothing was deleted, else exactly that skill is removed |
| PyServer.AdminGetCertificates | backend/server.py:260-264 | at most 100 certificates by ascending priority |
| PyServer.AdminCreateCertificate | backend/server.py:266-280 | appends the defaulted certificate and returns it |
| PyServer.AdminUpdateCertificate | backend/server.py:282-300 | 404 before any write; else the present fields only |
| PyServer.AdminDeleteCertificate | backend/server.py:302-314 | 404 when nothing was deleted, else exactly that certificate is removed |
| PyServer.AdminGetMessages | backend/server.py:319-323 | at most 100 messages, newest first |
| PyServer.AdminUpdateMessageStatus | backend/server.py:325-341 | any status string is stored on the matched message; 404 when none matched |
| PyServer.AdminDeleteMessage | backend/server.py:343-355 | 404 when nothing was deleted, else exactly that message is removed |
| PyServer.GetDashboardStats | backend/server.py:360-375 | the five counts, unread at most total |
| ApiClient.LocalStorage.GetItem | frontend/src/services/api.js:15 | `getItem` is null exactly for a missing key |
| ApiClient.LocalStorage.SetItem | frontend/src/contexts/AuthContext.js:43 | the key now holds the value |
| ApiClient.LocalStorage.RemoveItem | frontend/src/contexts/AuthContext.js:30 | the key is gone and nothing else changes |
| ApiClient.ApiBase | frontend/src/services/api.js:3-4 | the base URL is the backend URL (or `undefined`) followed by `/api` |
| ApiClient.BearerRoundTrip | frontend/src/services/api.js:17 | the header parses back to the token through the guard exactly when the token is non-empty and space-free |
| ApiClient.Intercept | frontend/src/services/api.js:14-20 | a truthy stored token sets `Authorization: Bearer <token>`, else the headers are untouched; other headers are kept; the same config is returned |
| ApiClient.MessageStatusPathSplits | frontend/src/services/api.js:52 | with no `?` or `#` in the id and none of `?`, `&`, `#` in the status, the URL has no fragment and splits at its one `?` into the route and a query that is the single `status` parameter |
| AuthContext.LoginError | frontend/src/contexts/AuthContext.js:48 | the server's detail when present and non-empty, else `Login failed` |
| AuthContext.AuthState.constructor | frontend/src/contexts/AuthContext.js:15-17 | no user, loading, no error |
| AuthContext.AuthState.CheckAuth | frontend/src/contexts/AuthContext.js:23-35 | no token: nothing changes; verified: the server's user; rejected: token removed and no user; loading ends on every path |
| AuthContext.AuthState.Login | frontend/src/contexts/AuthContext.js:37-52 | success stores the token and sets `{username, role}`; failure touches neither and reports the error |
| AuthContext.AuthState.Logout | frontend/src/contexts/AuthContext.js:54-57 | the token is removed and no user remains |
| Session.IssuedTokenAdmitsUntilExpiry | backend-express/server.js:171-185 | after a login, the issued token sent back as `Bearer` is admitted as the stored admin until it expires, and invalid afterwards |
| Session.InterceptedHeaderAdmits | frontend/src/services/api.js:14-18 | a client storing the issued token sends a header the guard admits before expiry |

## Left out

- I/O is not modelled: the MongoDB connection, Motor and Mongoose plumbing, logging, SMTP (`backend/utils/email.py`), seed scripts and the React UI.
- Library configuration is not modelled: helmet, CORS, the rate limiter, body parsing, the root routes `/` and `/api/`, the 404 fallback and the error middleware.
- Promise.all in the Express statistics route: the five counts are taken one after the other.
- Database failures caught by the handlers' `catch` blocks are not modelled. The only 500 answers modelled are a refused validation and, on the Express side, an id collision with the unique index.
- `backend/auth.py` is not part of this model. `verify_password`, `create_access_token` and `get_current_admin` are a parameter or an oracle without laws.
- FastAPI request validation is not modelled: a malformed body or a missing `status` query parameter gives 422 before any handler runs.
- Bodies that carry their own `id`, `createdAt` or unknown fields are not modelled. Mongoose `timestamps`, `__v` and virtuals in `res.json` are not modelled either.
- Timestamps are integers. The ISO strings the Python side stores, and their ordering, are not modelled.
- A project's `year`, a skill's `level` and `order`, and a certificate's `priority` are integers in the model. Mongoose stores them as `Number`, so the Express side also accepts fractions such as a level of 50.5.
- Ties in a sort keep stored order. MongoDB leaves the order of ties unspecified.
- Both servers work on one `Store.Database`. The collection names differ in the two backends (`adminusers` vs `admin_users`). The FastAPI login assumes nothing of the admin records; the unique indexes and the admin schema in `Store.Database.Valid` are Mongoose's.
- Oracles.BcryptLaws: that different keys never give a matching hash is bcrypt's collision resistance, taken as a law.
- Text.ToLower: only A-Z are folded. JavaScript `toLowerCase` also folds non-ASCII letters.
- Store.QueryAdmin: this assumes Mongoose applies the `trim` setter to a query filter on `username`, as Mongoose casting does by default. An exact match would be `Store.FindAdmin`.
- ExpressServer.Login: the body's `username` and `password` are given as strings. A missing field is not modelled.
- PyServer.AdminCreateProject, PyServer.AdminCreateSkill, PyServer.AdminCreateCertificate and PyServer.SubmitContact require a fresh uuid. A collision would store a second document with the same id, because the Python side creates no unique index, and the model's unique-id invariant excludes that.
- PyServer.AdminUpdateProject, PyServer.AdminUpdateSkill and PyServer.AdminUpdateCertificate do not model the re-validation of the stored document by the response model (`Project(**updated)`), nor the 500 it would give.
- AuthContext: React's asynchronous state updates, the effect that runs `checkAuth` on mount, and other tabs writing `localStorage` are not modelled. The results of the `verifyAdmin` and `adminLogin` calls are parameters.
- ApiClient: the endpoint functions other than the message-status URL are not modelled. They are one-line calls with a fixed path.
- Stored messages are not held to the Message schema after a status update. `findOneAndUpdate` runs there without `runValidators`, so any status string is stored, and `Store.Database.SchemasHold` covers projects, skills and certificates only.
- ApiClient.MessageStatusPathSplits: the id and the status are interpolated into the URL without encoding. A status holding `&` or `#`, or any `?`, would reach the server as a different query, and the model states nothing about such values.
- ExpressServer.AdminUpdateMessageStatus: with no `status` query parameter the update is `{status: undefined}`. The model takes Mongoose's stripping of `undefined` keys (the behaviour of Mongoose 6 and later), so the message is left unchanged; an older Mongoose that writes the key is not modelled.
