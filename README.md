# Event-management backend, modelled in Dafny

A model of the request logic of an Express/Mongoose event-management backend:
- registration, login and the caller's profile;
- the `protect` bearer-token guard;
- the event controller: create, list, read, update, delete, attend and the comment edits;
- the event router's first-match table;
- the image-upload route;
- three request-level parts of the server bootstrap: the CORS origin callback, the `/health` report and the final error-handling middleware.

The document store becomes a class `Model.Store` with two maps, `users` and `events`, keyed by the string form of an ObjectId. The state-changing handlers are methods that `modify` the store. Their postconditions state the whole new state:
- what is appended or pulled;
- which user arrays change;
- that nothing changes on a refusal.

The read handlers are functions. They return a projection of the documents that mirrors what `populate` and `select` produce.

A handler's result is an `Http.Outcome`. It is `Sent(status, body)` when the handler answers itself, and `Raised(status, error)` when it sets a status and throws. `Server.Respond` turns an outcome into what the client receives. The final error middleware ignores the status set before the throw: it answers 500 with the error's message for every error except one named `UnauthorizedError`.

Modules and files:
- `basics.dfy`: `Option`, JavaScript truthiness of strings, `startsWith`/`endsWith`, and `split`/`join` with their round trip.
- `base64.dfy`: padded base64 as section 4 of RFC 4648 defines it, and the proof that decoding inverts encoding.
- `model.dfy`: module `Model` (the documents, the views and the store class) and module `Http` (errors, bodies and outcomes).
- `server.js` is modelled in `server.dfy` (`Server`).
- `tokens.dfy` (`Tokens`): `generateToken`, over an abstract JSON Web Token library.
- `auth.dfy` (`AuthController`) and `guard.dfy` (`AuthMiddleware`).
- `routes.dfy` (`EventRoutes`) and `upload.dfy` (`Upload`).
- `events.dfy` (`EventController`).

The foreign libraries are parameters:
- bcrypt is `AuthController.Hasher`. Its assumed property, `Sound`, is that a password matches every hash made from it.
- The JSON Web Token library is `Tokens.JwtLib`. Its assumed property, `Honest`, is that a signed token verifies to its own claims, with the same secret, before the "exp" claim of section 4.1.4 of RFC 7519.
- The media host is a function from the data URI to a reply.
- Clock readings, fresh ObjectIds and bcrypt salts are parameters.

These properties are hypotheses of the lemmas that need them. They are never axioms.

Consequences of the code that the model makes explicit:
- The final response of a thrown error is 500, whatever status the handler set before throwing (401, 403 or 404). Only `UnauthorizedError` gives 401, and no modelled path throws it.
- Every `attendEvent` refusal is answered 500 "Error attending event", not with the 400 or 404 the handler sets before throwing.
- The attendee bound is not an invariant: create and update can set `attendees` and `maxAttendees` freely.
- Deleting a comment checks neither its author nor the event's owner.
- A token-signing failure during registration happens after the user was saved, and the user stays.

## Model

| member | source | states |
|---|---|---|
| Server.ErrorResponse | server.js:158-164 | 401 "Invalid token" iff the error is named UnauthorizedError; otherwise 500 with the error's own message |
| Server.Respond | server.js:158-164 | a handler's own answer passes through unchanged; every thrown error is answered by the error middleware's rule (401 "Invalid token" iff named UnauthorizedError, else 500 with its message), whatever status was set |
| Server.SetStatusIsOverridden | server.js:158-164 | two throws of the same error with different preset statuses give the same response |
| Server.AnyRuleMatches | server.js:30-35 | true iff some rule of the list accepts the origin (exact string or end-anchored regex) |
| Server.CorsOrigin | server.js:15-43 | allowed iff the origin is absent/empty, equals http://localhost:3000, or ends with eventmanagementkuldeep.netlify.app; every refusal carries "Not allowed by CORS" |
| Server.DeniedOriginAnswered500 | server.js:41 | a refused origin is answered 500 "Not allowed by CORS" by the error handler |
| Server.PreviewRuleRedundant | server.js:19-20 | every origin the deploy-preview regex accepts is also accepted by the main-site regex |
| Server.SiteRuleSubsumed | server.js:18-20 | the exact main-site entry is covered by the main-site regex |
| Server.StateName | server.js:142-147 | a name exists iff readyState is 0..3; it is "disconnected", "connected", "connecting", "disconnecting" iff readyState is 0, 1, 2, 3 respectively |
| Server.HealthReport | server.js:139-151 | status 200; mongodb "healthy" iff readyState is 1, else "unhealthy"; healthy iff the state name is "connected"; the reported status field is the state name of readyState |
| Tokens.IssuedClaims | controllers/authController.js:82-87 | the payload carries the user id and expires exactly 604800 s after issue |
| Tokens.GenerateToken | controllers/authController.js:82-87 | under an honest library a token it signs verifies at the instant of issue to the claims of that id, issued then and expiring 604800 s later |
| Tokens.GeneratedTokenVerifies | controllers/authController.js:82-87 | under an honest library a generated token verifies, with the same secret, to the id's claims at every instant up to its expiry |
| AuthController.FindByEmail | controllers/authController.js:16 | finds the one user with that email, or reports that no user has it |
| AuthController.Register | controllers/authController.js:6-36 | missing field or taken email: no user stored and message prefixed "Error creating user: " with status 500; otherwise exactly one user added with the hashed password and a 201 of id, name, email and token, or the saved user plus a 500 if signing fails |
| AuthController.Login | controllers/authController.js:38-66 | the uniform 401 "Invalid email or password" iff the email is unknown or a given password does not match; a known email without a password gives bcrypt's "Illegal arguments: undefined, string" with the status unset; a known email with a matching password answers 200 with that user's id, name, the email and the token signed for the id, or 401 "Error during login: " + the signer's message when signing fails |
| AuthController.LoginRefusalAnswered500 | controllers/authController.js:43-52 | the client receives 500 "Invalid email or password" for both kinds of refusal |
| AuthController.MissingPasswordAnswered500 | controllers/authController.js:48 | a known email without a password reaches the client as 500 with bcrypt's message |
| AuthController.LoginWithRegisteredPassword | controllers/authController.js:38-61 | with a sound hasher and honest signer, a stored user logging in with the password it registered gets exactly 200 with its id, name, email and the signed token, and that token verifies to its id and issue time for seven days |
| AuthController.PopulateEvents | controllers/authController.js:72-73 | populated entries are existing events with their ids; when all ids exist, one entry per id in list order |
| AuthController.PopulateEventsCons | controllers/authController.js:72-73 | a single id becomes its event's entry iff the event exists, independently of the rest of the list |
| AuthController.PopulateEventsConcat | controllers/authController.js:72-73 | populating a concatenation is the concatenation of the populated parts, so the surviving entries keep list order even when ids dangle |
| AuthController.PopulateMembership | controllers/authController.js:72-73 | an event appears iff its id is listed and the event exists |
| AuthController.GetMe | controllers/authController.js:68-79 | 200 with the caller's id, name, email and populated lists, never the password hash; null when the caller's record is gone |
| AuthMiddleware.ExtractToken | middleware/authMiddleware.js:15 | exactly the second space-separated field of the header, missing iff the header has fewer than two fields; it never contains a space |
| AuthMiddleware.HasBearerPrefix | middleware/authMiddleware.js:9-12 | the outer test passes iff a header is present and its first six characters are "Bearer"; the truthiness test is implied by the prefix |
| AuthMiddleware.Authenticate | middleware/authMiddleware.js:5-44 | no Bearer prefix gives "Not authorized, no token"; with the prefix: no or empty second field gives "Not authorized: jwt must be provided", a rejected token "Not authorized: " + the library's message, a falsy userId "Not authorized: Invalid token payload", an unknown user "Not authorized: User not found", and otherwise a pass with that user's record without password; a pass happens exactly in that last case |
| AuthMiddleware.Protect | middleware/authMiddleware.js:5-44 | on a pass sets req.user and continues; otherwise stops with 401 and the guard's error, leaving req.user as it was |
| AuthMiddleware.BearerTokenExtracted | middleware/authMiddleware.js:15 | "Bearer " + t yields t for any t without a space |
| AuthMiddleware.NoSpaceNoToken | middleware/authMiddleware.js:15 | a header without a space yields no token |
| AuthMiddleware.BearerxyzRefused | middleware/authMiddleware.js:9-19 | "Bearerxyz" passes the prefix test and is refused with "Not authorized: jwt must be provided" |
| AuthMiddleware.IssuedTokenAdmitted | middleware/authMiddleware.js:9-32 | a token issued for a stored user admits exactly that user throughout its lifetime |
| AuthMiddleware.RejectionAnsweredWith500 | middleware/authMiddleware.js:35-42 | every guard refusal reaches the client as 500 with the guard's message |
| EventRoutes.FirstMatch | routes/events.js:18-27 | the index found fits the request and no earlier registration does; None only when nothing fits |
| EventRoutes.EveryHandlerRegisteredOnce | routes/events.js:19-27 | the registration list `Table` registers each of the ten controller actions, and none twice |
| EventRoutes.Dispatch | routes/events.js:19-27 | a handler is chosen iff some registration fits method and path |
| EventRoutes.OnlyPublicReadsUnguarded | routes/events.js:19-27 | a registration lacks protect iff it is one of the two public reads |
| EventRoutes.PairsDistinct | routes/events.js:19-27 | no (method, pattern) pair is registered twice |
| EventRoutes.UnguardedOnlyUnderPublic | routes/events.js:19-20 | a request dispatched without protect is a GET of /public or /public/:id |
| EventRoutes.PublicListBeforeGetEvent | routes/events.js:18-24 | GET /public fits '/:id' too but goes to getPublicEvents |
| EventRoutes.CollectionRoutes | routes/events.js:23 | GET / goes guarded to getEvents and POST / guarded to createEvent |
| EventRoutes.UpdateAndDeleteRoutes | routes/events.js:24 | PUT /:id and DELETE /:id go guarded to updateEvent and deleteEvent with that id |
| EventRoutes.PublicEventRoute | routes/events.js:20 | GET /public/:id goes unguarded to getPublicEvent with that id |
| EventRoutes.GetEventRoute | routes/events.js:24 | GET of any other single segment goes guarded to getEvent with that id |
| EventRoutes.AttendRoute | routes/events.js:25 | POST /:id/attend goes guarded to attendEvent |
| EventRoutes.AddCommentRoute | routes/events.js:26 | POST /:id/comments goes guarded to addComment |
| EventRoutes.DeleteCommentRoute | routes/events.js:27 | DELETE /:id/comments/:commentId goes guarded to deleteComment with both parameters |
| Upload.FileFilter | routes/upload.js:12-18 | accepts iff the mimetype starts with "image/"; otherwise "Not an image! Please upload an image." |
| Upload.MulterCheck | routes/upload.js:9-19 | lets the request through iff there is no file, or an image of at most 10485760 bytes; a non-image is refused with the filter's "Not an image! Please upload an image.", an oversize image with MulterError "File too large" |
| Upload.DataUri | routes/upload.js:28-29 | "data:" + mimetype + ";base64," followed by exactly the padded base64 encoding of the buffer, which decodes back to the buffer |
| Upload.HandleUpload | routes/upload.js:21-42 | no file: 400 "Please upload a file" and no upload; otherwise the data URI is uploaded and the answer is the host's URL or 500 "Error uploading file" |
| Upload.UploadRoute | routes/upload.js:21 | a guard refusal is answered exactly 500 with the guard's message and no upload; a data URI is uploaded only for an authenticated caller with an image within the size limit, and it is the file's data URI; conversely, once the guard and the file check pass, the upload handler runs and its answer is what the client gets; guard refusals are answered 500, non-images 500 with the filter's message, oversize images 500 "File too large", a missing file 400 "Please upload a file" |
| Base64.ValueOf | routes/upload.js:28 | inverts the alphabet mapping of section 4 of RFC 4648 |
| Base64.Encode | routes/upload.js:28 | the output has 4 characters per started group of 3 bytes |
| Base64.DecodeEncode | routes/upload.js:28 | decoding the encoding gives back the bytes |
| Base64.FinalGroupPadBits | routes/upload.js:28 | the bits of the last data character of a padded group that no input bit fills are zero: four after one byte, two after two bytes (section 3.5 of RFC 4648) |
| Base64.EncodeLastGroup | routes/upload.js:28 | when the length is not a multiple of 3, the encoding ends with the padded group of the trailing one or two bytes |
| Base64.EncodePadBitsZero | routes/upload.js:28 | the whole encoding carries zero pad bits in the character before the '=' pads |
| Base64.EncodeAlphabet | routes/upload.js:28 | every output character is an alphabet character or '=', and '=' appears only in the last two positions |
| Basics.Split | middleware/authMiddleware.js:15 | at least one field, none containing the separator |
| Basics.JoinSplit | middleware/authMiddleware.js:15 | joining the fields with the separator gives back the string |
| Basics.Field | middleware/authMiddleware.js:15 | the k-th element of the split, which holds no separator; missing iff the index is past the last field |
| Model.AccountOf | middleware/authMiddleware.js:26 | the account is the user's id, name, email and both event lists, with the password left out |
| Model.AccountIgnoresPassword | controllers/authController.js:71 | the account does not depend on the stored password hash |
| EventController.ViewUser | controllers/eventController.js:33-34 | a populated reference iff the user exists, with name and optionally email |
| EventController.ViewAttendees | controllers/eventController.js:34 | populated attendees are existing users; one per id in list order when all exist |
| EventController.ViewAttendeesCons | controllers/eventController.js:34 | a single id becomes a view iff its user exists, independently of the rest of the array |
| EventController.ViewAttendeesConcat | controllers/eventController.js:34 | populating a concatenation is the concatenation of the populated parts, so existing attendees keep the array's order even when ids dangle |
| EventController.ViewComments | controllers/eventController.js:56-59 | one view per comment, same id and content, author populated or raw |
| EventController.Project | controllers/eventController.js:32-34 | an event view keeps every stored field and shows the creator, attendees and comments through the projections above |
| EventController.PublicViewHasNoEmail | controllers/eventController.js:228-230 | the public projection shows no email anywhere |
| EventController.GetEvents | controllers/eventController.js:52-61 | 200 with one fully populated view per stored event |
| EventController.GetEvent | controllers/eventController.js:66-81 | "Event not found" with status 404 iff the id is unknown; otherwise the populated event |
| EventController.MissingEventAnswered500 | controllers/eventController.js:75-78 | the protected read's 404 reaches the client as 500; the public read answers 404 itself |
| EventController.GetPublicEvents | controllers/eventController.js:226-235 | 200 with one names-only view per stored event |
| EventController.GetPublicEvent | controllers/eventController.js:237-249 | 404 "Event not found" iff the id is unknown, answered by the handler; otherwise the names-only view |
| EventController.Pull | controllers/eventController.js:121-129 | removes every occurrence of the id and nothing else (multiset) |
| EventController.PullCons | controllers/eventController.js:121-129 | a single id is dropped iff it is the pulled one, independently of the rest of the list |
| EventController.PullConcat | controllers/eventController.js:121-129 | pulling from a concatenation is the concatenation of the pulled parts, so the kept ids stay in order |
| EventController.RemoveComments | controllers/eventController.js:217-219 | keeps exactly the comments with another id; unchanged when none has it |
| EventController.RemoveCommentsDistributes | controllers/eventController.js:217-219 | the filter works element-wise, so the survivors keep their order |
| EventController.RemoveCommentsIdempotent | controllers/eventController.js:209-222 | deleting the same comment id twice changes nothing the second time |
| EventController.IsFull | controllers/eventController.js:153 | an event is full iff its maximum is set and the attendee count has reached it; an unset maximum (`undefined`) is never full, a maximum of 0 or less always is |
| EventController.AttendRefusal | controllers/eventController.js:143-156 | the checks in source order: own event, already attending, full; none fails iff attendance is allowed |
| EventController.Enroll | controllers/eventController.js:158 | appends exactly the caller; within the maximum, no duplicate, creator not added, all else unchanged |
| EventController.Assign | controllers/eventController.js:98 | exactly the keys present in the patch are overwritten |
| EventController.AssignIdempotent | controllers/eventController.js:98 | applying the same patch twice changes nothing more |
| EventController.NewEvent | controllers/eventController.js:15-18 | the creator is the caller even when the body names another |
| EventController.CapacityIsNotAnInvariant | controllers/eventController.js:15-18 | an update can lower the maximum below attendance, and a create body can list the creator as attendee |
| EventController.PullCreated | controllers/eventController.js:121-123 | only the caller's createdEvents loses the id |
| EventController.PullAttendingEverywhere | controllers/eventController.js:126-129 | no user's attendingEvents keeps the id; nothing else changes |
| EventController.DeleteCascade | controllers/eventController.js:118-129 | the two pulls together keep every user and unique emails, and change only the two lists |
| EventController.CreateEvent | controllers/eventController.js:8-47 | no caller: nothing stored; otherwise the event is stored with the caller as creator and its id appended to the caller's createdEvents |
| EventController.UpdateEvent | controllers/eventController.js:86-101 | unknown id 404, non-owner 403 with the event unchanged; for the owner the patch is applied to that event only |
| EventController.DeleteEvent | controllers/eventController.js:106-132 | unknown id or non-owner changes nothing; otherwise the event goes and its id is pulled from the caller's createdEvents and every attendingEvents |
| EventController.AttendEvent | controllers/eventController.js:134-174 | every refusal changes nothing and is answered 500 "Error attending event"; success enrolls the caller and appends the id to the caller's attendingEvents only |
| EventController.AddComment | controllers/eventController.js:179-204 | one comment by the caller appended; the earlier comments are an unchanged prefix |
| EventController.DeleteComment | controllers/eventController.js:209-223 | every comment with that id removed, without author or owner check; "Comment removed" whenever the event exists |

## Left out

- Database connection, retry loop and connection listeners (server.js:62-101): I/O and timers; the store is the two in-memory maps.
- Socket.IO (server.js:104-112): connection plumbing that carries no data.
- Static `/uploads` serving, `mkdirSync` and the welcome route (server.js:125-136): file system and a constant answer.
- The media host upload call (routes/upload.js:32-35) is a function parameter, and multer's multipart parsing is not modelled: foreign services. The file reaches the model already parsed.
- bcrypt and JSON Web Token cryptography are abstract parameters with the hypotheses `Sound` and `Honest`, and their internals are not modelled. The password hashing is done by the User model's save hook, which is not part of this model; `Register` stores the hash of the given password in its place.
- The Event and User schemas are not part of this model: type casting, validation, defaults, required fields and ObjectId cast errors. Descriptive event fields that the body does not set stay unset, and an invalid id is treated as an unknown one.
- Store failures and the catch blocks they reach are not modelled. Examples: the 500 "Error fetching events" of the public reads, "Error fetching user data" in getMe, and "Event created but could not retrieve details" in createEvent. The model's store never fails, so only the catch paths reached by the handlers' own throws are modelled.
- Concurrency, in particular the read-check-write race in attendEvent: requests are modelled one at a time.
- EventController.GetEvents: the list order of `Event.find()` is not modelled; the result is a map from id to view.
- EventController.GetPublicEvents: likewise, the list order of `Event.find()` is not modelled; the result is a map from id to view.
- EventController.AddComment: the sub-document id of the new comment is a parameter, and nothing ensures it is fresh.
- EventController.ViewComments: comments are embedded sub-documents of an event; the model takes the nested `populate` of each comment's `user` (controllers/eventController.js:56-59, 70-73, 198-201) to take effect, which depends on the Event schema, and that schema is not part of this model.
- AuthController.Login: a body without an email key, and a password of a type other than string (a number, an object), are not modelled. The email is a string parameter, and the password is a string or missing.
- EventRoutes.Dispatch: paths arrive already split into segments, without Express's case-insensitive matching, trailing-slash tolerance or percent-decoding.
- The `protect`-then-handler chain of each event route is not modelled as one operation: `AuthMiddleware.Protect`, `EventRoutes.Dispatch` and each handler are modelled separately.
- app.js and routes/eventRoutes.js: a duplicate bootstrap and a route table that is never mounted.
- Logging, dotenv, express-async-handler wrapping, and the CORS methods/headers configuration: they carry no decisions.
