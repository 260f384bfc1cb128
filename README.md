# Freelance marketplace backend: a Dafny model of its request logic

This project models the request logic of a small freelance-marketplace
backend (Express + Mongoose). Clients post jobs, freelancers submit
proposals, and accounts register and log in with bearer tokens. The model
covers:

- **The store.** The users, jobs and proposals collections become three
  maps keyed by id, held by the class `Marketplace.Database` together with
  a monotone `clock`. Every new document takes the clock's value as its id
  and as its `createdAt`, so "newest first" means "largest id first".
- **The job handlers** of `src/controllers/jobController.js`. They are
  methods of `Database` that return the HTTP status, message and payload.
  Each states the whole new store on every branch, and `unchanged(this)`
  on every error path. All of them keep `Valid()`: the schemas' rules and
  the unique indexes hold for everything stored.
- **The account handlers** of `src/controllers/authController.js`.
  - register's checks, login, getMe and logout are functions over the user
    map (module `AuthHandlers`).
  - register's write is `Database.Register`.
- **The token gate** `protect` of `src/middleware/authMiddleware.js`. It is
  a decision function (module `AuthGate`).
- **The three schemas** `User.js`, `Job.js` and `Proposal.js`. They cover:
  - records, enums and defaults;
  - the `trim` and `lowercase` setters and the e-mail pattern;
  - the pre-save password hook, as the class `UserModel.UserDocument`;
  - `getPublicProfile`;
  - the unique (jobId, freelancerId) index, as an invariant of the
    proposal map.
- **The job router** `src/routes/jobRoutes.js`. It is an ordered route
  table with first-match dispatch and guard chains (`protect`, then
  `authorize(role)`). Like `express.Router()` with its default options, it
  matches literal segments in any letter case and ignores one trailing
  slash. `Database.Serve` runs a request through it and then through the
  handler.

Foreign code is passed in as function parameters:

| Parameter | Stands for |
|---|---|
| `hash` | `bcrypt.hash` |
| `compare` | `bcrypt.compare` |
| `verify` | `jwt.verify`, as the id a token carries, or None when it throws |
| `sign` | `generateToken` |

The code and the system's specification disagree in three places. The
model follows the code:

- A second proposal by the same freelancer on the same job violates the
  unique index. `Proposal.create` throws, and the handler replies **500**
  "Submit failed", where the specification says 409 Conflict.
- Schema validation failures inside `Job.create`, `job.save()` and
  `User.create` are caught by the handlers' `catch` blocks and give
  **500**, not 400.
- submitProposal never checks that the job exists. It stores the proposal
  anyway, and its `$push` then changes nothing.

updateJob copies the body onto the job with `Object.assign`. A `budget`
object in the body replaces the stored budget whole, and the schema's
"USD" default is not filled in again, so an updated budget can lack a
currency. A created job always has one.

## Model

| member | source | states |
|---|---|---|
| Common.Trim | src/models/User.js:11 | `trim: true` removes only white space and only at the two ends; the result is trimmed |
| Common.TrimIdempotent | src/models/Job.js:12 | trimming twice is trimming once; a trim is empty exactly when the string is all white space |
| Common.TrimOfTrimmed | src/models/User.js:31 | a string with no white space at its ends is its own trim |
| Common.LowerCase | src/models/User.js:10 | `lowercase: true`: same length, no upper-case letter left, each character lower-cased |
| Common.Normalize | src/models/User.js:10-11 | the stored e-mail is the input trimmed and then lower-cased; it has no white space at its ends, no upper-case letter, and is no longer than the input |
| Common.NormalizeOfNormalized | src/models/User.js:10-11 | an e-mail that is already trimmed and lower-case is left as it is |
| Common.NormalizeIdempotent | src/models/User.js:10-11 | normalizing a stored e-mail again gives the same e-mail |
| Common.SplitOnSpace | src/middleware/authMiddleware.js:11 | `split(' ')` gives at least one piece, and no piece contains a space |
| Common.SplitJoin | src/middleware/authMiddleware.js:11 | joining the pieces with single spaces gives back the header |
| Common.SplitTwoWords | src/middleware/authMiddleware.js:11 | "scheme token" with no inner spaces splits into exactly [scheme, token] |
| Common.SplitSecondPiece | src/middleware/authMiddleware.js:11 | `split(' ')` has a second piece iff the string has a space; that piece is the text between the first space and the next space or the end |
| Common.SecondPieceUnique | src/middleware/authMiddleware.js:11 | the first and second space-separated pieces of a string are determined by it |
| Common.ParseObjectId | src/controllers/jobController.js:126-131 | an id parses exactly when it is 24 hex digits; its value is below 16^24 |
| Common.IdTextRoundTrip | src/controllers/jobController.js:123-133 | an id rendered as text parses back to the same id |
| UserModel.ParseRole | src/models/User.js:19-26 | accepts exactly "client" and "freelancer", and gives back the role named |
| UserModel.RoleRoundTrip | src/models/User.js:19-26 | every role is read back from its own name |
| UserModel.IsEmailShape | src/models/User.js:12 | a string of the pattern's shape has at least five characters, an '@' and a '.' |
| UserModel.EmailShapeIsPattern | src/models/User.js:12 | `^\S+@\S+\.\S+$` in both directions: a string has the shape iff it is `a@b.c` with three non-empty pieces free of white space |
| UserModel.PartsHaveShape | src/models/User.js:12 | any three non-empty pieces free of white space, joined as `a@b.c`, have the shape |
| UserModel.EmailShapeExamples | src/models/User.js:12 | the pattern accepts "a@b.com" and rejects "a@b", "a b@c.de" and "@b.com" |
| UserModel.PassesValidation | src/models/User.js:6-37 | a user that passes has an e-mail of at least five characters, a password of at least six and two non-empty names |
| UserModel.NewUser | src/models/User.js:6-77 | the new document has a normalized e-mail and trimmed names; it is active, with zero counters, the given role and an id equal to its creation time |
| UserModel.NewUserValidation | src/models/User.js:6-37 | validation passes iff the e-mail has the pattern's shape, the password has at least 6 characters and both names are non-empty after trimming; a passing user is well formed |
| UserModel.UserDocument.constructor | src/models/User.js:85-89 | a new document counts its password as modified |
| UserModel.UserDocument.Loaded | src/models/User.js:85-89 | a loaded document has nothing modified |
| UserModel.UserDocument.SetPassword | src/models/User.js:86-87 | assigning the password marks it modified |
| UserModel.UserDocument.PreSave | src/models/User.js:85-98 | the password is replaced by its hash exactly when it was modified; otherwise the document is left as it is |
| UserModel.ComparesStoredHash | src/models/User.js:101-103 | comparePassword checks the entered password against the stored hash: a record holding the hash of a password matches it, and only the stored password decides the outcome |
| UserModel.GetPublicProfile | src/models/User.js:106-110 | the public profile keeps the id, e-mail and role |
| UserModel.WithPassword | src/models/User.js:106-110 | rebuilding a record from a profile and a password keeps that password and id |
| UserModel.PublicProfileIsRecordMinusPassword | src/models/User.js:106-110 | the record is exactly its public profile plus the password, and the profile does not depend on the password |
| UserModel.Summary | src/controllers/authController.js:50-56 | the reply's `user` carries exactly the profile's id, e-mail, role, profile and creation time |
| UserModel.SummaryIgnoresPassword | src/controllers/authController.js:113-121 | two records that differ only in the password give the same `user` object |
| UserModel.FindByEmail | src/controllers/authController.js:20 | finds a user iff some stored e-mail equals the normalized key, and the user found has it |
| UserModel.FindsStoredUser | src/controllers/authController.js:86 | a stored user is found by any spelling of its e-mail that normalizes to it |
| JobModel.ParseDuration | src/models/Job.js:26-30 | accepts exactly the four duration names and gives back the one named |
| JobModel.ParseJobStatus | src/models/Job.js:33-37 | accepts exactly the four status names and gives back the one named |
| JobModel.EnumRoundTrips | src/models/Job.js:26-37 | every duration and status is read back from its name |
| JobModel.BudgetOf | src/models/Job.js:18-25 | `budget \|\| {}` at creation: no budget becomes an empty one, the currency defaults to "USD", and a created job always has a currency |
| JobModel.CreateAccepts | src/models/Job.js:9-30 | `Job.create`'s validators accept iff title and description are given and the validators an update would run accept the same fields, status aside |
| JobModel.CreateDocument | src/controllers/jobController.js:20-28 | the job is created iff the title and description validators pass and a duration, if given, is valid. It is owned by the caller and has the trimmed title, `budget \|\| {}` and `skills \|\| []`; the duration defaults, status is open and the proposal list is empty |
| JobModel.CreatedJobWellFormed | src/models/Job.js:4-17 | a created job satisfies the stored-job invariant |
| JobModel.AssignAccepts | src/models/Job.js:9-37 | a body without title, description, duration or status is always accepted; an accepted title is non-empty |
| JobModel.AssignFields | src/controllers/jobController.js:108-109 | the update is accepted iff the validators pass; each field in the body overwrites the stored one and every absent field keeps its value; an assigned budget replaces the stored one whole, with no currency filled in; id and creation time never change |
| JobModel.Overwrite | src/controllers/jobController.js:108 | one assigned property: a given value replaces the stored one, and an absent one keeps it |
| JobModel.OverwriteOptional | src/controllers/jobController.js:108 | the same for an optional property |
| JobModel.AssignFieldsKeepsJob | src/controllers/jobController.js:108-109 | an empty body changes nothing, and an accepted update keeps the job well formed |
| JobModel.NewestBelow | src/controllers/jobController.js:46-47 | strictly newest first; contains exactly the selected stored jobs below the bound |
| JobModel.NewestBelowCount | src/controllers/jobController.js:46-47 | every selected job appears once: the listing is as long as the selection |
| JobModel.Limit | src/controllers/jobController.js:48 | `.limit(n)` keeps the first n elements, or all of them when there are fewer |
| JobModel.ListAll | src/controllers/jobController.js:46-48 | listJobs' query gives at most 200 stored jobs, newest first |
| JobModel.ListAllSpec | src/controllers/jobController.js:46-48 | listJobs returns at most 200 stored jobs, newest first, as many as exist up to 200; every job left out is older than every job listed |
| JobModel.ListAllLength | src/controllers/jobController.js:46-48 | the listing's length is the number of stored jobs, capped at 200 |
| JobModel.ListAllLeavesOutOlder | src/controllers/jobController.js:47-48 | a stored job left out of the capped listing is older than every listed one |
| JobModel.ListOwned | src/controllers/jobController.js:83-84 | getMyJobs' query gives only the owner's stored jobs, newest first |
| JobModel.ListOwnedSpec | src/controllers/jobController.js:83-84 | getMyJobs returns exactly the caller's jobs, newest first |
| JobModel.OwnedAfterInsert | src/controllers/jobController.js:20-32 | a new job adds one to its owner's jobs and none to anyone else's |
| JobModel.OwnedAfterRemove | src/controllers/jobController.js:154-159 | removing a job takes one from its owner's jobs and none from anyone else's |
| JobModel.OwnedAfterReplace | src/controllers/jobController.js:108-109 | replacing a job with one of the same owner changes nobody's jobs |
| ProposalModel.ParseProposalStatus | src/models/Proposal.js:27-31 | accepts exactly the four status names and gives back the one named |
| ProposalModel.SchemaAccepts | src/models/Proposal.js:14-25 | the schema accepts only when cover letter, rate and duration are all given |
| ProposalModel.HandlerAccepts | src/controllers/jobController.js:181-186 | what the handler's truthiness check lets through the schema accepts, with a non-zero rate |
| ProposalModel.HandlerCheckIsStricter | src/controllers/jobController.js:181-186 | whatever the handler's truthiness check lets through, the schema accepts; they differ only on a rate of 0 |
| ProposalModel.NewProposal | src/models/Proposal.js:4-31 | created iff the required fields are present; it carries the fields given, status pending and no attachments |
| ProposalModel.InsertKeepsUniquePairs | src/models/Proposal.js:37 | an insert the unique index lets through keeps at most one proposal per (job, freelancer) pair |
| ProposalModel.WithoutJob | src/controllers/jobController.js:151 | `deleteMany({ jobId })` removes exactly that job's proposals and keeps the others unchanged |
| ProposalModel.WithoutJobKeepsInvariants | src/controllers/jobController.js:151 | removing proposals keeps the unique index and the keying |
| ProposalModel.Populate | src/controllers/jobController.js:62 | `populate`: only referenced, stored proposals come back, and every referenced stored proposal does |
| AuthGate.HasBearerScheme | src/middleware/authMiddleware.js:8 | the header passes the first test iff it is present and is "Bearer" followed by anything |
| AuthGate.BearerToken | src/middleware/authMiddleware.js:11 | there is a token iff the header has a space, and it is the header's second space-separated piece |
| AuthGate.TokenSubject | src/middleware/authMiddleware.js:11-14 | the id the second piece of the header verifies to; nothing for a header without a space or with an empty second piece |
| AuthGate.Protect | src/middleware/authMiddleware.js:4-49 | the whole decision tree. No Bearer header gives "no token provided"; a token that does not verify gives "token failed"; an unknown user gives "User not found"; an inactive one gives "Account is deactivated". The gate lets the request through iff none of these holds, attaching the stored user without its password |
| AuthGate.AttachedUserIsStoredAndActive | src/middleware/authMiddleware.js:17-33 | the attached user is a stored, active user's public profile |
| AuthGate.IssuedTokenOpensGate | src/middleware/authMiddleware.js:8-33 | "Bearer <token>" with a token that verifies to an active stored user lets the request through for that user |
| AuthGate.OtherSchemeHasNoToken | src/middleware/authMiddleware.js:8-48 | two fixed headers: no header, and "Basic abc", both give "no token provided" |
| AuthGate.BareBearerFails | src/middleware/authMiddleware.js:8-40 | "Bearer" with no token after it passes the scheme test and fails with "token failed" |
| AuthHandlers.CheckRegistration | src/controllers/authController.js:12-34 | register's checks in order: a missing field, then a taken e-mail, then an unknown role (each 400); it proceeds iff all pass |
| AuthHandlers.TakenEmailRefusedWhateverTheRole | src/controllers/authController.js:20-34 | a taken e-mail, in any case and with any padding, is refused before the role is checked |
| AuthHandlers.Login | src/controllers/authController.js:73-123 | 400 without both fields, then 401 for an unknown e-mail, then 401 for a deactivated account, then 401 for a wrong password; success is 200 with the user's summary and a token for its id |
| AuthHandlers.LoginHidesWhichCredentialFailed | src/controllers/authController.js:88-111 | an unknown e-mail and a wrong password give identical replies |
| AuthHandlers.DeactivatedRefusedBeforePassword | src/controllers/authController.js:96-104 | a deactivated account is refused the same way whatever the password and the comparison |
| AuthHandlers.LoginWithStoredPassword | src/controllers/authController.js:86-123 | a user stored with the hash of a password logs in with that password |
| AuthHandlers.GetMe | src/controllers/authController.js:136-158 | 200 iff the caller is still stored, with the summary of the stored record rather than of the attached copy and no token; 500 when the user is gone |
| AuthHandlers.MeRoundTrip | src/controllers/authController.js:136-150 | an active user presenting a token issued for them passes `protect`, and getMe returns their own summary |
| AuthHandlers.MeMatchesLogin | src/controllers/authController.js:113-150 | the token a successful login returns opens the gate, and getMe then answers with the same `user` object login gave |
| AuthHandlers.Logout | src/controllers/authController.js:163-168 | always 200 with "Logged out successfully" |
| JobRoutes.SegmentMatches | src/routes/jobRoutes.js:2-35 | the default router matches a literal segment in any letter case, character by character, and `:id` matches any non-empty segment |
| JobRoutes.StripSlash | src/routes/jobRoutes.js:2 | one trailing slash (a last, empty segment) is dropped, and nothing else |
| JobRoutes.Matches | src/routes/jobRoutes.js:17-35 | a matching route has the request's verb and as many segments as the path without its trailing slash |
| JobRoutes.FirstMatch | src/routes/jobRoutes.js:17-35 | the least index from `from` on whose route matches, or none |
| JobRoutes.IdOf | src/routes/jobRoutes.js:23 | the `:id` value is the path segment at the parameter's position |
| JobRoutes.Dispatch | src/routes/jobRoutes.js:17-35 | a request is routed iff some route matches, and it is routed to the first route that matches |
| JobRoutes.RouteMatches | src/routes/jobRoutes.js:17-35 | which requests each of the seven routes matches, literals in any case and with or without a trailing slash |
| JobRoutes.DispatchTable | src/routes/jobRoutes.js:17-35 | the whole table: handler, guards and id for every request. `GET /my` in any case never reaches getJobById, and everything else matches no route |
| JobRoutes.UpperCaseMyWithSlash | src/routes/jobRoutes.js:20 | `GET /MY/` reaches getMyJobs behind the client guards |
| JobRoutes.MixedCaseProposals | src/routes/jobRoutes.js:35 | `POST /x/Proposals` reaches submitProposal with the id "x" |
| JobRoutes.TableGuards | src/routes/jobRoutes.js:17-35 | every route is mounted behind the guards of its handler |
| JobRoutes.GuardsByHandler | src/routes/jobRoutes.js:17-35 | only listJobs and getJobById are public; the others sit behind `protect` and then `authorize` with their role |
| JobRoutes.RunGuards | src/routes/jobRoutes.js:20-35 | the guards attach a user iff `protect` is among them (or one was attached), and the user attached is the one `protect` gives; they refuse only with 401 or 403, and a 401 carries `protect`'s own refusal |
| JobRoutes.Admit | src/routes/jobRoutes.js:17-35 | no route iff nothing matches; an admitted request goes to the routed handler with the routed id |
| JobRoutes.AdmissionOutcome | src/routes/jobRoutes.js:17-35 | the exact outcome on a routed request: a public route admits without a user; on a guarded one a refusal by `protect` is a 401 with its message, a user of the wrong role a 403, and a user of the route's role is admitted as `protect` attached them |
| JobRoutes.LoginThenRole | src/routes/jobRoutes.js:20-35 | `protect` followed by `authorize(role)`: a refusal by `protect` is a 401 with its message, a user of another role a 403, a user of that role passes as attached |
| JobRoutes.AdmissionSound | src/routes/jobRoutes.js:17-35 | a public route admits without a user; a guarded one admits only the stored, active user of the route's role that `protect` attached |
| JobRoutes.AdmissionComplete | src/routes/jobRoutes.js:20-35 | a routed request whose token opens the gate for a user of the route's role is admitted with that user |
| Marketplace.Bump | src/controllers/jobController.js:30-32 | `$inc` moves one user's counter by delta and leaves every other field and user alone |
| Marketplace.BumpKeepsUsers | src/controllers/jobController.js:157-159 | `$inc` keeps every user well formed and the e-mails unique |
| Marketplace.CreateKeepsStore | src/controllers/jobController.js:20-32 | createJob's writes keep the store valid |
| Marketplace.UpdateKeepsStore | src/controllers/jobController.js:108-109 | updateJob's write keeps the store valid |
| Marketplace.DeleteKeepsStore | src/controllers/jobController.js:151-159 | deleteJob's three writes keep the store valid |
| Marketplace.SubmitKeepsStore | src/controllers/jobController.js:188-198 | submitProposal's writes keep the store valid |
| Marketplace.RegisterKeepsStore | src/controllers/authController.js:37-45 | register's write keeps the store valid |
| Marketplace.UnfoundEmailIsFree | src/controllers/authController.js:20-26 | an e-mail the lookup does not find belongs to no stored user |
| Marketplace.InsertKeepsUsers | src/models/User.js:6-13 | inserting a well-formed user with a free e-mail keeps the unique e-mail index |
| Marketplace.CreateKeepsCounters | src/controllers/jobController.js:20-32 | createJob keeps every user's posted-jobs counter equal to the number of jobs it owns |
| Marketplace.DeleteKeepsCounters | src/controllers/jobController.js:151-159 | deleteJob keeps the counters equal to the owned-job counts |
| Marketplace.ReplaceKeepsCounters | src/controllers/jobController.js:196-198 | replacing a job with one of the same owner keeps the counters equal to the owned-job counts |
| Marketplace.RegisterKeepsCounters | src/controllers/authController.js:37-45 | a new user with a zero counter keeps the counters equal to the owned-job counts |
| Marketplace.ReassignBreaksCounters | src/controllers/jobController.js:108-109 | an update whose body moves a job to another user leaves the counters out of agreement |
| Marketplace.CreateUser | src/models/User.js:85-98 | `User.create` stores the document with the hash of its password and an unchanged public profile |
| Marketplace.Database.CreateJob | src/controllers/jobController.js:9-39 | 400 without a title or description, or 500 when the schema rejects the job; nothing changes in either case. Otherwise the job is stored under a new id and the caller's counter rises by exactly one |
| Marketplace.Database.StoreJob | src/controllers/jobController.js:20-37 | `Job.create` and the counter update: 500 with nothing changed when the schema rejects the job, otherwise the job is stored under the next id with the caller as client and the caller's counter rises by exactly one |
| Marketplace.Database.ListJobs | src/controllers/jobController.js:44-55 | 200 with at most 200 stored jobs, newest first, as many as exist up to 200; the jobs left out are older |
| Marketplace.Database.GetJobById | src/controllers/jobController.js:60-76 | 500 for a malformed id and 404 for an unknown one. Otherwise the stored job, with exactly its stored referenced proposals filled in |
| Marketplace.Database.GetMyJobs | src/controllers/jobController.js:81-91 | 200 with exactly the caller's jobs, newest first |
| Marketplace.Database.UpdateJob | src/controllers/jobController.js:96-116 | 500 for a malformed id, 404 for an unknown one, 403 for another's job, and 500 for a body the schema rejects; nothing changes in any of them. Otherwise the body's fields overwrite the job, and nothing else changes |
| Marketplace.Database.DeleteJob | src/controllers/jobController.js:121-172 | 400 for an invalid id, then 404, then 403, with nothing changed. Otherwise the job's proposals are all removed, then the job, and the owner's counter drops by exactly one |
| Marketplace.Database.DeleteStoredJob | src/controllers/jobController.js:133-164 | 404 for an unknown job and 403 for another's, with nothing changed; otherwise the three-step cascade |
| Marketplace.Database.SubmitProposal | src/controllers/jobController.js:177-205 | 400 when a field is falsy (a rate of 0 included) and 500 for a malformed job id, with nothing changed. A taken pair gives 500 with nothing changed. Otherwise the proposal is stored and its id is appended to the job's list if the job exists |
| Marketplace.Database.StoreProposal | src/controllers/jobController.js:188-200 | a taken (job, freelancer) pair gives 500 with nothing changed; otherwise the proposal is stored and its id is appended at the end of the job's list |
| Marketplace.Database.Register | src/controllers/authController.js:7-68 | register's 400 checks change nothing; a user the schema rejects gives 500 and changes nothing. Otherwise the user is stored with the hash of its password and the reply is 201 with its summary and a token |
| Marketplace.Database.CreateAccount | src/controllers/authController.js:37-58 | `User.create`: 500 with nothing changed when validation fails, otherwise the hashed user is stored under the next id and the reply is 201 |
| Marketplace.Database.Serve | src/routes/jobRoutes.js:17-35 | an unmatched route gives 404 "Route not found", a refusal by `protect` 401 with its message, and a refusal by `authorize` 403. Only a request admitted with a user can change the store |

## Left out

- Common.ParseObjectId: only the 24-hex-digit form is modelled. The 12-character raw form that `isValid` also accepts is not. An id is a natural number.
- Timestamps: `createdAt` and `updatedAt` are not wall-clock times. `createdAt` is the value of one monotone counter, the same value as the id.
- Common.LowerCase: lower-cases only the ASCII letters, because full Unicode case mapping is not modelled.
- Strings: lengths count characters, not UTF-16 code units. Numbers are integers; floating point, NaN and JSON `null` are not modelled. A body field is present (`Some`) or absent (`None`).
- Crypto: bcrypt's salting and hashing, `jwt.verify` and `generateToken` are foreign calls. Token expiry is therefore not modelled.
- Marketplace.Database.Serve: a refusal by `authorize` is a 403 with an empty message. The role middleware (src/middleware/roleMiddleware.js) is not part of this model; it is taken to admit exactly a user of the route's role.
- Marketplace.Database.Serve: it states only the routing and guard outcomes and, on an admitted request, calls the handler. What each handler returns is that handler's own contract.
- The auth routes file is not part of this model, so register, login, getMe and logout are not routed through `Serve`. They are modelled directly.
- Marketplace.Database.ListJobs: the 500 reply on a store failure is not modelled, because the in-memory store cannot fail. The same holds for GetMyJobs and for login's, createJob's and deleteJob's 500 paths when the store throws.
- Marketplace.Database.UpdateJob: `_id`, timestamps and keys outside the schema in the body are not modelled. `clientId` is, and `Marketplace.ReassignBreaksCounters` shows that it breaks the posted-jobs counters.
- The posted-jobs counters: they agree with the owned-job counts only on the paths shown by the `...KeepsCounters` lemmas. The methods do not carry this as an invariant, since updateJob can break it.
- Concurrency: the three writes of deleteJob and the two of createJob and submitProposal are one atomic step each. Interleavings of concurrent requests are not modelled.
- Plumbing: logging, the JSON envelope beyond status, message and payload, and the server, app and database bootstrap are not modelled. The health endpoint and the generic error middleware are left out too.
- UserModel.NewUserValidation: the role enum validator holds by type, because a role reaches `User.create` only after the handler's own check.
