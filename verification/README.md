# Content service: users, posts and forms

A Dafny model of the route handlers of a small Express content service. The
service keeps three ordered JSON arrays (users, posts, forms). Every handler
loads an array, makes a small decision over it and writes the array back.
Without the HTTP, file, bcrypt and JWT plumbing, what is left is a state
machine over three sequences of records, and that is what is modelled here:

- `Model`: the records (`User`, `Post`, `Form`), the refusals (`Conflict`,
  `InvalidCredentials`, `NotFound`, `Forbidden`, `NoToken`, `InvalidToken`)
  with their HTTP statuses, and the constants (bcrypt cost 10, token
  lifetime 24 hours).
- `Users`: signup with the email-uniqueness check, and login by email plus
  password check.
- `Posts`: get, create, update and delete. Update and delete find the
  first post with the id and allow only its author (`userId`) to act.
- `Forms`: creation after checking that the post exists, and listing by post id.
- `Auth`: the token extraction of the auth middleware. It splits the
  `Authorization` header on spaces, exactly as JavaScript's `split(' ')`
  does, and takes part 1. It refuses with 401 when that part is absent or
  empty, and with 403 when the verifier rejects it.
- `Server`: the store of three sequences and one `Handle` per request, with
  the gate in front of the four protected routes.

Foreign code is passed in as function parameters (`Server.Crypto`):
`hash(password, rounds)` for `bcrypt.hash`, `compare(password, hash)` for
`bcrypt.compare`, `sign(claims)` for `jwt.sign`, and `verify(token)` for
`jwt.verify`. `verify` answers the `id` claim of a token it accepts, or
nothing; expiry and signature checks happen inside it. Ids (`Date.now()`)
and timestamps (`new Date().toISOString()`) arrive with each request.
Listing posts (`Server.Handle` on `ListPosts`) answers the stored sequence unchanged.

What the code does, and the model with it:

- The gate tells only two refusals apart: no token (401) and any verifier
  failure (403). It does not tell "expired" from "bad signature".
- Posts and forms store their author as `userId`.
- Signup answers only a confirmation, not the user record.
- Nothing validates the request body.

## Model

| member | source | states |
|---|---|---|
| Model.Status | backend/server.js:59-229 | each refusal has its own status: Conflict 409 (line 78), NotFound 404 (lines 141, 179, 205, 229), InvalidCredentials and NoToken 401 (lines 108, 59), Forbidden and InvalidToken 403 (lines 183, 209, 67) |
| Users.FirstWithEmail | backend/server.js:77 | the index found is the first user with the email; when none is found, no user has it |
| Users.Signup | backend/server.js:75-92 | refused with Conflict exactly when some user already has the email, and then the users are unchanged; otherwise exactly one user is appended, all earlier users are unchanged, and the new user carries the given id, name, email, phone and gender and `hash(password, 10)` as its password |
| Users.Login | backend/server.js:104-119 | every failure is the one outcome InvalidCredentials; an unknown email fails; with a first user for the email, success holds exactly when `compare` accepts the password against that user's stored hash; the token signs that user's id with a 24-hour lifetime, and the reply carries that user's id, name and email |
| Users.SignupKeepsEmailsUnique | backend/server.js:77-91 | if no two users shared an email before a signup, none do afterwards |
| Users.SignupTwiceConflicts | backend/server.js:77-79 | a second signup with an email that was just registered is Conflict and changes nothing |
| Users.SignupThenLogin | backend/server.js:81-111 | after a fresh signup, login with the same email and password succeeds, and its token and reply name the new account, when `compare` accepts a password against its own hash |
| Users.SignupStoresNoPlaintext | backend/server.js:81-88 | when the hash never equals its input, the stored password differs from the raw one |
| Posts.FirstWithId | backend/server.js:176 | the index found is the first post with the id; when none is found, no post has it |
| Posts.RemoveAt | backend/server.js:212 | removing index k shortens the sequence by one, keeps the elements before k and shifts the ones after it down by one |
| Posts.Get | backend/server.js:137-144 | NotFound exactly when no post has the id; otherwise the first post with the id |
| Posts.Create | backend/server.js:152-166 | always succeeds; exactly one post is appended with the caller as `userId` and the given id, title, content and timestamp, and all earlier posts are unchanged |
| Posts.Update | backend/server.js:175-193 | NotFound when no post has the id; Forbidden when the first such post has another `userId`; both leave the posts unchanged; otherwise the length is the same, only that index changes, its title and content are the new ones, its id, `userId` and `createdAt` are kept, and the reply is the updated post |
| Posts.Delete | backend/server.js:201-215 | the same NotFound and Forbidden refusals, leaving the posts unchanged; otherwise the length drops by one, the posts before the first match are kept and the ones after it shift down by one in order |
| Posts.UpdateKeepsAuthors | backend/server.js:182-190 | whatever its outcome, an update keeps every post's id, `userId` and `createdAt` at its index |
| Posts.DeleteKeepsSurvivors | backend/server.js:208-212 | every post left after a delete is an unchanged post from before |
| Posts.CreateThenGet | backend/server.js:138-163 | a post created under an id no post used is what Get answers for that id |
| Posts.UpdateThenGet | backend/server.js:176-193 | after a successful update, Get answers the updated post |
| Posts.DeleteThenGet | backend/server.js:202-213 | when ids are unique, Get answers NotFound for the id of a post just deleted |
| Posts.CreateKeepsIdsUnique | backend/server.js:155-163 | creating a post under a fresh id keeps post ids unique |
| Forms.ForPost | backend/server.js:252 | the listing holds exactly the stored forms with the post id, and is no longer than the stored forms |
| Forms.ForPostAppend | backend/server.js:252 | the listing of `a + b` is the listing of `a` followed by that of `b`, so stored order is kept |
| Forms.ForPostSingle | backend/server.js:252 | one form is listed exactly when its post id matches |
| Forms.ForPostNone | backend/server.js:251-253 | when no form has the post id, the listing is the empty sequence and not a refusal |
| Forms.Create | backend/server.js:225-243 | NotFound exactly when no post has the id, leaving the forms unchanged; otherwise exactly one form is appended with that `postId`, the caller as `userId` and the given id, payload and timestamp, and all earlier forms are unchanged |
| Forms.CreateThenList | backend/server.js:240-252 | after a successful submission, the post's listing is the old listing followed by the new form; every other post's listing is unchanged |
| Auth.Split | backend/server.js:56 | splitting gives at least one part, and no part contains the separator |
| Auth.JoinSplit | backend/server.js:56 | joining the parts with the separator gives back the header |
| Auth.SplitJoin | backend/server.js:56 | splitting separator-free parts joined by the separator gives back the same parts |
| Auth.BearerToken | backend/server.js:55-58 | an absent header gives no token; a token found is non-empty and contains no space |
| Auth.BearerTokenOfHeader | backend/server.js:55-56 | a header `<scheme> <token>`, with or without more space-separated text after it, yields that token |
| Auth.NoBearerToken | backend/server.js:55-60 | a header with no space, one that ends at its first space, or one with two spaces in a row there yields no token |
| Auth.Authenticate | backend/server.js:54-68 | NoToken exactly when the header yields no token; every refusal is NoToken or InvalidToken; a token the verifier rejects is InvalidToken; a token it accepts lets the caller through under the id it gave, and no other caller is let through |
| Server.Perform | backend/server.js:150-247 | each protected route writes back what its posts or forms operation decides, and answers that operation's refusal or result (a successful delete answers the fixed confirmation); a protected route never touches the users; a form submission never touches the posts; post routes never touch the forms, so deleting a post does not delete its forms; a refusal writes nothing |
| Server.Handle | backend/server.js:54-257 | a protected route with no token gets NoToken and the store is unchanged; any gate refusal leaves the store unchanged, so the route's write never runs; an admitted request is the route's work for the verified caller; signup writes back the users its operation decides, refuses exactly when it does and otherwise answers the fixed confirmation; login answers its operation's session or refusal; listing posts answers the stored posts; get is NotFound exactly when no post has the id and otherwise answers the first match; listing forms answers the post's forms; any refusal and every read-only route leave the store unchanged; only signup writes users, only the three post routes write posts, and only form submission writes forms |
| Server.PublicRoutesIgnoreHeader | backend/server.js:72-257 | signup, login, post reads and form listing answer the same whatever Authorization header is sent |
| Server.LoginTokenOpensGate | backend/server.js:54-65 | the token from a successful login, sent as `Bearer <token>`, passes the gate as the account that logged in (line 111 signs it), when signing gives non-empty tokens without spaces that verification accepts with their id |
| Server.SerialCreatesBothPersist | backend/server.js:150-164 | two post creations handled one after the other both persist, in order, after the existing posts, and nothing else changes |

## Left out

- File I/O and directory setup (`initializeDataFiles`, `readJsonFile`, `writeJsonFile`, backend/server.js:25-51): the store is three in-memory sequences.
- The `catch` branches that answer 500: they only catch file, JSON and library failures, which are outside the model.
- JSON parsing and serialization: library code. Form payloads are kept as opaque text.
- bcrypt and JWT: these are function parameters. Salt randomness and bcrypt's cost are not modelled beyond passing the constant 10. Token expiry and signature checks happen inside `verify`.
- `Date.now()` ids and ISO timestamps: these are request parameters, so two creates in the same millisecond with the same id are possible only when the caller passes equal ids.
- The lost update between concurrent handlers: the source has no locking, and the model handles one request at a time. `Server.SerialCreatesBothPersist` states only the serial case.
- Express routing, CORS, HTTP reply bodies beyond the modelled replies, and the `JWT_SECRET` default: configuration and I/O.
- Request-body fields that are missing or not strings: every field here is a string. In the code, a missing password makes the hash call fail and signup answer 500, and other missing fields are dropped when the array is serialized.
- my-app/src/components/AuthForm.jsx (React form state) and app.js (a static Express server): neither holds logic of this service.
