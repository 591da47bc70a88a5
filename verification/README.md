# files_manager: signup, sessions and the upload workers in Dafny

This project models the sequential core of a small file-storage service. It covers four parts:

- **User registry.** The document-store client holds a `users` and a `files` collection. It can count them, insert a user and look a user up by email.
- **Signup.** `POST /users` checks the email, then the password, then that the email is not registered yet. Only then does it store the user with the hash of the password.
- **Sessions.** `GET /connect` decodes a Basic-style `Authorization` header and looks the user up by email and password hash. It then stores `auth_<token>` in the cache for 24 hours. `GET /disconnect` deletes that key again.
- **Queue handlers.** The thumbnail job re-checks its payload and the file's owner. It then writes a 500, a 250 and a 100 pixel wide copy of the file to `<localPath>_<width>`, in that order. The welcome job greets a user by email.

## How the model is built

- Both stores are classes whose collections are fields the handlers change:
  - `Db.DBClient` keeps `seq<User>` and `seq<File>`, plus an id counter.
  - `Cache.RedisClient` keeps a `map<string, Entry>`, where each entry holds a value and an expiry time.
  - Each store has a `reachable` flag. When it is false, every call fails. The handlers turn such a failure into a 500, or into a failed job in the worker.
- External functions are parameters: the SHA-1 hash, base64 decoding, the uuid token, the clock (`now`, in seconds) and image resizing.
- A handler's answer is a `Response`, which is a status plus a body.
  - Some throws happen before the login handler's `try`: the handler's promise rejects before it writes any response. These are the `Threw` outcomes.
  - A job either completes or fails with the message it throws.
  - Each file the thumbnail job writes becomes one entry in a returned log.
- Three lookups are called but not defined in `utils/db.js`: `findUserByEmailAndPassword` (controllers/AuthController.js:16), `findFileById` (worker.js:15) and `findUserById` (worker.js:35). As written, with the client shown, the login handler's call throws a `TypeError` inside its `try`, so a login that gets that far answers 500. The worker never reaches its lookups: it cannot load its client at all (see "## Left out"). The model replaces that behaviour with `findOne`-style lookups (`Db.FindFirst`) over the same collections.
- An ObjectId is a number handed out by a counter. Its `toString()` is that number in lowercase hexadecimal, so two ids print alike only if they are equal (`Db.IdStringInjective`).
- A request or job field is `Option<string>`. JavaScript's `!field` test is `!Truthy(field)`: the field is absent or empty.

## Behaviour of the code worth knowing

The model follows the code as written.

- A Basic-auth parser would answer a malformed header with 401. Here, a header with no second word reaches `Buffer.from(undefined, 'base64')` before the `try`. That call throws, so the handler's promise rejects before it writes any response, and no 401 is written (`Threw(DecodeOfUndefined)`).
- The same holds for decoded credentials without a colon. The password is then `undefined`, and the SHA-1 library rejects `undefined` (`Threw(HashOfUndefined)`).
- Login splits the decoded credentials on every colon and keeps only the second piece as the password. A password containing `:` is accepted at signup, but the same credentials can then never log in (`Scenarios.ColonInPassword`).
- A login that first found the user by email and then compared the stored hash would behave the same as the code's single combined lookup by email and hash, as long as emails are unique (`Db.UserWithCredentialsMatchesEmail`).

## Model

| member | source | states |
|---|---|---|
| `Db.DBClient.constructor` | utils/db.js:12-19 | a connected client over empty `users` and `files` collections, with the id invariant established |
| `Db.DBClient.NbUsers` | utils/db.js:40-44 | the answer is the number of user documents; a store failure is reported |
| `Db.DBClient.NbFiles` | utils/db.js:50-54 | the answer is the number of file documents; a store failure is reported |
| `Db.DBClient.CreateUser` | utils/db.js:62-65 | inserts exactly one `{email, password}` document under a fresh id and returns that id; the files collection is unchanged; ids stay unique |
| `Db.DBClient.UserExist` | utils/db.js:72-75 | true exactly when some stored user has exactly that email; reads only |
| `Db.DBClient.FindUserByEmailAndPassword` | controllers/AuthController.js:16 | the first user with that email and that password hash, or none; reads only |
| `Db.DBClient.FindUserById` | worker.js:35 | the user whose id prints as the given string, or none; reads only |
| `Db.DBClient.FindFileById` | worker.js:15 | the file whose id prints as the given string, or none; reads only |
| `Db.DBClient.DeleteAllUsers` | tests/test.js:55 | empties the users collection |
| `Db.DBClient.DeleteAllFiles` | tests/test.js:64 | empties the files collection |
| `Db.DBClient.InsertFile` | tests/test.js:67-68 | inserts exactly one file document under a fresh id; the users collection is unchanged |
| `Db.FindFirst` | utils/db.js:73 | `findOne`: none iff no document matches; otherwise the earliest matching document |
| `Db.IdStringInjective` | controllers/AuthController.js:23 | different ObjectIds have different string forms |
| `Db.UserWithIdFindsEach` | worker.js:35-36 | with unique ids, a stored user's id string finds exactly that user |
| `Db.FileWithIdFindsEach` | worker.js:15-16 | with unique ids, a stored file's id string finds exactly that file |
| `Db.UserWithCredentialsMatchesEmail` | controllers/AuthController.js:13-19 | with unique emails, the combined lookup finds the user registered under the email iff its stored hash matches |
| `Text.Split` | controllers/AuthController.js:10-12 | `split` returns at least one piece, and no piece contains the separator |
| `Text.JoinSplit` | controllers/AuthController.js:10-12 | joining the pieces of `split` with the separator gives back the input |
| `Text.SplitSingle` | controllers/AuthController.js:10 | the input is one piece iff it has no separator, and that piece is the whole input |
| `Text.SplitAfterFirst` | controllers/AuthController.js:12 | text before the first separator is piece 0; the remainder is split on its own |
| `Text.NatToStringRoundTrip` | worker.js:25 | reading back the printed decimal or hex form of a number gives the number |
| `Text.NatToStringInjective` | worker.js:25 | different numbers print differently |
| `Cache.LookupAfterSet` | controllers/AuthController.js:23 | an entry set at t0 with lifetime ttl is read until just before t0+ttl and not after; other keys are unaffected |
| `Cache.RedisClient.Get` | controllers/AuthController.js:36 | answers `Lookup` at `now`, or fails when unreachable |
| `Cache.RedisClient.Set` | controllers/AuthController.js:23 | the key holds the value until now+duration; no other key changes |
| `Cache.RedisClient.Del` | controllers/AuthController.js:40 | removes exactly the key |
| `Users.AddUnregisteredKeepsUnique` | controllers/UsersController.js:17-23 | storing a user whose email is not registered keeps emails unique |
| `Users.PostNew` | controllers/UsersController.js:5-30 | with `!field` read as `Common.Truthy` (absent or empty): Missing email (400) is checked before Missing password (400); a registered email gives 400 Already exist; a store failure gives 500; every rejection leaves users unchanged; success stores exactly `{email, hash(password)}` and answers 201 with exactly the new id string and the email; the files collection is never touched; unique emails are preserved by each call that runs to completion before the next starts |
| `Auth.ParseCredentials` | controllers/AuthController.js:9-12 | decoding fails iff the header (or `''`) has no space; the email and the password contain no colon |
| `Auth.SecondWord` | controllers/AuthController.js:10 | the second space-separated word of `<scheme> <word>[ ...]` is `word` |
| `Auth.FirstTwoPieces` | controllers/AuthController.js:12 | `email:password[:...]` splits into the email as piece 0 and the password as piece 1 |
| `Auth.ParseBasicHeader` | controllers/AuthController.js:9-12 | a header whose second word decodes to `email:password[:rest]` yields exactly that email and password; anything after a second colon is dropped |
| `Auth.ParseWithoutColon` | controllers/AuthController.js:12-13 | decoded credentials without a colon leave the password absent |
| `Auth.GetConnect` | controllers/AuthController.js:8-29 | with an absent header read as `''` (`Auth.HeaderText`) and the key `auth_<token>` (`Auth.SessionKey`): a header without a second word or a password throws and adds nothing; no user with that email and hash gives 401 and adds nothing; success stores `auth_<token>` mapped to the user's id string with expiry now+86400, answers 200 `{token}` and leaves other keys unchanged; a store failure gives 500 and adds nothing |
| `Auth.GetDisconnect` | controllers/AuthController.js:31-46 | the key is `Auth.SessionKey` of the `X-Token` text, `auth_undefined` when the header is absent (`Auth.TokenText`); a falsy `get` answer (`Common.Truthy`) means no session: a key that is absent or expired gives 401 and changes nothing; a live key is deleted (and only it) with 204; a store failure gives 500 |
| `Worker.ThumbnailPathsSpelled` | worker.js:20-25 | the three output paths are `localPath_500`, `localPath_250` and `localPath_100` |
| `Worker.ThumbnailPathsDistinct` | worker.js:25 | different widths give different output paths |
| `Worker.WrittenPathsDistinct` | worker.js:23-27 | no two writes of one job go to the same path |
| `Worker.CompletedRunWrites` | worker.js:20-27 | a completed job wrote exactly three files, to `_500`, `_250` and `_100`, in that order |
| `Worker.ProcessThumbnail` | worker.js:9-28 | with `!field` read as `Common.Truthy` and the owner check as `Worker.OwnedBy` (the owner's id string equals `userId`): Missing fileId is checked before Missing userId; an absent file or a file owned by someone else is File not found; these write nothing; otherwise the log holds the writes for the widths in order, all three iff every resize succeeds, else those before the first failing width, and the failure names that width |
| `Worker.ProcessWelcome` | worker.js:30-39 | with `!userId` read as `Common.Truthy`: Missing userId, then User not found; otherwise completes with `Welcome <email>!` for the user with that id; reads only |
| `Scenarios.CountDocuments` | tests/test.js:54-70 | cleared collections count 0; after two inserts each counts 2 |
| `Scenarios.CreateThenExists` | utils/db.js:62-75 | after `createUser(e, p)` on a reachable store, `userExist(e)` answers true |
| `Scenarios.SignupTwice` | controllers/UsersController.js:17-25 | a first signup gives 201 with the email; repeating it gives 400 Already exist and stores nothing more |
| `Scenarios.SessionLifecycle` | controllers/AuthController.js:8-46 | after signup, login with the same credentials gives 200 with the token; the token's key resolves to the signup's id from now through now+86399 but not at now+86400; logout gives 204, and a second logout gives 401 |
| `Scenarios.ColonInPassword` | controllers/AuthController.js:12-16 | a password containing a colon is accepted at signup, but the same credentials are refused at login (given that the hash tells the two texts apart) |
| `Scenarios.WelcomeAfterSignup` | worker.js:30-38 | the welcome job for the id a signup returned greets that email |
| `Scenarios.ThumbnailsForUpload` | worker.js:9-27 | the owner's job writes `_500`, `_250`, `_100` in order; another user's job for the same file is File not found and writes nothing |

## Left out

- Connection setup, environment configuration and `isAlive` (utils/db.js:3-34) are connection I/O. The constructor models a client that connected. The `reachable` flag stands for a server that stops answering.
- utils/redis.js is not part of this model. Its `get`, `set` with a lifetime, and `del` are modelled by `Cache.RedisClient`, following how the controllers call them.
- Cache eviction is passive. An entry stays in the map after it expires, and reads from its expiry time on see nothing. Whether a read at exactly the expiry second sees the entry depends on the cache; here it does not.
- worker.js:4 requires `'../utils/db'`, a path that leaves the project from where worker.js sits, so as written the worker fails to load before either handler is registered. The handlers are modelled as if they were given the client of utils/db.js.
- The Bull queue itself (worker.js:6-7) is not modelled: enqueueing, retry, backoff, concurrency and dead-lettering. Each handler is modelled as one run on one job.
- `image-thumbnail` and `fs.promises.writeFile` are foreign calls. Resizing is a parameter that may fail. Its base64 result and the decoding before the write are folded into the bytes it returns.
- ProcessThumbnail: does not model a failing file write; every write that is reached succeeds.
- SHA-1, uuid generation and base64 decoding are parameters. The `decode` parameter also stands for `.toString('ascii')` (controllers/AuthController.js:11), which clears the high bit of every byte while signup hashes the password as sent; so an email or password with a non-ASCII character cannot log in, a quirk the model leaves inside `decode` rather than proving. Tokens are not assumed unique: a login whose token is already in use overwrites that key, as the cache's `set` does.
- PostNew: does not show that the stored hash differs from the plaintext, because the hash function is a parameter.
- An ObjectId's string form is the unpadded hex form of a counter value, not the 24-character form built from time and randomness. Only its injectivity is used.
- Request and job fields that are JSON values other than strings (numbers, objects) are not modelled. Documents missing the fields a handler reads are not modelled either; this includes the tests' `{ name }` documents, whose counts are modelled with ordinary inserts.
- File creation, listing, publishing, content reads and `GET /users/me` are not part of this model.
- HTTP `req`/`res` objects and `console` output are not modelled. A response is a status and a body. The welcome greeting is returned as the job's message.
- PostNew, GetConnect, GetDisconnect: each request runs to completion before the next one starts. In the service, requests interleave at every `await`. Two signups for one email that overlap between `userExist` and `createUser` would both insert and both answer 201, since nothing else (no unique index, no lock) prevents it. Two overlapping logouts with one token would both answer 204. The model does not show this, and its unique-email guarantee holds only for requests that do not overlap.
- What the server does with a handler that throws outside its `try` is not modelled. The model only records that the handler throws.
