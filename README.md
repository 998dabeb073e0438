# Files manager: a Dafny model of its controllers

This project models the three controllers of the files manager, an
Express/MongoDB/Redis service:

- **Files.** A user uploads folders, files and images. Each record has an
  owner, a parent folder (or the root `'0'`) and a public flag.
  - A file's or image's bytes are written under a fresh uuid in the blob
    directory (`FOLDER_PATH`, or `<tmpdir>/files_manager`).
  - Every image queues one thumbnail job.
  - Records can be shown, listed 20 at a time (newest first), published
    and unpublished.
  - Their content can be read by the owner, or by anyone once the record
    is public.
- **Users.** Registration with a unique e-mail and a SHA-1-hashed password,
  and the profile of the requesting user.
- **Sessions.** `getConnect` stores `auth_<token>` holding the user's id for
  24 hours. `getDisconnect` deletes `auth_<X-Token>`.

Modules:

- `Wrappers`: `Option` and `Result`.
- `ObjectIds`:
  - stored ids are numbers below 16^24;
  - `isValidId` and the `NULL_ID` fallback;
  - `toString()` writes 24 lower-case hex digits;
  - both round trips between ids and their strings are proved.
- `JsText`:
  - `trim`, `Number.parseInt(s, 10)` and `path.join` of a directory and a
    name;
  - JavaScript truthiness of an optional string.
- `Files`:
  - upload validation, lookup, show, publish and content access, all as
    functions;
  - `FileService`, a class holding the `files` collection (a map from id to
    record), the blob area (a map from path to the data written there) and
    the thumbnail queue (a sequence of jobs);
  - `PostUpload`, `PutPublish` and `PutUnpublish` update those fields and
    keep the store invariant `StoreInvariant`.
- `Listing`: the `getIndex` aggregation, as a function.
- `Users`: `UserStore`, a class holding the `users` collection.
- `Auth`: `SessionStore`, a class holding the Redis key space.

How an HTTP response maps to the model:

- A 400 or 404 error response is a `Failure` carrying the error kind.
  `Message` gives the error text for each kind.
- A 200 or 201 response is a `Success` carrying the body.
- The generated values are parameters of the methods:
  - the id a new document receives, which must be unused (for a file
    record, larger than every stored id, as ObjectIds grow with time);
  - the uuid naming a blob, whose path must not hold a blob yet;
  - the session token, which is not required to be fresh: storing a token
    already in use overwrites its session, as Redis `SET` does.

## Model

| member | source | states |
|---|---|---|
| ObjectIds.Repeat | controllers/FilesController.js:26 | `'0'.repeat(24)` has 24 characters, all `'0'` |
| ObjectIds.RepeatZeroValue | controllers/FilesController.js:26 | `NULL_ID` is all hex digits and denotes the id 0 |
| ObjectIds.NullIdIsZero | controllers/FilesController.js:26-28 | `NULL_ID` passes `isValidId` and resolves to the id 0 |
| ObjectIds.HexValue | controllers/FilesController.js:43 | the value of a hex string is below 16^length, so 24 digits always fit an ObjectId |
| ObjectIds.ToHex | controllers/FilesController.js:47 | an id is written with exactly `width` lower-case hex digits |
| ObjectIds.HexValueOfToHex | controllers/FilesController.js:47-52 | reading back a written-out number gives the number: `new ObjectId(user._id.toString())` is the user's id |
| ObjectIds.ToHexOfHexValue | controllers/FilesController.js:43 | writing out the value of a hex string gives that string in lower case |
| ObjectIds.Render | controllers/FilesController.js:47 | `toString()` is accepted by `isValidId`, is lower-case and denotes the id |
| ObjectIds.ObjectIdOf | controllers/FilesController.js:43 | a malformed id resolves to 0; a well-formed one resolves to the id written as its lower-case form |
| ObjectIds.RenderRoundTrip | controllers/FilesController.js:52 | every written-out id is valid and resolves back to itself |
| ObjectIds.RenderInjective | controllers/FilesController.js:171 | two ids are written the same exactly when they are equal, so the string comparison of owners is an id comparison |
| JsText.SkipWhitespace | controllers/FilesController.js:48 | the first position from `i` on that is not white space, everything skipped being white space |
| JsText.TrailingWhitespaceStart | controllers/FilesController.js:48 | where the trailing white space of a range begins: everything after is white space, the character before is not |
| JsText.Trim | controllers/FilesController.js:48 | the result is an infix of the input, with only white space removed around it, and it neither starts nor ends with white space |
| JsText.TrimIdempotent | controllers/FilesController.js:48 | trimming a trimmed string changes nothing |
| JsText.DigitPrefix | controllers/FilesController.js:97 | the longest run of decimal digits at the front of the string |
| JsText.DecimalRoundTrip | controllers/FilesController.js:97 | the decimal digits of `n` denote `n` |
| JsText.ParseInt | controllers/FilesController.js:97 | `parseInt` yields a number only when the text holds a digit |
| JsText.ParseIntOfDecimal | controllers/FilesController.js:97 | a number written in decimal and followed by a non-digit is parsed back as itself |
| JsText.ParseIntUnsigned | controllers/FilesController.js:97 | text starting with a digit is parsed as the value of its leading digits |
| JsText.ParseIntNegative | controllers/FilesController.js:97 | `-` followed by digits is parsed as the negated value of those digits |
| JsText.DigitPrefixOfDigits | controllers/FilesController.js:97 | the digits are read up to the first non-digit and no further |
| JsText.JoinPath | controllers/FilesController.js:60 | the joined path starts with the directory and ends with the name, with one `/` between them when there is a directory and at most one character added |
| Files.ParseType | controllers/FilesController.js:38 | a type is accepted exactly when it is `folder`, `file` or `image`, and the accepted kind has that name |
| Files.ParseTypeName | controllers/FilesController.js:13-17 | every kind is accepted under its own name |
| Files.ThumbnailJob | controllers/FilesController.js:69 | the job carries the owner's and the image's ids, both resolving back to those ids |
| Files.ParentOf | controllers/FilesController.js:56 | the stored parent is the root exactly when `parentId` is `'0'` or absent, otherwise the folder whose id `parentId` is written as |
| Files.FindById | controllers/FilesController.js:43 | the lookup finds a record exactly when one is stored under the id the string resolves to (0 for a malformed string, as `NULL_ID`), and what it finds is that id; when no record has id 0, it finds one exactly when the string is valid and some stored id is written as its lower-case form |
| Files.OnlyIdWrittenAs | controllers/FilesController.js:28 | a valid request string denotes a single id: every id written out as its lower-case form is the id it resolves to |
| Files.FindOwned | controllers/FilesController.js:79-80 | the lookup with the `userId` filter finds a record exactly when one is stored under the id the string resolves to (0 for a malformed string) and belongs to the requester, and what it finds is that id |
| Files.CheckUpload | controllers/FilesController.js:37-45 | each upload error is returned exactly under its condition, checked in the source's order: name, type, data (not for folders), parent an existing folder |
| Files.RootParentNeedsNoLookup | controllers/FilesController.js:41 | with the root parent the outcome does not depend on the collection |
| Files.MalformedParentRejected | controllers/FilesController.js:43-44 | a malformed parent id is always an invalid parent folder |
| Files.BaseDir | controllers/FilesController.js:48 | the blob directory is the trimmed `FOLDER_PATH` when that is non-empty, otherwise `JoinPath(tmpdir, "files_manager")`; never empty |
| Files.ViewParent | controllers/FilesController.js:90 | the parent is shown as `0` exactly for the root, otherwise as the folder's valid written-out id |
| Files.Show | controllers/FilesController.js:75-92 | succeeds exactly when the requester owns a record under the id (`NULL_ID` when missing), returning that record's view; any other case is Not found |
| Files.ShowOwnRecord | controllers/FilesController.js:79-91 | the owner asking by the written-out id gets their record |
| Files.ShowHidesOthers | controllers/FilesController.js:80-82 | another user's record answers Not found, the same as a missing one |
| Files.Visibility | controllers/FilesController.js:125-130 | only the requester's record under the id changes, and only its `isPublic`; with no such record nothing changes |
| Files.VisibilityIdempotent | controllers/FilesController.js:130 | publishing (or unpublishing) twice equals once |
| Files.Content | controllers/FilesController.js:163-178 | the only failures are Not found and the folder error: Not found for a missing record or a private one of another user; the folder error exactly for a readable folder; success exactly when the record is readable, not a folder, and its stored path (with `_<size>` for a variant) holds a blob, in which case that path, its bytes and the record's name are served |
| Files.Upload | controllers/FilesController.js:33-73 | a rejected upload answers the first failing check and changes nothing; an accepted one adds exactly one record under the new id (the requester's, under the requested parent, private unless `isPublic` is true), writes exactly one blob holding the data at the record's `<baseDir>/<uuid>` path for a file or image, and queues exactly one thumbnail job for an image |
| Files.UploadKeepsInvariant | controllers/FilesController.js:41-70 | an upload under a newer id and a fresh blob path keeps the store invariant |
| Files.AcceptedParentIsFolder | controllers/FilesController.js:41-45 | an accepted upload's parent is the root or an existing folder |
| Files.UploadThenShow | controllers/FilesController.js:72-91 | right after an upload, its owner is shown the new record under the id the upload answered with |
| Files.UploadThenContent | controllers/FilesController.js:59-62 | right after a file or image upload, its owner reads back exactly the data sent, under the record's name |
| Files.FileService.PostUpload | controllers/FilesController.js:33-73 | the answer and the new collection, blob area and queue are those of `Upload` for the old state, and the store invariant holds after |
| Files.FileService.SetVisibility | controllers/FilesController.js:125-139 | the collection becomes `Visibility(...)`; the blobs and the queue are unchanged; the response is the updated record or Not found |
| Files.FileService.PutPublish | controllers/FilesController.js:121-140 | the requester's record becomes public and nothing else changes; succeeds exactly when the requester owns a record under the id, answering that record's view (id, owner, name, type, parent) with `isPublic` true; otherwise Not found |
| Files.FileService.PutUnpublish | controllers/FilesController.js:142-161 | the requester's record becomes private and nothing else changes; succeeds exactly when the requester owns a record under the id, answering that record's view (id, owner, name, type, parent) with `isPublic` false; otherwise Not found |
| Files.InsertKeepsInvariant | controllers/FilesController.js:59-70 | inserting a record under a newer id, with its blob written at a fresh path and its job queued, keeps every record, path and job well formed |
| Files.VisibilityKeepsInvariant | controllers/FilesController.js:151 | changing only `isPublic` keeps the store invariant |
| Listing.ParentFilter | controllers/FilesController.js:96-101 | the filter is the root exactly when `parentId` is absent, empty or `'0'`, otherwise the resolved folder id |
| Listing.NewestFirst | controllers/FilesController.js:101-102 | the requester's records under the parent below a bound, strictly descending by id |
| Listing.NewestFirstComplete | controllers/FilesController.js:101 | no matching record below the bound is missing |
| Listing.Matching | controllers/FilesController.js:101-102 | an id is listed exactly when the requester owns it and it sits under the parent; the list is strictly descending |
| Listing.PageOf | controllers/FilesController.js:103-104 | a page holds `PageLength(\|s\|, page)` entries (all that remain after `page*20`, at most 20), namely those of the list from index `page*20` on |
| Listing.PagesDisjoint | controllers/FilesController.js:102-104 | two different pages share no record |
| Listing.NextPageIsOlder | controllers/FilesController.js:102-104 | every record on page p+1 is older than every record on page p |
| Listing.EveryItemOnItsPage | controllers/FilesController.js:103-104 | entry i is on page i/20 |
| Listing.Project | controllers/FilesController.js:105-114 | each projected entry is the record's view, and its id resolves back to the record's id |
| Listing.PageAsWritten | controllers/FilesController.js:97 | a missing page, one holding no digit, or one `parseInt` rejects (`NaN \|\| 0`, as for `a5`) is page 0; otherwise it is what `parseInt` yields |
| Listing.IndexAsWritten | controllers/FilesController.js:97-116 | as written, the listing fails exactly when the parsed page is negative or `page * 20` does not fit in a signed 64-bit `$skip` (at least 2^63), with the error saying which |
| Listing.NegativePageFails | controllers/FilesController.js:97-103 | `?page=-1` parses to -1 and makes the listing fail, whatever the collection holds |
| Listing.PageNumber | controllers/FilesController.js:97 | the intended page: 0 when the page is missing, holds no digit or does not parse; the parsed number when it is not negative; 0 when it is negative |
| Listing.PageNumberOfDecimal | controllers/FilesController.js:97 | a page written in decimal is that page |
| Listing.PageNumberOfNegative | controllers/FilesController.js:97 | `-p` is parsed as `-p` by the source and read as page 0 by the corrected page number |
| Listing.Index | controllers/FilesController.js:94-118 | at most 20 entries, each a valid id of the requester's record under the parent shown as its view, strictly newest first; exactly the window of `PageLength` entries of the matching list starting at `page*20` |
| Listing.IndexAgreesWithSource | controllers/FilesController.js:97-116 | for a non-negative page whose `$skip` is below 2^63, the corrected listing is the one the source returns |
| Listing.HugePageFails | controllers/FilesController.js:97-103 | a decimal page with `page * 20 >= 2^63` is parsed exactly and makes the listing fail as written, whatever the collection holds |
| Listing.MatchingFitsCollection | controllers/FilesController.js:101-102 | the listing never holds more entries than the collection has records |
| Listing.HugePageIsEmpty | controllers/FilesController.js:97-104 | as intended, such a page is empty for every collection of fewer than 2^63 records |
| Listing.PageIds | controllers/FilesController.js:99-104 | one page of ids: at most 20, all matching, strictly descending; exactly the window of `PageLength` entries of the matching list starting at `page*20` |
| Listing.PagesPartitionTheListing | controllers/FilesController.js:99-104 | pages do not overlap, page p+1 is older than page p, and every matching record is on some page |
| Users.GetMe | controllers/UsersController.js:42 | the profile carries the user's address and a valid id resolving to the user's id |
| Users.UserStore.PostNew | controllers/UsersController.js:5-37 | missing e-mail, then missing password, then an address in use are rejected in that order, with nothing changed (an address is in use when some stored user has it); otherwise exactly one user is inserted with the SHA-1 of the password, and the answer is that user's profile; addresses stay unique |
| Users.InsertUnusedKeepsUnique | controllers/UsersController.js:17-24 | inserting a user with an unused, non-empty address keeps addresses unique, and the addresses in use become the old ones plus exactly that address |
| Auth.SessionKey | controllers/AuthController.js:9 | the key is the prefix `auth_` followed by the token |
| Auth.SessionKeyInjective | controllers/AuthController.js:9 | different tokens give different keys |
| Auth.DisconnectKey | controllers/AuthController.js:14-16 | with a header, the key of that token; without one, `auth_undefined` |
| Auth.Issue | controllers/AuthController.js:9 | the token's key holds the user's written-out id, which resolves back to the user, with a one-day TTL; every other key is untouched |
| Auth.Revoke | controllers/AuthController.js:16 | the header's key is gone and every other key is untouched |
| Auth.RevokeIdempotent | controllers/AuthController.js:16 | disconnecting twice equals once; disconnecting an unknown token changes nothing |
| Auth.IssueThenRevoke | controllers/AuthController.js:9-16 | connect then disconnect with the same token leaves every other session as before |
| Auth.SessionStore.GetConnect | controllers/AuthController.js:5-11 | the store becomes `Issue(old, user, token)`, the answer is the token, and `redisClient.get` of its key gives the user's id |
| Auth.SessionStore.GetDisconnect | controllers/AuthController.js:13-18 | the store becomes `Revoke(old, header)`, and `redisClient.get` of the token's key gives nothing |

## Left out

- HTTP itself is not modelled:
  - status codes;
  - JSON (de)serialisation;
  - the `try`/`catch` that answers 500.
- Request fields of a type other than the one the model gives them are
  not modelled:
  - `name`, `type`, `parentId` and `data` are strings. A numeric
    `parentId` of `0`, for example, differs from the string `'0'` under
    `!==`; a boolean `true` as `name` or `data` would pass the presence
    checks.
  - `isPublic` is a boolean. The source stores whatever the body holds, so
    a string such as `"false"` is stored as sent and is truthy when
    `getFile` checks `!file.isPublic`: anyone may then read that content.
    The model reads such a value as private.
- `mkdir`, `writeFile`, `stat`, `existsSync`, `realpath` and `sendFile` are reduced to
  the blob map: a path exists as a regular file exactly when it is a key of
  the map.
- Failures of MongoDB and of the disk are not modelled: every write
  succeeds. In the source, an `insertOne` that fails after `writeFile`
  leaves a blob no record points to; the model cannot produce one.
- The bytes written are the data as transmitted, because base64 decoding is
  not modelled.
- The `Content-Type` derived from the name (`mime-types`) is not modelled.
- `path.join` normalisation (`.`, `..`, repeated separators) is not
  modelled.
- `os.tmpdir()` and `process.env.FOLDER_PATH` are parameters.
- Randomness is not modelled:
  - uuids and ObjectId generation are parameters with freshness
    preconditions;
  - the time order of ObjectIds is modelled as "a new id is larger than
    every stored one".
- SHA-1 is the opaque function `sha1` held by `UserStore`.
- The thumbnail worker, which writes the `_<size>` variants, is not part of
  this model. A variant is served only if a blob exists at its path.
- Bull queue failures are not modelled: `add` always enqueues.
- Redis is reduced to a map:
  - errors, which the client swallows, are not modelled;
  - the expiry clock is not modelled, and a session only records its TTL;
  - `set` followed by a separate `expire` is modelled as one step.
- Concurrency is not modelled: every request runs to completion before the
  next starts. This includes the window between `findOne` and `insertOne`
  in which two registrations of one address could both succeed.
- utils/auth.js (`getUserFromXToken`, the middleware that sets `req.user`)
  is not part of this model. The requester is a parameter.
- utils/db.js and src/index.js (connection setup, routing) are not part of
  this model. The controllers call `filesCollection()` and
  `usersCollection()`, which utils/db.js as it stands does not define; the
  model takes them to give the `files` and `users` maps.
- JsText.IsWhitespace: the Unicode space separators U+1680 and U+2000 to
  U+200A, U+202F, U+205F and U+3000 are not counted as white space.
- JsText.ParseInt: the result is an exact integer. It does not model the
  loss of precision of JavaScript numbers beyond 2^53, nor `parseInt`'s
  `-0`.
- Listing.IndexAsWritten: `page * 20` is computed exactly, not as a
  JavaScript double. Near 2^63 the source's product is rounded, so a page
  just below the bound may round up to 2^63 and fail. This can only happen
  for pages above 2^53, whose precision `JsText.ParseInt` already does not
  model.
- JsText.ParseInt: its own contract only says that a number needs a digit.
  The values it yields are stated by the lemmas ParseIntOfDecimal,
  ParseIntUnsigned and ParseIntNegative.

## Findings

| source | as written | input that shows it | evidently intended | confidence | as-written member | corrected member |
|---|---|---|---|---|---|---|
| controllers/FilesController.js:97-103 | `Number.parseInt(page) \|\| 0` keeps negative numbers, so `$skip` becomes `page * 20 < 0`, which MongoDB rejects and the request fails | `GET /files?page=-1` | a page that is not a non-negative number reads as page 0 | medium, not executed | Listing.IndexAsWritten (shown by Listing.NegativePageFails) | Listing.Index (page from Listing.PageNumber, agreement by Listing.IndexAgreesWithSource) |
| controllers/FilesController.js:97-103 | a page as large as `1000000000000000000` is parsed exactly, so `$skip` becomes `2 * 10^19`, which does not fit in MongoDB's signed 64-bit `$skip`, and the request fails | `GET /files?page=1000000000000000000` | a page past the end of the listing, however large, is an empty page | medium, not executed | Listing.IndexAsWritten (shown by Listing.HugePageFails) | Listing.Index (empty by Listing.HugePageIsEmpty) |
