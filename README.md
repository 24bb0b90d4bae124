# Post, identity and gateway handlers of a Node.js microservice system, in Dafny

This project models the decision and state-update logic of four pieces of a
microservice system (an API gateway, an identity service, a post service,
plus a media and a search service that are not modelled here):

- the post service's controller: creating, listing, reading and deleting
  posts over a post collection, a Redis read-through cache and an event
  exchange, including cache invalidation after each change;
- the identity service's handlers: register, login, refresh-token rotation
  and logout over a user table and a refresh-token table;
- the gateway's `validateToken` middleware: extracting the bearer token from
  the `authorization` header and mapping the verification outcome to 401,
  429 "Forbidden" or `next()`;
- the post service's `authenticateRequest` middleware: the `x-user-id`
  header guard.

External stores are values: the post, user and token collections are
sequences in the store's natural order (so `findOne` is "first match" and
`deleteOne` removes that one record), the cache is a map from key to
document and TTL, and the exchange is the log of published events. The two
controllers are classes whose methods update these fields, and each class
keeps a ghost `trace` of the store calls it awaits, in order. That trace is
how the contracts state the order "commit, publish, invalidate", "issue new
tokens, then delete the old record" and "a validation failure touches no
table". Calls into code that is not modelled are parameters: request
validators, `jwt.verify`, `comparePassword`, `generateTokens`, the id the
store assigns to a new post, and the clock.

Modules, one per file:

- `Base` (base.dfy): `Option`, the prefix test behind a Redis glob
  `prefix*`, and `FirstIndex`/`RemoveAt`, the table operations.
- `JsNumbers` (js_numbers.dfy): `parseInt` without a radix, the decimal text
  of an integer, and `Math.ceil` of a quotient.
- `Posts` (posts.dfy): the post record and the store's newest-first order.
- `Pagination` (pagination.dfy): page and limit defaults, skip count, page
  count, and the page of posts a listing holds.
- `PostController` (post_controller.dfy): the class `PostService`.
- `IdentityController` (identity_controller.dfy): the class `IdentityService`.
- `Http` (http.dfy), `GatewayAuth` (gateway_auth.dfy) and `PostAuth`
  (post_auth.dfy): the two middlewares as functions returning "respond" or
  "next". Being a single datatype value, the result makes "exactly one of the
  two" hold by construction.

Two behaviours of the code are modelled as written, and the model proves
that they happen:

- The listing cache key is `Posts: <page>`, but invalidation deletes keys
  matching `posts:*`. The glob is case-sensitive and has no space, so it never
  matches a listing key. A page read before a post is created is therefore
  served unchanged after it (`ListingKeyEscapesPattern`,
  `InvalidationKeepsListings`, `ListingStaysStale`).
- In `refreshTokenController` and `logout`, a missing token writes a 400
  without returning, and the handler carries on. The model returns the list
  of replies written, so that both writes appear.

## Model

| member | source | states |
|---|---|---|
| `Base.FirstIndex` | identity-service/src/controllers/identity-controller.js:68 | `findOne` over a table in natural order: the index found holds a matching record and no earlier record matches; no index means no record matches |
| `Base.RemoveAt` | identity-service/src/controllers/identity-controller.js:138 | `deleteOne`: exactly the one record is removed (as multisets), and the others keep their order |
| `Base.StartsWith` | post-service/src/controllers/post-controller.js:9 | the key test of the glob `posts:*`: a key matches exactly when it begins with `posts:`; its meaning for the keys involved is given by `PostKey`, `ListingKeyEscapesPattern` and `Invalidated` |
| `Base.RemoveAtKeepsDistinct` | post-service/src/controllers/post-controller.js:122-125 | deleting a record keeps ids unique, and its id no longer occurs |
| `Base.AppendKeepsDistinct` | identity-service/src/controllers/identity-controller.js:31-36 | saving a record with a new key keeps keys unique |
| `JsNumbers.TrimStart` | post-service/src/controllers/post-controller.js:58 | `parseInt` skips exactly the leading white space |
| `JsNumbers.DigitRun` | post-service/src/controllers/post-controller.js:58-59 | `parseInt` reads the longest prefix of digits and stops at the first non-digit |
| `JsNumbers.NatToDecimal` | post-service/src/controllers/post-controller.js:62 | the decimal text of a number has only digits and no leading zero |
| `JsNumbers.DecimalValue` | post-service/src/controllers/post-controller.js:62 | the decimal text of `n` has value `n` |
| `JsNumbers.DigitRunStops` | post-service/src/controllers/post-controller.js:58-59 | a digit run followed by a non-digit is read exactly |
| `JsNumbers.ParseInt` | post-service/src/controllers/post-controller.js:58-59 | `parseInt` without a radix; its meaning is given by `ParseIntOfDecimalText` (the text of any integer, with a non-continuing suffix, reads back as that integer) and `NoDigitIsNaN` (text without a digit is NaN) |
| `JsNumbers.ParseSigned` | post-service/src/controllers/post-controller.js:58-59 | the sign step of `parseInt`; `NegativeParses` and `SignedDigit` state what it gives after a `-` and before a digit |
| `JsNumbers.ParseUnsigned` | post-service/src/controllers/post-controller.js:58-59 | the digits of `parseInt`, in base 16 after `0x`/`0X`; `ParseUnsignedOfDecimalText` states that decimal text reads back as its value |
| `JsNumbers.IntToString` | post-service/src/controllers/post-controller.js:62 | `${page}`: non-empty, beginning with `-` exactly for a negative number; `IntToStringInjective` and `ParseIntOfDecimalText` give its meaning |
| `JsNumbers.ParseIntOfDecimalText` | post-service/src/controllers/post-controller.js:58-59 | `parseInt` reads back any integer's decimal text, ignoring a trailing non-digit part (`"2.5"` gives 2) |
| `JsNumbers.ParseUnsignedOfDecimalText` | post-service/src/controllers/post-controller.js:58-59 | the unsigned part of that round trip, including the `0x` prefix case |
| `JsNumbers.IntToStringInjective` | post-service/src/controllers/post-controller.js:62 | distinct page numbers have distinct texts |
| `JsNumbers.CeilDiv` | post-service/src/controllers/post-controller.js:78 | `Math.ceil(a / b)`: `(q-1)*b < a <= q*b` for a positive divisor, mirrored for a negative one |
| `Pagination.OrDefault` | post-service/src/controllers/post-controller.js:58-59 | `n \|\| d`: NaN and 0 give the default, any other number is kept |
| `Pagination.PageNumber` | post-service/src/controllers/post-controller.js:58 | the page is never 0 |
| `Pagination.PageLimit` | post-service/src/controllers/post-controller.js:59 | the limit is never 0, so the page count is always defined |
| `Pagination.PageNumberOfQuery` | post-service/src/controllers/post-controller.js:58 | a decimal page is read as itself; 0, absent or non-numeric gives page 1 |
| `Pagination.PageLimitOfQuery` | post-service/src/controllers/post-controller.js:59 | a decimal limit is read as itself; 0, absent or non-numeric gives 10 |
| `Pagination.NoDigitIsNaN` | post-service/src/controllers/post-controller.js:58-59 | text without a digit parses to NaN |
| `Pagination.QueryNumber` | post-service/src/controllers/post-controller.js:58-59 | `parseInt(req.query.x)`, with an absent value being NaN; `PageNumberOfQuery` and `PageLimitOfQuery` state what it gives for absent, numeric and non-numeric values |
| `Pagination.StartIndex` | post-service/src/controllers/post-controller.js:60 | `(page - 1) * limit`: 0 for page 1, and never negative for page and limit of at least 1; `StartIndexSteps` states that pages start `limit` apart |
| `Pagination.TotalPages` | post-service/src/controllers/post-controller.js:78 | `Math.ceil(totalPosts / limit)`; `TotalPagesBounds` states it is the least page count that holds every post |
| `Pagination.StartIndexSteps` | post-service/src/controllers/post-controller.js:60 | page 1 skips nothing, consecutive pages start `limit` apart, and the skip is non-negative for page and limit of at least 1 |
| `Pagination.TotalPagesBounds` | post-service/src/controllers/post-controller.js:78 | for limit ≥ 1: no pages exactly when there are no posts, else `(totalPages-1)*limit < totalPosts <= totalPages*limit` |
| `Pagination.Window` | post-service/src/controllers/post-controller.js:69-72 | `skip(start).limit(limit)`: at most \|limit\| posts, exactly the ones from position `start` on |
| `Pagination.WindowIsSlice` | post-service/src/controllers/post-controller.js:69-72 | a page takes only stored posts and keeps the newest-first order |
| `Pagination.BuildListing` | post-service/src/controllers/post-controller.js:69-80 | the listing body: the current page, the page count, the total count, and newest-first posts drawn from the store |
| `Pagination.EveryPostOnItsPage` | post-service/src/controllers/post-controller.js:58-80 | for limit ≥ 1 and distinct creation times, every stored post appears on page `i/limit + 1`, within the page count, at offset `i % limit` |
| `Posts.Insert` | post-service/src/controllers/post-controller.js:70 | inserting into a newest-first sequence keeps it newest-first and adds exactly that post |
| `Posts.NewestFirst` | post-service/src/controllers/post-controller.js:70 | `sort({createdAt: -1})`: newest first, and a permutation of the stored posts |
| `Posts.NewestFirstAnyTwo` | post-service/src/controllers/post-controller.js:70 | in a newest-first sequence any earlier post is at least as new as any later one |
| `Posts.NewestFirstIsUnique` | post-service/src/controllers/post-controller.js:70 | with distinct creation times, two newest-first arrangements of the same posts are equal |
| `Posts.StoreOrderIsNewestFirst` | post-service/src/controllers/post-controller.js:69-72 | with distinct creation times, any order the store may return for the sorted query is `NewestFirst`, so every page query sees the same order |
| `PostController.Invalidated` | post-service/src/controllers/post-controller.js:6-13 | after invalidation `post:<id>` is absent, no `posts:` key remains, and every other key keeps its entry |
| `PostController.PostKey` | post-service/src/controllers/post-controller.js:95 | `post:<id>`: begins with `post:` followed by the id verbatim, and is never matched by `posts:*` |
| `PostController.ListingKey` | post-service/src/controllers/post-controller.js:62 | `Posts: <page>`: begins with `Posts: ` followed by the page text; `ListingKeyEscapesPattern` (never matched by `posts:*`, never a post key) and `ListingKeysDistinct` give its meaning, and are behind the stale listing |
| `PostController.InvalidationSteps` | post-service/src/controllers/post-controller.js:8-12 | the awaited calls of invalidation: delete `post:<id>`, query `keys("posts:*")`, then a bulk delete exactly when some cached key begins with `posts:` |
| `PostController.ListingKeyEscapesPattern` | post-service/src/controllers/post-controller.js:9 | a listing key `Posts: <page>` never matches `posts:*` and never equals a post key |
| `PostController.InvalidationKeepsListings` | post-service/src/controllers/post-controller.js:62 | invalidation leaves every cached listing page in place, unchanged |
| `PostController.ListingKeysDistinct` | post-service/src/controllers/post-controller.js:62 | different pages are cached under different keys |
| `PostController.FindById` | post-service/src/controllers/post-controller.js:100 | `findById`: finds a post with that id, or reports that none has it |
| `PostController.FindOwned` | post-service/src/controllers/post-controller.js:122-125 | the delete filter matches only a post with both that id and that owner |
| `PostController.ListingHoldsOnlyStoredPosts` | post-service/src/controllers/post-controller.js:69-72 | a listing never shows an id the store does not hold |
| `PostController.PostService.InvalidatePostCache` | post-service/src/controllers/post-controller.js:6-13 | the cache becomes `Invalidated(old cache, id)`, nothing else changes, and the bulk delete runs only when `keys` found something |
| `PostController.PostService.CreatePost` | post-service/src/controllers/post-controller.js:15-55 | on a validation error: 400 and nothing changes; otherwise one post is saved, with `mediaIds` defaulting to `[]`, then `post.created` {postId, userId, content, createdAt} is published, then the cache is invalidated, in that order |
| `PostController.PostService.GetAllPosts` | post-service/src/controllers/post-controller.js:56-91 | a hit on `Posts: <page>` returns the cached document; a miss with a negative skip is a 500; otherwise the listing is built from the store and cached with TTL 300 |
| `PostController.PostService.GetPost` | post-service/src/controllers/post-controller.js:92-119 | a hit returns the cached document with no store read; a miss on an unknown id is a 404 with the cache unchanged; a miss on a stored post caches it under `post:<id>` with TTL 3600 |
| `PostController.PostService.DeletePost` | post-service/src/controllers/post-controller.js:120-152 | only a post with that id and owner is removed, else 404 with no event and no invalidation; on success exactly one `post.deleted` {postId, requester, mediaIds} is published before invalidation, and no post with that id remains |
| `PostController.DeleteThenGet` | post-service/src/controllers/post-controller.js:92-139 | after a successful delete, reading the post misses the cache and gets 404 |
| `PostController.ListingStaysStale` | post-service/src/controllers/post-controller.js:9-11 | a listing page read before a create is served unchanged after it; if it was computed then, it lacks the new post |
| `IdentityController.FindConflicting` | identity-service/src/controllers/identity-controller.js:22 | the `$or` lookup finds a user with the same email or the same username, or reports that there is none |
| `IdentityController.FindByEmail` | identity-service/src/controllers/identity-controller.js:68 | finds a user with that email, or reports that none has it |
| `IdentityController.FindByEmailAppended` | identity-service/src/controllers/identity-controller.js:31-36 | a newly registered email is found at the new user |
| `IdentityController.EmailFindsItsUser` | identity-service/src/controllers/identity-controller.js:68 | with unique emails, lookup by email finds exactly that user |
| `IdentityController.FindUserById` | identity-service/src/controllers/identity-controller.js:127 | finds the user with that id, or reports that there is none |
| `IdentityController.FindToken` | identity-service/src/controllers/identity-controller.js:115-117 | the first record the filter selects: for a string, the first record holding exactly that token; for `null`, none; for `undefined`, none or the first stored record, depending on how the store reads it; for an object, the first record its condition selects |
| `IdentityController.Selects` | identity-service/src/controllers/identity-controller.js:115-117 | which records `{ token: <value> }` selects: a string or number/boolean compares with the stored token text, `null` selects none, an object or array is a condition on the field, and `undefined` selects all or none depending on the store |
| `IdentityController.NonEmptyConditionSelectsFirst` | identity-service/src/controllers/identity-controller.js:115-117 | a token sent as `{ "$gt": "" }` is not missing and selects the first stored record, whoever owns it |
| `IdentityController.Missing` | identity-service/src/controllers/identity-controller.js:107 | `!refreshToken`: true for `undefined`, `null`, `""`, `0` and `false`, false for any object |
| `IdentityController.MissingTokenReplies` | identity-service/src/controllers/identity-controller.js:107-113 | a missing token writes exactly one 400 "Refresh token not provided", any other token writes nothing |
| `IdentityController.Expired` | identity-service/src/controllers/identity-controller.js:119 | `expiresAt < now`: a record expiring exactly now is still accepted |
| `IdentityController.IdentityService.RegisterUser` | identity-service/src/controllers/identity-controller.js:9-54 | a validation error is a 400 with no table read; a user with the same email OR username gives 400 "User already exists"; otherwise exactly one user is added with the given email, username and password, email and username stay unique, the next user id advances by one, and 201 carries its tokens |
| `IdentityController.IdentityService.LoginUser` | identity-service/src/controllers/identity-controller.js:57-100 | a validation error is a 400 with no table read; an unknown email gives 400 "Invalid credentials"; a wrong password gives 400 "Invalid password"; otherwise the tokens and the user's id; nothing is written |
| `IdentityController.IdentityService.RefreshToken` | identity-service/src/controllers/identity-controller.js:103-151 | a missing token writes a 400 and the lookup still happens; an unknown token, or one whose `expiresAt < now` (strict, so `expiresAt == now` passes), gives 400; a missing user gives 400 "User not found" and keeps the record; otherwise new tokens are issued, then the old record is deleted; with no token, the table is untouched unless the store reads `{ token: undefined }` as `{}`, in which case the first stored record is the one rotated; an object token writes no 400, and the record it selects is rotated for that record's owner |
| `IdentityController.IdentityService.Logout` | identity-service/src/controllers/identity-controller.js:153-174 | deletes the first record the filter selects, if any, and reports success either way; a missing token also writes a 400 first; `null` deletes nothing; `undefined` deletes nothing or, if the store reads it as `{}`, the first stored record; an object deletes the first record its condition selects, whatever token it holds |
| `GatewayAuth.SplitOnSpace` | api-gateway/src/middleware/authMiddleware.js:5 | `split(" ")` gives at least one piece, and no piece contains a space |
| `GatewayAuth.JoinSplit` | api-gateway/src/middleware/authMiddleware.js:5 | joining the pieces with single spaces gives the header back |
| `GatewayAuth.SplitAfterWord` | api-gateway/src/middleware/authMiddleware.js:5 | a word without spaces merges into the first piece of what follows |
| `GatewayAuth.SplitJoin` | api-gateway/src/middleware/authMiddleware.js:5 | pieces without spaces split back out of their join |
| `GatewayAuth.BearerToken` | api-gateway/src/middleware/authMiddleware.js:4-6 | a token, when found, is non-empty and has no space |
| `GatewayAuth.BearerTokenOfSchemeAndToken` | api-gateway/src/middleware/authMiddleware.js:5 | the token of `scheme token` is `token` |
| `GatewayAuth.BearerTokenIgnoresRest` | api-gateway/src/middleware/authMiddleware.js:5 | later segments are ignored: `scheme token rest` gives `token` |
| `GatewayAuth.BearerTokenIsSecondPiece` | api-gateway/src/middleware/authMiddleware.js:5 | a found token is the piece at index 1: the header is `<piece 0> <token>`, optionally followed by more pieces |
| `GatewayAuth.NoSpaceNoToken` | api-gateway/src/middleware/authMiddleware.js:5-6 | a header without a space yields no token |
| `GatewayAuth.EmptySecondPieceNoToken` | api-gateway/src/middleware/authMiddleware.js:5-6 | `"Bearer "`, or a double space after the scheme, yields no token |
| `GatewayAuth.ValidateToken` | api-gateway/src/middleware/authMiddleware.js:3-21 | no token gives 401 "Unauthorized"; a failed verification gives 429 "Forbidden"; otherwise `next()` with `req.user` set to the decoded payload |
| `GatewayAuth.UnauthorizedIgnoresVerify` | api-gateway/src/middleware/authMiddleware.js:6-11 | without a token the outcome does not depend on the verifier, so verification is not consulted |
| `PostAuth.AuthenticateRequest` | post-service/src/middleware/authMiddleware.js:3-19 | a missing or empty `x-user-id` gives 400 with success false and the login message; otherwise `next()` with `req.user` exactly `{ userId: <header> }` |
| `PostAuth.UserIdIsVerbatim` | post-service/src/middleware/authMiddleware.js:4-15 | the header value is used verbatim, surrounding spaces included |
| `PostAuth.OnlyUserIdHeaderMatters` | post-service/src/middleware/authMiddleware.js:4-7 | no other header affects the outcome |

## Left out

- Concurrency: each handler runs to completion with no other request in between. Interleavings at `await` points across requests are not modelled, for example two registrations racing between `findOne` and `save`, or a listing cached while a create is in flight.
- Failures of the stores, the cache or the broker, and the catch-all 500 replies they lead to, are not modelled. The one exception is the listing query with a negative skip count, which the store rejects.
- PostController.PostService.GetPost: an id that is not a well-formed ObjectId makes the store raise a cast error, which becomes a 500. The model treats such an id as one that matches no post, so the reply is 404.
- PostController.PostService.DeletePost: the same cast-error 500 for a malformed id is modelled as a 404.
- PostController.FindById: ids are compared as exact text, so the model assumes request ids arrive in the store's canonical lower-case hex spelling. The store casts the text to an ObjectId and reads hex in either case. Two things are therefore lost. First, `GET /posts/<upper-case id>` finds the post in the source but is a 404 in the model. Second, the source has a stale read: a post cached under one spelling of its id keeps being served for up to 3600 s after a delete sent with another spelling, because invalidation removes only `post:<spelling used in the delete>`.
- PostController.FindOwned: the same exact-text comparison of ids as in FindById.
- PostController.PostService.CreatePost: requires that the store's new id is not already in use. This is the id generator's guarantee; the duplicate-key failure is not modelled. A `mediaIds` that is present but falsy (`null`, `""`, `0`) also defaults to `[]` in the source. The model has only "absent", which covers `undefined` and `null`.
- IdentityController.IdentityService.RefreshToken: after the "Refresh token not provided" write, Express raises "headers already sent" on the second write. That ends in the handler's catch block, which is not modelled; the model returns both writes. The table effects before that point are modelled.
- IdentityController.IdentityService.Logout: the same double write as in RefreshToken.
- IdentityController.FindToken: how the store reads a filter `{ token: undefined }` is a parameter (`undefinedMatchesAll`), not a fixed behaviour. The handlers are specified for both readings.
- IdentityController.Selects: a token sent as an object or array is an arbitrary condition on a record (`matches`). The store's own operator language (`$gt`, `$ne`, `$regex`, `$in`, and arrays cast to `$in`) is not modelled operator by operator. A number or boolean is compared through the text the store casts it to, which is a parameter of the value.
- Cache TTL expiry and the clock: TTL values are recorded, but entries never expire.
- JSON serialization: cached values are the documents themselves. Dates and ObjectIds are not converted to strings.
- JsNumbers.ParseInt: numbers are unbounded integers. The loss of precision above 2^53, and the exponent form of `${page}` for pages of 10^21 or more, are not modelled. A query value given as an array is not modelled either.
- Posts.NewestFirst: the store leaves the order of posts with equal `createdAt` unspecified. The model puts the earlier-stored post first.
- Pagination.EveryPostOnItsPage: requires distinct creation times. Each page is a separate query, and the store need not order tied posts the same way in two queries. A post tied with another at a page boundary can therefore be listed on two pages, or on none; the model does not capture this.
- `generateTokens` is a parameter. Its own storing of a new refresh-token record is not modelled, and identity-service/src/utils/generateTokens.js is not part of this model. For the same reason, no method adds token records.
- The User model's password hashing and `comparePassword` are not part of this model; the password check is a parameter.
- The request validators (`validateCreatePost`, `validateRegistration`, `validateLogin`) are not part of this model; they are parameters.
- `jwt.verify` and its secret are a parameter. The middlewares' logging is not modelled.
- The exchange is only the log of published events. Connection handling, the consumer side (the media and search handlers), and the server wiring and rate limiting in the `server.js` files are not modelled.
