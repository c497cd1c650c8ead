# Request admission in the e-commerce warehouse API

This project models the parts of the warehouse backend (an Express
application over Firebase) that decide what a request receives:

- the authentication middleware `authMiddleware`. It takes the
  `Authorization` header, extracts the token, has Firebase verify it, loads
  `users/<uid>` from Firestore, checks `isActive` and attaches the merged
  context as `req.user`;
- the three role gates `adminMiddleware`, `customerMiddleware` and
  `ownerOrAdminMiddleware`, and the Express chain that runs
  authentication followed by a route's gates;
- the global `errorHandler` decision table and the `notFound` handler;
- the product routes' own logic: page/limit defaulting, `skip` and the page
  count, the 404 on a missing product, the required fields and defaults of
  a new product, and the patch an update sends.

All of it is pure Dafny, except the PUT `/:id` route. The source builds
that route's patch by mutating an empty object one field at a time, so
`Products.BuildUpdatePatch` is a method with a local map updated step by
step, proved equal to a declarative specification, `Products.UpdatePatch`.
The route itself, `Products.UpdateProduct`, is a method that calls it and
then matches on the store's answer.

The external services are parameters:

- the Firebase token verifier (`verify: string -> Verification`);
- the Firestore read of a user record (`readUser: string -> UserRead`);
- the product store's answers (`Answer<T>`, or a store operation as a
  function of what the route sends it);
- JavaScript's `parseFloat`.

"Not consulted" is stated as: the outcome is the same whatever these
services would answer.

JavaScript semantics are written out in `JsValues` and `JsStrings`:

- truthiness (`!x`, `x || d`);
- `===`, where `NaN` equals nothing;
- reading a missing property, which gives `undefined`;
- `split(' ')`, proved to be the unique cut into space-free pieces that
  join back to the input;
- `startsWith`;
- `parseInt` on the strings the pagination validator accepts.

Modules: `JsValues`, `JsStrings`, `Auth`, `Roles`, `Pipeline`,
`ErrorHandler`, `Products`, one file each.

Facts about the code that the model states:

- The token is the second space-separated field of the header, whatever
  the first word is. `"Bearer"` and `"Bearer  x"` both yield "No token
  provided".
- A failing user-record read is answered like a bad token (401 "Invalid
  token"). An inactive account gets 403 and an unknown one 404.
- A Firebase `auth/...` code reaching the error handler answers 400, never
  401.
- The duplicate-key row (`code === 11000`) can never answer. A numeric code
  makes the earlier `err.code.startsWith(...)` call throw, and the error
  handler itself fails (`HandlerFault`).
- `notFound` sets 404, but the error it forwards has no `statusCode`. The
  error handler's default row then answers 500 with "Not found - <url>".
- GET `/api/products` never sends a listing. Line 24 of
  `backend/routes/products.js` calls `ProductModel.getCount()`, which
  `backend/models/Product.js` does not define. Whenever `getAll` resolves,
  the call throws a TypeError, and the error handler answers 500
  "ProductModel.getCount is not a function" (see "## Findings").
  `Products.ListProducts` is the listing as evidently intended. Because
  `ProductModel.getAll` takes no arguments, even that listing would return
  every product: `count` and `data` are those of the whole collection, and
  only `page` and `pages` follow the query.
- No route of the repository mounts `authMiddleware` or a gate. The product
  write routes import them but do not use them. `Pipeline` states what the
  chain admits when a route does mount them.
- A gate without a user context answers 401 "Authentication required"
  (`backend/middleware/roles.js:8-13`).
- The authentication denials keep their own statuses and messages
  (`backend/middleware/auth.js:12-53`): 401 with distinct messages for a
  missing header and a missing token, 404 for an unknown user and 403 for
  an inactive one.
- The token is the field between the first and the second space, not
  everything after the first space (`backend/middleware/auth.js:20`).

## Model

| member | source | states |
|---|---|---|
| JsStrings.Split | backend/middleware/auth.js:20 | `split(' ')` yields at least one piece, no piece holds the separator, and joining the pieces with it gives back the input |
| JsStrings.SplitUnique | backend/middleware/auth.js:20 | any separator-free pieces that join back to the string are exactly what `split` returns |
| JsStrings.ParseInt | backend/routes/products.js:19-20 | `parseInt` of an absent query value is NaN, and of a string the validator accepts is a number |
| JsStrings.ParseIntDecimal | backend/routes/products.js:19-20 | a number written in decimal passes the integer check and `parseInt` reads back that number |
| Auth.Token | backend/middleware/auth.js:20 | `split(' ')[1]` is defined exactly when the header holds a space, and the token it yields holds no space |
| Auth.PresentedToken | backend/middleware/auth.js:10-27 | the middleware goes on with a token exactly when the header holds a space and its second field is non-empty; that token is non-empty, space-free and the header's second field |
| Auth.CatchResponse | backend/middleware/auth.js:66-87 | the catch block always answers 401; "Token expired" exactly for `auth/id-token-expired`, "Token revoked" exactly for `auth/id-token-revoked`, and otherwise "Invalid token" |
| Auth.Context | backend/middleware/auth.js:56-63 | the context holds the five listed keys and every key of the record, and the record's value wins for each of its keys |
| Auth.Authenticate | backend/middleware/auth.js:7-88 | every denial of the authentication stage carries status 401, 403 or 404 |
| Auth.TokenBetweenSpaces | backend/middleware/auth.js:20 | the token is the text between the first space and the next space or the end of the header |
| Auth.NoSpaceNoToken | backend/middleware/auth.js:20 | a header without a space has no second field, so the token is `undefined` |
| Auth.SchemeIgnored | backend/middleware/auth.js:19-20 | `<scheme> <token>` yields the token for every scheme word, not only "Bearer" |
| Auth.MissingHeaderDenied | backend/middleware/auth.js:10-17 | a missing or empty header gets 401 "No authorization header provided", whatever the verifier and the store would answer |
| Auth.MissingTokenDenied | backend/middleware/auth.js:20-27 | an absent or empty second field gets 401 "No token provided", whatever the verifier and the store would answer |
| Auth.BareSchemeHasNoToken | backend/middleware/auth.js:20-27 | "Bearer" and "Bearer  x" (two spaces) are both refused with 401 "No token provided" |
| Auth.VerifierFailureDenied | backend/middleware/auth.js:66-87 | a verifier rejection gets 401 "Token expired" or "Token revoked" for the two known codes and "Invalid token" for every other code; the store is not consulted |
| Auth.ReadFailureDenied | backend/middleware/auth.js:66-87 | a failing user-record read falls into the same catch and gets the same 401 mapping by its error code |
| Auth.UnknownUserDenied | backend/middleware/auth.js:38-43 | a verified subject without a record gets 404 "User not found in database" and no context |
| Auth.InactiveDenied | backend/middleware/auth.js:48-53 | a record whose `isActive` is falsy (false, missing, null, 0, "") gets 403 "User account is inactive", whatever its role |
| Auth.AuthorizedIff | backend/middleware/auth.js:7-65 | the request is authorised if and only if a non-empty token was presented, the verifier accepted it, the subject's record exists and its `isActive` is truthy |
| Auth.ContextMerge | backend/middleware/auth.js:56-63 | the context has the record's name, role and isActive; uid and email come from the token unless the record has those keys; every record key keeps the record's value; no other key is added |
| Auth.AuthorizedContext | backend/middleware/auth.js:45-65 | an authorised context is the merge of the verified claims with the subject's stored record, and its `isActive` is truthy |
| Auth.OnlyObservedAnswersMatter | backend/middleware/auth.js:7-88 | the outcome depends only on the header, the verifier's answer for the presented token and the store's answer for the verified subject, so repeated runs with the same answers agree |
| Roles.OwnerParam | backend/middleware/roles.js:85 | the owner is `undefined` or a route parameter's string: `userId` when present and non-empty, else `id`; it is `undefined` exactly when no usable parameter exists |
| Roles.AdminGate | backend/middleware/roles.js:5-31 | without a user 401 "Authentication required"; with one, admits if and only if the role is "admin", and otherwise 403 "Admin access required" |
| Roles.CustomerGate | backend/middleware/roles.js:37-63 | without a user 401; with one, admits if and only if the role is "customer" or "admin", and otherwise 403 "Customer or admin access required" |
| Roles.OwnerOrAdminGate | backend/middleware/roles.js:69-102 | without a user 401; with one, admits if and only if the role is "admin" or the uid equals the owner parameter, and otherwise 403 "Access denied…" |
| Roles.GatesRequireUser | backend/middleware/roles.js:8-77 | with no user context each of the three gates answers 401 "Authentication required" |
| Roles.AdminGateIff | backend/middleware/roles.js:16-23 | the admin gate admits if and only if role is "admin", and otherwise answers 403 "Admin access required" |
| Roles.CustomerGateIff | backend/middleware/roles.js:48-55 | the customer gate admits if and only if role is "customer" or "admin", and otherwise answers 403 |
| Roles.OwnerGateIff | backend/middleware/roles.js:80-93 | the ownership gate admits if and only if role is "admin" or the context's uid is strictly equal to the owner parameter, and otherwise answers 403 "Access denied…" |
| Roles.OwnerParamChoice | backend/middleware/roles.js:85 | the owner is `params.userId` when present and non-empty, else `params.id` |
| Roles.OwnerGateCases | backend/middleware/roles.js:80-93 | each disjunct separately: an admin is admitted whatever the params, the owner whatever the role, and a context that is neither is refused |
| Roles.OwnerGateWithoutParams | backend/middleware/roles.js:85-86 | on a route with neither `:userId` nor `:id`, a non-admin with a string uid is refused |
| Roles.AdminMonotone | backend/middleware/roles.js:16-82 | whatever the admin gate admits, the customer and ownership gates admit too |
| Pipeline.RunGates | backend/middleware/roles.js:16-23 | a route's gate list rejects only with 401 or 403, and without a user context a non-empty list answers 401 "Authentication required" |
| Pipeline.Run | backend/middleware/auth.js:56-65 | the handler runs only with the context the authentication stage attached, and every refusal of the chain carries 401, 403 or 404 |
| Pipeline.RunGatesAllAdmit | backend/middleware/roles.js:21-23 | a route's gate list passes if and only if every gate in it admits |
| Pipeline.RunGatesFirstRejection | backend/middleware/roles.js:16-23 | a rejection of the gate list is the answer of a gate that every earlier gate admitted |
| Pipeline.AdmittedOnlyIfAuthenticatedAndApproved | backend/middleware/auth.js:56-65 | a request reaches the handler only with the context authentication built (unchanged by the gates), which is active and approved by every listed gate |
| Pipeline.AdmittedWhenApproved | backend/middleware/auth.js:56-65 | an authenticated request that every listed gate admits reaches the handler with its context |
| Pipeline.AuthDenialIsFinal | backend/middleware/auth.js:12-53 | an authentication denial ends the chain; the gate list makes no difference |
| Pipeline.InactiveNeverAdmitted | backend/middleware/auth.js:48-53 | an inactive account is refused with 403 whatever its role and the gates listed |
| Pipeline.AdminPassesAllGates | backend/middleware/roles.js:16-82 | an admin context passes every list of gates |
| Pipeline.RouteScenarios | backend/middleware/roles.js:16-93 | a customer on an admin-only route gets 403, an admin passes it, and a customer passes customer-plus-ownership gates on their own id |
| ErrorHandler.CodeStartsWith | backend/middleware/errorHandler.js:19 | `err.code && err.code.startsWith(p)` throws exactly for a truthy non-string code, and holds exactly for a non-empty string code beginning with the prefix |
| ErrorHandler.AuthMessage | backend/middleware/errorHandler.js:20-32 | the auth row's message is never empty; it is one of the table's messages, and "Authentication error" exactly for codes the table lacks |
| ErrorHandler.DuplicateMessage | backend/middleware/errorHandler.js:54-57 | the duplicate-key message is the first key of `keyValue` (or "undefined") followed by " already exists" |
| ErrorHandler.RowOf | backend/middleware/errorHandler.js:9-81 | the validation row answers exactly for name "ValidationError"; the handler throws exactly for another error whose code is truthy but not a string; the duplicate-key row never answers |
| ErrorHandler.Classify | backend/middleware/errorHandler.js:5-81 | every answer has a truthy status and a non-empty error; details appear exactly for a validation error; without a truthy `statusCode` the status is 400, 401 or 500 |
| ErrorHandler.NotFound | backend/middleware/errorHandler.js:87-91 | `notFound` sets 404 and forwards an error "Not found - <url>" that has no `statusCode` and no `code` |
| ErrorHandler.UnmatchedRoute | backend/middleware/errorHandler.js:87-91 | a request no route matches (`notFound` followed by `errorHandler`) is answered 500, not the 404 `notFound` set, with the message of the error `notFound` built |
| ErrorHandler.Messages | backend/middleware/errorHandler.js:10 | the details list the sub-errors' messages one for one, in order |
| ErrorHandler.ValidationErrorWins | backend/middleware/errorHandler.js:9-16 | "ValidationError" beats every other field and answers 400 "Validation Error" with the sub-error messages in order; without `errors` the handler throws |
| ErrorHandler.AuthCodeIs400 | backend/middleware/errorHandler.js:19-34 | a string code starting with "auth/" answers 400 (never 401) with the seven-entry table's message, or "Authentication error" for codes the table lacks |
| ErrorHandler.FirestoreCodeIs500 | backend/middleware/errorHandler.js:37-43 | a string code starting with "firestore/" answers 500 "Database error" |
| ErrorHandler.NamedErrors | backend/middleware/errorHandler.js:45-74 | if the code passes both prefix tests, CastError answers 400 "Invalid resource ID", JsonWebTokenError 401 "Invalid token" and TokenExpiredError 401 "Token expired" |
| ErrorHandler.DefaultRowAnswer | backend/middleware/errorHandler.js:77-80 | any other error answers with its statusCode if truthy, else 500, and its message if truthy, else "Server Error" |
| ErrorHandler.NonStringCodeFaults | backend/middleware/errorHandler.js:19 | a truthy non-string code makes `err.code.startsWith` throw, so the handler fails instead of answering |
| ErrorHandler.DuplicateKeyRowUnreachable | backend/middleware/errorHandler.js:53-59 | the duplicate-key row never answers, and code 11000 makes the handler fail instead of answering 400 |
| ErrorHandler.FaultIff | backend/middleware/errorHandler.js:9-59 | the handler throws exactly for a validation error without `errors` and for another error with a truthy non-string code |
| ErrorHandler.UnmatchedRouteIs500 | backend/middleware/errorHandler.js:87-91 | `notFound` sets 404, but an unmatched route is answered 500 "Not found - <url>" because the default row overrides it |
| Products.PaginationAccepted | backend/middleware/validation.js:131-143 | a query the validator lets through gives `parseInt` a number of at least 1 for a present `page` and of 1 to 100 for a present `limit`, so the `||` defaults fire only for absent values |
| Products.OrDefault | backend/routes/products.js:19-20 | `parseInt(q) || d` is the parsed number unless it is 0 or NaN, in which case it is the default |
| Products.PagingBounds | backend/routes/products.js:19-21 | under the validator's bounds, page and limit default to 1 and 10 when absent and are taken as written otherwise; skip is non-negative, a multiple of limit, and skip/limit is page-1 |
| Products.Paginate | backend/routes/products.js:19-21 | under the validator's bounds, page is the query's value or 1, limit the query's value or 10, page is at least 1, limit between 1 and 100, and skip non-negative |
| Products.PageCount | backend/routes/products.js:31 | `Math.ceil(total/limit)` is the least n with n*limit ≥ total, and it is 0 exactly when total is 0 |
| Products.ListProductsAsWritten | backend/routes/products.js:18-34 | the route as written always hands an error to the error handler: the store's own, or the TypeError of calling the undefined `ProductModel.getCount` |
| Products.ListingNeverSent | backend/routes/products.js:23-24 | no request receives a listing; when `getAll` resolves, the error handler answers 500 "ProductModel.getCount is not a function" |
| Products.ListProducts | backend/routes/products.js:18-33 | the intended listing is sent exactly when both store calls answer, with every product `getAll` returned, its count, and the stored total; otherwise the error is forwarded |
| Products.ListingReply | backend/routes/products.js:18-33 | the intended listing carries the requested page and the least page count covering the total; a store error is forwarded to the error handler |
| Products.GetProduct | backend/routes/products.js:40-56 | GET `/:id` answers 404 "Product not found" exactly on a null answer, 200 with the store's product exactly when it returns one, and forwards exactly the store's error otherwise |
| Products.GetNotFoundIff | backend/routes/products.js:44-54 | GET `/:id` answers 404 "Product not found" exactly when the store returns null, and the product otherwise |
| Products.ForwardedStoreErrorIs500 | backend/routes/products.js:40-56 | a store failure on GET `/:id` is forwarded and answered 500 with the store's message |
| Products.NewProductData | backend/routes/products.js:73-81 | the document sent has exactly the seven fields, and description, sku and barcode are '' whenever the body's value is falsy |
| Products.CreateProduct | backend/routes/products.js:61-93 | POST `/` answers 400 "Name, price, and category are required" exactly when one of the three is falsy; success is 201 and every failure 400 or 500 |
| Products.CreateRequiresFields | backend/routes/products.js:66-71 | a falsy name, price or category gets 400 "Name, price, and category are required", whatever the store would do |
| Products.CreateSendsDefaults | backend/routes/products.js:73-93 | a valid request sends exactly seven fields: name and category as given, the parsed price, description/sku/barcode as given or '' when falsy, and active true; the reply is 201 with the store's product, or 500 with the store's message |
| Products.UpdatePatch | backend/routes/products.js:103-110 | the patch holds only updatable fields, each one the body defines (not `undefined`) |
| Products.UpdatePatchFields | backend/routes/products.js:103-110 | the patch holds exactly the listed fields that the body defines (null kept), each with the body's value (price parsed); nothing is defaulted or added |
| Products.EmptyBodyEmptyPatch | backend/routes/products.js:103-110 | a body defining none of the seven fields yields an empty patch |
| Products.BuildUpdatePatch | backend/routes/products.js:103-110 | the map built by the seven conditional assignments equals the declarative patch |
| Products.UpdateProduct | backend/routes/products.js:99-129 | PUT `/:id` sends the patch; it answers 404 exactly when the store returns null, 200 with the product when it returns one, and 500 with the message when it throws |

## Findings

| source | as written | input that shows it | evidently intended | confidence | as-written member | corrected member |
|---|---|---|---|---|---|---|
| backend/routes/products.js:24 | `await ProductModel.getCount()` calls a method that `backend/models/Product.js` does not define, so it throws a TypeError | any GET `/api/products` whose `getAll` resolves, for example on an empty store with no query | `total` is the number of stored products and the route answers 200 with the listing and `pages = Math.ceil(total / limit)` | high (read from the code; not executed) | Products.ListingNeverSent | Products.ListingReply |

## Left out

- The Firestore models (`Product.js`, `Order.js`, `Inventory.js`) are not modelled: their filtering, ordering and identifier generation belong to Firestore. Store answers enter as values.
- `Products.UpdateProduct` takes the store's answer as a parameter. In `backend/models/Product.js:51-61`, Firestore's `update` rejects on a missing document and the model rethrows it as "Error updating product: …". So a PUT on an unknown id is answered 500 with that message. The 404 of `backend/routes/products.js:113-118` fires only when the document disappears between the update and the re-read. The model states each reply for each answer, but does not model which answer Firestore gives.
- The DELETE `/:id` and GET `/search/:query` product routes are not modelled. They only pass the store's answer through.
- Token verification and the user-record read are oracle inputs. Their cryptography and network I/O are not modelled.
- `rateLimiter.js` is configuration of a time-based library and is not modelled.
- `validation.js` is declarative library configuration. Only its pagination bounds are used, as the precondition `Products.PaginationAccepted` of the listing route.
- `server.js` and `config/firebase.js` (environment, SDK start-up, CORS, helmet, logging, the listener) are process wiring and are not modelled.
- The stub routers (`users.js`, `orders.js`, `auth.js`, `inventory.js`) return fixed messages and are not modelled.
- `asyncHandler`, promise handling and `console.error` logging are not modelled. A forwarded error is represented by `Products.Reply.Forward`.
- The `catch` blocks answering 500 in `roles.js` are not modelled, because the gates cannot throw on plain data.
- JsStrings.ParseInt: `parseInt` is modelled only on an absent value and on the strings the pagination validator accepts. It runs only after the validator, so leading whitespace, trailing text and hexadecimal prefixes never reach it. Array-valued queries (a repeated key such as `?page=2&page=3`) are not modelled. If the validator checks each element, `parseInt` reads the first one, so the stated bounds still hold.
- Products.Paginate: `parseInt` returns a double. A `page` above 2^53, which the validator accepts, is not read back exactly, whereas the model reads back its exact integer value.
- Products.PageCount: `Math.ceil(total / limit)` is computed on exact rationals. Double-precision rounding for totals beyond 2^53 is not modelled.
- Prices are not modelled as floating point. `parseFloat` is a parameter and its results are opaque values.
- Numbers in `JsValues.Value` are integers. No field the modelled code reads needs fractions.
- `ErrorHandler.HandlerFault` stands for the error handler throwing. What Express's fallback handler then sends is not modelled.
- Node's reaction to a non-numeric `statusCode` passed to `res.status` is not modelled.
- `Object.values` and `Object.keys` applied to a primitive are not modelled. `errors` and `keyValue` are either absent or objects.
