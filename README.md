# Tronicsorp product and user handlers in Dafny

This project models the core of a small HTTP service that stores products and users in
MongoDB:

- the product handlers of `handlers/products.go`:
  - listing with a query filter, which is `findProducts`;
  - validated batch creation with fresh ObjectIds, which is `insertProducts` and `CreateProducts`;
  - the read, merge, validate and write update, which is `modifyProduct`;
  - lookup by id, which is `findProduct`;
  - deletion by id, which is `removeProduct`.
- the user handlers of `handlers/users.go`:
  - registration, which is `insertUser` and `CreateUser`;
  - login, which is `authenticateUser` and `AuthUser`;
  - the password check, which is `isCredValid`;
  - token claims, which is `CreateToken`.
- the unique index on `username` that `main.go` creates at startup. It is modelled as
  the invariant of the users collection.

Modules:

- `Common` has `Option`/`Result`, the error kinds, ObjectIds and the hex parsing of
  `primitive.ObjectIDFromHex`, with its round trip.
- `Products` has the Product entity and its validator tags, and the merge of a JSON payload
  onto a stored product. It also has the `$set` document the update sends, and the query
  filter with the store's equality matching.
- `ProductStore` has the products collection, a class whose `docs` map is updated in place.
  Every store call may fail, and the failure is chosen nondeterministically.
- `ProductHandlers` has the product handlers as methods on that collection.
- `Users` has the User entity and its validator tags, and the unique-username invariant.
  It also has the password check and the token claims.
- `UserStore` has the users collection. Its `Valid()` is the unique index.
- `UserHandlers` has the user handlers, and two scenarios:
  - registering and then logging in;
  - registering the same name twice.

Some things are parameters:

- the bcrypt hash and compare (`Crypto`);
- the e-mail syntax check (`isEmail`);
- HS256 signing (`Signer`);
- the clock (`now`, in Unix seconds).

Fresh ObjectIds and store faults are nondeterministic choices.

Errors follow the code:

- `AuthUser` wraps a validation failure as 400 "Unable to validate the\trequest payload".
  The message has a literal tab, as in the source. `CreateUser` returns the validator's
  own error (`ValidationFailed`).
- `insertUser` detects a duplicate with `newUser.Email != ""`. So for an empty username the
  lookup does not refuse it, and only the unique index does, as a 500 "Unable to insert user".
  Validation makes an empty username unreachable through `CreateUser`.
- `DeleteProduct` reports success even when nothing was deleted. `RemoveProduct` states the
  count, 0 or 1.

## Model

| member | source | states |
|---|---|---|
| Common.ObjectIdFromHex | handlers/products.go:53-56 | an id string parses exactly when it has 24 characters, all hexadecimal digits; otherwise the error is InvalidHex |
| Common.DecodeEncodeHex | handlers/products.go:53 | decoding the hex encoding of any byte string gives the bytes back (proved by induction) |
| Common.HexRoundTrip | handlers/products.go:53 | printing an ObjectId in hex and parsing it back yields the same ObjectId |
| Common.Hex | handlers/products.go:78 | the driver's `ObjectID.Hex`, how the JSON responses print ids (products.go:78, 113, 155, 181) and the inverse of the parse at products.go:53: the printed form is 24 hexadecimal digits |
| Products.ProductViolations | handlers/products.go:25-29 | the validator reports no violation exactly when the tags hold: name 1..10 chars, price non-zero and at most 200, currency exactly 3 chars, vendor non-empty; at most four violations |
| Products.ViolationFieldsDistinct | handlers/products.go:25-29 | the validator reports each of the four tagged fields at most once (only its first failing tag) |
| Products.ValidationBoundary | handlers/products_test.go:42-60 | the test payload (price 200, "USD") validates, a negative price validates, 201 does not, and the violation list (Price, Currency, Vendor) for a product with three broken fields |
| Products.Merge | handlers/products.go:132 | decoding the JSON payload onto the fetched product changes only fields the payload carries |
| Products.MergeTakesPresentFields | handlers/products.go:132 | on every field the payload carries, the merged value does not depend on the stored product |
| Products.MergeIdentityAndReplace | handlers/products.go:132 | an empty payload leaves the product unchanged; a payload with every field replaces it |
| Products.MergeComposes | handlers/products.go:132 | two payloads decoded in turn equal their overlay decoded once; decoding the same payload twice is idempotent |
| Products.PartialUpdateExample | handlers/products.go:132-140 | a price-only payload changes only the price and still validates; blanking the vendor fails validation |
| Products.SetDocumentAsWrittenStores | handlers/products.go:142 | with `$set` marshalled through the omitempty tags, the stored document equals the product sent iff neither an emptied accessories list nor a nil id is involved |
| Products.ClearingAccessoriesIsLost | handlers/products.go:30 | concrete case: clearing the accessories returns a product without them but the stored document keeps them |
| Products.SetDocumentAsWritten | handlers/products.go:142 | the `$set` document as the bson tags marshal it: `_id` is left out exactly when nil and `accessories` exactly when empty, every other field is present, and it describes the product itself |
| Products.SetDocument | handlers/products.go:142 | the corrected `$set` document makes any stored document equal to the validated product |
| Products.FilterOf | handlers/products.go:46-58 | the filter has the query's keys; it fails, with InvalidHex, exactly when `_id` is present and its first value does not parse |
| Products.FilterMatchingEdges | handlers/products.go:48-51 | a query key that is not a product field stays in the filter and matches no product; an empty query matches every product |
| Products.FilterExample | handlers/products.go:46-58 | `{vendor: V, extraneous: X}` gives two equality clauses and matches nothing; a malformed `_id` is rejected |
| ProductStore.ProductCollection.Find | handlers/products.go:59-69 | on success the result holds exactly the stored products matching the filter, each once; otherwise a store fault |
| ProductStore.ProductCollection.FindOne | handlers/products.go:125-129 | the stored product with that id, NoDocuments only when there is none, or a store fault |
| ProductStore.ProductCollection.InsertOne | handlers/products.go:85 | adds the product under its id unless that id is taken (DuplicateKey) or the store faults; nothing else changes |
| ProductStore.ProductCollection.UpdateOne | handlers/products.go:142 | applies the `$set` document to the document with that id; no match is not an error; changing the _id is refused |
| ProductStore.ProductCollection.DeleteOne | handlers/products.go:191-195 | removes only that id and reports 1 or 0 deleted |
| ProductHandlers.BuildFilter | handlers/products.go:46-58 | the filter loop computes `FilterOf`: every key mapped to its first value, `_id` replaced by the parsed ObjectId |
| ProductHandlers.FindProducts | handlers/products.go:46-70 | InvalidHex iff the `_id` does not parse, before the store is queried; otherwise exactly the matching products or a store fault |
| ProductHandlers.ValidateEach | handlers/products.go:103-108 | succeeds iff every product validates; otherwise stops at an invalid product with every earlier product valid, returning its violations |
| ProductHandlers.InsertProducts | handlers/products.go:81-93 | each product is stored under a fresh distinct id, in input order, and the ids are returned; on the first failure no ids come back while the earlier inserts stay; nothing else changes |
| ProductHandlers.CreateProducts | handlers/products.go:96-114 | BindFailed iff the body does not bind, a validation error iff some product is invalid (the first invalid product's violations), and then nothing is inserted; an all-valid body ends in the inserted ids or a store error; only validated products reach the store, so a collection of valid products stays valid |
| ProductHandlers.ModifyProduct | handlers/products.go:116-147 | InvalidHex iff the id does not parse; NoDocuments only for, and barring a store fault always for, an absent id, before the payload is decoded; a validation error only for an invalid merge, and an invalid merge always ends in its violations barring a store fault, before the id check; ImmutableField only when the merge changes the id; a valid merge keeping the id ends in success or a store fault; every failure leaves the store unchanged; on success exactly that document becomes the validated merge, which is returned |
| ProductHandlers.FindProduct | handlers/products.go:158-172 | InvalidHex iff the id does not parse; a stored id gives its product or a store fault; NoDocuments only when absent; the store is only read |
| ProductHandlers.RemoveProduct | handlers/products.go:184-197 | a bad id gives (0, InvalidHex) and no change; a well-formed id gives success or a store fault; on success only that id is deleted and the count is 1 iff it was stored |
| Users.UserViolations | handlers/users.go:20-23 | no violation exactly when the username is a non-empty e-mail address and the password has 8 to 300 characters |
| Users.InsertKeepsUnique | main.go:45-55 | adding a user whose username is not stored keeps usernames unique, and the username is then stored |
| Users.IsCredValid | handlers/users.go:126-131 | with a sound hash, a password checks against the digest made from it |
| Users.TokenClaims | handlers/users.go:141-144 | the claims have exactly the keys "authozied", "username" and "exp"; they read back as the username, an expiry 900 seconds after now, and the flag true |
| Users.CreateToken | handlers/users.go:137-152 | the token is the signature of exactly those claims when signing succeeds; otherwise SigningFailed |
| UserStore.UserCollection.FindOneByUsername | handlers/users.go:39-40 | under the unique index, the one stored user with that username; NoDocuments only when there is none; or a store fault |
| UserStore.UserCollection.InsertOne | main.go:45-55 | the unique index: the insert succeeds only for an unstored username, under a fresh id, and keeps usernames unique |
| UserHandlers.InsertUser | handlers/users.go:37-60 | a lookup fault gives 500, a stored username 400 "User already exists", a hash failure 500 "Unable to process the password", an insert failure 500 "Unable to insert user" (only after hashing succeeded), each only for its cause and without change; on success exactly one record is added, holding the hash, which verifies against the registered password |
| UserHandlers.CreateUser | handlers/users.go:63-79 | BindFailed iff the body does not bind; the validator's error only for an invalid body, before the store is read; "User already exists" only for, and (barring a lookup fault) always for, a stored username; success stores exactly the new user with a hashed password that verifies |
| UserHandlers.AuthenticateUser | handlers/users.go:106-124 | 422 on a lookup fault; 404 only for, and barring a lookup fault always for, an unknown username; 401 only for, and barring a lookup fault always for, a stored user whose password does not verify; success returns the username without a password; the store is only read |
| UserHandlers.AuthUser | handlers/users.go:81-104 | 422 iff the body does not bind, 400 iff it binds but does not validate; 404 only for, and barring a lookup fault always for, an unknown username; 401 only when the stored password does not verify; on success a 200 reply with `x-auth-token` set to "Bearer " and the signed claims, and the user without password |
| UserHandlers.RegisterThenLogin | handlers/users.go:37-124 | after a successful registration, logging in with the same credentials succeeds unless the lookup faults or signing fails, and the token is issued for that username |
| UserHandlers.RegisterTwice | main.go:45-55 | a second registration of the same username is refused and exactly one record holds it |

## Left out

- Routing, the correlation-id middleware and the JWT-validating middleware of `main.go` are not modelled. So the acceptance window of the token's `exp` is not modelled either.
- Reading configuration with cleanenv, and the process exit of `log.Fatalf` in `CreateToken` and at startup, are not modelled. Logging is not modelled.
- bcrypt, the e-mail syntax check and HS256 signing are parameters. Only the soundness of the hash is assumed where a lemma needs it. bcrypt's rejection of passwords over 72 bytes is a hash failure (`hash` returns None).
- JSON and BSON decoding is abstracted as `Option` values: a body that does not decode is None.
  - For a product payload, JSON `null` on a scalar field is absent.
  - Decoding a payload whose later fields are malformed after earlier fields were written is not modelled.
  - Unknown JSON keys are ignored, as the decoder does.
- Filters match by equality on string fields and array membership. MongoDB operator keys (`$where`, `$gt`), dotted paths and numeric or boolean query values are not modelled, because query parameters are always strings.
- The order of `Find` results is the store's and is left open. Cursor decoding errors are folded into the store fault.
- ProductHandlers.InsertProducts: returns the inserted ids rather than the `InsertOneResult` wrappers the source appends. The ids they carry are the same.
- The HTTP wrappers (`GetProducts`, `CreateProducts`, `UpdateProduct`, `GetProduct`, `DeleteProduct`) turn results into status codes and JSON bodies: the products, the inserted ids, the product, and "Delete sucessfully!!". That rendering is not modelled. The JSON printing of ids is modelled only as `Common.Hex`. The rendering of driver errors as 500 is not modelled either.
- ProductHandlers.ModifyProduct: writes the corrected full `$set` document (`Products.SetDocument`), not the omitempty one the source sends. It differs from the source on two inputs. With payload `{"accessories": []}` the source keeps the stored list, while the model clears it. With payload `"_id": "000000000000000000000000"` the source succeeds, because the nil id is left out of `$set`, while the model returns ImmutableField.
- Common.NewObjectId: promises nothing about the generated id. The handlers rely on the store's `_id` index, not on the generator, for uniqueness.
- Concurrency is not modelled: each handler runs alone on the collection.
- Go's `int` width is not modelled: prices, discounts and times are unbounded integers.

## Findings

| source | as written | input that shows it | evidently intended | confidence | as-written member | corrected member |
|---|---|---|---|---|---|---|
| handlers/products.go:142 | `bson.M{"$set": product}` marshals the product through its bson tags, and `accessories` (handlers/products.go:30) and `_id` are `omitempty`, so an empty accessories list is left out of the update | stored product with accessories `["charger"]`, update payload `{"accessories": []}`: the handler returns the product without accessories, the stored document keeps `["charger"]` | the stored document becomes the validated product that is returned | not executed; follows from the omitempty tags | Products.ClearingAccessoriesIsLost | Products.SetDocument |
