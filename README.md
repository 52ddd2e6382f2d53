# Catalog backend: invariant layer

This project models the part of the catalog backend that enforces its rules.
The backend is an Express service over PostgreSQL. It keeps three tables: categories, products
(each optionally filed under a category) and users (accounts with a hashed
password). It serves them through JSON controllers, which answer with a status
code and a body.

The model covers:

- **Category model and controller** (`CategoryStore`, `CategoryApi`):
  - newest-first listing, lookup, create, update and count;
  - a delete that refuses a category still used by a product;
  - a controller delete that refuses to remove the last category and maps the refusal to 400.
- **Product model and controller** (`ProductStore`, `ProductApi`):
  - listing and lookup with the category name from a left join;
  - create and update, whose category id is checked only by the store's foreign key;
  - a delete that refuses to remove the last product;
  - the category dropdown, ordered by title.
- **User model and auth controller** (`UserStore`, `AuthApi`):
  - registration that refuses an email already in use and returns a token and the public profile;
  - login that gives the same 401 for an unknown email and a wrong password;
  - the email-availability check;
  - the profile lookup.
- **Request validation** (`Validation`): the four field rule sets and the handler that stops a request with a 400 listing every field error.

The database is a class, `Db.Database`. Its fields are the three tables as maps
from id to row, one SERIAL counter per table, a clock standing for
`CURRENT_TIMESTAMP` and a flag for whether the store is reachable. Its invariant
`Valid()` covers:
- ids below the serial;
- creation stamps that grow with the id;
- unique emails;
- every stored text within the width of its `VARCHAR` column;
- the products-to-categories foreign key.

The store behaviours the model relies on are stated from the schema in `init-db.js`:
- a SERIAL starts at 1 and draws `INTEGER` values, so it stops at 2147483647 with "reached maximum value of sequence";
- the driver sends every parameter as UTF-8 text, and the server binds them one by one in their order, before any row is read or written:
  - a text holding U+0000 is rejected with "invalid byte sequence for encoding \"UTF8\": 0x00", since U+0000 is the only character whose UTF-8 has a zero byte;
  - `INTEGER` is 32-bit, so an id or category id outside -2147483648..2147483647 is rejected with "out of range for type integer";
- a text assigned to a `VARCHAR(n)` column is stored as is when it has at most `n` characters. It is cut to `n` when only spaces follow, and otherwise rejected with "value too long". The widths are 100 for `nom` and `prenom`, 255 for `email` and for both `title` columns, and 20 for `telephone`;
- columns are assigned in table order, so the first column that rejects its text names the error. The statement is planned with the bound texts in hand, so a too-long text is rejected at plan time: before a serial value is drawn and before any row is matched;
- an insert rejected for a text holding U+0000, an out-of-range integer or a too-long text leaves the serial unchanged; one rejected by the foreign key or the UNIQUE constraint has already drawn, and so consumes, a serial value;
- `ON DELETE SET NULL` applies to products;
- the foreign key is checked only when a row is actually written.

Each model class holds the shared `Database`, as the JavaScript classes hold the pool. Each
controller holds its model. Methods change only the fields they name in `modifies`.

The bcrypt and jsonwebtoken calls are modelled in `Credentials`:
- bcrypt's key is formed as the library forms it: the password's UTF-8 bytes (`Utf8`), then a NUL byte, repeated to fill the 72 bytes its key schedule reads. Comparing a plaintext therefore succeeds exactly when it yields the same key as the hashed password. That means the same password when both are under 72 bytes and contain no NUL, and any password sharing the first 72 bytes when both are longer. The Blowfish digest itself is replaced by a stand-in that is injective in the key;
- a token that records its claims and signing key, and that verifies only under the same key before its seven-day expiry.

`Scenario` replays the seed data (two categories, one product in each, the
admin account) through the delete guards and through registration and login.

Two behaviours of the code worth knowing:
- `deleteCategory` checks that more than one category remains *before* checking whether products use the category. A request to delete a used category while it is the last one therefore gets the "at least 1 category" error.
- `createProduct` and `updateProduct` do no category check of their own. An unknown `category_id` is rejected by the foreign key and answered with a 500, not a 400 or 404.

## Model

| member | source | states |
|---|---|---|
| Utf8.EncodeInjective | models/User.js:13 | two different strings have different UTF-8 encodings, the bytes bcrypt hashes |
| Utf8.EncodeAppend | models/User.js:13 | the UTF-8 of a joined string is the joined UTF-8 of its parts |
| Utf8.NulEncodesToZero | models/Category.js:23-26 | a string holding U+0000 has a zero byte in its UTF-8, where that character sits |
| Utf8.AsciiEncode | models/User.js:13 | a string of characters below U+0080 encodes to one byte per character, its code |
| Credentials.DigestDeterminedByKey | models/User.js:13 | under one salt, two passwords get the same digest exactly when bcrypt derives the same 72-byte key from them |
| Credentials.CheckPasswordExact | models/User.js:40-42 | comparing an attempt against the hash of a password succeeds exactly when the attempt yields the same 72-byte key as the password |
| Credentials.LongPasswordKey | models/User.js:13 | the key of a password of 72 bytes or more is its first 72 bytes |
| Credentials.SharedPrefixAccepted | models/User.js:40-42 | two passwords of 72 bytes or more that share their first 72 bytes accept each other, whatever follows |
| Credentials.ShortPasswordExact | models/User.js:40-42 | for passwords under 72 bytes without NUL characters, comparison succeeds exactly for the hashed password |
| Credentials.AsciiPasswordExact | models/User.js:40-42 | for printable ASCII passwords of at most 71 characters, comparison succeeds exactly for the hashed password |
| Credentials.TokenRoundTrip | models/User.js:44-46 | a token issued for a user verifies to that user id under the same key until seven days after issue, is expired from then on, and fails the signature check under any other key |
| Db.NulFreeWithoutZeroByte | models/Category.js:23-26 | a text parameter's UTF-8 has no zero byte exactly when the text holds no U+0000, so `NulFree` is the server's bind test |
| Db.NulFreeAppend | models/Category.js:23-26 | joining two texts that bind gives a text that binds |
| Db.VarChar | init-db.js:17-20 | a `VARCHAR(n)` column accepts a text exactly when it has at most `n` characters or only spaces follow the `n`-th; the stored text is the text cut to `n` characters, and only spaces are cut |
| Db.CategoryColumns | init-db.js:30 | a category's values are stored exactly when its title fits `VARCHAR(255)`, with the title cut as the column cuts it and the description unchanged; otherwise the error names width 255 |
| Db.ProductColumns | init-db.js:40 | a product's values are stored exactly when its title fits `VARCHAR(255)`, with the title cut as the column cuts it and the description and category id unchanged; otherwise the error names width 255 |
| Db.UserColumns | init-db.js:17-20 | a user's values are stored exactly when nom and prenom fit 100, the email fits 255 and a telephone, if sent, fits 20; the first failing column, in table order, names the width in the error (nom, prenom, email, then telephone); on success nom, prenom, email and a sent telephone are those texts as their columns cut them, and the password is passed through |
| Db.SetNullReferences | init-db.js:42 | deleting a category keeps every product row (same ids) |
| Db.SetNullUnreferenced | init-db.js:42 | the set-null action changes nothing when no product references the category |
| Db.SetNullClearsReferences | init-db.js:42 | after the set-null action no product references the deleted category, and every other product row is kept |
| Http.ContainsAt | controllers/categoryController.js:98 | a string contains every substring found at any position (`includes`) |
| Http.ShorterDoesNotContain | controllers/categoryController.js:98 | a string shorter than the marker never contains it |
| Http.MissingCharDoesNotContain | controllers/categoryController.js:98 | a string lacking one of the marker's characters does not contain the marker |
| Db.OutOfRangeMessageAscii | controllers/categoryController.js:98-102 | the out-of-range message for any id is plain ASCII, so it lacks the marker's `é` |
| Http.ContainsSuffix | controllers/categoryController.js:98 | a message that ends with the marker contains it |
| Queries.IdsDescending | models/Category.js:6-11 | the scan lists exactly the table ids in 1..hi, strictly decreasing |
| Queries.ListingCovers | models/Category.js:6-11 | scanning all ids yields as many rows as the table has, and a row is listed exactly when it is in the table |
| Queries.TitleLeTotal | backend/models/Product.js:57-62 | any two titles are comparable under the title order |
| Queries.TitleLeTransitive | backend/models/Product.js:57-62 | the title order is transitive |
| Queries.SortedByTitleAll | backend/models/Product.js:57-62 | a list sorted pair by pair is ordered for every two positions |
| Queries.InsertByTitle | backend/models/Product.js:57-62 | inserting into a title-sorted list keeps it sorted and adds exactly the new element |
| Queries.SortByTitle | backend/models/Product.js:57-62 | `ORDER BY title` gives a title-sorted permutation of its input |
| CategoryStore.ReferenceCount | models/Category.js:41-46 | the count of products using a category is positive exactly when some product references it |
| CategoryStore.CategoryModel.FindAll | models/Category.js:6-11 | lists every category exactly once, strictly newest first; fails when the store is down |
| CategoryStore.CategoryModel.FindById | models/Category.js:13-19 | the row with that id, or none when there is no such row; an id outside `INTEGER` fails with the out-of-range error |
| CategoryStore.CategoryModel.Create | models/Category.js:21-28 | a title or description holding U+0000 is rejected, then a title too long for `VARCHAR(255)`, then an insert once the sequence is past 2147483647, all with the table and the serial unchanged; otherwise inserts a row with the next serial id, the stored title and description and the current stamp, returns it, and keeps the table invariant |
| CategoryStore.CategoryModel.Update | models/Category.js:30-37 | a title or description holding U+0000 is rejected, then an id outside `INTEGER`, then a title too long for its column, all with no change; then nothing for an unknown id; otherwise replaces title and description of the row with the stored values (id and stamp kept) and returns it |
| CategoryStore.CategoryModel.Delete | models/Category.js:39-55 | an id outside `INTEGER` fails the first query and changes nothing; throws the in-use error and changes nothing when a product references the category; nothing for an unknown id; otherwise removes the row, returns it, and leaves products untouched |
| CategoryStore.CategoryModel.Count | models/Category.js:57-60 | the number of categories |
| CategoryApi.InUseErrorMarked | controllers/categoryController.js:98-100 | the model's in-use error message contains the marker the delete handler looks for, so it is answered with a 400 |
| CategoryApi.StoreFailureUnmarked | controllers/categoryController.js:98-102 | neither the unreachable-store message nor the out-of-range message for any id contains the marker, so both are answered with a 500 |
| CategoryApi.CategoryController.GetAllCategories | controllers/categoryController.js:6-17 | 200 with every category once, newest first; 500 when the store fails |
| CategoryApi.CategoryController.GetCategory | controllers/categoryController.js:19-36 | 200 with the row, 404 for an unknown id, 500 for an id outside `INTEGER` or when the store fails |
| CategoryApi.CategoryController.CreateCategory | controllers/categoryController.js:38-50 | 201 with the inserted row, which is added under the next serial id with the stored title; 500 with the table and serial unchanged when a text holds U+0000, the title is too long for its column or the sequence is exhausted; 500 when the store fails |
| CategoryApi.CategoryController.UpdateCategory | controllers/categoryController.js:52-70 | 500 and no change for a text holding U+0000, an id outside `INTEGER`, a title too long for its column, or a store failure; otherwise 404 and no change for an unknown id, and 200 with the updated row holding the stored title |
| CategoryApi.CategoryController.DeleteCategory | controllers/categoryController.js:72-104 | 400 with the last-category error when at most one category remains, 400 with the in-use error when a product uses it, 500 for an id outside `INTEGER`, 404 for an unknown id, otherwise 200 and the row is removed; the table changes exactly on 200, and at least one category remains |
| CategoryApi.CategoryController.GetCategoriesCount | controllers/categoryController.js:106-114 | 200 with the number of categories; 500 when the store fails |
| ProductStore.JoinedIsLeftJoin | backend/models/Product.js:7-12 | a joined product carries a category name exactly when some category row has its category id, and then it is that row's title |
| ProductStore.JoinedNameUnderForeignKey | backend/models/Product.js:7-12 | while the foreign key holds, a product has a category name exactly when it has a category id |
| ProductStore.JoinAll | backend/models/Product.js:7-12 | joining a list gives one view per row, in the same order, each carrying its row |
| ProductStore.JoinAllLeftJoined | backend/models/Product.js:7-12 | every view of a joined listing is the left join of its product |
| ProductStore.ProductListing | backend/models/Product.js:6-14 | the joined listing has one view per product, and a product appears in it exactly when it is in the table |
| ProductStore.ListedProduct | backend/models/Product.js:6-14 | a given product appears in the joined listing exactly when it is a row of the table |
| ProductStore.ProductsNewestFirst | backend/models/Product.js:6-14 | the listed rows are in strictly decreasing creation order |
| ProductStore.JoinedNewestFirst | backend/models/Product.js:6-14 | the joined listing is in strictly decreasing creation order |
| ProductStore.CategoryListedAsOption | backend/models/Product.js:57-62 | every category row is listed as its (id, title) pair |
| ProductStore.OptionNamesCategory | backend/models/Product.js:57-62 | every listed pair is the id and title of a category row |
| ProductStore.OptionsCover | backend/models/Product.js:57-62 | one pair per category, and a pair is listed exactly when it matches a category row |
| ProductStore.DropdownOptions | backend/models/Product.js:57-62 | after ordering by title the pairs are sorted, one per category, and still exactly the pairs of the category rows |
| ProductStore.ProductModel.FindAll | backend/models/Product.js:6-14 | every product once, newest first, each with its left-joined category name |
| ProductStore.ProductModel.FindById | backend/models/Product.js:16-24 | the product with its left-joined category name, or none for an unknown id; an id outside `INTEGER` fails with the out-of-range error |
| ProductStore.ProductModel.Create | backend/models/Product.js:26-33 | a title or description holding U+0000 is rejected, then a category id outside `INTEGER`, then a title too long for `VARCHAR(255)`, then an exhausted sequence, all with the table and serial unchanged; then a dangling category id is rejected by the foreign key with the serial consumed and the table unchanged; otherwise the row is inserted with the next serial id and the stored values |
| ProductStore.ProductModel.Update | backend/models/Product.js:35-42 | a title or description holding U+0000, then a category id outside `INTEGER`, then an id outside it, then a too-long title are rejected with no change; then nothing for an unknown id; on an existing row a dangling category is rejected by the foreign key with no change; otherwise the row's fields are replaced by the stored values, keeping id and stamp |
| ProductStore.ProductModel.Delete | backend/models/Product.js:44-50 | an id outside `INTEGER` fails with no change; removes and returns the row, or nothing for an unknown id |
| ProductStore.ProductModel.Count | backend/models/Product.js:52-55 | the number of products |
| ProductStore.ProductModel.GetCategoriesForDropdown | backend/models/Product.js:57-62 | one (id, title) pair per category, sorted by title, and a pair is listed exactly when it matches a category |
| ProductApi.ProductController.GetAllProducts | backend/controllers/productController.js:6-17 | 200 with every product once, newest first, left-joined, and a product is listed exactly when it is a row of the table; 500 when the store fails |
| ProductApi.ProductController.GetProduct | backend/controllers/productController.js:19-36 | 200 with the joined product, 404 for an unknown id, 500 for an id outside `INTEGER` or when the store fails |
| ProductApi.ProductController.CreateProduct | backend/controllers/productController.js:38-50 | 201 with the inserted row holding the stored values; 500 with the table and serial unchanged for a text holding U+0000, a category id outside `INTEGER`, a too-long title or an exhausted sequence; 500 with the serial consumed and no row added for a dangling category id; 500 when the store fails |
| ProductApi.ProductController.UpdateProduct | backend/controllers/productController.js:52-70 | 500 and no change for a text holding U+0000, a category id or id outside `INTEGER`, or a too-long title; then 404 for an unknown id; 500 and no change for a dangling category id on an existing row; otherwise 200 with the updated row holding the stored values |
| ProductApi.ProductController.DeleteProduct | backend/controllers/productController.js:72-99 | 400 when at most one product remains, 500 for an id outside `INTEGER`, 404 for an unknown id, otherwise 200 and the row is removed; the table changes exactly on 200, and at least one product remains |
| ProductApi.ProductController.GetProductsCount | backend/controllers/productController.js:101-109 | 200 with the number of products; 500 when the store fails |
| ProductApi.ProductController.GetCategoriesForDropdown | backend/controllers/productController.js:111-122 | 200 with the title-sorted (id, title) pairs of all categories; 500 when the store fails |
| UserStore.EmailCount | models/User.js:48-54 | the count of users with an email is positive exactly when the email is taken |
| UserStore.UserModel.Create | models/User.js:9-22 | nom, prenom, email or a sent telephone holding U+0000 is rejected; then a text too long for its column, with the first failing column's width; then an insert once the sequence is past 2147483647; all three with the table and serial unchanged; then a taken stored email violates UNIQUE with the serial consumed and the table unchanged; otherwise the user is stored with the stored texts and the hash of the password under the given salt, and the public row is returned; afterwards the stored email is taken |
| UserStore.UserModel.FindByEmail | models/User.js:24-30 | the full row with that email, or none when no user has it; an email holding U+0000 fails |
| UserStore.UserModel.FindById | models/User.js:32-38 | the public profile (no password) of the user, or none; an id outside `INTEGER` fails with the out-of-range error |
| UserStore.UserModel.EmailExists | models/User.js:48-54 | true exactly when some user has the email; an email holding U+0000 fails |
| AuthApi.AuthController.Register | controllers/authController.js:6-44 | 500 and no change when the email holds U+0000; 400 and no change when the email is taken; 500 with the table and serial unchanged when another text holds U+0000, a text is too long for its column or the sequence is exhausted; 500 with the serial consumed and no user added when the stored form of the email is taken; otherwise 201 with a token for the new id and the public profile, and the user is stored with the stored texts; 500 when the store fails |
| AuthApi.AuthController.Login | controllers/authController.js:46-81 | 500 when the email holds U+0000 or the store fails; 401 with one message whenever no user has that email and password; otherwise 200 with a token for the matching user and their public profile |
| AuthApi.AuthController.CheckEmail | controllers/authController.js:83-92 | 200 with whether the email is taken; 500 when the email holds U+0000 or the store fails |
| AuthApi.AuthController.GetProfile | controllers/authController.js:94-105 | 200 with the public profile, 404 for an unknown user id, 500 for an id outside `INTEGER` or when the store fails |
| Validation.MeasuredLength | backend/middleware/validation.js:8-9 | the length `isLength` measures is at most the number of characters, equals it when there is no variation selector, and is 0 for a text of selectors only |
| Validation.MeasuredLengthAppend | backend/middleware/validation.js:8-9 | the measured length of a joined text is the sum of the parts' measured lengths |
| Validation.RegisterErrors | backend/middleware/validation.js:4-10 | no error exactly when nom and prenom are non-empty, the email is valid, the password measures at least 6 and the telephone is absent or measures at least 8, measured as `isLength` does; each rule's error appears exactly when that rule fails |
| Validation.LoginErrors | backend/middleware/validation.js:13-16 | no error exactly when the email is valid and the password is non-empty; each rule's error appears exactly when that rule fails |
| Validation.CategoryErrors | backend/middleware/validation.js:19-22 | no error exactly when title and description are non-empty; each rule's error appears exactly when that rule fails |
| Validation.ProductErrors | backend/middleware/validation.js:25-29 | no error exactly when title and description are non-empty and category_id is absent or an integer; each rule's error appears exactly when that rule fails |
| Validation.HandleValidationErrors | backend/middleware/validation.js:32-41 | the request goes on exactly when there are no errors; otherwise 400 "Données invalides" with every error |
| Validation.EmptyTitleHalts | backend/middleware/validation.js:19-41 | a category body with an empty title is stopped with the title error |
| Scenario.SeedCategories | init-db.js:60-67 | the seed leaves categories 1 and 2 and no product, with the product sequence at 1 |
| Scenario.Seed | init-db.js:60-78 | the seed leaves categories 1 and 2, and products 1 and 2 filed under them |
| Scenario.ReleaseCategory | controllers/categoryController.js:72-104 | on the seed, deleting category 1 gives 400 in use and changes nothing; deleting product 1 then succeeds, leaving only product 2 |
| Scenario.DeleteGuardsOnSeed | controllers/categoryController.js:72-104 | on the seed: deleting category 1 gives 400 in use; deleting product 1 succeeds; deleting category 1 then succeeds, leaving one category; deleting category 2 then gives 400 last category |
| Scenario.WrongPasswordRejected | init-db.js:52 | the seeded admin credential refuses the password "password" |
| Scenario.RegistrationAndLogin | controllers/authController.js:6-81 | a second registration with the same email gives 400; an unknown email and a wrong password both give the same 401; the right password gives 200 with a token for user 1 |

## Left out

- Express wiring is not modelled: routes, CORS, body parsing and the server. Controllers take the already-validated, typed request data.
- The middleware that decodes a bearer token is not modelled. `GetProfile` takes the user id such a token resolved to. Token verification is stated only in `Credentials.VerifyToken`.
- Concurrency is left out. Two registrations racing past the email check would meet the UNIQUE constraint; the model runs requests one at a time.
- Real timestamps are not modelled. `created_at` is a logical clock that grows with every insert, so "newest first" is the same as descending id.
- PostgreSQL collation is not modelled: `ORDER BY title` uses code-point lexicographic order.
- JSON `null`, numbers and other non-string body values are not modelled. Validation bodies are maps from field name to text, and an absent field reads as the empty string.
- A non-numeric `:id` path parameter is not modelled; ids are integers here. An integer outside `INTEGER` is modelled, as the out-of-range failure of the first query that binds it. In the source such an id reaches the store only in some handlers, where the store rejects it. The delete handlers first check the row count and answer 400 when at most one row remains. An invalid update body is stopped with 400 by validation first. `deleteCategory` answers 400 when the id's text contains the in-use marker, because the store's syntax error quotes the id. Otherwise the answer is 500.
- NOT NULL on title, description, nom, prenom and password is not modelled. Controllers receive typed values, and validation guards emptiness. The column widths are modelled, except the `password` column's `VARCHAR(255)`: a bcrypt hash string is 60 characters long and always fits.
- Besides the statement errors listed above, the connection is modelled only as reachable or not for a whole request. A connection lost partway through a request is not modelled, and neither is a later query failing after an earlier one of the same request succeeded (the count-then-delete handlers, registration's check-then-insert).
- Credentials.Hash: the key derivation is modelled, but the Blowfish digest of the key is a stand-in that is injective in the key and not one-way; bcrypt's cost and random salt are parameters, not computations.
- Credentials.GenerateToken: a token is a record of claims and key, not a signed string. HMAC signing and base64 encoding are not modelled.
- Validation.RegisterErrors: `isEmail` is passed in as a predicate. The email grammar is not modelled. `isLength` counts UTF-16 units less surrogate pairs and variation selectors; the model counts characters less variation selectors, which agrees except on a lone surrogate, which a Dafny string cannot hold.
- The count replies `{count}`, the `{exists}` reply and the `{user}`/`{token, user}` replies are all represented as a data body. The exact JSON envelope, including `success: true`, is not modelled.
- Logging with `console.error` is left out.
