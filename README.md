# AlquimiaTechnologic store: a verified model of its core logic

AlquimiaTechnologic is an Express and MySQL web shop. It has a public catalogue, a JSON API,
an administration back office and two browser scripts. This project models the deterministic
logic under its route handlers and proves properties of it:

- **Login throttle and access gates** (`AuthMiddleware`, middleware/auth.js):
  - the per-IP attempt table and its 15-minute window;
  - the brute-force gate, the Bearer-token gate and the role gates;
  - password strength, e-mail shape and input sanitising;
  - the per-resource access rule.
- **Query helpers** (`Database`, config/database.js):
  - row picking (`getOne`) and quote escaping;
  - the WHERE, ORDER BY and LIMIT builders;
  - multi-column LIKE search and the pagination arithmetic.
- **Administration routes** (`AdminRoutes`, routes/admin.js):
  - slug derivation and the free-slug loop;
  - the dynamic `UPDATE … SET` builder;
  - product, category and order handlers over an in-memory database;
  - the upload filter;
  - the list filters, whose count query mirrors the data query.
- **API routes** (`ApiRoutes`, routes/api.js):
  - the sort whitelist, the product list filters and the search rules;
  - duplicate-slug rejection and the newsletter checks;
  - `/config` value typing.
- **Public pages** (`PublicRoutes`, routes/public.js):
  - the settings map and the title fallback;
  - the catalogue, category, product and search pages, with their 404 and redirect rules.
- **Authentication routes** (`AuthRoutes`, routes/auth.js):
  - the login decision chain and its attempt counting;
  - change-password, create-admin and delete-admin;
  - forgot-password's uniform reply and the reset-token lifecycle.
- **Storefront script** (`Cart`, public/js/main.js):
  - the cart as an object whose lines are changed in place, with the unit count badge;
  - category icons and the search and newsletter send guards.
- **Login page script** (`AdminLogin`, public/js/admin-login.js):
  - field validation;
  - the re-entry guard around the login request and the handling of its outcome;
  - the password toggle and the submit cooldown.

Shared definitions:

- `Js` holds the JavaScript semantics the model relies on: `trim` with ECMAScript white space, ASCII case mapping, `includes`, `join`, and integer printing and parsing.
- `Tables` holds the table rows and a `Db` class whose fields are the tables the handlers touch.

The database is a set of in-memory fields:

- `products`, `categories`, `orders`: maps keyed by id;
- `images`, `admins`, `resetTokens`: sequences in insertion order;
- `subscribers`: a set.

Statements that only read are modelled as the SQL text and the parameter list they bind; that text is kept with its white space run together on one line. Writes are applied to the in-memory tables: inserts and deletes as row changes, and each dynamic `UPDATE … SET` by applying its assignments left to right to the row (`ApplyProduct`, `ApplyCategory`). Lengths that JavaScript reads with `.length` are counted in UTF-16 code units (`JsLength`): a character outside the Basic Multilingual Plane counts twice. Handlers that answer from a validation chain use one idiom:

- the checks are a list of `Check(pass, answer)`;
- the handler's answer is `FirstFailure(checks, success)`;
- the `FirstFailure*` lemmas say which answer comes first.

## Model

| member | source | states |
|---|---|---|
| Js.Trim | public/js/admin-login.js:190 | `trim` leaves no white space at either end, keeps only characters of the input and leaves an already trimmed string unchanged |
| Js.JsLength | middleware/auth.js:191 | `.length` counts UTF-16 code units: between one and two per character, and exactly one per character when every character is in the Basic Multilingual Plane |
| Js.JsLengthConcat | routes/api.js:556 | the length of a concatenation is the sum of the lengths |
| Js.AstralLength | middleware/auth.js:191 | a string of characters outside the Basic Multilingual Plane has twice as many code units as characters |
| Js.IntToStringRoundTrip | routes/admin.js:330-333 | the decimal text a template literal prints for an integer reads back to that integer, so `${base}-${counter}` differs for each counter |
| Js.IntToStringInjective | routes/admin.js:330-333 | two integers with the same printed text are equal |
| Js.CountCharJoin | config/database.js:276 | a joined list holds as many copies of a character as its parts, when the separator has none |
| AuthMiddleware.Checked | middleware/auth.js:243-255 | `checkLoginAttempts`: an unseen IP reads as `{0, now}`; an entry older than 15 minutes reads as reset to `{0, now}`; otherwise the stored entry; the result is always within the window |
| AuthMiddleware.AfterCheck | middleware/auth.js:243-255 | checking resets an expired entry in place and stores nothing for an unseen IP; every other entry is untouched |
| AuthMiddleware.AfterIncrement | middleware/auth.js:257-260 | the checked entry of that IP is stored with its count one higher; other IPs are untouched |
| AuthMiddleware.Blocked | middleware/auth.js:268-271 | an IP is blocked exactly when it has an in-window entry with count at least 5 |
| AuthMiddleware.IncrementsAccumulate | middleware/auth.js:257-260 | a run of increments inside the window adds exactly one per call and keeps `firstAttempt` |
| AuthMiddleware.BlockedAfterFiveFailures | middleware/auth.js:257-271 | five failures inside 15 minutes block the IP for the rest of the window |
| AuthMiddleware.NotBlockedAfterFourFailures | middleware/auth.js:257-271 | four failures never block |
| AuthMiddleware.UnblockedAfterWindow | middleware/auth.js:249-252 | once 15 minutes have passed since the first attempt, the IP is not blocked and reads as a fresh entry |
| AuthMiddleware.LoginThrottle.constructor | middleware/auth.js:241 | the attempt table starts empty |
| AuthMiddleware.LoginThrottle.CheckLoginAttempts | middleware/auth.js:243-255 | returns the checked entry and leaves the table as `AfterCheck` |
| AuthMiddleware.LoginThrottle.IncrementLoginAttempts | middleware/auth.js:257-260 | the table becomes `AfterIncrement` of the old table |
| AuthMiddleware.LoginThrottle.IsLoginBlocked | middleware/auth.js:268-271 | answers `Blocked` of the old table and resets an expired entry |
| AuthMiddleware.LoginThrottle.Expire | middleware/auth.js:262-265 | the timer's deletion removes only that IP |
| AuthMiddleware.LoginThrottle.BruteForceProtection | middleware/auth.js:280-291 | 429 with the retry message exactly when blocked, otherwise passes on |
| AuthMiddleware.CheckIsStable | middleware/auth.js:243-255 | checking twice reads the same entry and the same blocked verdict as checking once |
| AuthMiddleware.BearerToken | middleware/auth.js:16-23 | a token exists exactly when the header starts with `Bearer `, and the header is that prefix followed by the token |
| AuthMiddleware.BearerTokenOfHeader | middleware/auth.js:23 | removing the first seven characters of `Bearer <t>` gives back `t` |
| AuthMiddleware.ActiveAdminTokenAccepted | middleware/auth.js:16-58 | `Bearer <t>` with a token that decodes to the id of an active admin, whose id no other row shares, is let through carrying exactly that admin's user |
| AuthMiddleware.VerifyToken | middleware/auth.js:12-81 | no Bearer header: 401 `Token de acceso requerido`; an empty token: 401 `Token inválido`; otherwise an expired token 401 `Token expirado`, a malformed one 401 `Token inválido`, any other failure 500, and a decoded id with no active admin 401; a request is authenticated exactly when a non-empty token decodes to an active admin's id, and then carries that admin's user |
| AuthMiddleware.RequireRole | middleware/auth.js:86-104 | 401 without a user, 403 for a role outside the list, and passes exactly when the user's role is listed |
| AuthMiddleware.RequireAdmin | middleware/auth.js:116-118 | admits exactly `admin` and `super_admin` |
| AuthMiddleware.RequireSuperAdmin | middleware/auth.js:109-111 | admits only `super_admin` |
| AuthMiddleware.CanAccessResource | middleware/auth.js:348-362 | false without a user, true for `super_admin` and `admin`, and otherwise true exactly when the user owns the resource |
| AuthMiddleware.ValidatePasswordStrength | middleware/auth.js:188-215 | `isValid` exactly when the error list is empty; the errors are the failing rules' messages in the order length (at least 8 UTF-16 code units), upper case, lower case, digit, special |
| AuthMiddleware.AstralPasswordMeetsLength | middleware/auth.js:191 | four characters outside the Basic Multilingual Plane already meet the 8-unit minimum |
| AuthMiddleware.PasswordValidIffAllChecks | middleware/auth.js:188-215 | a password is valid exactly when it passes all five rules |
| AuthMiddleware.PasswordErrorsOncePerFailure | middleware/auth.js:188-215 | each failing rule contributes its message exactly once and a passing rule never does |
| AuthMiddleware.RuleMessageInjective | middleware/auth.js:191-209 | the five messages are pairwise different |
| AuthMiddleware.EmailFromParts | middleware/auth.js:220-223 | any three non-empty parts without white space or `@` joined as `a@b.c` pass the e-mail check |
| AuthMiddleware.EmailSplit | middleware/auth.js:220-223 | every address that passes splits into such three parts |
| AuthMiddleware.ValidEmailOneAtSign | middleware/auth.js:220-223 | an address that passes has exactly one `@` |
| AuthMiddleware.ValidEmailNoSpace | middleware/auth.js:220-223 | an address that passes has no white space |
| AuthMiddleware.StripAngles | middleware/auth.js:233 | removes exactly the `<` and `>` characters |
| AuthMiddleware.StripJavascript | middleware/auth.js:234 | removing `javascript:` never lengthens the text or adds a character |
| AuthMiddleware.StripHandlers | middleware/auth.js:235 | removing `on<word>=` never lengthens the text or adds a character |
| AuthMiddleware.SanitizeString | middleware/auth.js:231-235 | the result is no longer than the input, holds no `<` or `>`, and holds only characters of the input |
| AuthMiddleware.SanitizeInput | middleware/auth.js:228-236 | non-strings are returned unchanged; strings come back without angle brackets |
| AuthMiddleware.SanitizeClean | middleware/auth.js:228-236 | a trimmed string with no brackets, no `javascript:` and no `on<word>=` is left unchanged |
| AuthMiddleware.SanitizeDropsScheme | middleware/auth.js:234 | `javascript:` in any letter case is removed entirely |
| AuthMiddleware.StripJavascriptDrop | middleware/auth.js:234 | an occurrence of the scheme is skipped and the rest is processed |
| AuthMiddleware.SanitizeData | middleware/auth.js:322-332 | every body field is replaced by its sanitised value and no field is added or lost |
| Database.Select | config/database.js:142-150 | the rows a filter keeps, in table order: exactly the rows that pass |
| Database.GetOne | config/database.js:142-150 | null exactly for an empty result, otherwise a row of the result |
| Database.GetOneSelectIsFirstMatch | config/database.js:142-150 | `getOne` over a filtered table returns the first row that passes |
| Database.LastByKey | routes/public.js:38-41 | an object filled row by row has exactly the keys of the rows |
| Database.LastByKeyIsLast | routes/public.js:38-41 | each key holds the value of the last row naming it |
| Database.DoubleQuotes | config/database.js:249-254 | doubling quotes lengthens the text by exactly its number of quotes |
| Database.Escape | config/database.js:249-254 | non-strings are returned unchanged; an escaped string reads back to the original as the contents of a quoted SQL literal |
| Database.DoubleQuotesRoundTrip | config/database.js:251 | no input can close the literal: the escaped text always reads back to the input |
| Database.Kept | config/database.js:267-272 | keeps exactly the conditions whose value is neither undefined nor null, in key order |
| Database.BuildWhereClause | config/database.js:259-280 | empty or missing conditions give empty SQL and parameters; otherwise `WHERE k = ? AND …` over the kept conditions, and `params[i]` is the i-th kept value |
| Database.WherePlaceholdersMatchParams | config/database.js:259-280 | with column names free of `?`, the WHERE text has one placeholder per parameter |
| Database.OrderTerms | config/database.js:289-294 | the terms are empty exactly when no entry names `ASC` or `DESC` in any letter case |
| Database.OrderTermsWellFormed | config/database.js:289-294 | every term is a key followed by an upper-case valid direction |
| Database.BuildOrderClause | config/database.js:283-297 | empty for no entries or no valid direction, otherwise `ORDER BY` followed by the valid terms in key order |
| Database.BuildLimitClause | config/database.js:303-314 | empty exactly for a zero limit; otherwise `LIMIT n`, with ` OFFSET m` only when the offset is positive |
| Database.SearchInColumns | config/database.js:353-365 | nothing for an empty term or no columns; otherwise `(c1 LIKE ? OR …)` and one `%term%` per column |
| Database.SearchPlaceholdersMatchParams | config/database.js:353-365 | the search text has one placeholder per parameter |
| Database.PageCountOf | config/database.js:333 | `Math.ceil(total / limit)`: the least page count that holds every row for a positive limit; Infinity or NaN for a zero limit |
| Database.Paginate | config/database.js:319-346 | the reported `hasPrev` is `page > 1` and `hasNext` is "the page ends before the last row" |
| Database.HasNextIffBeforeLastPage | config/database.js:334 | for a positive limit, there is a next page exactly when the page is before the page count |
| Database.PageRows | config/database.js:321-325 | a page shows at most `limit` rows |
| Database.PageEmptyIffBeyondLast | config/database.js:321-333 | a page is empty exactly when it lies beyond the page count |
| AdminRoutes.DropNonSlug | routes/admin.js:324 | drops only a leading run of characters outside `[a-z0-9]` |
| AdminRoutes.CollapseRuns | routes/admin.js:324 | each run of characters outside `[a-z0-9]` becomes a single dash; only slug characters and dashes remain |
| AdminRoutes.CollapseRunsNoDoubleDash | routes/admin.js:324 | collapsing never leaves two dashes in a row |
| AdminRoutes.SlugifyWellFormed | routes/admin.js:323-325 | every derived slug has only `[a-z0-9-]`, no dash at either end and no double dash |
| AdminRoutes.SlugifyKeepsWellFormed | routes/admin.js:323-325 | a well-formed slug is its own slug |
| AdminRoutes.SlugifyIdempotent | routes/admin.js:323-325 | deriving a slug twice gives the same slug as deriving it once |
| AdminRoutes.SlugifyKeepsAlnums | routes/admin.js:323-325 | a slug keeps every lower-cased ASCII letter and digit of the name, in order |
| AdminRoutes.CandidateInjective | routes/admin.js:328-333 | the loop never tries the same candidate twice |
| AdminRoutes.CandidatesBelowSize | routes/admin.js:328-333 | the first k candidates are k different slugs, so the loop ends once it has tried more than the number of taken slugs |
| AdminRoutes.UniqueSlug | routes/admin.js:328-333 | the loop returns the first candidate (`base`, `base-1`, `base-2`, …) that is not taken |
| AdminRoutes.FirstFreeUnique | routes/admin.js:328-333 | there is only one first free candidate |
| AdminRoutes.FreeBaseIsKept | routes/admin.js:330 | an unused base slug is kept as it is |
| AdminRoutes.SecondGetsSuffixOne | routes/admin.js:331 | the second row with the same name gets the base slug followed by `-1` |
| AdminRoutes.AssignedMembers | routes/admin.js:399-404 | the builder keeps exactly the body entries whose key is neither `id` nor the skipped key |
| AdminRoutes.BuildUpdate | routes/admin.js:395-409 | no statement when nothing is assigned; otherwise `UPDATE t SET k = ?, … WHERE id = ?` with the assigned values then the id |
| AdminRoutes.UpdatePlaceholdersMatchValues | routes/admin.js:406-409 | with keys and table name free of `?`, the UPDATE has one placeholder per bound value |
| AdminRoutes.UploadedRows | routes/admin.js:350-358 | one image row per file, file i with sort order i, only file 0 possibly primary |
| AdminRoutes.InsertImagesAsWritten | routes/admin.js:412-424 | the image loop as written appends the rows with file 0 always primary |
| AdminRoutes.AsWrittenDuplicatesPrimary | routes/admin.js:412-424 | uploading to a product that already has a primary image, as written, gives it two primaries |
| AdminRoutes.InsertImages | routes/admin.js:412-424 | the corrected loop appends the rows and makes file 0 primary only when the product has no primary image |
| AdminRoutes.InsertKeepsPrimaryUnique | routes/admin.js:350-358 | the corrected loop keeps at most one primary image per product |
| AdminRoutes.SqlText | routes/admin.js:410 | a string is stored as itself and a number as its decimal text; other values are not converted |
| AdminRoutes.SqlInt | routes/admin.js:410 | a number is stored as itself, a boolean as 1 or 0, a string as the integer it spells |
| AdminRoutes.SetProductColumn | routes/admin.js:402-410 | one `key = ?` assignment changes at most the named column and never the id |
| AdminRoutes.ApplyProduct | routes/admin.js:402-410 | the UPDATE keeps the id, and every column that no assignment names keeps its value |
| AdminRoutes.LastActiveAssignmentWins | routes/admin.js:402-410 | the last `is_active` assignment decides whether the product is active |
| AdminRoutes.UpdateWithoutSlugKeepsSlugsDistinct | routes/admin.js:402-410 | an update that assigns no `slug` keeps product slugs distinct |
| AdminRoutes.AddProductKeepsSlugsDistinct | routes/admin.js:328-347 | a product whose slug came out of the free-slug loop keeps product slugs distinct |
| AdminRoutes.CreateProduct | routes/admin.js:295-382 | 400 without name or price and nothing changes; otherwise 201, the product gets the first free slug of its name and its files become its images, the first one primary |
| AdminRoutes.UpdateProduct | routes/admin.js:384-446 | 404 for an unknown product; otherwise the statement assigns every body field but `id` and `images`, the row becomes `ApplyProduct` of those assignments, and the files are appended by the image loop as written, file 0 primary (routes/api.js:317-379 is the same code) |
| AdminRoutes.DeleteProduct | routes/admin.js:449-495 | 404 for an unknown product; otherwise the product and all of its image rows go (the API's `DELETE /products/:id` at routes/api.js:381-425 is the same code) |
| AdminRoutes.DeleteProductKeepsImagesListed | routes/admin.js:470-471 | deleting the images with the product leaves every image row attached to a listed product and keeps primaries unique |
| AdminRoutes.CreateCategory | routes/admin.js:526-577 | 400 without a name; otherwise 201 and the category gets the first free slug and the uploaded image |
| AdminRoutes.UpdateCategory | routes/admin.js:580-644 | 404 for an unknown category and nothing changes; otherwise the statement assigns every body field but `id` and `image`, then `image = ?` when a file came, and the row becomes `ApplyCategory` of those assignments |
| AdminRoutes.SetCategoryColumn | routes/admin.js:596-622 | one `key = ?` assignment changes at most the named column and never the id |
| AdminRoutes.ApplyCategory | routes/admin.js:596-622 | the UPDATE keeps the id, and every column that no assignment names keeps its value |
| AdminRoutes.UploadedCategoryImageWins | routes/admin.js:596-612 | with an upload, the category's image is the uploaded file whatever the body says |
| AdminRoutes.CategoryImageKeptWithoutUpload | routes/admin.js:596-604 | without an upload, the category's image is kept, even when the body names `image` |
| AdminRoutes.DeleteCategory | routes/admin.js:647-700 | 404 for an unknown category, 400 while any product is filed under it, otherwise the category is removed |
| AdminRoutes.DeleteCategoryGuard | routes/admin.js:659-665 | the guard is exactly what keeps every product's category resolvable |
| AdminRoutes.UpdateOrderStatus | routes/admin.js:832-880 | an unknown status is refused with 400 before the order is looked up; 404 for an unknown order; otherwise only that order's status changes |
| AdminRoutes.SetStatusKeepsValid | routes/admin.js:837-845 | updates that pass the check keep every stored status among the six |
| AdminRoutes.LastSegment | routes/admin.js:37 | what follows the last `/` of a path |
| AdminRoutes.LastDot | routes/admin.js:37 | the position of the last dot, with no dot after it |
| AdminRoutes.ExtNameOfFileName | routes/admin.js:37 | the extension of `stem.ext` is `.ext` |
| AdminRoutes.FileFilter | routes/admin.js:35-45 | a file is accepted exactly when both its lower-cased extension and its mimetype name an image type; otherwise it is refused with the images-only message |
| AdminRoutes.FileFilterAcceptsImages | routes/admin.js:35-45 | `photo.PNG` sent as `image/png`, and any such pair, is accepted |
| AdminRoutes.FileFilterNeedsExtension | routes/admin.js:35-45 | a name without a dot has no extension and is refused |
| AdminRoutes.AndIfUnderHead | routes/admin.js:174-192 | appending a filter commutes with the text in front of the query |
| AdminRoutes.SearchValues | routes/admin.js:180-182 | one `%term%` per searched column, none without a term |
| AdminRoutes.ProductsFiltered | routes/admin.js:174-192 | the product filters bind one value for a category and three for a search |
| AdminRoutes.ProductsFilterMirrored | routes/admin.js:174-227 | the count query receives the same filter text and values as the data query |
| AdminRoutes.AdminProductsQueries | routes/admin.js:155-250 | the data query is the filtered select plus order and page, with the limit and offset last; the count query is the filtered count with the same values |
| AdminRoutes.ProductsFilterTextIgnoresValues | routes/admin.js:174-192 | the filter text depends on which filters are present, never on their values |
| AdminRoutes.OrdersFiltered | routes/admin.js:724-733 | the order filters bind one value for a status and four for a search |
| AdminRoutes.OrdersFilterMirrored | routes/admin.js:724-763 | the order count query mirrors the data query's filters |
| AdminRoutes.AdminOrdersQueries | routes/admin.js:706-786 | the order list's data and count queries, built from the same filters |
| AdminRoutes.AdminPagesCoverRows | routes/admin.js:244 | for a positive limit, a page starts before the last row exactly when it is within the reported page count |
| ApiRoutes.SortField | routes/api.js:120-123 | the sort column is always whitelisted: the requested one when allowed, else `created_at` |
| ApiRoutes.SortOrder | routes/api.js:124 | the direction is `ASC` exactly when the request upper-cases to `ASC`, else `DESC` |
| ApiRoutes.OrderClauseWhitelisted | routes/api.js:120-126 | whatever the request, the ORDER BY clause is built from a whitelisted column and direction |
| ApiRoutes.ApiProductsFiltered | routes/api.js:93-118 | the catalogue filters bind one value for a category, three for a search and one per price bound |
| ApiRoutes.ApiProductsFilterMirrored | routes/api.js:93-169 | the count query receives the same filter text and values as the data query |
| ApiRoutes.FeaturedOnlyWhenTrue | routes/api.js:115-117 | the featured filter applies only to the exact string `true` |
| ApiRoutes.AppendApiFilters | routes/api.js:93-118 | the accumulating `+=` and `push` steps build exactly the filtered statement |
| ApiRoutes.ApiProductsQueries | routes/api.js:69-191 | the data and count queries of the product list, from the same filters |
| ApiRoutes.ApiCreateProduct | routes/api.js:236-313 | 400 without name or price; otherwise 201 with the derived slug, which may repeat, and the files as images |
| ApiRoutes.AddCategoryKeepsSlugsDistinct | routes/api.js:506-513 | adding a category keeps slugs distinct exactly when its slug is not taken |
| ApiRoutes.ApiCreateCategory | routes/api.js:493-546 | 400 without a name, 400 for a taken slug, otherwise 201; category slugs stay distinct |
| ApiRoutes.SearchFiltered | routes/api.js:576-591 | the search binds the pattern four times, then the optional filters |
| ApiRoutes.SearchFilterMirrored | routes/public.js:493-548 | the public search's count query mirrors its data query |
| ApiRoutes.AppendSearchFilters | routes/api.js:579-591 | the accumulation steps build exactly the filtered search |
| ApiRoutes.SearchQuery | routes/api.js:552-596 | refused with 400 exactly when the trimmed term is missing or shorter than 2 UTF-16 code units; otherwise the search with the trimmed term |
| ApiRoutes.AstralTermSearched | routes/api.js:556 | a single character outside the Basic Multilingual Plane is long enough to search for |
| ApiRoutes.SearchIgnoresPadding | routes/api.js:576 | surrounding white space never changes the search |
| ApiRoutes.SanitizedEmail | routes/api.js:682-684 | the handler sees the e-mail after `sanitizeData`: without angle brackets |
| ApiRoutes.NewsletterReply | routes/api.js:682-717 | 200 exactly for a new string with `@`; 400 for a falsy value or one without `@`; 400 for a subscribed address; 500 for a non-string |
| ApiRoutes.Subscribe | routes/api.js:682-717 | the reply is `NewsletterReply` and the address is added exactly on 200 |
| ApiRoutes.SubscribeKeepsValid | routes/api.js:682-705 | every stored address still holds an `@` and no angle bracket |
| ApiRoutes.SecondSubscriptionRefused | routes/api.js:693-700 | subscribing the same address again is refused |
| ApiRoutes.Typed | routes/api.js:729-743 | booleans are `value === 'true'`; unparsable JSON and untyped settings stay strings |
| ApiRoutes.TypedRows | routes/api.js:729-743 | each setting row becomes its key and typed value |
| ApiRoutes.BuildConfig | routes/api.js:725-746 | the config object is the rows' typed values, the last row of a key winning |
| ApiRoutes.ConfigLastRowWins | routes/api.js:745 | a key holds the typed value of its last row |
| ApiRoutes.ConfigKeys | routes/api.js:728-746 | the config has exactly the keys of the rows |
| PublicRoutes.SiteConfig | routes/public.js:37-41 | the settings object is the rows with the last row of a key winning |
| PublicRoutes.ConfigOr | routes/public.js:47-48 | `config.x || fallback`: the stored value when non-empty, else the fallback |
| PublicRoutes.SiteNameWithoutRow | routes/public.js:47 | without a `site_name` row every title uses `AlquimiaTechnologic` |
| PublicRoutes.SiteNameFromLastRow | routes/public.js:47 | the site name is the last `site_name` row's value, or the fallback when it is empty |
| PublicRoutes.ProductsPage | routes/public.js:58-196 | the catalogue page's data and count queries share the filters, with the whitelisted order |
| PublicRoutes.CategoryPage | routes/public.js:198-279 | 404 exactly when no active category has the slug; otherwise its products with the whitelisted order |
| PublicRoutes.ProductPage | routes/public.js:281-341 | 404 exactly when no active product has the slug; otherwise the product and its images |
| PublicRoutes.InactiveCategoryNotShown | routes/public.js:204-215 | deactivating a category makes its page a 404 |
| PublicRoutes.DeactivationHidesCategory | routes/public.js:204-215 | an administrator's update with the single field `is_active = "0"`, with or without a new image, makes the category's page a 404 when no other category shares its slug |
| PublicRoutes.SearchPage | routes/public.js:472-598 | redirects to `/productos` exactly when the trimmed term is missing or shorter than 2 UTF-16 code units; otherwise the search with the trimmed term |
| PublicRoutes.BlankTermRedirects | routes/public.js:476-478 | a term made only of white space redirects |
| AuthRoutes.FirstFailureAt | routes/auth.js:27-125 | a chain answers with the first failing check's answer |
| AuthRoutes.FirstFailureAllPass | routes/auth.js:27-125 | a chain whose checks all pass answers with success |
| AuthRoutes.FirstFailureRefuses | routes/auth.js:27-125 | a chain with any failing check answers with some failing check's answer |
| AuthRoutes.SuccessIffAllPass | routes/auth.js:27-125 | when no refusal shares the success status, the chain succeeds exactly when every check passes |
| AuthRoutes.FirstFailureSkip | routes/auth.js:684-772 | checks that all pass in front of a chain do not change its answer |
| AuthRoutes.FindLogin | routes/auth.js:51-56 | the admin whose username or e-mail is the given name, the first such row |
| AuthRoutes.Login | routes/auth.js:27-125 | missing fields: 400 and no attempt counted; otherwise the first failing of not blocked, known, active, password matches, with the session exactly on 200 and one attempt counted exactly on 401 |
| AuthRoutes.Authenticate | routes/auth.js:48-121 | the steps after the field check, with an attempt counted on each 401 |
| AuthRoutes.CheckThenIncrement | middleware/auth.js:257-260 | counting a failure after a check is the same as counting it directly |
| AuthRoutes.LoginRoute | routes/auth.js:27 | the brute-force gate runs first: a blocked IP gets 429 without reaching the handler and nothing is counted |
| AuthRoutes.LoginCountsFailuresOnce | routes/auth.js:59-80 | a failed login raises the in-window count by exactly one |
| AuthRoutes.MissingFieldsFirst | routes/auth.js:32-37 | missing fields are reported before anything else, even for a blocked IP |
| AuthRoutes.BlockedLoginIgnoresAdmins | middleware/auth.js:280-291 | a blocked IP gets 429 whatever the admins table holds |
| AuthRoutes.LoginSucceedsIff | routes/auth.js:48-90 | login succeeds exactly when the fields are given, the IP is not blocked and an active admin with that name has a matching password |
| AuthRoutes.WrongPasswordRefused | routes/auth.js:76-90 | an active account given a password its hash does not verify gets the same 401 as an unknown name |
| AuthRoutes.SanitizedPasswordLocksOut | routes/auth.js:40-41 | login compares the sanitised password, so an account whose password holds `<` or `>` is refused even with the exact password it was created with |
| AuthRoutes.IntendedLoginPassword | routes/auth.js:436 | the password compared is the one sent, as creation, change and reset hash it |
| AuthRoutes.IntendedPasswordLogsIn | routes/auth.js:76 | compared as sent, an active account always logs in with the password its hash was made from |
| AuthRoutes.AdminById | routes/auth.js:295-300 | finds an admin exactly when one has the id |
| AuthRoutes.SetPassword | routes/auth.js:329-332 | only that admin's hash changes |
| AuthRoutes.ChangePassword | routes/auth.js:277-350 | the first failing of fields given, confirmation matches, user found, current password matches, new password strong; on 200 only the hash changes |
| AuthRoutes.ReplacePassword | routes/auth.js:294-340 | the change-password steps after the field checks: admin found, current password verifies, new one strong; only the hash changes on 200 |
| AuthRoutes.MismatchDecidedFirst | routes/auth.js:285-298 | a confirmation mismatch is reported before the user is looked up |
| AuthRoutes.RoleOrDefault | routes/auth.js:441 | a missing role becomes `admin` |
| AuthRoutes.CreateAdmin | routes/auth.js:380-464 | the first failing of fields given, username length (at least 3 UTF-16 code units), e-mail shape, strength, username free, e-mail free; on 201 one active admin is appended and usernames and e-mails stay unique |
| AuthRoutes.InsertAdmin | routes/auth.js:406-456 | the create-admin steps after the field checks: the first failing of strength, username free, e-mail free; on 201 one active admin is appended with the hashed password and the default role, and usernames and e-mails stay unique |
| AuthRoutes.AppendKeepsUnique | routes/auth.js:424-445 | appending an admin whose username and e-mail are free keeps both unique |
| AuthRoutes.DeleteAdmin | routes/auth.js:580-623 | deleting oneself is refused before the lookup; 404 for an unknown id; otherwise only that admin goes and the caller's row stays |
| AuthRoutes.ForgotPasswordAnswer | routes/auth.js:630-681 | 400 exactly for a missing or invalid e-mail, otherwise the same 200 reply |
| AuthRoutes.ActiveAdminByEmail | routes/auth.js:642 | an active admin with that e-mail, or none exactly when no active admin has it |
| AuthRoutes.ForgotPassword | routes/auth.js:630-681 | the reply never depends on whether the address belongs to an admin; a token valid for one hour is stored exactly when an active admin has it |
| AuthRoutes.LiveToken | routes/auth.js:722-728 | the first stored token row with that token, unexpired and unused; none exactly when there is no such row |
| AuthRoutes.MarkUsed | routes/auth.js:743 | only the rows with that token change, and only their `used` flag |
| AuthRoutes.ResetPassword | routes/auth.js:684-772 | the first failing of fields given, confirmation matches, strong, token decodes, kind is a reset, token live; on 200 the admin's hash changes and the token is used |
| AuthRoutes.RedeemToken | routes/auth.js:711-750 | the token part of the reset chain and its writes |
| AuthRoutes.UsedTokenIsDead | routes/auth.js:726 | a used token is never live |
| AuthRoutes.SecondResetRefused | routes/auth.js:726-743 | a reset token works only once |
| AuthRoutes.IssuedTokenLivesOneHour | routes/auth.js:655-663 | a fresh token is live before one hour has passed and dead after |
| Cart.IndexOf | public/js/main.js:232 | `find` by id: the first line with that id, or -1 exactly when there is none |
| Cart.Without | public/js/main.js:251 | `filter`: exactly the lines of other products remain |
| Cart.AddedTotal | public/js/main.js:231-247 | adding raises the unit count by exactly one |
| Cart.AddedKeepsIdsDistinct | public/js/main.js:231-243 | adding never creates a second line for a product, and the product is then in the cart |
| Cart.AddedExisting | public/js/main.js:234-235 | an id already in the cart gets one more unit, no new line, and every other line is untouched |
| Cart.WithoutConcat | public/js/main.js:251 | removal keeps the other lines in their original order |
| Cart.WithoutTotal | public/js/main.js:250-253 | removal takes away exactly that product's units from the count |
| Cart.WithoutKeepsIdsDistinct | public/js/main.js:251 | removal keeps ids distinct |
| Cart.ShoppingCart.constructor | public/js/main.js:2 | the saved cart, or an empty one, with the badge set |
| Cart.ShoppingCart.UpdateCartCount | public/js/main.js:256-261 | the badge shows the sum of the quantities |
| Cart.ShoppingCart.Find | public/js/main.js:232 | the search loop finds the first line with that id |
| Cart.ShoppingCart.AddToCart | public/js/main.js:231-248 | the lines become `Added` of the old lines, the badge grows by one, and distinct ids stay distinct |
| Cart.ShoppingCart.RemoveFromCart | public/js/main.js:250-254 | the lines become `Without` of the old lines, the badge loses that product's units, and distinct ids stay distinct |
| Cart.ShoppingCart.ClearCart | public/js/main.js:267-271 | the cart empties and the badge shows 0 |
| Cart.CategoryIcon | public/js/main.js:158-166 | the four known categories map to their icons and every other name to `tag` |
| Cart.NewsletterAddress | public/js/main.js:286-291 | the trimmed address is sent exactly when it is not empty and holds `@` |
| Cart.SearchQuery | public/js/main.js:116-121 | the trimmed query is sent exactly when it is not empty |
| Cart.SentTextIsTrimmed | public/js/main.js:116-121 | whatever either guard sends starts and ends with a character that is not white space |
| Cart.BlankInputSendsNothing | public/js/main.js:116-121 | input made only of white space sends nothing from either form |
| AdminLogin.ValidateField | public/js/admin-login.js:187-221 | valid exactly when the trimmed value reaches 3 (username) or 6 (password) UTF-16 code units; an empty value gets the required message, a short one the too-short message |
| AdminLogin.PaddingIgnored | public/js/admin-login.js:190 | padding a value with white space never changes its verdict |
| AdminLogin.ValidateForm | public/js/admin-login.js:179-184 | both fields are validated, and the form passes exactly when the trimmed username has at least 3 characters and the trimmed password at least 6 |
| AdminLogin.BothErrorsShown | public/js/admin-login.js:180-183 | with both fields blank, both required messages are shown |
| AdminLogin.ServerMessage | public/js/admin-login.js:139-142 | the server's message when it is non-empty, otherwise the generic one; never empty |
| AdminLogin.AdmittedSpaced | public/js/admin-login.js:306-316 | the calls `preventMultipleSubmit` lets through are at least 2000 ms apart |
| AdminLogin.Toggled | public/js/admin-login.js:237-239 | `text` exactly when the field was `password`; always one of the two |
| AdminLogin.ToggleTwice | public/js/admin-login.js:237-239 | toggling twice restores the field's type |
| AdminLogin.LoginForm.constructor | public/js/admin-login.js:2 | the page starts with no submission in flight and a hidden password |
| AdminLogin.LoginForm.SetLoadingState | public/js/admin-login.js:269-279 | the submit flag and the disabled button follow the argument |
| AdminLogin.LoginForm.BeginLogin | public/js/admin-login.js:107-129 | nothing happens while a request is in flight or the form is invalid; otherwise loading starts and the trimmed username is sent with the raw password |
| AdminLogin.LoginForm.FinishLogin | public/js/admin-login.js:136-176 | an answer with `response.ok` stores the top-level `token` and `user` members (`"undefined"` when missing), greets and redirects; any other answer shows its message or the generic one, a failed request the connection message, both clearing the password and leaving storage alone; loading always ends |
| AdminLogin.ServerReply | routes/auth.js:103-116 | the login endpoint's answer is `ok` exactly for a 2xx status, carries the message, has no top-level token or user, and nests the session under `data` exactly when one was issued |
| AdminLogin.LoginReplyLosesToken | public/js/admin-login.js:154-158 | after any successful login the page as written stores `"undefined"` for both the token and the user, never the issued token |
| AdminLogin.IntendedSessionKeepsLogin | public/js/admin-login.js:154-158 | read from `data`, the page stores exactly the issued token and the user's JSON |
| AdminLogin.LoginForm.HandleLoginError | public/js/admin-login.js:170-176 | shows the message and clears the password |
| AdminLogin.LoginForm.TogglePassword | public/js/admin-login.js:237-249 | the input's type becomes `Toggled` of the old type |
| AdminLogin.LoginForm.PreventMultipleSubmit | public/js/admin-login.js:306-316 | refuses a call less than 2000 ms after the last accepted one and keeps the time; otherwise records the time and accepts |

## Left out

- The MySQL driver and pool, and every statement's execution: tables are in-memory fields, and SQL for reads is built as text and parameters, not evaluated (LIKE, JOIN, GROUP BY, `RAND()`).
- The 500 answers that follow a thrown database or file-system error in each handler's `catch`, and `logActivity`.
- bcrypt and jsonwebtoken: password checks, hashing, signing and token decoding are function parameters.
- `Date.now()`, `NOW()` and timers: time is a parameter. The timer that deletes an attempt entry after 15 minutes is the separate `Expire` operation.
- multer storage, generated file names and image file deletion (`fs`).
- `parseFloat` and number-typed settings: kept as the unparsed text; `JSON.parse` is a parameter.
- Route `:id` parameters: the handlers bind the raw `req.params.id` string and MySQL converts it; the model binds `Int(id)` and does not model how MySQL converts a non-numeric id. `parseInt` on page and limit: taken as already-parsed integers.
- `toLowerCase`/`toUpperCase`: ASCII letters only; other characters are left as they are.
- MySQL's case-insensitive string comparison: slugs, usernames and e-mails are compared exactly.
- `iconMap[name]` for names inherited from `Object.prototype` (such as `toString`): treated as unknown names.
- Login: the `last_login` update after a successful login is not modelled; `Admin` has no such field.
- routes/auth.js: `/verify`, `/logout`, `/profile` (read and update), `GET /admins` and `PUT /admins/:id` are not modelled.
- routes/admin.js: `/stats`, `/settings` and the read-only detail routes are not modelled.
- routes/api.js: the detail and category read routes and `/stats` are not modelled.
- routes/public.js: the static information pages are not modelled.
- `validateInput`, `optionalAuth` and `getCurrentUser` are not modelled.
- `preventMultipleSubmit` is modelled, but the page never calls it.
- Browser plumbing: DOM updates, toasts, the alert timer, `localStorage` serialisation and the redirect timer. The cart is kept in memory, and the stored token and a `redirecting` flag stand for the redirect.
- Server start-up, security headers and rate limiting in server.js, the seed and migration scripts, and the dashboard script are not part of this model.
- AuthMiddleware.SanitizeString: the contract states the bracket and character guarantees but not that one pass removes every `javascript:`/`on<word>=` occurrence. A single pass can leave one behind (for example `javajavascript:script:`), and the proof that one pass is clean where it is clean was too costly to keep.
- AdminRoutes.ApplyProduct: only `name`, `slug`, `category_id` and `is_active` change the modelled row; other columns are not modelled, an unknown column (which makes MySQL answer 500) is ignored, and a value MySQL would reject or convert otherwise than `SqlText`/`SqlInt` leaves the column unchanged.
- AdminRoutes.ApplyCategory: the same for `name`, `slug`, `image` and `is_active`.

## Findings

| source | as written | input that shows it | evidently intended | confidence | as-written member | corrected member |
|---|---|---|---|---|---|---|
| routes/admin.js:412-424 (also routes/api.js:347-358) | on a product update, the first uploaded file is inserted with `is_primary = true` whatever the product already has | a product that already has a primary image, updated with one uploaded file: it then has two primary images | a product has at most one primary image, so a new upload becomes primary only when there is none | not executed | AdminRoutes.InsertImagesAsWritten, AdminRoutes.AsWrittenDuplicatesPrimary, AdminRoutes.UpdateProduct | AdminRoutes.InsertImages, AdminRoutes.InsertKeepsPrimaryUnique, AdminRoutes.CreateProduct |
| public/js/admin-login.js:154-158 | a successful login stores `data.token` and `JSON.stringify(data.user)` from the top level of the answer | any successful login: the endpoint nests both under `data` (routes/auth.js:103-116), so `"undefined"` is stored under both keys | store `data.data.token` and the stringified `data.data.user` | not executed | AdminLogin.SavedSession, AdminLogin.LoginReplyLosesToken, AdminLogin.LoginForm.FinishLogin | AdminLogin.IntendedSession, AdminLogin.IntendedSessionKeepsLogin |
| routes/auth.js:40-41, 76 | login verifies `sanitizeInput(password)`, while create, change and reset hash the password as sent (routes/auth.js:436, 328, 737) | an admin created with the password `Abcdef1<`, which passes the strength rules: login with that password compares `Abcdef1` and is refused | compare the password as sent | not executed | AuthRoutes.Login, AuthRoutes.SanitizedPasswordLocksOut | AuthRoutes.IntendedLoginPassword, AuthRoutes.IntendedPasswordLogsIn |
