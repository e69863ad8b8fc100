/** The public JSON API: the product list with its whitelisted sorting, the search endpoint,
    category creation without suffixing, newsletter sign-up and the typed site configuration. */
module ApiRoutes {
  import opened Js
  import opened Tables
  import opened Database
  import opened AdminRoutes
  import AuthMiddleware

  // ---------------------------------------------------------------------------
  // Sorting
  // ---------------------------------------------------------------------------

  const AllowedSorts: seq<string> := ["name", "price", "created_at", "sort_order"]

  /** `allowedSorts.includes(sort) ? sort : 'created_at'`, with `created_at` as the default. */
  function SortField(sort: Option<string>): (r: string)
    ensures r in AllowedSorts
    ensures sort.Some? && sort.value in AllowedSorts ==> r == sort.value
    ensures !(sort.Some? && sort.value in AllowedSorts) ==> r == "created_at"
  {
    if sort.Some? && sort.value in AllowedSorts then sort.value else "created_at"
  }

  /** The upper-cased order when it is ASC or DESC, otherwise DESC (also the default). */
  function SortOrder(order: Option<string>): (r: string)
    ensures r == "ASC" || r == "DESC"
    ensures r == "ASC" <==> order.Some? && Upper(order.value) == "ASC"
  {
    if order.Some? && (Upper(order.value) == "ASC" || Upper(order.value) == "DESC") then Upper(order.value)
    else "DESC"
  }

  /** Whatever the request asks for, the ORDER BY names an allowed column and direction:
      nothing from the query string reaches the SQL text unchecked. */
  lemma OrderClauseWhitelisted(sort: Option<string>, order: Option<string>)
    ensures exists f, d :: (f in AllowedSorts && d in ["ASC", "DESC"] &&
                            OrderByClause(sort, order) == " ORDER BY p." + f + " " + d)
  {
    var f, d := SortField(sort), SortOrder(order);
    assert d in ["ASC", "DESC"];
  }

  function OrderByClause(sort: Option<string>, order: Option<string>): string {
    " ORDER BY p." + SortField(sort) + " " + SortOrder(order)
  }

  // ---------------------------------------------------------------------------
  // GET /api/products
  // ---------------------------------------------------------------------------

  const ApiProductsSelect: string :=
    "SELECT p.*, c.name as category_name, c.slug as category_slug, (SELECT image_url FROM product_images WHERE product_id = p.id AND is_primary = 1 LIMIT 1) as primary_image FROM products p LEFT JOIN categories c ON p.category_id = c.id WHERE p.is_active = 1"
  const ApiProductsCount: string :=
    "SELECT COUNT(*) as total FROM products p LEFT JOIN categories c ON p.category_id = c.id WHERE p.is_active = 1"
  const CategoryCond: string := " AND c.slug = ?"
  const ApiSearchCond: string := " AND (p.name LIKE ? OR p.description LIKE ? OR p.short_description LIKE ?)"
  const MinPriceCond: string := " AND p.price >= ?"
  const MaxPriceCond: string := " AND p.price <= ?"
  const FeaturedCond: string := " AND p.is_featured = 1"
  const LimitOffset: string := " LIMIT ? OFFSET ?"

  /** `parseFloat(p)` as a bound parameter. */
  function PriceValue(p: Option<string>): seq<Value> {
    if p.Some? then [NumberFrom(p.value)] else []
  }

  /** The product list's filters appended to `head`, in the handler's order: category,
      search over three columns, minimum and maximum price, and `featured=true`. */
  function ApiProductsFiltered(head: string, category: Option<string>, search: Option<string>,
                               minPrice: Option<string>, maxPrice: Option<string>,
                               featured: Option<string>): (q: Statement)
    ensures |q.params| == (if Truthy(category) then 1 else 0) + (if Truthy(search) then 3 else 0)
                        + (if Truthy(minPrice) then 1 else 0) + (if Truthy(maxPrice) then 1 else 0)
  {
    var q1 := AndIf(Statement(head, []), Truthy(category), CategoryCond, OptionValue(category));
    var q2 := AndIf(q1, Truthy(search), ApiSearchCond, SearchValues(search, 3));
    var q3 := AndIf(q2, Truthy(minPrice), MinPriceCond, PriceValue(minPrice));
    var q4 := AndIf(q3, Truthy(maxPrice), MaxPriceCond, PriceValue(maxPrice));
    AndIf(q4, featured == Some("true"), FeaturedCond, [])
  }

  lemma ApiProductsFilterMirrored(head: string, category: Option<string>, search: Option<string>,
                                  minPrice: Option<string>, maxPrice: Option<string>, featured: Option<string>)
    ensures var f := ApiProductsFiltered("", category, search, minPrice, maxPrice, featured);
      ApiProductsFiltered(head, category, search, minPrice, maxPrice, featured) == Statement(head + f.sql, f.params)
  {
    var e := Statement("", []);
    assert Statement(head, []) == Statement(head + e.sql, e.params);
    var q1 := AndIf(e, Truthy(category), CategoryCond, OptionValue(category));
    AndIfUnderHead(head, e, Truthy(category), CategoryCond, OptionValue(category));
    var q2 := AndIf(q1, Truthy(search), ApiSearchCond, SearchValues(search, 3));
    AndIfUnderHead(head, q1, Truthy(search), ApiSearchCond, SearchValues(search, 3));
    var q3 := AndIf(q2, Truthy(minPrice), MinPriceCond, PriceValue(minPrice));
    AndIfUnderHead(head, q2, Truthy(minPrice), MinPriceCond, PriceValue(minPrice));
    var q4 := AndIf(q3, Truthy(maxPrice), MaxPriceCond, PriceValue(maxPrice));
    AndIfUnderHead(head, q3, Truthy(maxPrice), MaxPriceCond, PriceValue(maxPrice));
    AndIfUnderHead(head, q4, featured == Some("true"), FeaturedCond, []);
  }

  /** A `featured` filter is applied only for the exact text `true`. */
  lemma FeaturedOnlyWhenTrue(category: Option<string>, search: Option<string>, minPrice: Option<string>,
                             maxPrice: Option<string>, featured: Option<string>)
    requires featured != Some("true")
    ensures ApiProductsFiltered("", category, search, minPrice, maxPrice, featured)
         == ApiProductsFiltered("", category, search, minPrice, maxPrice, None)
  {
  }

  /** The search term is bound once for each of the three searched columns. */
  lemma SearchValuesThree(search: Option<string>)
    requires search.Some?
    ensures var t := Str(LikePattern(search.value)); SearchValues(search, 3) == [t, t, t]
  {
    var t := Str(LikePattern(search.value));
    assert SearchValues(search, 1) == [t];
    assert SearchValues(search, 2) == [t, t];
  }

  /** The five `if` blocks the handler repeats for its data and its count query: each filter
      that is present appends its condition and binds its values. */
  method AppendApiFilters(head: string, category: Option<string>, search: Option<string>,
                          minPrice: Option<string>, maxPrice: Option<string>, featured: Option<string>)
    returns (query: string, params: seq<Value>)
    ensures Statement(query, params) == ApiProductsFiltered(head, category, search, minPrice, maxPrice, featured)
  {
    query, params := head, [];
    if Truthy(category) {
      query := query + CategoryCond;
      params := params + [Str(category.value)];
    }
    if Truthy(search) {
      query := query + ApiSearchCond;
      var term := Str(LikePattern(search.value));
      params := params + [term, term, term];
      SearchValuesThree(search);
    }
    if Truthy(minPrice) {
      query := query + MinPriceCond;
      params := params + [NumberFrom(minPrice.value)];
    }
    if Truthy(maxPrice) {
      query := query + MaxPriceCond;
      params := params + [NumberFrom(maxPrice.value)];
    }
    if featured == Some("true") {
      query := query + FeaturedCond;
    }
  }

  /** The product list: data and count queries built side by side from the same filters;
      the data query alone is sorted through the whitelist and paged. */
  method ApiProductsQueries(category: Option<string>, search: Option<string>, minPrice: Option<string>,
                            maxPrice: Option<string>, featured: Option<string>, sort: Option<string>,
                            order: Option<string>, page: int, limit: int)
    returns (data: Statement, count: Statement)
    ensures var f := ApiProductsFiltered("", category, search, minPrice, maxPrice, featured);
      && data == Statement(ApiProductsSelect + f.sql + OrderByClause(sort, order) + LimitOffset,
                           f.params + [Int(limit), Int(Offset(page, limit))])
      && count == Statement(ApiProductsCount + f.sql, f.params)
  {
    var query, params := AppendApiFilters(ApiProductsSelect, category, search, minPrice, maxPrice, featured);
    query := query + OrderByClause(sort, order);
    query := query + LimitOffset;
    params := params + [Int(limit), Int((page - 1) * limit)];
    data := Statement(query, params);

    var countQuery, countParams := AppendApiFilters(ApiProductsCount, category, search, minPrice, maxPrice, featured);
    count := Statement(countQuery, countParams);

    ApiProductsFilterMirrored(ApiProductsSelect, category, search, minPrice, maxPrice, featured);
    ApiProductsFilterMirrored(ApiProductsCount, category, search, minPrice, maxPrice, featured);
  }

  // ---------------------------------------------------------------------------
  // POST /api/products and POST /api/categories
  // ---------------------------------------------------------------------------

  /** `POST /api/products`: 400 unless name and price are given; otherwise the product is
      stored under the derived slug as it is, with no search for a free one, and the uploaded
      files become its images with the first one primary. */
  method ApiCreateProduct(db: Db, name: Option<string>, price: Option<string>, categoryId: Option<int>,
                          files: seq<string>, newId: int) returns (reply: Reply)
    requires newId !in db.products && ImagesListed(db.images, db.products)
    modifies db`products, db`images
    ensures !Truthy(name) || !Truthy(price) ==>
      reply == Reply(400, "Nombre y precio son requeridos") && unchanged(db)
    ensures Truthy(name) && Truthy(price) ==>
      && reply == Reply(201, "Producto creado exitosamente")
      && db.products == old(db.products)[newId := Product(newId, name.value, Slugify(name.value), categoryId, true)]
      && db.images == old(db.images) + UploadedRows(newId, files, true)
      && ImagesListed(db.images, db.products)
  {
    if !Truthy(name) || !Truthy(price) {
      return Reply(400, "Nombre y precio son requeridos");
    }
    var slug := Slugify(name.value);
    db.products := db.products[newId := Product(newId, name.value, slug, categoryId, true)];
    assert !HasPrimary(db.images, newId);
    InsertImages(db, newId, files);
    reply := Reply(201, "Producto creado exitosamente");
  }

  /** No two categories share a slug. */
  predicate CategorySlugsDistinct(categories: map<int, Category>) {
    forall i, j :: i in categories && j in categories && i != j ==> categories[i].slug != categories[j].slug
  }

  lemma AddCategoryKeepsSlugsDistinct(categories: map<int, Category>, id: int, c: Category)
    requires CategorySlugsDistinct(categories) && id !in categories
    ensures CategorySlugsDistinct(categories[id := c]) <==> !CategorySlugTaken(categories, c.slug)
  {
    var m := categories[id := c];
    if !CategorySlugTaken(categories, c.slug) {
      forall i, j | i in m && j in m && i != j
        ensures m[i].slug != m[j].slug
      {
        if i != id && j != id {
          assert m[i] == categories[i] && m[j] == categories[j];
        }
      }
    } else {
      var k :| k in categories && categories[k].slug == c.slug;
      assert m[k].slug == m[id].slug;
    }
  }

  /** `POST /api/categories`: 400 without a name, 400 when the derived slug is already used
      (the handler never suffixes), and otherwise the category is stored under that slug. */
  method ApiCreateCategory(db: Db, name: Option<string>, file: Option<string>, newId: int) returns (reply: Reply)
    requires newId !in db.categories
    modifies db`categories
    ensures !Truthy(name) ==> reply == Reply(400, "Nombre de categoría es requerido") && unchanged(db)
    ensures Truthy(name) && CategorySlugTaken(old(db.categories), Slugify(name.value)) ==>
      reply == Reply(400, "Ya existe una categoría con ese nombre") && unchanged(db)
    ensures Truthy(name) && !CategorySlugTaken(old(db.categories), Slugify(name.value)) ==>
      && reply == Reply(201, "Categoría creada exitosamente")
      && db.categories == old(db.categories)[newId := Category(newId, name.value, Slugify(name.value), file, true)]
    ensures old(CategorySlugsDistinct(db.categories)) ==> CategorySlugsDistinct(db.categories)
  {
    if !Truthy(name) {
      return Reply(400, "Nombre de categoría es requerido");
    }
    var slug := Slugify(name.value);
    if CategorySlugTaken(db.categories, slug) {
      return Reply(400, "Ya existe una categoría con ese nombre");
    }
    var c := Category(newId, name.value, slug, file, true);
    if CategorySlugsDistinct(db.categories) {
      AddCategoryKeepsSlugsDistinct(db.categories, newId, c);
    }
    db.categories := db.categories[newId := c];
    reply := Reply(201, "Categoría creada exitosamente");
  }

  // ---------------------------------------------------------------------------
  // GET /api/search
  // ---------------------------------------------------------------------------

  const SearchSelect: string :=
    "SELECT p.*, c.name as category_name, c.slug as category_slug, (SELECT image_url FROM product_images WHERE product_id = p.id AND is_primary = 1 LIMIT 1) as primary_image FROM products p LEFT JOIN categories c ON p.category_id = c.id WHERE p.is_active = 1 AND (p.name LIKE ? OR p.description LIKE ? OR p.short_description LIKE ? OR c.name LIKE ?)"
  const SearchOrder: string := " ORDER BY p.is_featured DESC, p.sort_order, p.created_at DESC"

  /** What a handler that may refuse early does: answer at once, or run a statement. */
  datatype Answer = Refused(reply: Reply) | Run(stmt: Statement)

  /** `!q || q.trim().length < 2`. */
  predicate SearchTooShort(q: Option<string>) {
    q.None? || JsLength(Trim(q.value)) < 2
  }

  /** The search statement before ordering and paging, appended to `head`: the trimmed term
      bound to the four LIKE placeholders, then the optional category and price filters. */
  function SearchFiltered(head: string, term: string, category: Option<string>, minPrice: Option<string>,
                          maxPrice: Option<string>): (q: Statement)
    ensures var t := Str(LikePattern(term));
      && |q.params| == 4 + (if Truthy(category) then 1 else 0) + (if Truthy(minPrice) then 1 else 0)
                         + (if Truthy(maxPrice) then 1 else 0)
      && q.params[..4] == [t, t, t, t]
  {
    var t := Str(LikePattern(term));
    var q1 := AndIf(Statement(head, [t, t, t, t]), Truthy(category), CategoryCond, OptionValue(category));
    var q2 := AndIf(q1, Truthy(minPrice), MinPriceCond, PriceValue(minPrice));
    AndIf(q2, Truthy(maxPrice), MaxPriceCond, PriceValue(maxPrice))
  }

  lemma SearchFilterMirrored(head: string, term: string, category: Option<string>, minPrice: Option<string>,
                             maxPrice: Option<string>)
    ensures var f := SearchFiltered("", term, category, minPrice, maxPrice);
      SearchFiltered(head, term, category, minPrice, maxPrice) == Statement(head + f.sql, f.params)
  {
    var t := Str(LikePattern(term));
    var e := Statement("", [t, t, t, t]);
    assert Statement(head, [t, t, t, t]) == Statement(head + e.sql, e.params);
    var q1 := AndIf(e, Truthy(category), CategoryCond, OptionValue(category));
    AndIfUnderHead(head, e, Truthy(category), CategoryCond, OptionValue(category));
    var q2 := AndIf(q1, Truthy(minPrice), MinPriceCond, PriceValue(minPrice));
    AndIfUnderHead(head, q1, Truthy(minPrice), MinPriceCond, PriceValue(minPrice));
    AndIfUnderHead(head, q2, Truthy(maxPrice), MaxPriceCond, PriceValue(maxPrice));
  }

  /** The search handlers' filter blocks: the four-fold term, then category and prices. */
  method AppendSearchFilters(head: string, term: string, category: Option<string>, minPrice: Option<string>,
                             maxPrice: Option<string>) returns (query: string, params: seq<Value>)
    ensures Statement(query, params) == SearchFiltered(head, term, category, minPrice, maxPrice)
  {
    query := head;
    var searchTerm := Str(LikePattern(term));
    params := [searchTerm, searchTerm, searchTerm, searchTerm];
    if Truthy(category) {
      query := query + CategoryCond;
      params := params + [Str(category.value)];
    }
    if Truthy(minPrice) {
      query := query + MinPriceCond;
      params := params + [NumberFrom(minPrice.value)];
    }
    if Truthy(maxPrice) {
      query := query + MaxPriceCond;
      params := params + [NumberFrom(maxPrice.value)];
    }
  }

  /** `GET /api/search`: a missing term, or one shorter than two characters once trimmed, is
      refused with 400; otherwise the search runs on the trimmed term and is paged by the
      given limit and offset. */
  method SearchQuery(q: Option<string>, category: Option<string>, minPrice: Option<string>,
                     maxPrice: Option<string>, limit: int, offset: int) returns (a: Answer)
    ensures a.Refused? <==> SearchTooShort(q)
    ensures a.Refused? ==> a.reply == Reply(400, "La búsqueda debe tener al menos 2 caracteres")
    ensures a.Run? ==>
      var f := SearchFiltered("", Trim(q.value), category, minPrice, maxPrice);
      a.stmt == Statement(SearchSelect + f.sql + SearchOrder + LimitOffset, f.params + [Int(limit), Int(offset)])
  {
    if q.None? || JsLength(Trim(q.value)) < 2 {
      return Refused(Reply(400, "La búsqueda debe tener al menos 2 caracteres"));
    }
    var query, params := AppendSearchFilters(SearchSelect, Trim(q.value), category, minPrice, maxPrice);
    query := query + SearchOrder;
    query := query + LimitOffset;
    params := params + [Int(limit), Int(offset)];
    a := Run(Statement(query, params));
    SearchFilterMirrored(SearchSelect, Trim(q.value), category, minPrice, maxPrice);
  }

  /** The two-character minimum counts UTF-16 code units, as `q.trim().length` does: one
      character outside the Basic Multilingual Plane is long enough to be searched. */
  lemma AstralTermSearched(c: char)
    requires c as int >= 0x1_0000
    ensures !SearchTooShort(Some([c]))
  {
    TrimKeeps([c]);
    AstralCharLength(c);
  }

  /** Surrounding whitespace never changes what is searched for: a padded term runs the same
      statement as the bare one. */
  lemma SearchIgnoresPadding(term: string, category: Option<string>, minPrice: Option<string>,
                             maxPrice: Option<string>)
    requires term == [] || (!IsSpace(term[0]) && !IsSpace(term[|term| - 1]))
    ensures SearchFiltered("", Trim(" " + term + " "), category, minPrice, maxPrice)
         == SearchFiltered("", term, category, minPrice, maxPrice)
  {
    TrimPadded(term);
  }

  lemma TrimPadded(term: string)
    requires term == [] || (!IsSpace(term[0]) && !IsSpace(term[|term| - 1]))
    ensures Trim(" " + term + " ") == term
  {
    var inner := term + " ";
    assert " " + term + " " == [' '] + inner;
    LeadingSpaceTrimmed(inner);
    if term == [] {
      LeadingSpaceTrimmed([]);
      assert inner == [' '] + [];
    } else {
      assert inner[0] == term[0];
      TrailingSpaceTrimmed(term);
    }
  }

  /** One leading space is dropped by `TrimStart`. */
  lemma LeadingSpaceTrimmed(t: string)
    ensures TrimStart([' '] + t) == TrimStart(t)
  {
    assert ([' '] + t)[1..] == t;
  }

  /** One trailing space is dropped by `TrimEnd`. */
  lemma TrailingSpaceTrimmed(t: string)
    ensures TrimEnd(t + [' ']) == TrimEnd(t)
  {
    assert (t + [' '])[..|t|] == t;
  }

  // ---------------------------------------------------------------------------
  // POST /api/newsletter
  // ---------------------------------------------------------------------------

  /** The JavaScript falsy values a JSON body can carry. */
  predicate Falsy(v: Value) {
    v.Undefined? || v.Null? || v == Str("") || v == Int(0) || v == Bool(false)
  }

  /** `req.body.email` once `sanitizeData` has run over the body. */
  function SanitizedEmail(body: map<string, Value>): (v: Value)
    ensures "email" !in body ==> v == Undefined
    ensures "email" in body && body["email"].Str? ==> v.Str? && '<' !in v.s && '>' !in v.s
  {
    if "email" in body then AuthMiddleware.SanitizeInput(body["email"]) else Undefined
  }

  /** The newsletter handler's decision for the sanitised `email` against the current
      subscribers. A truthy value that is not a string has no `includes` and the handler's
      catch answers 500. */
  function NewsletterReply(subscribers: set<string>, email: Value): (r: Reply)
    ensures r.status == 200 <==> email.Str? && '@' in email.s && email.s !in subscribers
    ensures r == Reply(400, "Email válido es requerido") <==> Falsy(email) || (email.Str? && '@' !in email.s)
    ensures r == Reply(400, "Este email ya está suscrito") <==> email.Str? && '@' in email.s && email.s in subscribers
    ensures r == Reply(500, "Error en la suscripción") <==> !Falsy(email) && !email.Str?
  {
    if Falsy(email) then Reply(400, "Email válido es requerido")
    else if !email.Str? then Reply(500, "Error en la suscripción")
    else if '@' !in email.s then Reply(400, "Email válido es requerido")
    else if email.s in subscribers then Reply(400, "Este email ya está suscrito")
    else Reply(200, "Suscripción exitosa")
  }

  /** `POST /api/newsletter`: the body is sanitised, then the email is checked and inserted
      exactly when the reply is a success. */
  method Subscribe(db: Db, body: map<string, Value>) returns (reply: Reply)
    modifies db`subscribers
    ensures reply == NewsletterReply(old(db.subscribers), SanitizedEmail(body))
    ensures reply.status == 200 ==> db.subscribers == old(db.subscribers) + {SanitizedEmail(body).s}
    ensures reply.status != 200 ==> db.subscribers == old(db.subscribers)
  {
    var sanitized := AuthMiddleware.SanitizeData(body);
    var email := if "email" in sanitized then sanitized["email"] else Undefined;
    assert email == SanitizedEmail(body);
    if Falsy(email) {
      return Reply(400, "Email válido es requerido");
    }
    if !email.Str? {
      return Reply(500, "Error en la suscripción");
    }
    if '@' !in email.s {
      return Reply(400, "Email válido es requerido");
    }
    if email.s in db.subscribers {
      return Reply(400, "Este email ya está suscrito");
    }
    db.subscribers := db.subscribers + {email.s};
    reply := Reply(200, "Suscripción exitosa");
  }

  /** Every stored subscriber address has an `@` and no angle brackets. */
  predicate SubscribersValid(subscribers: set<string>) {
    forall e :: e in subscribers ==> '@' in e && '<' !in e && '>' !in e
  }

  /** A successful sign-up keeps the stored addresses valid. */
  lemma SubscribeKeepsValid(subscribers: set<string>, body: map<string, Value>)
    requires SubscribersValid(subscribers)
    requires NewsletterReply(subscribers, SanitizedEmail(body)).status == 200
    ensures SubscribersValid(subscribers + {SanitizedEmail(body).s})
  {
    var v := SanitizedEmail(body);
    assert "email" in body && body["email"].Str?;
  }

  /** Signing up twice with the same body: the second attempt is refused as a duplicate and
      the address is stored once. */
  lemma SecondSubscriptionRefused(subscribers: set<string>, body: map<string, Value>)
    requires NewsletterReply(subscribers, SanitizedEmail(body)).status == 200
    ensures var after := subscribers + {SanitizedEmail(body).s};
      NewsletterReply(after, SanitizedEmail(body)) == Reply(400, "Este email ya está suscrito")
  {
  }

  // ---------------------------------------------------------------------------
  // GET /api/config
  // ---------------------------------------------------------------------------

  /** The value a setting row contributes: `number` is read by `parseFloat`, `boolean` is true
      exactly for the text `true`, `json` is parsed by `parseJson` and kept as raw text when it
      does not parse, and any other type keeps the raw text. */
  function Typed(s: Setting, parseJson: string -> Option<Value>): (v: Value)
    ensures s.kind == "boolean" ==> v == Bool(s.value == "true")
    ensures s.kind == "json" && parseJson(s.value).None? ==> v == Str(s.value)
    ensures s.kind !in ["number", "boolean", "json"] ==> v == Str(s.value)
  {
    if s.kind == "number" then NumberFrom(s.value)
    else if s.kind == "boolean" then Bool(s.value == "true")
    else if s.kind == "json" then (if parseJson(s.value).Some? then parseJson(s.value).value else Str(s.value))
    else Str(s.value)
  }

  function TypedRows(settings: seq<Setting>, parseJson: string -> Option<Value>): (r: seq<(string, Value)>)
    ensures |r| == |settings|
    ensures forall i :: 0 <= i < |settings| ==> r[i] == (settings[i].key, Typed(settings[i], parseJson))
  {
    seq(|settings|, i requires 0 <= i < |settings| => (settings[i].key, Typed(settings[i], parseJson)))
  }

  /** `GET /api/config`: every row is typed and written under its key, in row order. */
  method BuildConfig(settings: seq<Setting>, parseJson: string -> Option<Value>) returns (config: map<string, Value>)
    ensures config == LastByKey(TypedRows(settings, parseJson))
  {
    config := map[];
    for i := 0 to |settings|
      invariant config == LastByKey(TypedRows(settings[..i], parseJson))
    {
      var setting := settings[i];
      var value: Value := Str(setting.value);
      if setting.kind == "number" {
        value := NumberFrom(setting.value);
      } else if setting.kind == "boolean" {
        value := Bool(setting.value == "true");
      } else if setting.kind == "json" {
        var parsed := parseJson(setting.value);
        if parsed.Some? {
          value := parsed.value;
        }
      }
      config := config[setting.key := value];
      var rows := TypedRows(settings[..i + 1], parseJson);
      assert rows[..i] == TypedRows(settings[..i], parseJson);
    }
    assert settings[..|settings|] == settings;
  }

  /** A key's configured value is that of the last row carrying the key: a later row with the
      same key overwrites an earlier one. */
  lemma ConfigLastRowWins(settings: seq<Setting>, parseJson: string -> Option<Value>, i: int)
    requires 0 <= i < |settings|
    requires forall j :: i < j < |settings| ==> settings[j].key != settings[i].key
    ensures var config := LastByKey(TypedRows(settings, parseJson));
      settings[i].key in config && config[settings[i].key] == Typed(settings[i], parseJson)
  {
    LastByKeyIsLast(TypedRows(settings, parseJson), i);
  }

  /** Every row's key is configured and nothing else is. */
  lemma ConfigKeys(settings: seq<Setting>, parseJson: string -> Option<Value>, key: string)
    ensures key in LastByKey(TypedRows(settings, parseJson)) <==> exists i :: 0 <= i < |settings| && settings[i].key == key
  {
    var rows := TypedRows(settings, parseJson);
    if key in LastByKey(rows) {
      var i :| 0 <= i < |rows| && rows[i].0 == key;
      assert settings[i].key == key;
    } else {
      forall i | 0 <= i < |settings| ensures settings[i].key != key {
        assert rows[i].0 == settings[i].key;
      }
    }
  }
}
