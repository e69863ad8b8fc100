/** The server-rendered storefront pages: the site configuration every page reads, page
    titles with their fallback, the product, category, product-detail and search pages with
    their 404 and redirect rules. The pages reuse the API's sort whitelist and filter
    statements, which the handlers repeat; the SQL text is kept with its white space run
    together on one line. */
module PublicRoutes {
  import opened Js
  import opened Tables
  import opened Database
  import opened AdminRoutes
  import opened ApiRoutes

  // ---------------------------------------------------------------------------
  // Site configuration and titles
  // ---------------------------------------------------------------------------

  /** The `config` object every page fills from `site_settings`, one row at a time. */
  method SiteConfig(rows: seq<(string, string)>) returns (config: map<string, string>)
    ensures config == LastByKey(rows)
  {
    config := map[];
    for i := 0 to |rows|
      invariant config == LastByKey(rows[..i])
    {
      config := config[rows[i].0 := rows[i].1];
      assert rows[..i + 1][..i] == rows[..i];
    }
    assert rows[..|rows|] == rows;
  }

  const DefaultSiteName: string := "AlquimiaTechnologic"
  const DefaultDescription: string := "Productos y servicios de alta calidad"

  /** `config[key] || fallback`: the stored text unless it is missing or empty. */
  function ConfigOr(config: map<string, string>, key: string, fallback: string): (r: string)
    ensures key in config && config[key] != "" ==> r == config[key]
    ensures key !in config || config[key] == "" ==> r == fallback
  {
    if key in config && config[key] != "" then config[key] else fallback
  }

  /** The site name a page shows: `config.site_name || 'AlquimiaTechnologic'`. */
  function SiteName(config: map<string, string>): string {
    ConfigOr(config, "site_name", DefaultSiteName)
  }

  /** `${prefix} - ${site name}`, the title of every page but the home page. */
  function PageTitle(prefix: string, config: map<string, string>): string {
    prefix + " - " + SiteName(config)
  }

  /** The home page's title and description, each with its fallback. */
  function HomeHeader(config: map<string, string>): (h: (string, string)) {
    (SiteName(config), ConfigOr(config, "site_description", DefaultDescription))
  }

  /** Without a `site_name` row the pages are titled with the default name. */
  lemma SiteNameWithoutRow(rows: seq<(string, string)>)
    requires forall i :: 0 <= i < |rows| ==> rows[i].0 != "site_name"
    ensures SiteName(LastByKey(rows)) == DefaultSiteName
    ensures HomeHeader(LastByKey(rows)).0 == DefaultSiteName
  {
    assert "site_name" !in LastByKey(rows);
  }

  /** With `site_name` rows the last one decides: its text when it is not empty, the default
      name otherwise. */
  lemma SiteNameFromLastRow(rows: seq<(string, string)>, i: int)
    requires 0 <= i < |rows| && rows[i].0 == "site_name"
    requires forall j :: i < j < |rows| ==> rows[j].0 != "site_name"
    ensures SiteName(LastByKey(rows)) == if rows[i].1 != "" then rows[i].1 else DefaultSiteName
  {
    LastByKeyIsLast(rows, i);
  }

  // ---------------------------------------------------------------------------
  // GET /productos
  // ---------------------------------------------------------------------------

  /** `GET /productos`: the API's product list without the `featured` filter; data and count
      statements carry the same filters, and the title falls back to the default site name. */
  method ProductsPage(category: Option<string>, search: Option<string>, minPrice: Option<string>,
                      maxPrice: Option<string>, sort: Option<string>, order: Option<string>,
                      page: int, limit: int, config: map<string, string>)
    returns (data: Statement, count: Statement, title: string)
    ensures var f := ApiProductsFiltered("", category, search, minPrice, maxPrice, None);
      && data == Statement(ApiProductsSelect + f.sql + OrderByClause(sort, order) + LimitOffset,
                           f.params + [Int(limit), Int(Offset(page, limit))])
      && count == Statement(ApiProductsCount + f.sql, f.params)
      && title == "Productos - " + SiteName(config)
  {
    var query, params := AppendApiFilters(ApiProductsSelect, category, search, minPrice, maxPrice, None);
    query := query + OrderByClause(sort, order);
    query := query + LimitOffset;
    params := params + [Int(limit), Int((page - 1) * limit)];
    data := Statement(query, params);

    var countQuery, countParams := AppendApiFilters(ApiProductsCount, category, search, minPrice, maxPrice, None);
    count := Statement(countQuery, countParams);
    title := "Productos - " + ConfigOr(config, "site_name", DefaultSiteName);

    ApiProductsFilterMirrored(ApiProductsSelect, category, search, minPrice, maxPrice, None);
    ApiProductsFilterMirrored(ApiProductsCount, category, search, minPrice, maxPrice, None);
  }

  // ---------------------------------------------------------------------------
  // GET /categoria/:slug and GET /producto/:slug
  // ---------------------------------------------------------------------------

  /** What a detail page renders: the 404 page, or a title and the statements it runs. */
  datatype View = NotFound | Shown(title: string, queries: seq<Statement>)

  const CategoryProductsSelect: string :=
    "SELECT p.*, c.name as category_name, c.slug as category_slug, (SELECT image_url FROM product_images WHERE product_id = p.id AND is_primary = 1 LIMIT 1) as primary_image FROM products p LEFT JOIN categories c ON p.category_id = c.id WHERE p.is_active = 1 AND c.slug = ?"
  const CategoryProductsCount: string :=
    "SELECT COUNT(*) as total FROM products p LEFT JOIN categories c ON p.category_id = c.id WHERE p.is_active = 1 AND c.slug = ?"
  const ProductImagesQuery: string :=
    "SELECT * FROM product_images WHERE product_id = ? ORDER BY is_primary DESC, sort_order ASC"
  const RelatedProductsQuery: string :=
    "SELECT p.*, c.name as category_name, c.slug as category_slug, (SELECT image_url FROM product_images WHERE product_id = p.id AND is_primary = 1 LIMIT 1) as primary_image FROM products p LEFT JOIN categories c ON p.category_id = c.id WHERE p.category_id = ? AND p.id != ? AND p.is_active = 1 ORDER BY p.is_featured DESC, RAND() LIMIT 4"

  /** Some active category has `slug`. */
  predicate CategoryOnShow(categories: map<int, Category>, slug: string) {
    exists id :: id in categories && categories[id].slug == slug && categories[id].isActive
  }

  /** Some active product has `slug`. */
  predicate ProductOnShow(products: map<int, Product>, slug: string) {
    exists id :: id in products && products[id].slug == slug && products[id].isActive
  }

  /** `GET /categoria/:slug`: 404 unless an active category has the slug; otherwise the
      category's products, sorted through the whitelist and paged, and their count. */
  method CategoryPage(db: Db, slug: string, sort: Option<string>, order: Option<string>,
                      page: int, limit: int, config: map<string, string>) returns (v: View)
    ensures v.NotFound? <==> !CategoryOnShow(db.categories, slug)
    ensures v.Shown? ==>
      && (exists id :: id in db.categories && db.categories[id].slug == slug && db.categories[id].isActive
                       && v.title == PageTitle(db.categories[id].name, config))
      && v.queries == [Statement(CategoryProductsSelect + OrderByClause(sort, order) + LimitOffset,
                                 [Str(slug), Int(limit), Int(Offset(page, limit))]),
                       Statement(CategoryProductsCount, [Str(slug)])]
  {
    if !CategoryOnShow(db.categories, slug) {
      return NotFound;
    }
    var id :| id in db.categories && db.categories[id].slug == slug && db.categories[id].isActive;
    var category := db.categories[id];
    var query := CategoryProductsSelect + OrderByClause(sort, order) + LimitOffset;
    var params := [Str(slug), Int(limit), Int((page - 1) * limit)];
    v := Shown(PageTitle(category.name, config), [Statement(query, params), Statement(CategoryProductsCount, [Str(slug)])]);
  }

  /** A product's category id as a bound parameter (SQL NULL when it has none). */
  function CategoryParam(categoryId: Option<int>): Value {
    if categoryId.Some? then Int(categoryId.value) else Null
  }

  /** `GET /producto/:slug`: 404 unless an active product has the slug; otherwise its images,
      primary first, and up to four other active products of its category. */
  method ProductPage(db: Db, slug: string, config: map<string, string>) returns (v: View)
    ensures v.NotFound? <==> !ProductOnShow(db.products, slug)
    ensures v.Shown? ==>
      exists id :: id in db.products && db.products[id].slug == slug && db.products[id].isActive
        && v.title == PageTitle(db.products[id].name, config)
        && v.queries == [Statement(ProductImagesQuery, [Int(id)]),
                         Statement(RelatedProductsQuery, [CategoryParam(db.products[id].categoryId), Int(id)])]
  {
    if !ProductOnShow(db.products, slug) {
      return NotFound;
    }
    var id :| id in db.products && db.products[id].slug == slug && db.products[id].isActive;
    var product := db.products[id];
    var images := Statement(ProductImagesQuery, [Int(id)]);
    var related := Statement(RelatedProductsQuery, [CategoryParam(product.categoryId), Int(id)]);
    v := Shown(PageTitle(product.name, config), [images, related]);
  }

  /** Deactivating the only category with a slug takes its page down. */
  lemma InactiveCategoryNotShown(categories: map<int, Category>, id: int)
    requires id in categories
    requires forall j :: j in categories && j != id ==> categories[j].slug != categories[id].slug
    ensures !CategoryOnShow(categories[id := categories[id].(isActive := false)], categories[id].slug)
  {
    var m := categories[id := categories[id].(isActive := false)];
    assert forall j :: j in m && j != id ==> m[j] == categories[j];
  }

  /** An administrator's `PUT /admin/categories/:id` with the single field `is_active = "0"`
      takes the category's page down, with or without a new image, when no other category
      shares its slug. */
  lemma DeactivationHidesCategory(categories: map<int, Category>, id: int, file: Option<string>)
    requires id in categories
    requires forall j :: j in categories && j != id ==> categories[j].slug != categories[id].slug
    ensures var body := [("is_active", Str("0"))];
      var after := categories[id := ApplyCategory(categories[id], Assigned(body, "image") + ImageAssignment(file))];
      !CategoryOnShow(after, categories[id].slug)
  {
    var body := [("is_active", Str("0"))];
    var c := categories[id];
    assert Assigned(body, "image") == body by {
      assert body[..0] == [];
    }
    assert ParseInt("0") == Some(0);
    var deactivated := ApplyCategory(c, body);
    assert body[..0] == [];
    assert !deactivated.isActive && deactivated.slug == c.slug;
    var entries := body + ImageAssignment(file);
    var r := ApplyCategory(c, entries);
    if file.Some? {
      assert entries[..1] == body;
    } else {
      assert entries == body;
    }
    assert !r.isActive && r.slug == c.slug;
    var m := categories[id := r];
    assert forall j :: j in m && j != id ==> m[j] == categories[j];
  }

  // ---------------------------------------------------------------------------
  // GET /buscar
  // ---------------------------------------------------------------------------

  const SearchCount: string :=
    "SELECT COUNT(*) as total FROM products p LEFT JOIN categories c ON p.category_id = c.id WHERE p.is_active = 1 AND (p.name LIKE ? OR p.description LIKE ? OR p.short_description LIKE ? OR c.name LIKE ?)"

  datatype SearchView = Redirect(location: string) | Results(data: Statement, count: Statement, title: string)

  /** `GET /buscar`: a missing term, or one shorter than two characters once trimmed,
      redirects to `/productos`; otherwise the trimmed term is searched and the count
      statement carries exactly the data statement's filters. */
  method SearchPage(q: Option<string>, category: Option<string>, minPrice: Option<string>,
                    maxPrice: Option<string>, page: int, limit: int, config: map<string, string>)
    returns (v: SearchView)
    ensures v.Redirect? <==> SearchTooShort(q)
    ensures v.Redirect? ==> v.location == "/productos"
    ensures v.Results? ==>
      var f := SearchFiltered("", Trim(q.value), category, minPrice, maxPrice);
      && v.data == Statement(SearchSelect + f.sql + SearchOrder + LimitOffset,
                             f.params + [Int(limit), Int(Offset(page, limit))])
      && v.count == Statement(SearchCount + f.sql, f.params)
      && v.title == PageTitle("Búsqueda: " + q.value, config)
  {
    if q.None? || JsLength(Trim(q.value)) < 2 {
      return Redirect("/productos");
    }
    var term := Trim(q.value);
    var query, params := AppendSearchFilters(SearchSelect, term, category, minPrice, maxPrice);
    query := query + SearchOrder;
    query := query + LimitOffset;
    params := params + [Int(limit), Int((page - 1) * limit)];
    var countQuery, countParams := AppendSearchFilters(SearchCount, term, category, minPrice, maxPrice);
    v := Results(Statement(query, params), Statement(countQuery, countParams), PageTitle("Búsqueda: " + q.value, config));
    SearchFilterMirrored(SearchSelect, term, category, minPrice, maxPrice);
    SearchFilterMirrored(SearchCount, term, category, minPrice, maxPrice);
  }

  /** A term of blanks only is never searched. */
  lemma BlankTermRedirects(q: string)
    requires forall i :: 0 <= i < |q| ==> IsSpace(q[i])
    ensures SearchTooShort(Some(q))
  {
    assert forall c :: c in Trim(q) ==> IsSpace(c);
  }
}
