/** The rows of the relational tables the route handlers read and write, and the database
    itself as one object whose tables the handlers update in place. No SQL is evaluated:
    each lookup the handlers make is stated directly over these collections. */
module Tables {
  import opened Js

  /** A row of `admins`. `passwordHash` is the stored bcrypt hash, never inspected. */
  datatype Admin = Admin(id: int, username: string, email: string, passwordHash: string,
                         fullName: string, role: string, isActive: bool)

  /** A row of `categories` (only the columns the handlers consult). */
  datatype Category = Category(id: int, name: string, slug: string, image: Option<string>, isActive: bool)

  /** A row of `products` (only the columns the handlers consult). */
  datatype Product = Product(id: int, name: string, slug: string, categoryId: Option<int>, isActive: bool)

  /** A row of `product_images`. */
  datatype ProductImage = ProductImage(productId: int, imageUrl: string, isPrimary: bool, sortOrder: nat)

  /** A row of `orders`. */
  datatype Order = Order(id: int, orderNumber: string, status: string)

  /** A row of `password_reset_tokens`; `expiresAt` is in milliseconds, like every clock here. */
  datatype ResetToken = ResetToken(adminId: int, token: string, expiresAt: int, used: bool)

  /** A row of `site_settings`: key, stored text and declared type. */
  datatype Setting = Setting(key: string, value: string, kind: string)

  /** The database. Tables keyed by their primary key are maps; tables whose row order a
      handler observes (the first match of a query without ORDER BY) are sequences. */
  class Db {
    var admins: seq<Admin>
    var categories: map<int, Category>
    var products: map<int, Product>
    var images: seq<ProductImage>
    var orders: map<int, Order>
    var resetTokens: seq<ResetToken>
    var subscribers: set<string>

    constructor ()
      ensures admins == [] && categories == map[] && products == map[] && images == []
      ensures orders == map[] && resetTokens == [] && subscribers == {}
    {
      admins, categories, products, images := [], map[], map[], [];
      orders, resetTokens, subscribers := map[], [], {};
    }
  }

  /** Whether some category row already uses `slug`. */
  predicate CategorySlugTaken(categories: map<int, Category>, slug: string) {
    exists id :: id in categories && categories[id].slug == slug
  }

  /** Whether some product row already uses `slug`. */
  predicate ProductSlugTaken(products: map<int, Product>, slug: string) {
    exists id :: id in products && products[id].slug == slug
  }

  function CategorySlugs(categories: map<int, Category>): (r: set<string>)
    ensures forall s :: s in r <==> CategorySlugTaken(categories, s)
  {
    set id | id in categories :: categories[id].slug
  }

  function ProductSlugs(products: map<int, Product>): (r: set<string>)
    ensures forall s :: s in r <==> ProductSlugTaken(products, s)
  {
    set id | id in products :: products[id].slug
  }
}
