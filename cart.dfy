/** The storefront's browser-side cart and the small guards of its page script: the cart is
    an array of lines the page mutates in place, with a badge showing the number of units;
    category icons; and the checks that keep an empty search or a malformed newsletter
    address from being sent. */
module Cart {
  import opened Js

  /** A cart line: `{id, name, price, quantity}`. */
  datatype Item = Item(id: int, name: string, price: Value, quantity: nat)

  /** No two lines share a product id. */
  predicate IdsDistinct(items: seq<Item>) {
    forall i, j :: 0 <= i < j < |items| ==> items[i].id != items[j].id
  }

  /** `cart.find(item => item.id === id)`, as the position of the first matching line, or -1. */
  function IndexOf(items: seq<Item>, id: int): (k: int)
    ensures -1 <= k < |items|
    ensures k >= 0 ==> items[k].id == id && forall j :: 0 <= j < k ==> items[j].id != id
    ensures k == -1 <==> forall j :: 0 <= j < |items| ==> items[j].id != id
  {
    if items == [] then -1
    else if items[0].id == id then 0
    else
      var k := IndexOf(items[1..], id);
      if k == -1 then -1 else k + 1
  }

  /** The cart `addToCart(id, name, price)` leaves: one more unit on the line of that id, or
      a new line of one unit at the end. */
  function Added(items: seq<Item>, id: int, name: string, price: Value): seq<Item> {
    var k := IndexOf(items, id);
    if k >= 0 then items[k := items[k].(quantity := items[k].quantity + 1)]
    else items + [Item(id, name, price, 1)]
  }

  /** `cart.filter(item => item.id !== id)`. */
  function Without(items: seq<Item>, id: int): (r: seq<Item>)
    ensures |r| <= |items|
    ensures forall x :: x in r <==> x in items && x.id != id
  {
    if items == [] then []
    else
      var last := items[|items| - 1];
      var rest := Without(items[..|items| - 1], id);
      assert forall x :: x in items <==> x in items[..|items| - 1] || x == last;
      rest + (if last.id != id then [last] else [])
  }

  /** `cart.reduce((sum, item) => sum + item.quantity, 0)`. */
  function Total(items: seq<Item>): nat {
    if items == [] then 0 else Total(items[..|items| - 1]) + items[|items| - 1].quantity
  }

  /** The units on the lines of product `id`. */
  function QuantityOf(items: seq<Item>, id: int): nat {
    if items == [] then 0
    else QuantityOf(items[..|items| - 1], id) + (if items[|items| - 1].id == id then items[|items| - 1].quantity else 0)
  }

  // ---------------------------------------------------------------------------
  // Lemmas about the cart functions
  // ---------------------------------------------------------------------------

  lemma TotalAppend(items: seq<Item>, x: Item)
    ensures Total(items + [x]) == Total(items) + x.quantity
  {
    assert (items + [x])[..|items|] == items;
  }

  /** Changing one line's quantity changes the total by the difference. */
  lemma {:induction false} TotalUpdate(items: seq<Item>, k: int, x: Item)
    requires 0 <= k < |items|
    ensures Total(items[k := x]) == Total(items) - items[k].quantity + x.quantity
  {
    var n := |items| - 1;
    var u := items[k := x];
    if k == n {
      assert u[..n] == items[..n];
    } else {
      assert u[..n] == items[..n][k := x];
      TotalUpdate(items[..n], k, x);
    }
  }

  /** Adding to the cart adds exactly one unit to the count. */
  lemma AddedTotal(items: seq<Item>, id: int, name: string, price: Value)
    ensures Total(Added(items, id, name, price)) == Total(items) + 1
  {
    var k := IndexOf(items, id);
    if k >= 0 {
      TotalUpdate(items, k, items[k].(quantity := items[k].quantity + 1));
    } else {
      TotalAppend(items, Item(id, name, price, 1));
    }
  }

  /** Adding to the cart never creates a second line for a product. */
  lemma AddedKeepsIdsDistinct(items: seq<Item>, id: int, name: string, price: Value)
    requires IdsDistinct(items)
    ensures IdsDistinct(Added(items, id, name, price))
    ensures exists i :: 0 <= i < |Added(items, id, name, price)| && Added(items, id, name, price)[i].id == id
  {
    var r := Added(items, id, name, price);
    var k := IndexOf(items, id);
    if k >= 0 {
      assert forall i :: 0 <= i < |r| ==> r[i].id == items[i].id;
      assert r[k].id == id;
    } else {
      assert forall i :: 0 <= i < |items| ==> r[i] == items[i];
      assert r[|items|].id == id;
    }
  }

  /** An id already in the cart gets one more unit and no new line; any other line is untouched. */
  lemma AddedExisting(items: seq<Item>, id: int, name: string, price: Value, k: int)
    requires 0 <= k < |items| && items[k].id == id
    requires IdsDistinct(items)
    ensures |Added(items, id, name, price)| == |items|
    ensures Added(items, id, name, price)[k].quantity == items[k].quantity + 1
    ensures forall i :: 0 <= i < |items| && i != k ==> Added(items, id, name, price)[i] == items[i]
  {
    var j := IndexOf(items, id);
    assert items[k].id == id;
    assert 0 <= j && items[j].id == items[k].id;
  }

  /** Filtering distributes over concatenation: lines that stay keep their order. */
  lemma {:induction false} WithoutConcat(a: seq<Item>, b: seq<Item>, id: int)
    ensures Without(a + b, id) == Without(a, id) + Without(b, id)
  {
    if b == [] {
      assert a + b == a;
    } else {
      var n := |b| - 1;
      assert (a + b)[..|a + b| - 1] == a + b[..n];
      WithoutConcat(a, b[..n], id);
    }
  }

  /** A single line stays exactly when it is of another product. */
  lemma WithoutSingle(x: Item, id: int)
    ensures Without([x], id) == if x.id != id then [x] else []
  {
    assert [x][..0] == [];
  }

  /** Removing a product takes away exactly its units from the count. */
  lemma {:induction false} WithoutTotal(items: seq<Item>, id: int)
    ensures Total(Without(items, id)) + QuantityOf(items, id) == Total(items)
  {
    if items != [] {
      var n := |items| - 1;
      var init, last := items[..n], items[n];
      assert Without(items, id) == Without(init, id) + (if last.id != id then [last] else []);
      assert QuantityOf(items, id) == QuantityOf(init, id) + (if last.id == id then last.quantity else 0);
      assert Total(items) == Total(init) + last.quantity;
      WithoutTotal(init, id);
      if last.id != id {
        TotalAppend(Without(init, id), last);
      } else {
        assert Without(items, id) == Without(init, id);
      }
    }
  }

  /** Filtering keeps ids distinct. */
  lemma {:induction false} WithoutKeepsIdsDistinct(items: seq<Item>, id: int)
    requires IdsDistinct(items)
    ensures IdsDistinct(Without(items, id))
  {
    if items != [] {
      var n := |items| - 1;
      var last := items[n];
      var rest := Without(items[..n], id);
      WithoutKeepsIdsDistinct(items[..n], id);
      if last.id != id {
        var r := rest + [last];
        forall i, j | 0 <= i < j < |r|
          ensures r[i].id != r[j].id
        {
          if j == |rest| {
            assert rest[i] in rest;
            var m :| 0 <= m < n && items[m] == rest[i];
          }
        }
      } else {
        assert Without(items, id) == rest + [];
      }
    }
  }

  // ---------------------------------------------------------------------------
  // The cart the page keeps
  // ---------------------------------------------------------------------------

  /** The page's `cart` array and the badge showing its unit count. */
  class ShoppingCart {
    var items: seq<Item>
    var count: nat

    /** Page load: `JSON.parse(localStorage.getItem('cart')) || []`, then the badge is set. */
    constructor (saved: Option<seq<Item>>)
      ensures items == (if saved.Some? then saved.value else [])
      ensures count == Total(items)
    {
      items := if saved.Some? then saved.value else [];
      new;
      UpdateCartCount();
    }

    /** `updateCartCount`: the badge shows the sum of the quantities. */
    method UpdateCartCount()
      modifies this`count
      ensures count == Total(items)
    {
      var total := 0;
      for i := 0 to |items|
        invariant total == Total(items[..i])
      {
        assert items[..i + 1][..i] == items[..i];
        total := total + items[i].quantity;
      }
      assert items[..|items|] == items;
      count := total;
    }

    /** `cart.find(item => item.id === id)`: the position of the first line of the product,
        or -1 when there is none. */
    method Find(id: int) returns (k: int)
      ensures k == IndexOf(items, id)
    {
      k := 0;
      while k < |items| && items[k].id != id
        invariant 0 <= k <= |items|
        invariant forall j :: 0 <= j < k ==> items[j].id != id
      {
        k := k + 1;
      }
      if k == |items| {
        k := -1;
      }
    }

    /** `addToCart`: finds the line of the product and adds a unit to it, or appends a line of
        one unit; the badge then grows by one and ids stay distinct. */
    method AddToCart(id: int, name: string, price: Value)
      modifies this
      ensures items == Added(old(items), id, name, price)
      ensures count == Total(items) == Total(old(items)) + 1
      ensures old(IdsDistinct(items)) ==> IdsDistinct(items)
    {
      var k := Find(id);
      AddedTotal(items, id, name, price);
      if old(IdsDistinct(items)) {
        AddedKeepsIdsDistinct(items, id, name, price);
      }
      if k >= 0 {
        items := items[k := items[k].(quantity := items[k].quantity + 1)];
      } else {
        items := items + [Item(id, name, price, 1)];
      }
      UpdateCartCount();
    }

    /** `removeFromCart`: drops every line of the product, keeps the others in order, and the
        badge loses exactly that product's units. */
    method RemoveFromCart(id: int)
      modifies this
      ensures items == Without(old(items), id)
      ensures count == Total(items) == Total(old(items)) - QuantityOf(old(items), id)
      ensures old(IdsDistinct(items)) ==> IdsDistinct(items)
    {
      var kept := [];
      for i := 0 to |items|
        invariant kept == Without(items[..i], id)
      {
        assert items[..i + 1][..i] == items[..i];
        if items[i].id != id {
          kept := kept + [items[i]];
        }
      }
      assert items[..|items|] == items;
      WithoutTotal(items, id);
      if IdsDistinct(items) {
        WithoutKeepsIdsDistinct(items, id);
      }
      items := kept;
      UpdateCartCount();
    }

    /** `clearCart`: the cart empties and the badge shows 0. */
    method ClearCart()
      modifies this
      ensures items == [] && count == 0
    {
      items := [];
      UpdateCartCount();
    }
  }

  // ---------------------------------------------------------------------------
  // Category icons and the send guards
  // ---------------------------------------------------------------------------

  /** `getCategoryIcon`: the icon of the four known category names, `tag` for any other. */
  function CategoryIcon(name: string): (icon: string)
    ensures name == "Software Personalizado" ==> icon == "code"
    ensures name == "Aceites Esenciales" ==> icon == "leaf"
    ensures name == "Figuras en Yeso" ==> icon == "palette"
    ensures name == "Suscripciones Premium" ==> icon == "crown"
    ensures name !in KnownCategories ==> icon == "tag"
  {
    if name == "Software Personalizado" then "code"
    else if name == "Aceites Esenciales" then "leaf"
    else if name == "Figuras en Yeso" then "palette"
    else if name == "Suscripciones Premium" then "crown"
    else "tag"
  }

  const KnownCategories: set<string> :=
    {"Software Personalizado", "Aceites Esenciales", "Figuras en Yeso", "Suscripciones Premium"}

  /** The newsletter form's check: the trimmed address is sent only when it is not empty and
      holds an `@`. */
  function NewsletterAddress(input: string): (r: Option<string>)
    ensures r.Some? <==> Trim(input) != "" && '@' in Trim(input)
    ensures r.Some? ==> r.value == Trim(input)
  {
    var email := Trim(input);
    if email == "" || '@' !in email then None else Some(email)
  }

  /** `performSearch`: the trimmed query is sent only when it is not empty. */
  function SearchQuery(input: string): (r: Option<string>)
    ensures r.Some? <==> Trim(input) != ""
    ensures r.Some? ==> r.value == Trim(input)
  {
    var query := Trim(input);
    if query == "" then None else Some(query)
  }

  /** Whatever the guards send has no whitespace at either end and is not blank. */
  lemma SentTextIsTrimmed(input: string)
    ensures SearchQuery(input).Some? ==> var q := SearchQuery(input).value; !IsSpace(q[0]) && !IsSpace(q[|q| - 1])
    ensures NewsletterAddress(input).Some? ==> var e := NewsletterAddress(input).value; !IsSpace(e[0]) && !IsSpace(e[|e| - 1])
  {
  }

  /** Input made only of blanks sends nothing from either form. */
  lemma BlankInputSendsNothing(input: string)
    requires forall i :: 0 <= i < |input| ==> IsSpace(input[i])
    ensures SearchQuery(input).None? && NewsletterAddress(input).None?
  {
    assert forall c :: c in Trim(input) ==> IsSpace(c);
  }
}
