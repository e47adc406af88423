/** The read-only views of myapp/views.py: the home page, the product list
    with its search and category filters, the product page with its related
    products, the cart page and the order page. Each is a function of the
    tables; query-set filters keep table order. */
module Catalog {
  import opened Seqs
  import opened Text
  import opened Tables
  import opened Carts

  datatype Result<T> = Ok(value: T) | Err(error: Error)

  /** The test of `Product.objects.filter(is_active=True)`. */
  function Active(): Product -> bool
  {
    (p: Product) => p.isActive
  }

  datatype HomePage = HomePage(featured: seq<Product>, categories: seq<Category>)

  /** `home`: the first eight active products and the first six categories. */
  function Home(products: seq<Product>, categories: seq<Category>): (r: HomePage)
    ensures r.featured <= Filter(products, Active())
    ensures |r.featured| == Min(8, |Filter(products, Active())|)
    ensures forall i :: 0 <= i < |r.featured| ==> r.featured[i].isActive && r.featured[i] in products
    ensures r.categories <= categories && |r.categories| == Min(6, |categories|)
  {
    HomePage(Take(Filter(products, Active()), 8), Take(categories, 6))
  }

  /** `if search:` and `if category_slug:` — a missing or empty query
      parameter applies no filter. */
  predicate Given(param: Option<string>)
  {
    param.Some? && param.value != []
  }

  /** The test of `Q(name__icontains=search) | Q(description__icontains=search)`. */
  function Mentions(search: string): Product -> bool
  {
    (p: Product) => ContainsIgnoringCase(p.name, search) || ContainsIgnoringCase(p.description, search)
  }

  /** The join `category__slug=slug`: some category row with the product's
      category id carries the slug. */
  predicate SlugOf(categories: seq<Category>, id: CategoryId, slug: string)
  {
    exists i :: 0 <= i < |categories| && categories[i].id == id && categories[i].slug == slug
  }

  /** The test of `filter(category__slug=slug)`. */
  function InCategory(categories: seq<Category>, slug: string): Product -> bool
  {
    (p: Product) => SlugOf(categories, p.category, slug)
  }

  /** What the product list shows a product for: it is active, it mentions
      the search text if one is given, and it belongs to the category with
      the given slug if one is given. */
  predicate Listed(p: Product, categories: seq<Category>, search: Option<string>, slug: Option<string>)
  {
    && p.isActive
    && (Given(search) ==> ContainsIgnoringCase(p.name, search.value) || ContainsIgnoringCase(p.description, search.value))
    && (Given(slug) ==> SlugOf(categories, p.category, slug.value))
  }

  /** `products.filter(Q(name__icontains=search) | Q(description__icontains=search))`
      when a search text is given; otherwise `products` itself. */
  function SearchFilter(products: seq<Product>, search: Option<string>): (r: seq<Product>)
    ensures Subsequence(r, products)
    ensures forall i :: 0 <= i < |r| ==> r[i] in products && (Given(search) ==> Mentions(search.value)(r[i]))
    ensures forall i :: 0 <= i < |products| && (Given(search) ==> Mentions(search.value)(products[i])) ==> products[i] in r
  {
    if Given(search) then Filter(products, Mentions(search.value))
    else
      SubsequenceRefl(products);
      products
  }

  /** `products.filter(category__slug=slug)` when a slug is given; otherwise
      `products` itself. */
  function CategoryFilter(products: seq<Product>, categories: seq<Category>, slug: Option<string>): (r: seq<Product>)
    ensures Subsequence(r, products)
    ensures forall i :: 0 <= i < |r| ==> r[i] in products && (Given(slug) ==> InCategory(categories, slug.value)(r[i]))
    ensures forall i :: 0 <= i < |products| && (Given(slug) ==> InCategory(categories, slug.value)(products[i])) ==> products[i] in r
  {
    if Given(slug) then Filter(products, InCategory(categories, slug.value))
    else
      SubsequenceRefl(products);
      products
  }

  /** `product_list`: the active products, narrowed by the search text and
      then by the category slug. */
  function ProductList(products: seq<Product>, categories: seq<Category>, search: Option<string>, slug: Option<string>)
    : (r: seq<Product>)
    ensures Subsequence(r, products)
    ensures forall i :: 0 <= i < |r| ==> r[i] in products && Listed(r[i], categories, search, slug)
    ensures forall i :: 0 <= i < |products| && Listed(products[i], categories, search, slug) ==> products[i] in r
  {
    ListedOnly(products, categories, search, slug);
    ListedAll(products, categories, search, slug);
    Narrowed(products, categories, search, slug)
  }

  /** The two query-set filters applied to the active products. */
  function Narrowed(products: seq<Product>, categories: seq<Category>, search: Option<string>, slug: Option<string>): seq<Product>
  {
    CategoryFilter(SearchFilter(Filter(products, Active()), search), categories, slug)
  }

  /** Only listed products are shown, in table order. */
  lemma ListedOnly(products: seq<Product>, categories: seq<Category>, search: Option<string>, slug: Option<string>)
    ensures var shown := Narrowed(products, categories, search, slug);
      && Subsequence(shown, products)
      && forall i :: 0 <= i < |shown| ==> shown[i] in products && Listed(shown[i], categories, search, slug)
  {
    var active := Filter(products, Active());
    var found := SearchFilter(active, search);
    var shown := CategoryFilter(found, categories, slug);
    SubsequenceTrans(found, active, products);
    SubsequenceTrans(shown, found, products);
    forall i | 0 <= i < |shown| ensures shown[i] in products && Listed(shown[i], categories, search, slug) {
      var l :| 0 <= l < |found| && found[l] == shown[i];
      var j :| 0 <= j < |active| && active[j] == found[l];
    }
  }

  /** Every listed product is shown. */
  lemma ListedAll(products: seq<Product>, categories: seq<Category>, search: Option<string>, slug: Option<string>)
    ensures var shown := Narrowed(products, categories, search, slug);
      forall i :: 0 <= i < |products| && Listed(products[i], categories, search, slug) ==> products[i] in shown
  {
    var active := Filter(products, Active());
    var found := SearchFilter(active, search);
    var shown := CategoryFilter(found, categories, slug);
    forall i | 0 <= i < |products| && Listed(products[i], categories, search, slug) ensures products[i] in shown {
      var j :| 0 <= j < |active| && active[j] == products[i];
      var l :| 0 <= l < |found| && found[l] == products[i];
    }
  }

  /** Lower-casing twice is lower-casing once. */
  lemma LowerIdempotent(s: string)
    ensures Lower(Lower(s)) == Lower(s)
  {
  }

  /** The search is case-insensitive: searching for the lower-cased text
      shows the same products. */
  lemma SearchIgnoresCase(products: seq<Product>, categories: seq<Category>, search: string, slug: Option<string>)
    ensures ProductList(products, categories, Some(Lower(search)), slug) == ProductList(products, categories, Some(search), slug)
  {
    LowerIdempotent(search);
    assert |Lower(search)| == |search|;
    if search != [] {
      FilterSame(Filter(products, Active()), Mentions(Lower(search)), Mentions(search));
    }
  }

  /** A search only ever narrows the list. */
  lemma SearchNarrows(products: seq<Product>, categories: seq<Category>, search: Option<string>, slug: Option<string>)
    ensures Subsequence(ProductList(products, categories, search, slug), ProductList(products, categories, None, slug))
  {
    var active := Filter(products, Active());
    if Given(search) && Given(slug) {
      FilterBeforeFilter(active, Mentions(search.value), InCategory(categories, slug.value));
    } else if Given(search) {
      assert ProductList(products, categories, search, slug) == Filter(active, Mentions(search.value));
    } else {
      SubsequenceRefl(ProductList(products, categories, None, slug));
    }
  }

  /** The test of `Product.objects.filter(slug=slug)`. */
  function HasSlug(slug: string): Product -> bool
  {
    (p: Product) => p.slug == slug
  }

  /** The test of `filter(category=product.category).exclude(id=product.id)`. */
  function SiblingOf(p: Product): Product -> bool
  {
    (q: Product) => q.category == p.category && q.id != p.id
  }

  /** Up to four other products of `p`'s category, in table order. Being
      inactive does not keep a product out. */
  function RelatedProducts(products: seq<Product>, p: Product): (r: seq<Product>)
    ensures r <= Filter(products, SiblingOf(p))
    ensures |r| == Min(4, |Filter(products, SiblingOf(p))|)
    ensures forall i :: 0 <= i < |r| ==> r[i] in products && r[i].category == p.category && r[i].id != p.id
  {
    Take(Filter(products, SiblingOf(p)), 4)
  }

  /** The related products are not filtered by `is_active`: an inactive
      product of the same category is shown. */
  lemma RelatedShowsInactive()
    ensures
      var shown := Product(1, 7, 3, "Case A", "case-a", "", 5000, 10, "", true);
      var hidden := Product(2, 7, 3, "Case B", "case-b", "", 4000, 10, "", false);
      RelatedProducts([shown, hidden], shown) == [hidden]
  {
    var shown := Product(1, 7, 3, "Case A", "case-a", "", 5000, 10, "", true);
    var hidden := Product(2, 7, 3, "Case B", "case-b", "", 4000, 10, "", false);
    assert Filter([shown, hidden], SiblingOf(shown)) == [hidden] by {
      assert [shown, hidden][1..] == [hidden];
      assert Filter([hidden][1..], SiblingOf(shown)) == [];
    }
  }

  datatype DetailPage = DetailPage(product: Product, related: seq<Product>)

  /** `product_detail`: `get_object_or_404(Product, slug=slug)` — not
      restricted to active products — and its related products. No match
      is a 404; two matches make `get` raise. */
  function ProductDetail(products: seq<Product>, slug: string): (r: Result<DetailPage>)
    ensures r.Ok? <==> |Filter(products, HasSlug(slug))| == 1
    ensures r == Err(NotFound) <==> forall i :: 0 <= i < |products| ==> products[i].slug != slug
    ensures r.Ok? ==> (r.value.product in products && r.value.product.slug == slug
                       && r.value.related == RelatedProducts(products, r.value.product))
  {
    var matches := Filter(products, HasSlug(slug));
    if |matches| == 0 then
      Err(NotFound)
    else if |matches| > 1 then
      assert matches[0] in products && matches[0].slug == slug;
      Err(MultipleFound)
    else
      Ok(DetailPage(matches[0], RelatedProducts(products, matches[0])))
  }

  datatype CartPage = CartPage(entries: seq<CartEntry>, total: int)

  /** `cart_view`: the caller's cart rows and the sum of their totals. */
  function CartView(cart: seq<CartEntry>, products: seq<Product>, user: UserId): (r: CartPage)
    requires Resolves(cart, products)
    ensures Resolves(r.entries, products)
    ensures Subsequence(r.entries, cart)
    ensures forall i :: 0 <= i < |r.entries| ==> r.entries[i].user == user && r.entries[i] in cart
    ensures forall i :: 0 <= i < |cart| && cart[i].user == user ==> cart[i] in r.entries
    ensures r.total == CartTotal(r.entries, products)
  {
    var entries := UserCart(cart, user);
    assert Resolves(entries, products) by {
      forall i | 0 <= i < |entries| ensures FindProduct(products, entries[i].product).Some? {
        var j :| 0 <= j < |cart| && cart[j] == entries[i];
      }
    }
    CartPage(entries, CartTotal(entries, products))
  }

  /** Appending a row changes the caller's cart total by that row's total
      if it is the caller's, and not at all otherwise. */
  lemma {:induction false} UserTotalAppend(cart: seq<CartEntry>, products: seq<Product>, user: UserId, e: CartEntry)
    requires Resolves(cart, products) && FindProduct(products, e.product).Some?
    ensures Resolves(cart + [e], products)
    ensures Resolves(UserCart(cart, user), products) && Resolves(UserCart(cart + [e], user), products)
    ensures CartTotal(UserCart(cart + [e], user), products)
         == CartTotal(UserCart(cart, user), products) + (if e.user == user then LineTotal(e, products) else 0)
  {
    UserCartResolves(cart, products, user);
    assert Resolves(cart + [e], products) by {
      assert forall i :: 0 <= i < |cart| ==> (cart + [e])[i] == cart[i];
    }
    UserCartResolves(cart + [e], products, user);
    if cart == [] {
      assert [] + [e] == [e] && [e][1..] == [];
    } else {
      assert (cart + [e])[1..] == cart[1..] + [e];
      UserTotalAppend(cart[1..], products, user, e);
    }
  }

  /** Rewriting row `k` with the same user and product changes the caller's
      cart total by the difference of the two rows' totals, if it is the
      caller's row. */
  lemma {:induction false} UserTotalUpdate(cart: seq<CartEntry>, products: seq<Product>, user: UserId, k: nat, x: CartEntry)
    requires Resolves(cart, products) && k < |cart|
    requires x.user == cart[k].user && x.product == cart[k].product
    ensures Resolves(cart[k := x], products)
    ensures Resolves(UserCart(cart, user), products) && Resolves(UserCart(cart[k := x], user), products)
    ensures CartTotal(UserCart(cart[k := x], user), products)
         == CartTotal(UserCart(cart, user), products)
            + (if x.user == user then LineTotal(x, products) - LineTotal(cart[k], products) else 0)
  {
    UserCartResolves(cart, products, user);
    assert Resolves(cart[k := x], products) by {
      assert forall i :: 0 <= i < |cart| ==> cart[k := x][i].product == cart[i].product;
    }
    UserCartResolves(cart[k := x], products, user);
    if k == 0 {
      assert cart[k := x][1..] == cart[1..];
    } else {
      assert cart[k := x][1..] == cart[1..][k - 1 := x];
      UserTotalUpdate(cart[1..], products, user, k - 1, x);
    }
  }

  lemma MulSucc(a: int, b: int)
    ensures a * (b + 1) == a * b + a
  {
  }

  /** `add_to_cart`'s effect on one user's cart total. */
  lemma AddedUserTotal(cart: seq<CartEntry>, products: seq<Product>, next: nat, user: UserId, product: ProductId, u: UserId)
    requires Resolves(cart, products) && FindProduct(products, product).Some?
    ensures Resolves(AddedCart(cart, user, product, next), products)
    ensures Resolves(UserCart(cart, u), products) && Resolves(UserCart(AddedCart(cart, user, product, next), u), products)
    ensures CartTotal(UserCart(AddedCart(cart, user, product, next), u), products)
         == CartTotal(UserCart(cart, u), products) + (if u == user then FindProduct(products, product).value.price else 0)
  {
    var k := PairIndex(cart, user, product);
    var price := FindProduct(products, product).value.price;
    if k < 0 {
      var e := CartEntry(next, user, product, 1);
      assert LineTotal(e, products) == price;
      UserTotalAppend(cart, products, u, e);
      assert AddedCart(cart, user, product, next) == cart + [e];
    } else {
      var q := cart[k].quantity;
      var x := Bumped(cart[k]);
      assert x.product == product && x.quantity == q + 1;
      MulSucc(price, q);
      assert LineTotal(x, products) == LineTotal(cart[k], products) + price;
      UserTotalUpdate(cart, products, u, k, x);
      assert AddedCart(cart, user, product, next) == cart[k := x];
    }
  }

  /** After `add_to_cart` the cart page's total has grown by exactly the
      product's price, and no other user's cart total has changed. */
  lemma CartViewAfterAdd(cart: seq<CartEntry>, products: seq<Product>, next: nat, user: UserId, product: ProductId, other: UserId)
    requires Resolves(cart, products) && FindProduct(products, product).Some?
    ensures Resolves(AddedCart(cart, user, product, next), products)
    ensures CartView(AddedCart(cart, user, product, next), products, user).total
         == CartView(cart, products, user).total + FindProduct(products, product).value.price
    ensures other != user ==>
      CartView(AddedCart(cart, user, product, next), products, other).total == CartView(cart, products, other).total
  {
    AddedUserTotal(cart, products, next, user, product, user);
    AddedUserTotal(cart, products, next, user, product, other);
  }

  /** `order_detail`: the order with key `id` if the caller placed it;
      someone else's order is a 404 like a missing one. */
  function OrderDetail(orders: seq<Order>, user: UserId, id: OrderId): (r: Result<Order>)
    ensures r.Ok? ==> r.value in orders && r.value.id == id && r.value.user == user
    ensures r.Err? ==> r.error == NotFound && forall i :: 0 <= i < |orders| ==> orders[i].id != id || orders[i].user != user
  {
    if orders == [] then Err(NotFound)
    else if orders[0].id == id && orders[0].user == user then Ok(orders[0])
    else OrderDetail(orders[1..], user, id)
  }

  /** With unique order keys, nobody but the buyer can open an order. */
  lemma OrderDetailOwnerOnly(orders: seq<Order>, k: nat, user: UserId)
    requires k < |orders| && DistinctBy(orders, OrderRowId)
    ensures OrderDetail(orders, orders[k].user, orders[k].id).Ok?
    ensures user != orders[k].user ==> OrderDetail(orders, user, orders[k].id) == Err(NotFound)
  {
    var r := OrderDetail(orders, user, orders[k].id);
    if r.Ok? {
      var j :| 0 <= j < |orders| && orders[j] == r.value;
      assert j == k || OrderRowId(orders[j]) != OrderRowId(orders[k]);
    }
  }
}
